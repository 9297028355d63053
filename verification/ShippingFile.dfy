/** The shipper as the node runs it: a mutable state object, the file it is written to, and the
    shipper that works on that file. Every method is proved against its transaction in Shipping
    or Collect. */
module ShippingFile {
  import opened Base
  import opened Sorting
  import opened Text
  import opened ProviderEvents
  import opened Shipping
  import opened Collect

  lemma TargetsOkPrefix(bindings: seq<Binding>, n: nat)
    requires n <= |bindings| && !TargetsOk(bindings[..n])
    ensures !TargetsOk(bindings)
  {
  }

  /** One more target is fine exactly when it is admitted and neither its execution nor its run
      identity was seen before. */
  lemma TargetsOkExtend(bindings: seq<Binding>, b: Binding)
    requires TargetsOk(bindings)
    ensures TargetsOk(bindings + [b]) <==>
            && b.admitted
            && b.executionId !in (set x | x in bindings :: x.executionId)
            && Key(b) !in Keys(bindings)
  {
    var longer := bindings + [b];
    if TargetsOk(longer) {
      assert longer[|bindings|] == b;
      forall x | x in bindings
        ensures x.executionId != b.executionId && Key(x) != Key(b)
      {
        var i :| 0 <= i < |bindings| && bindings[i] == x;
        assert longer[i] == x;
      }
    }
    if b.admitted && b.executionId !in (set x | x in bindings :: x.executionId) && Key(b) !in Keys(bindings) {
      forall i, j | 0 <= i < j < |longer|
        ensures longer[i].executionId != longer[j].executionId && Key(longer[i]) != Key(longer[j])
      {
        assert longer[i] == bindings[i] && bindings[i] in bindings;
        if j < |bindings| {
          assert longer[j] == bindings[j];
        }
      }
    }
  }

  /** The first target that fails decides how the list is refused. */
  lemma {:induction false} FirstFailureDecides(bindings: seq<Binding>, n: nat)
    requires n < |bindings| && TargetsOk(bindings[..n]) && !TargetsOk(bindings[..n + 1])
    ensures !TargetsOk(bindings)
    ensures TargetsError(bindings) == if !bindings[n].admitted then Harness else Invalid
    decreases |bindings|
  {
    TargetsOkPrefix(bindings, n + 1);
    var front := bindings[..|bindings| - 1];
    if n < |front| {
      assert front[..n] == bindings[..n] && front[..n + 1] == bindings[..n + 1];
      FirstFailureDecides(front, n);
    }
  }

  /** validate_bindings. */
  method ValidateBindings(bindings: seq<Binding>) returns (r: Result<(), ShipError>)
    ensures r == if TargetsOk(bindings) then Ok(()) else Err(TargetsError(bindings))
  {
    var executions: set<Uuid> := {};
    var identities: set<string> := {};
    for n := 0 to |bindings|
      invariant TargetsOk(bindings[..n])
      invariant executions == set x | x in bindings[..n] :: x.executionId
      invariant identities == Keys(bindings[..n])
    {
      var b := bindings[n];
      TakeOneMore(bindings, n);
      TargetsOkExtend(bindings[..n], b);
      if !b.admitted || b.executionId in executions || Key(b) in identities {
        FirstFailureDecides(bindings, n);
        return Err(if !b.admitted then Harness else Invalid);
      }
      executions := executions + {b.executionId};
      KeysExtend(bindings[..n], b);
      identities := identities + {Key(b)};
    }
    assert bindings[..|bindings|] == bindings;
    return Ok(());
  }

  lemma KeysExtend(bindings: seq<Binding>, b: Binding)
    ensures Keys(bindings + [b]) == Keys(bindings) + {Key(b)}
  {
    var longer := bindings + [b];
    assert longer[|bindings|] == b;
    forall k | k in Keys(bindings)
      ensures k in Keys(longer)
    {
      var i :| 0 <= i < |bindings| && Key(bindings[i]) == k;
      assert longer[i] == bindings[i];
    }
  }

  predicate IndexesBindings(active: map<string, Binding>, bindings: seq<Binding>) {
    && active.Keys == Keys(bindings)
    && forall i :: 0 <= i < |bindings| ==> Key(bindings[i]) in active && active[Key(bindings[i])] == bindings[i]
  }

  lemma IndexesOneMore(active: map<string, Binding>, bs: seq<Binding>, b: Binding)
    requires IndexesBindings(active, bs) && Key(b) !in active
    ensures IndexesBindings(active[Key(b) := b], bs + [b])
  {
    KeysExtend(bs, b);
    assert forall i :: 0 <= i < |bs| ==> Key(bs[i]) in active && Key(bs[i]) != Key(b);
  }

  /** The first pass over the bindings to retain: each is admitted and none repeats an execution
      or a key. */
  method IndexBindings(bindings: seq<Binding>) returns (r: Result<map<string, Binding>, ShipError>)
    ensures r.Ok? <==> TargetsOk(bindings)
    ensures r.Ok? ==> IndexesBindings(r.value, bindings)
    ensures r.Err? ==> r.error == TargetsError(bindings)
  {
    var active: map<string, Binding> := map[];
    var executions: set<Uuid> := {};
    for n := 0 to |bindings|
      invariant TargetsOk(bindings[..n])
      invariant executions == set x | x in bindings[..n] :: x.executionId
      invariant IndexesBindings(active, bindings[..n])
    {
      var b := bindings[n];
      TakeOneMore(bindings, n);
      TargetsOkExtend(bindings[..n], b);
      if !b.admitted || b.executionId in executions || Key(b) in active {
        FirstFailureDecides(bindings, n);
        return Err(if !b.admitted then Harness else Invalid);
      }
      IndexesOneMore(active, bindings[..n], b);
      executions := executions + {b.executionId};
      active := active[Key(b) := b];
    }
    assert bindings[..|bindings|] == bindings;
    return Ok(active);
  }

  class ShippingState {
    var nodeId: Uuid
    var cursors: map<string, Cursor>
    var pending: Option<Batch>

    function View(): (s: State)
      reads this
    {
      State(nodeId, cursors, pending)
    }

    constructor (s: State)
      ensures View() == s
    {
      nodeId, cursors, pending := s.nodeId, s.cursors, s.pending;
    }

    method Validate(expected: Uuid) returns (r: Result<(), ShipError>)
      ensures r == if Valid(View(), expected) then Ok(()) else Err(Invalid)
    {
      if nodeId == NIL || nodeId != expected {
        return Err(Invalid);
      }
      var todo := cursors.Keys;
      while todo != {}
        invariant todo <= cursors.Keys
        invariant forall k :: k in cursors && k !in todo ==> CursorValid(k, cursors[k])
      {
        var k :| k in todo;
        var c := cursors[k];
        if !c.binding.admitted || Key(c.binding) != k || c.observedAt == 0
          || (c.drained && !IsTerminal(c.state) && !c.recoveryRequired)
          || (c.recoveryRequired && !c.drained)
        {
          return Err(Invalid);
        }
        todo := todo - {k};
      }
      if pending.Some? {
        var b := pending.value;
        if !BatchValid(b) || b.nodeId != nodeId {
          return Err(Invalid);
        }
        if Key(b.binding) in cursors {
          var c := cursors[Key(b.binding)];
          if c.binding != b.binding || c.drained || c.after != b.page.after || c.observedAt > b.page.observedAt {
            return Err(Invalid);
          }
        } else if b.page.after.Some? {
          return Err(Invalid);
        }
      }
      return Ok(());
    }

    method RetainBindings(bindings: seq<Binding>) returns (r: Result<(), ShipError>)
      modifies this`cursors
      ensures Retain(old(View()), bindings).Err? ==>
                r == Err(Retain(old(View()), bindings).error) && View() == old(View())
      ensures Retain(old(View()), bindings).Ok? ==>
                r == Ok(()) && View() == Retain(old(View()), bindings).value
    {
      var indexed := IndexBindings(bindings);
      if indexed.Err? {
        return Err(indexed.error);
      }
      var active := indexed.value;
      var todo := active.Keys;
      while todo != {}
        invariant cursors == old(cursors)
        invariant todo <= active.Keys
        invariant forall k :: k in active && k !in todo && k in cursors ==> cursors[k].binding == active[k]
      {
        var k :| k in todo;
        if k in cursors && cursors[k].binding != active[k] {
          var i :| 0 <= i < |bindings| && Key(bindings[i]) == k;
          assert !SameBindings(cursors, bindings);
          return Err(Conflict);
        }
        todo := todo - {k};
      }
      cursors := map k | k in cursors && k in active :: cursors[k];
      return Ok(());
    }

    /** DurableOutboundBatch::stage. */
    method StagePending(batch: Batch) returns (r: Result<(), ShipError>)
      modifies this`pending
      ensures r == if !BatchValid(batch) then Err(Invalid)
                   else if old(pending).Some? then Err(Conflict)
                   else Ok(())
      ensures View() == if r.Ok? then old(View()).(pending := Some(batch)) else old(View())
    {
      if !BatchValid(batch) {
        return Err(Invalid);
      }
      if pending.Some? {
        return Err(Conflict);
      }
      pending := Some(batch);
      return Ok(());
    }

    /** DurableOutboundBatch::acknowledge. */
    method Acknowledge(receipt: Receipt) returns (r: Result<Batch, ShipError>)
      modifies this`pending
      ensures r == if old(pending).None? then Err(Conflict)
                   else if !ReceiptMatches(receipt, old(pending).value) then Err(Invalid)
                   else Ok(old(pending).value)
      ensures View() == if r.Ok? then old(View()).(pending := None) else old(View())
    {
      if pending.None? {
        return Err(Conflict);
      }
      if !ReceiptMatches(receipt, pending.value) {
        return Err(Invalid);
      }
      r := Ok(pending.value);
      pending := None;
    }

    method AdvanceCursor(b: Batch)
      modifies this`cursors
      ensures View() == old(View()).(cursors := old(cursors)[Key(b.binding) := CursorAfter(b.binding, b.page)])
    {
      var drained := b.page.retentionGap || (IsTerminal(b.page.state) && !b.page.hasMore);
      cursors := cursors[Key(b.binding) :=
        Cursor(b.binding, b.page.next, b.page.state, b.page.observedAt, drained, b.page.retentionGap)];
    }
  }

  /** The state file of one node; every method is one transaction under its lock. */
  class StateFile {
    const node: Uuid
    var file: Option<State>

    constructor (node: Uuid)
      requires node != NIL
      ensures this.node == node && file.None?
      ensures FileOk(file, node)
    {
      this.node := node;
      file := None;
      EmptyIsValid(node);
    }

    method ReadState() returns (r: Result<ShippingState, ShipError>)
      ensures r.Ok? <==> Valid(Contents(file, node), node)
      ensures r.Err? ==> r.error == Invalid
      ensures r.Ok? ==> fresh(r.value) && r.value.View() == Contents(file, node)
    {
      var state := new ShippingState(if file.Some? then file.value else Empty(node));
      var ok := state.Validate(node);
      if ok.Err? {
        return Err(Invalid);
      }
      return Ok(state);
    }

    method SnapshotSync(bindings: seq<Binding>) returns (r: Result<State, ShipError>)
      modifies this`file
      ensures file == Snapshot(old(file), node, bindings).file
      ensures r == Snapshot(old(file), node, bindings).outcome
    {
      var read := ReadState();
      if read.Err? {
        return Err(read.error);
      }
      var state := read.value;
      if state.pending.None? {
        var original := state.cursors;
        var kept := state.RetainBindings(bindings);
        if kept.Err? {
          return Err(kept.error);
        }
        if state.cursors != original {
          var ok := state.Validate(node);
          if ok.Err? {
            return Err(ok.error);
          }
          file := Some(state.View());
        }
      }
      return Ok(state.View());
    }

    method SetPendingSync(batch: Batch) returns (r: Result<(), ShipError>)
      modifies this`file
      ensures file == SetPending(old(file), node, batch).file
      ensures r == SetPending(old(file), node, batch).outcome
    {
      if !BatchValid(batch) || batch.nodeId != node {
        return Err(Invalid);
      }
      var read := ReadState();
      if read.Err? {
        return Err(read.error);
      }
      var state := read.value;
      var staged := state.StagePending(batch);
      if staged.Err? {
        return staged;
      }
      var ok := state.Validate(node);
      if ok.Err? {
        return ok;
      }
      file := Some(state.View());
      return Ok(());
    }

    method CommitSync(receipt: Receipt) returns (r: Result<(), ShipError>)
      modifies this`file
      ensures file == Commit(old(file), node, receipt).file
      ensures r == Commit(old(file), node, receipt).outcome
    {
      var read := ReadState();
      if read.Err? {
        return Err(read.error);
      }
      var state := read.value;
      var taken := state.Acknowledge(receipt);
      if taken.Err? {
        return Err(taken.error);
      }
      var b := taken.value;
      if Key(b.binding) in state.cursors && state.cursors[Key(b.binding)].binding != b.binding {
        return Err(Conflict);
      }
      state.AdvanceCursor(b);
      var ok := state.Validate(node);
      if ok.Err? {
        return ok;
      }
      file := Some(state.View());
      return Ok(());
    }
  }

  /** One shipper over a state file; replies, clock and control plane come with each call. */
  class EventShipper {
    const store: StateFile

    constructor (store: StateFile)
      ensures this.store == store
    {
      this.store := store;
    }

    method CollectPage(call: Call, snapshot: State) returns (r: Result<Option<Batch>, ShipError>)
      ensures r == CollectBatch(store.node, call.bindings, snapshot, call.replies, call.batchId, call.now)
    {
      var candidates: seq<Candidate> := [];
      for n := 0 to |call.bindings|
        invariant candidates == Candidates(snapshot.cursors, call.bindings[..n])
        invariant SameBindings(snapshot.cursors, call.bindings[..n])
      {
        var b := call.bindings[n];
        if Key(b) in snapshot.cursors && snapshot.cursors[Key(b)].binding != b {
          return Err(Conflict);
        }
        TakeOneMore(call.bindings, n);
        candidates := candidates + [CandidateOf(snapshot.cursors, b)];
      }
      assert call.bindings[..|call.bindings|] == call.bindings;
      candidates := Sort(candidates, Before);
      for n := 0 to |candidates|
        invariant Scan(candidates, call.replies) == Scan(candidates[n..], call.replies)
      {
        var c := candidates[n];
        assert candidates[n..][1..] == candidates[n + 1..];
        if c.cursor.Some? && c.cursor.value.drained {
          continue;
        }
        var reply := ReplyOf(call.replies, c.binding);
        if reply.Unavailable? {
          continue;
        }
        if reply.Refused? || !Answers(reply.page, c) {
          return Err(Harness);
        }
        var page := reply.page;
        if page.events == [] && !Changed(page, c.cursor) {
          continue;
        }
        var batch := Batch(call.batchId, store.node, c.binding, page, Max(call.now, page.observedAt));
        if !BatchValid(batch) {
          return Err(Invalid);
        }
        return Ok(Some(batch));
      }
      return Ok(None);
    }

    method UploadBatch(batch: Batch, upload: Upload) returns (r: Result<bool, ShipError>, uploaded: Option<Batch>)
      modifies store`file
      ensures Shipment(store.file, r, uploaded) == Settle(old(store.file), store.node, batch, upload)
    {
      match upload
      case Rejected => return Err(ControlPlane), None;
      case RecordedUnanswered => return Err(ControlPlane), Some(batch);
      case Recorded(acceptedAt, replayed) =>
        var done := store.CommitSync(ReceiptFor(batch, acceptedAt, replayed));
        if done.Err? {
          return Err(done.error), Some(batch);
        }
        return Ok(true), Some(batch);
    }

    method ShipNext(call: Call) returns (r: Result<bool, ShipError>, uploaded: Option<Batch>)
      modifies store`file
      ensures Shipment(store.file, r, uploaded) == ShipOnce(old(store.file), store.node, call)
    {
      var ok := ValidateBindings(call.bindings);
      if ok.Err? {
        return Err(ok.error), None;
      }
      var snap := store.SnapshotSync(call.bindings);
      if snap.Err? {
        return Err(snap.error), None;
      }
      if snap.value.pending.Some? {
        r, uploaded := UploadBatch(snap.value.pending.value, call.upload);
        return;
      }
      var collected := CollectPage(call, snap.value);
      if collected.Err? {
        return Err(collected.error), None;
      }
      if collected.value.None? {
        return Ok(false), None;
      }
      var staged := store.SetPendingSync(collected.value.value);
      if staged.Err? {
        return Err(staged.error), None;
      }
      r, uploaded := UploadBatch(collected.value.value, call.upload);
    }
  }
}
