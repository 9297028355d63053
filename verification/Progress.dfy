/** A call by one shipper: it is a run of the protocol, and no reachable file makes it wedge. */
module Progress {
  import opened Base
  import opened ProviderEvents
  import opened Shipping
  import opened Collect
  import opened Protocol

  // ---------------------------------------------------------------------------------------
  // A call is five protocol steps

  function CallSteps(i: nat, call: Call): (r: seq<Step>) {
    [Snap(i, call.bindings), Choose(i, call.replies, call.batchId, call.now), Stage(i),
     Send(i, call.upload), Acknowledge(i)]
  }

  lemma FiveSteps(node: Uuid, w: World, a: Step, b: Step, c: Step, d: Step, e: Step)
    ensures Exec(node, w, [a, b, c, d, e]) ==
            Apply(node, Apply(node, Apply(node, Apply(node, Apply(node, w, a), b), c), d), e)
  {
    assert [a, b, c, d, e][..4] == [a, b, c, d] && [a, b, c, d][..3] == [a, b, c];
    assert [a, b, c][..2] == [a, b] && [a, b][..1] == [a] && [a][..0] == [];
    assert Exec(node, w, [a]) == Apply(node, w, a);
    assert Exec(node, w, [a, b]) == Apply(node, Exec(node, w, [a]), b);
    assert Exec(node, w, [a, b, c]) == Apply(node, Exec(node, w, [a, b]), c);
    assert Exec(node, w, [a, b, c, d]) == Apply(node, Exec(node, w, [a, b, c]), d);
  }

  /** From the upload on, the two remaining steps do what `upload` does. */
  lemma UploadSettles(node: Uuid, w: World, i: nat, batch: Batch, upload: Upload)
    requires PhaseOf(w, i) == Uploading(batch)
    ensures Leaves(node, w, i, Settle(w.file, node, batch, upload),
                   Apply(node, Apply(node, w, Send(i, upload)), Acknowledge(i)))
  {
  }

  /** The shipper is idle again, the file is the call's and the log has grown by what it uploaded. */
  predicate Leaves(node: Uuid, w: World, i: nat, r: Shipment, w': World) {
    && w'.file == r.file
    && PhaseOf(w', i).Idle?
    && w'.log == if r.uploaded.Some? then w.log + [r.uploaded.value] else w.log
  }

  /** Once a call has given up, its remaining steps change nothing. */
  lemma IdleSteps(node: Uuid, w: World, i: nat, upload: Upload)
    requires PhaseOf(w, i).Idle?
    ensures Apply(node, Apply(node, Apply(node, w, Stage(i)), Send(i, upload)), Acknowledge(i)) == w
  {
  }

  /** From the snapshot on. */
  lemma CollectingCall(node: Uuid, w: World, i: nat, s: State, call: Call)
    requires PhaseOf(w, i) == Collecting(call.bindings, s) && call.batchId !in w.used
    ensures
      var w2 := Apply(node, w, Choose(i, call.replies, call.batchId, call.now));
      var w3 := Apply(node, w2, Stage(i));
      var w5 := Apply(node, Apply(node, w3, Send(i, call.upload)), Acknowledge(i));
      var r := match CollectBatch(node, call.bindings, s, call.replies, call.batchId, call.now)
               case Err(e) => Shipment(w.file, Err(e), None)
               case Ok(None) => Shipment(w.file, Ok(false), None)
               case Ok(Some(batch)) =>
                 var staged := SetPending(w.file, node, batch);
                 match staged.outcome
                 case Err(e) => Shipment(staged.file, Err(e), None)
                 case Ok(_) => Settle(staged.file, node, batch, call.upload);
      Leaves(node, w, i, r, w5)
  {
    var w2 := Apply(node, w, Choose(i, call.replies, call.batchId, call.now));
    var w3 := Apply(node, w2, Stage(i));
    if PhaseOf(w2, i).Idle? {
      IdleSteps(node, w2, i, call.upload);
    } else if PhaseOf(w3, i).Uploading? {
      UploadSettles(node, w3, i, PhaseOf(w3, i).batch, call.upload);
    }
  }

  /** ship_once, run without interference, is one run of the protocol's steps: it leaves the
      same file and records the same batch. */
  lemma CallIsAProtocolRun(node: Uuid, w: World, i: nat, call: Call)
    requires PhaseOf(w, i).Idle? && call.batchId !in w.used
    ensures Leaves(node, w, i, ShipOnce(w.file, node, call), Exec(node, w, CallSteps(i, call)))
  {
    FiveSteps(node, w, Snap(i, call.bindings), Choose(i, call.replies, call.batchId, call.now), Stage(i),
              Send(i, call.upload), Acknowledge(i));
    var w1 := Apply(node, w, Snap(i, call.bindings));
    match PhaseOf(w1, i)
    case Uploading(batch) => UploadSettles(node, w1, i, batch, call.upload);
    case Collecting(_, s) => CollectingCall(node, w1, i, s, call);
    case _ => IdleSteps(node, w1, i, call.upload);
  }

  lemma ExecOneMore(node: Uuid, w: World, steps: seq<Step>, step: Step)
    ensures Exec(node, w, steps + [step]) == Apply(node, Exec(node, w, steps), step)
  {
    assert (steps + [step])[..|steps|] == steps;
  }

  lemma {:induction false} ExecJoin(node: Uuid, w: World, steps: seq<Step>, more: seq<Step>)
    ensures Exec(node, Exec(node, w, steps), more) == Exec(node, w, steps + more)
  {
    if more == [] {
      assert steps + more == steps;
    } else {
      var front, last := more[..|more| - 1], more[|more| - 1];
      ExecJoin(node, w, steps, front);
      ExecOneMore(node, Exec(node, w, steps), front, last);
      ExecOneMore(node, w, steps + front, last);
      assert more == front + [last] && steps + more == (steps + front) + [last];
    }
  }

  /** So a call made in a reachable world, whatever other shippers left unfinished there, leads to a
      reachable world with the call's own file and log. */
  lemma CallsStayReachable(node: Uuid, steps: seq<Step>, i: nat, call: Call)
    requires
      var w := Exec(node, INITIAL, steps);
      PhaseOf(w, i).Idle? && call.batchId !in w.used
    ensures
      var w := Exec(node, INITIAL, steps);
      Leaves(node, w, i, ShipOnce(w.file, node, call), Exec(node, INITIAL, steps + CallSteps(i, call)))
  {
    CallIsAProtocolRun(node, Exec(node, INITIAL, steps), i, call);
    ExecJoin(node, INITIAL, steps, CallSteps(i, call));
  }

  // ---------------------------------------------------------------------------------------
  // The shipper never wedges

  lemma RetainedCandidate(cursors: map<string, Cursor>, bindings: seq<Binding>, b: Binding)
    requires b in bindings
    ensures CandidateOf(Retained(cursors, bindings), b) == CandidateOf(cursors, b)
  {
    assert Key(b) in Keys(bindings);
  }

  lemma SnapshotForCollect(file: Option<State>, node: Uuid, bindings: seq<Binding>)
    requires FileOk(file, node) && Contents(file, node).pending.None?
    requires Snapshot(file, node, bindings).outcome.Ok?
    ensures
      var t := Snapshot(file, node, bindings);
      && FileOk(t.file, node) && Contents(t.file, node) == t.outcome.value
      && t.outcome.value.pending.None?
      && t.outcome.value.cursors == Retained(Contents(file, node).cursors, bindings)
      && forall b :: b in bindings && Key(b) in t.outcome.value.cursors ==> t.outcome.value.cursors[Key(b)].binding == b
  {
  }

  lemma AnswerContinuesIff(cursors: map<string, Cursor>, b: Batch)
    requires Answers(b.page, CandidateOf(cursors, b.binding))
    requires Key(b.binding) in cursors ==> cursors[Key(b.binding)].binding == b.binding && !cursors[Key(b.binding)].drained
    ensures Continues(cursors, b) <==> ObservedAt(CandidateOf(cursors, b.binding)) <= b.page.observedAt
  {
  }

  /** A batch collected from the file's own cursors stages exactly when its provider's clock did
      not run backwards past the stored observation. */
  lemma CollectedBatchStagesIff(file: Option<State>, node: Uuid, call: Call)
    requires FileOk(file, node) && Contents(file, node).pending.None?
    requires Snapshot(file, node, call.bindings).outcome.Ok?
    requires
      var s := Snapshot(file, node, call.bindings).outcome.value;
      var r := CollectBatch(node, call.bindings, s, call.replies, call.batchId, call.now);
      r.Ok? && r.value.Some?
    ensures
      var snap := Snapshot(file, node, call.bindings);
      var b := CollectBatch(node, call.bindings, snap.outcome.value, call.replies, call.batchId, call.now).value.value;
      SetPending(snap.file, node, b).outcome.Ok? <==>
      ObservedAt(CandidateOf(Contents(file, node).cursors, b.binding)) <= b.page.observedAt
  {
    var snap := Snapshot(file, node, call.bindings);
    var s := snap.outcome.value;
    SnapshotForCollect(file, node, call.bindings);
    CollectedBatch(node, call.bindings, s, call.replies, call.batchId, call.now);
    var b := CollectBatch(node, call.bindings, s, call.replies, call.batchId, call.now).value.value;
    RetainedCandidate(Contents(file, node).cursors, call.bindings, b.binding);
    AnswerContinuesIff(s.cursors, b);
    StageIsCompareAndSet(snap.file, node, b);
  }

  /** A reply that is usable: the unit is unavailable, or the page answers the stored cursor and
      its provider's clock did not run backwards. */
  predicate Usable(c: Candidate, reply: Reply) {
    || (c.cursor.Some? && c.cursor.value.drained)
    || reply.Unavailable?
    || (reply.Replied? && Answers(reply.page, c) && ObservedAt(c) <= reply.page.observedAt)
  }

  predicate UsableReplies(cursors: map<string, Cursor>, call: Call) {
    forall b :: b in call.bindings ==> Usable(CandidateOf(cursors, b), ReplyOf(call.replies, b))
  }

  /** The control plane answers, at a time no earlier than the batch was sent. */
  predicate Answered(file: Option<State>, node: Uuid, call: Call) {
    && call.upload.Recorded?
    && call.now <= call.upload.acceptedAt
    && (forall b :: b in call.bindings && ReplyOf(call.replies, b).Replied? ==>
          ReplyOf(call.replies, b).page.observedAt <= call.upload.acceptedAt)
    && (Contents(file, node).pending.Some? ==>
          Contents(file, node).pending.value.sentAt <= call.upload.acceptedAt)
  }

  lemma CollectSucceeds(node: Uuid, cursors: map<string, Cursor>, call: Call)
    requires node != NIL && call.batchId != NIL && TargetsOk(call.bindings)
    requires SameBindings(cursors, call.bindings) && UsableReplies(cursors, call)
    ensures CollectBatch(node, call.bindings, State(node, cursors, None), call.replies, call.batchId, call.now).Ok?
  {
    ScanShipsTheEarliest(cursors, call.bindings, call.replies);
  }

  lemma SettleSucceeds(file: Option<State>, node: Uuid, upload: Upload)
    requires FileOk(file, node) && Contents(file, node).pending.Some?
    requires upload.Recorded? && Contents(file, node).pending.value.sentAt <= upload.acceptedAt
    ensures
      var r := Settle(file, node, Contents(file, node).pending.value, upload);
      r.outcome == Ok(true) && FileOk(r.file, node) && Contents(r.file, node).pending.None?
  {
    var b := Contents(file, node).pending.value;
    var receipt := ReceiptFor(b, upload.acceptedAt, upload.replayed);
    MatchingReceiptCommits(file, node, receipt);
  }

  lemma UsableRepliesSurviveRetention(cursors: map<string, Cursor>, call: Call)
    requires UsableReplies(cursors, call) && SameBindings(cursors, call.bindings)
    ensures UsableReplies(Retained(cursors, call.bindings), call)
    ensures SameBindings(Retained(cursors, call.bindings), call.bindings)
  {
    forall b | b in call.bindings
      ensures Usable(CandidateOf(Retained(cursors, call.bindings), b), ReplyOf(call.replies, b))
    {
      RetainedCandidate(cursors, call.bindings, b);
    }
  }

  /** The shipper never wedges: whatever crashes and interleavings produced the file, a call whose
      targets are admissible, whose providers answer with clocks that do not run backwards and
      whose control plane answers, succeeds and leaves the outbound slot free. */
  lemma NeverWedges(node: Uuid, steps: seq<Step>, call: Call)
    requires node != NIL && call.batchId != NIL && TargetsOk(call.bindings)
    requires
      var file := Exec(node, INITIAL, steps).file;
      && Answered(file, node, call)
      && (Contents(file, node).pending.None? ==>
            && SameBindings(Contents(file, node).cursors, call.bindings)
            && UsableReplies(Contents(file, node).cursors, call))
    ensures
      var r := ShipOnce(Exec(node, INITIAL, steps).file, node, call);
      r.outcome.Ok? && FileOk(r.file, node) && Contents(r.file, node).pending.None?
  {
    ReachableInv(node, steps);
    CallSucceeds(Exec(node, INITIAL, steps).file, node, call);
  }

  lemma CallSucceeds(file: Option<State>, node: Uuid, call: Call)
    requires FileOk(file, node) && call.batchId != NIL && TargetsOk(call.bindings)
    requires Answered(file, node, call)
    requires Contents(file, node).pending.None? ==>
               && SameBindings(Contents(file, node).cursors, call.bindings)
               && UsableReplies(Contents(file, node).cursors, call)
    ensures
      var r := ShipOnce(file, node, call);
      r.outcome.Ok? && FileOk(r.file, node) && Contents(r.file, node).pending.None?
  {
    SnapshotSucceedsIff(file, node, call.bindings);
    var snap := Snapshot(file, node, call.bindings);
    var s := snap.outcome.value;
    if s.pending.Some? {
      SettleSucceeds(file, node, call.upload);
    } else {
      var cursors := Contents(file, node).cursors;
      UsableRepliesSurviveRetention(cursors, call);
      assert s == State(node, Retained(cursors, call.bindings), None);
      CollectSucceeds(node, s.cursors, call);
      var r := CollectBatch(node, call.bindings, s, call.replies, call.batchId, call.now);
      if r.value.Some? {
        var b := r.value.value;
        CollectedBatch(node, call.bindings, s, call.replies, call.batchId, call.now);
        CollectedBatchStagesIff(file, node, call);
        assert Usable(CandidateOf(cursors, b.binding), ReplyOf(call.replies, b.binding));
        RetainedCandidate(cursors, call.bindings, b.binding);
        var staged := SetPending(snap.file, node, b);
        assert b.sentAt <= call.upload.acceptedAt by {
          assert ReplyOf(call.replies, b.binding).Replied?;
          CollectedBatch(node, call.bindings, s, call.replies, call.batchId, call.now);
        }
        SettleSucceeds(staged.file, node, call.upload);
      }
    }
  }
}
