/** The shipping protocol as a step system: any number of shippers share one state file, and a
    crash or another shipper may come between any two steps of a call. */
module Protocol {
  import opened Base
  import opened ProviderEvents
  import opened Shipping
  import opened Collect

  /** Where one shipper stands inside ship_once. */
  datatype Phase =
    | Idle
    | Collecting(bindings: seq<Binding>, snapshot: State)
    | Staging(batch: Batch)
    | Uploading(batch: Batch)
    | Committing(receipt: Receipt)

  /** The file, the shippers and the control plane's log of recorded batches. `used` holds the
      batch ids handed out so far; `staged` and `committed` are the history of the file. */
  datatype World = World(
    file: Option<State>,
    shippers: map<nat, Phase>,
    log: seq<Batch>,
    used: set<Uuid>,
    staged: seq<Batch>,
    committed: seq<Batch>)

  const INITIAL: World := World(None, map[], [], {}, [], [])

  datatype Step =
    | Snap(shipper: nat, bindings: seq<Binding>)
    | Choose(shipper: nat, replies: map<Binding, Reply>, batchId: Uuid, now: U64)
    | Stage(shipper: nat)
    | Send(shipper: nat, upload: Upload)
    | Acknowledge(shipper: nat)
    | Crash(shipper: nat)

  function PhaseOf(w: World, i: nat): (p: Phase) {
    if i in w.shippers then w.shippers[i] else Idle
  }

  function Move(w: World, i: nat, p: Phase): (r: World) {
    w.(shippers := w.shippers[i := p])
  }

  function AfterSnap(node: Uuid, w: World, i: nat, bindings: seq<Binding>): (r: World) {
    if !TargetsOk(bindings) then w else
    var t := Snapshot(w.file, node, bindings);
    match t.outcome
    case Err(_) => w.(file := t.file)
    case Ok(s) =>
      Move(w.(file := t.file), i,
           if s.pending.Some? then Uploading(s.pending.value) else Collecting(bindings, s))
  }

  function AfterChoose(node: Uuid, w: World, i: nat, phase: Phase, replies: map<Binding, Reply>, batchId: Uuid, now: U64): (r: World)
    requires phase.Collecting?
  {
    match CollectBatch(node, phase.bindings, phase.snapshot, replies, batchId, now)
    case Err(_) => Move(w, i, Idle)
    case Ok(None) => Move(w, i, Idle)
    case Ok(Some(b)) => Move(w.(used := w.used + {batchId}), i, Staging(b))
  }

  function AfterStage(node: Uuid, w: World, i: nat, b: Batch): (r: World) {
    var t := SetPending(w.file, node, b);
    if t.outcome.Err? then Move(w.(file := t.file), i, Idle)
    else Move(w.(file := t.file, staged := w.staged + [b]), i, Uploading(b))
  }

  function AfterSend(w: World, i: nat, b: Batch, upload: Upload): (r: World) {
    match upload
    case Rejected => Move(w, i, Idle)
    case RecordedUnanswered => Move(w.(log := w.log + [b]), i, Idle)
    case Recorded(acceptedAt, replayed) =>
      Move(w.(log := w.log + [b]), i, Committing(ReceiptFor(b, acceptedAt, replayed)))
  }

  function AfterAcknowledge(node: Uuid, w: World, i: nat, receipt: Receipt): (r: World) {
    var t := Commit(w.file, node, receipt);
    if t.outcome.Err? then Move(w.(file := t.file), i, Idle)
    else Move(w.(file := t.file, committed := w.committed + [Contents(w.file, node).pending.value]), i, Idle)
  }

  /** One step; a step its shipper is not ready for changes nothing. Batch ids are fresh. */
  function Apply(node: Uuid, w: World, step: Step): (r: World) {
    var phase := PhaseOf(w, step.shipper);
    match step
    case Snap(i, bindings) => if phase.Idle? then AfterSnap(node, w, i, bindings) else w
    case Choose(i, replies, batchId, now) =>
      if phase.Collecting? && batchId !in w.used then AfterChoose(node, w, i, phase, replies, batchId, now) else w
    case Stage(i) => if phase.Staging? then AfterStage(node, w, i, phase.batch) else w
    case Send(i, upload) => if phase.Uploading? then AfterSend(w, i, phase.batch, upload) else w
    case Acknowledge(i) => if phase.Committing? then AfterAcknowledge(node, w, i, phase.receipt) else w
    case Crash(i) => Move(w, i, Idle)
  }

  function Exec(node: Uuid, w: World, steps: seq<Step>): (r: World) {
    if steps == [] then w
    else Apply(node, Exec(node, w, steps[..|steps| - 1]), steps[|steps| - 1])
  }

  // ---------------------------------------------------------------------------------------
  // Batch identity

  predicate HasId(s: seq<Batch>, id: Uuid) {
    exists k :: 0 <= k < |s| && s[k].batchId == id
  }

  predicate DistinctIds(s: seq<Batch>) {
    forall j, k :: 0 <= j < k < |s| ==> s[j].batchId != s[k].batchId
  }

  /** The log as the control plane replays it: a batch id counts where it first arrives. */
  function Dedup(log: seq<Batch>): (r: seq<Batch>) {
    if log == [] then []
    else
      var before := log[..|log| - 1];
      var last := log[|log| - 1];
      Dedup(before) + (if HasId(before, last.batchId) then [] else [last])
  }

  function PendingList(file: Option<State>): (r: seq<Batch>) {
    if file.Some? && file.value.pending.Some? then [file.value.pending.value] else []
  }

  /** The history accounts for the file's one outbound slot. */
  predicate HistoryOk(w: World) {
    && w.staged == w.committed + PendingList(w.file)
    && DistinctIds(w.staged)
    && (forall b :: b in w.staged ==> b.batchId in w.used && BatchValid(b))
  }

  predicate PhaseOk(phase: Phase, used: set<Uuid>, staged: seq<Batch>, log: seq<Batch>) {
    match phase
    case Staging(b) => b.batchId in used && !HasId(staged, b.batchId) && BatchValid(b)
    case Uploading(b) => b in staged
    case Committing(r) => HasId(log, r.batchId)
    case _ => true
  }

  predicate StagingApart(p: Phase, q: Phase) {
    p.Staging? && q.Staging? ==> p.batch.batchId != q.batch.batchId
  }

  predicate PhasesOk(shippers: map<nat, Phase>, used: set<Uuid>, staged: seq<Batch>, log: seq<Batch>) {
    && (forall i :: i in shippers ==> PhaseOk(shippers[i], used, staged, log))
    && (forall i, j :: i in shippers && j in shippers && i != j ==> StagingApart(shippers[i], shippers[j]))
  }

  /** Everything recorded was staged, in staging order, and everything committed was recorded. */
  predicate LogOk(log: seq<Batch>, staged: seq<Batch>, committed: seq<Batch>) {
    && (forall b :: b in log ==> b in staged)
    && Dedup(log) <= staged
    && |committed| <= |Dedup(log)|
  }

  predicate OfNode(node: Uuid, staged: seq<Batch>) {
    forall b :: b in staged ==> b.nodeId == node
  }

  predicate Inv(node: Uuid, w: World) {
    && FileOk(w.file, node)
    && OfNode(node, w.staged)
    && HistoryOk(w)
    && PhasesOk(w.shippers, w.used, w.staged, w.log)
    && LogOk(w.log, w.staged, w.committed)
  }

  lemma InitialInv(node: Uuid)
    requires node != NIL
    ensures Inv(node, INITIAL)
  {
  }

  lemma MoveKeepsPhasesOk(shippers: map<nat, Phase>, used: set<Uuid>, staged: seq<Batch>, log: seq<Batch>, i: nat, p: Phase)
    requires PhasesOk(shippers, used, staged, log) && PhaseOk(p, used, staged, log) && !p.Staging?
    ensures PhasesOk(shippers[i := p], used, staged, log)
  {
  }

  lemma SnapKeepsInv(node: Uuid, w: World, i: nat, bindings: seq<Binding>)
    requires Inv(node, w)
    ensures Inv(node, AfterSnap(node, w, i, bindings))
  {
    var t := Snapshot(w.file, node, bindings);
    assert PendingList(t.file) == PendingList(w.file);
    if t.outcome.Ok? {
      var s := t.outcome.value;
      var phase := if s.pending.Some? then Uploading(s.pending.value) else Collecting(bindings, s);
      assert s.pending.Some? ==> PendingList(w.file) == [s.pending.value] && s.pending.value in w.staged;
      MoveKeepsPhasesOk(w.shippers, w.used, w.staged, w.log, i, phase);
    }
  }

  lemma FreshStagingKeepsPhasesOk(
    shippers: map<nat, Phase>, used: set<Uuid>, staged: seq<Batch>, log: seq<Batch>, i: nat, b: Batch)
    requires PhasesOk(shippers, used, staged, log)
    requires b.batchId !in used && BatchValid(b)
    requires forall x :: x in staged ==> x.batchId in used
    ensures PhasesOk(shippers[i := Staging(b)], used + {b.batchId}, staged, log)
  {
  }

  lemma ChooseKeepsInv(node: Uuid, w: World, i: nat, phase: Phase, replies: map<Binding, Reply>, batchId: Uuid, now: U64)
    requires Inv(node, w) && phase.Collecting? && batchId !in w.used
    ensures Inv(node, AfterChoose(node, w, i, phase, replies, batchId, now))
  {
    MoveKeepsPhasesOk(w.shippers, w.used, w.staged, w.log, i, Idle);
    var r := CollectBatch(node, phase.bindings, phase.snapshot, replies, batchId, now);
    if r.Ok? {
      CollectedBatch(node, phase.bindings, phase.snapshot, replies, batchId, now);
      if r.value.Some? {
        FreshStagingKeepsPhasesOk(w.shippers, w.used, w.staged, w.log, i, r.value.value);
      }
    }
  }

  lemma StagingMovesToUploading(
    shippers: map<nat, Phase>, used: set<Uuid>, staged: seq<Batch>, log: seq<Batch>, i: nat, b: Batch)
    requires PhasesOk(shippers, used, staged, log)
    requires i in shippers && shippers[i] == Staging(b)
    ensures PhasesOk(shippers[i := Uploading(b)], used, staged + [b], log)
  {
    forall j | j in shippers && j != i
      ensures PhaseOk(shippers[j], used, staged + [b], log)
    {
      if shippers[j].Staging? {
        assert StagingApart(shippers[i], shippers[j]);
        HasIdAppend(staged, b, shippers[j].batch.batchId);
      }
    }
  }

  lemma StageKeepsInv(node: Uuid, w: World, i: nat, b: Batch)
    requires Inv(node, w) && PhaseOf(w, i) == Staging(b)
    ensures Inv(node, AfterStage(node, w, i, b))
  {
    var t := SetPending(w.file, node, b);
    MoveKeepsPhasesOk(w.shippers, w.used, w.staged, w.log, i, Idle);
    if t.outcome.Ok? {
      assert PendingList(w.file) == [] && PendingList(t.file) == [b];
      assert w.staged == w.committed;
      StagingMovesToUploading(w.shippers, w.used, w.staged, w.log, i, b);
    }
  }

  lemma HasIdAppend(s: seq<Batch>, b: Batch, id: Uuid)
    ensures HasId(s + [b], id) <==> HasId(s, id) || b.batchId == id
  {
    if HasId(s, id) {
      var k :| 0 <= k < |s| && s[k].batchId == id;
      assert (s + [b])[k].batchId == id;
    }
    if b.batchId == id {
      assert (s + [b])[|s|].batchId == id;
    }
  }

  lemma {:induction false} DedupMembers(log: seq<Batch>)
    ensures forall b :: b in Dedup(log) ==> b in log
    ensures forall id :: HasId(log, id) <==> HasId(Dedup(log), id)
  {
    if log != [] {
      var before, last := log[..|log| - 1], log[|log| - 1];
      DedupMembers(before);
      assert log == before + [last];
      forall id
        ensures HasId(log, id) <==> HasId(Dedup(log), id)
      {
        HasIdAppend(before, last, id);
        HasIdAppend(Dedup(before), last, id);
        assert HasId(before, last.batchId) ==> Dedup(log) == Dedup(before);
      }
    }
  }

  /** Recording a staged batch again, or the pending one for the first time, keeps the log a
      deduplicated prefix of the history. */
  lemma RecordKeepsLogOk(w: World, b: Batch)
    requires HistoryOk(w) && LogOk(w.log, w.staged, w.committed) && b in w.staged
    ensures LogOk(w.log + [b], w.staged, w.committed)
  {
    var log' := w.log + [b];
    assert log'[..|log'| - 1] == w.log;
    DedupMembers(w.log);
    if !HasId(w.log, b.batchId) {
      var k :| 0 <= k < |w.staged| && w.staged[k] == b;
      var n := |Dedup(w.log)|;
      assert k >= n;
      assert k == n == |w.committed|;
    }
  }

  lemma RecordKeepsPhasesOk(shippers: map<nat, Phase>, used: set<Uuid>, staged: seq<Batch>, log: seq<Batch>, b: Batch)
    requires PhasesOk(shippers, used, staged, log)
    ensures PhasesOk(shippers, used, staged, log + [b])
  {
    forall i | i in shippers
      ensures PhaseOk(shippers[i], used, staged, log + [b])
    {
      if shippers[i].Committing? {
        HasIdAppend(log, b, shippers[i].receipt.batchId);
      }
    }
  }

  lemma SendKeepsInv(node: Uuid, w: World, i: nat, b: Batch, upload: Upload)
    requires Inv(node, w) && PhaseOf(w, i) == Uploading(b)
    ensures Inv(node, AfterSend(w, i, b, upload))
  {
    RecordKeepsLogOk(w, b);
    RecordKeepsPhasesOk(w.shippers, w.used, w.staged, w.log, b);
    HasIdAppend(w.log, b, b.batchId);
    MoveKeepsPhasesOk(w.shippers, w.used, w.staged, w.log, i, Idle);
    MoveKeepsPhasesOk(w.shippers, w.used, w.staged, w.log + [b], i, Idle);
    if upload.Recorded? {
      MoveKeepsPhasesOk(w.shippers, w.used, w.staged, w.log + [b], i,
                        Committing(ReceiptFor(b, upload.acceptedAt, upload.replayed)));
    }
  }

  /** Once the pending batch is recorded, the deduplicated log is the whole history. */
  lemma RecordedPendingCompletesLog(w: World, b: Batch)
    requires HistoryOk(w) && LogOk(w.log, w.staged, w.committed)
    requires PendingList(w.file) == [b] && HasId(w.log, b.batchId)
    ensures Dedup(w.log) == w.staged
  {
    DedupMembers(w.log);
    var d := Dedup(w.log);
    var k :| 0 <= k < |d| && d[k].batchId == b.batchId;
    assert w.staged[k] == d[k];
    assert w.staged[|w.committed|] == b;
    assert k == |w.committed|;
  }

  lemma AcknowledgeKeepsInv(node: Uuid, w: World, i: nat, r: Receipt)
    requires Inv(node, w) && PhaseOf(w, i) == Committing(r)
    ensures Inv(node, AfterAcknowledge(node, w, i, r))
  {
    var t := Commit(w.file, node, r);
    MoveKeepsPhasesOk(w.shippers, w.used, w.staged, w.log, i, Idle);
    if t.outcome.Ok? {
      var b := Contents(w.file, node).pending.value;
      assert PendingList(w.file) == [b] && PendingList(t.file) == [];
      RecordedPendingCompletesLog(w, b);
    }
  }

  lemma StepKeepsInv(node: Uuid, w: World, step: Step)
    requires Inv(node, w)
    ensures Inv(node, Apply(node, w, step))
  {
    var phase := PhaseOf(w, step.shipper);
    match step
    case Snap(i, bindings) => SnapKeepsInv(node, w, i, bindings);
    case Choose(i, replies, batchId, now) =>
      if phase.Collecting? && batchId !in w.used {
        ChooseKeepsInv(node, w, i, phase, replies, batchId, now);
      }
    case Stage(i) => if phase.Staging? { StageKeepsInv(node, w, i, phase.batch); }
    case Send(i, upload) => if phase.Uploading? { SendKeepsInv(node, w, i, phase.batch, upload); }
    case Acknowledge(i) => if phase.Committing? { AcknowledgeKeepsInv(node, w, i, phase.receipt); }
    case Crash(i) => MoveKeepsPhasesOk(w.shippers, w.used, w.staged, w.log, i, Idle);
  }

  /** The invariant holds in every reachable world. */
  lemma {:induction false} ReachableInv(node: Uuid, steps: seq<Step>)
    requires node != NIL
    ensures Inv(node, Exec(node, INITIAL, steps))
  {
    if steps == [] {
      InitialInv(node);
    } else {
      ReachableInv(node, steps[..|steps| - 1]);
      StepKeepsInv(node, Exec(node, INITIAL, steps[..|steps| - 1]), steps[|steps| - 1]);
    }
  }

  /** Whatever the control plane records is a well-formed batch of this node, for an admitted binding and
      with a page of that binding's own run that was observed before the batch was sent. */
  lemma RecordedBatchSays(node: Uuid, steps: seq<Step>, b: Batch)
    requires node != NIL && b in Exec(node, INITIAL, steps).log
    ensures b.batchId != NIL && b.nodeId == node && b.binding.admitted
    ensures b.page.identity == b.binding.identity && PageValidFor(b.page, REFERENCE_CAPABILITIES)
    ensures 0 < b.page.observedAt <= b.sentAt
  {
    ReachableInv(node, steps);
  }
}
