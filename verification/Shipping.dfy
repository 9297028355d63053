/** The durable shipping state and its three file transactions, as functions of the
    file's contents: crates/node-agent/src/agent_provider_event_shipper.rs. */
module Shipping {
  import opened Base
  import opened ProviderEvents
  import opened Text

  datatype Cursor = Cursor(
    binding: Binding,
    after: Option<U64>,
    state: RunState,
    observedAt: U64,
    drained: bool,
    recoveryRequired: bool)

  datatype State = State(nodeId: Uuid, cursors: map<string, Cursor>, pending: Option<Batch>)

  datatype ShipError = Invalid | Conflict | Harness | ControlPlane

  function Key(b: Binding): (k: string) {
    b.identity.digest
  }

  function Empty(node: Uuid): (s: State) {
    State(node, map[], None)
  }

  predicate CursorValid(key: string, c: Cursor) {
    && c.binding.admitted
    && Key(c.binding) == key
    && c.observedAt > 0
    && (c.drained ==> IsTerminal(c.state) || c.recoveryRequired)
    && (c.recoveryRequired ==> c.drained)
  }

  /** A batch continues the cursor it was collected from. */
  predicate Continues(cursors: map<string, Cursor>, b: Batch) {
    if Key(b.binding) in cursors then
      var c := cursors[Key(b.binding)];
      && c.binding == b.binding
      && !c.drained
      && c.after == b.page.after
      && c.observedAt <= b.page.observedAt
    else b.page.after.None?
  }

  /** ProviderEventShippingState::validate. */
  predicate Valid(s: State, node: Uuid) {
    && s.nodeId != NIL
    && s.nodeId == node
    && (forall k :: k in s.cursors ==> CursorValid(k, s.cursors[k]))
    && (s.pending.Some? ==>
          && BatchValid(s.pending.value)
          && s.pending.value.nodeId == s.nodeId
          && Continues(s.cursors, s.pending.value))
  }

  /** validate_bindings: admitted targets with distinct executions and run identities. */
  predicate TargetsOk(bindings: seq<Binding>) {
    && (forall i :: 0 <= i < |bindings| ==> bindings[i].admitted)
    && (forall i, j :: 0 <= i < j < |bindings| ==>
          && bindings[i].executionId != bindings[j].executionId
          && Key(bindings[i]) != Key(bindings[j]))
  }

  /** How a list of targets is refused: the first target that fails decides. One that is not
      admitted is the harness's error, one that repeats another is invalid. */
  function TargetsError(bindings: seq<Binding>): (e: ShipError) {
    if bindings == [] then Invalid else
      var front := bindings[..|bindings| - 1];
      if !TargetsOk(front) then TargetsError(front)
      else if !bindings[|bindings| - 1].admitted then Harness
      else Invalid
  }

  /** No listed run identity changed the Runtime binding recorded for it. */
  predicate SameBindings(cursors: map<string, Cursor>, bindings: seq<Binding>) {
    forall i :: 0 <= i < |bindings| && Key(bindings[i]) in cursors ==>
      cursors[Key(bindings[i])].binding == bindings[i]
  }

  function Keys(bindings: seq<Binding>): (r: set<string>) {
    set i | 0 <= i < |bindings| :: Key(bindings[i])
  }

  function Retained(cursors: map<string, Cursor>, bindings: seq<Binding>): (r: map<string, Cursor>) {
    map k | k in cursors && k in Keys(bindings) :: cursors[k]
  }

  /** ProviderEventShippingState::retain_bindings. */
  function Retain(s: State, bindings: seq<Binding>): (r: Result<State, ShipError>) {
    if !TargetsOk(bindings) then Err(TargetsError(bindings))
    else if !SameBindings(s.cursors, bindings) then Err(Conflict)
    else Ok(s.(cursors := Retained(s.cursors, bindings)))
  }

  /** A file transaction: what the file holds afterwards and what the caller sees. */
  datatype Transaction<+T> = Transaction(file: Option<State>, outcome: Result<T, ShipError>)

  function Contents(file: Option<State>, node: Uuid): (s: State) {
    if file.None? then Empty(node) else file.value
  }

  /** snapshot_sync. */
  function Snapshot(file: Option<State>, node: Uuid, bindings: seq<Binding>): (t: Transaction<State>) {
    var s := Contents(file, node);
    if !Valid(s, node) then Transaction(file, Err(Invalid))
    else if s.pending.Some? then Transaction(file, Ok(s))
    else
      match Retain(s, bindings)
      case Err(e) => Transaction(file, Err(e))
      case Ok(kept) =>
        if kept.cursors == s.cursors then Transaction(file, Ok(kept))
        else if !Valid(kept, node) then Transaction(file, Err(Invalid))
        else Transaction(Some(kept), Ok(kept))
  }

  /** set_pending_sync. */
  function SetPending(file: Option<State>, node: Uuid, batch: Batch): (t: Transaction<()>) {
    var s := Contents(file, node);
    if !BatchValid(batch) || batch.nodeId != node || !Valid(s, node) then Transaction(file, Err(Invalid))
    else if s.pending.Some? then Transaction(file, Err(Conflict))
    else
      var staged := s.(pending := Some(batch));
      if !Valid(staged, node) then Transaction(file, Err(Invalid))
      else Transaction(Some(staged), Ok(()))
  }

  /** A page after which nothing of its run is left to ship. */
  predicate Drains(p: Page) {
    p.retentionGap || (IsTerminal(p.state) && !p.hasMore)
  }

  /** The cursor a committed page leaves behind. */
  function CursorAfter(b: Binding, p: Page): (c: Cursor) {
    Cursor(b, p.next, p.state, p.observedAt, Drains(p), p.retentionGap)
  }

  /** commit_sync. */
  function Commit(file: Option<State>, node: Uuid, receipt: Receipt): (t: Transaction<()>) {
    var s := Contents(file, node);
    if !Valid(s, node) then Transaction(file, Err(Invalid))
    else if s.pending.None? then Transaction(file, Err(Conflict))
    else if !ReceiptMatches(receipt, s.pending.value) then Transaction(file, Err(Invalid))
    else
      var b := s.pending.value;
      var key := Key(b.binding);
      if key in s.cursors && s.cursors[key].binding != b.binding then Transaction(file, Err(Conflict))
      else
        var settled := State(s.nodeId, s.cursors[key := CursorAfter(b.binding, b.page)], None);
        if !Valid(settled, node) then Transaction(file, Err(Invalid))
        else Transaction(Some(settled), Ok(()))
  }

  /** A file this node wrote: absent, or a state that passes its own validation. */
  predicate FileOk(file: Option<State>, node: Uuid) {
    && node != NIL
    && Valid(Contents(file, node), node)
  }

  lemma EmptyIsValid(node: Uuid)
    requires node != NIL
    ensures Valid(Empty(node), node)
  {
  }

  /** Every transaction leaves a file that reads back. */
  lemma TransactionsKeepFileOk(file: Option<State>, node: Uuid, bindings: seq<Binding>, batch: Batch, receipt: Receipt)
    requires FileOk(file, node)
    ensures FileOk(Snapshot(file, node, bindings).file, node)
    ensures FileOk(SetPending(file, node, batch).file, node)
    ensures FileOk(Commit(file, node, receipt).file, node)
  {
  }

  /** Retention drops cursors only, so what is left still validates. */
  lemma RetainedStateIsValid(s: State, node: Uuid, bindings: seq<Binding>)
    requires Valid(s, node) && s.pending.None?
    ensures Valid(s.(cursors := Retained(s.cursors, bindings)), node)
  {
  }

  /** A snapshot of a readable file is refused only for its target list, and then changes nothing. A
      pending batch is handed out with the whole state; otherwise what is handed out and stored keeps
      exactly the listed cursors, as they were. */
  lemma SnapshotSucceedsIff(file: Option<State>, node: Uuid, bindings: seq<Binding>)
    requires FileOk(file, node)
    ensures
      var s, t := Contents(file, node), Snapshot(file, node, bindings);
      && (t.outcome.Ok? <==> s.pending.Some? || (TargetsOk(bindings) && SameBindings(s.cursors, bindings)))
      && (t.outcome.Err? ==>
            && t.file == file
            && t.outcome.error == if TargetsOk(bindings) then Conflict else TargetsError(bindings))
      && (t.outcome.Ok? ==>
            && Contents(t.file, node) == t.outcome.value
            && t.outcome.value.nodeId == s.nodeId && t.outcome.value.pending == s.pending
            && (s.pending.Some? ==> t.file == file)
            && (forall k :: k in t.outcome.value.cursors ==>
                  k in s.cursors && t.outcome.value.cursors[k] == s.cursors[k])
            && (s.pending.None? ==> forall k :: k in s.cursors ==>
                  (k in t.outcome.value.cursors <==> exists i :: 0 <= i < |bindings| && Key(bindings[i]) == k)))
  {
    if Contents(file, node).pending.None? {
      RetainedStateIsValid(Contents(file, node), node, bindings);
    }
  }

  /** Staging is a compare-and-set: it succeeds exactly when the slot is free and the page
      continues the stored cursor, and then fills the slot and touches nothing else. */
  lemma StageIsCompareAndSet(file: Option<State>, node: Uuid, batch: Batch)
    requires FileOk(file, node)
    requires BatchValid(batch) && batch.nodeId == node
    ensures
      var s, t := Contents(file, node), SetPending(file, node, batch);
      && (t.outcome.Ok? <==> s.pending.None? && Continues(s.cursors, batch))
      && (t.outcome.Err? ==> t.file == file && t.outcome.error == if s.pending.Some? then Conflict else Invalid)
      && (t.outcome.Ok? ==> Contents(t.file, node) == State(node, s.cursors, Some(batch)))
  {
  }

  /** A file reads back with a pending batch exactly when staging that batch in the file without it
      would have succeeded, and would have left that file. */
  lemma PendingIsWhatStagingStores(s: State, node: Uuid, batch: Batch)
    ensures
      var before := s.(pending := None);
      Valid(s.(pending := Some(batch)), node) <==>
      SetPending(Some(before), node, batch) == Transaction(Some(s.(pending := Some(batch))), Ok(()))
  {
  }

  /** The cursor a page leaves behind always validates. */
  lemma CommittedCursorIsValid(b: Batch)
    requires BatchValid(b)
    ensures CursorValid(Key(b.binding), CursorAfter(b.binding, b.page))
  {
  }

  /** The page reports a gap, or it is the last of a run that is over: the run's state is terminal and
      the page reaches the last event its source has. */
  predicate IsLast(p: Page) {
    p.retentionGap || (IsTerminal(p.state) && Position(p.next) == p.latestExclusive)
  }

  /** What a commit writes down: where the page ended, the state and time it was seen in, drained
      exactly when nothing of the run is left, and in need of recovery exactly after a gap. */
  lemma CommittedCursorSays(b: Binding, p: Page)
    requires PageValid(p)
    ensures
      var c := CursorAfter(b, p);
      && Position(c.after) == Position(p.after) + p.sourceCount
      && c.binding == b && c.state == p.state && c.observedAt == p.observedAt
      && (c.drained <==> IsLast(p))
      && (c.recoveryRequired <==> p.retentionGap)
  {
    ValidPageAdvances(p);
  }

  /** Some page leaves this cursor behind. */
  ghost predicate LeftByAPage(c: Cursor) {
    exists p :: PageValid(p) && CursorAfter(c.binding, p) == c
  }

  /** Source sequences can go on behind the cursor where its page said that they do. */
  predicate HasRoom(c: Cursor) {
    var waits := IsTerminal(c.state) && !c.drained;
    && (waits ==> c.after.Some?)
    && Position(c.after) + (if waits || c.recoveryRequired then 1 else 0) <= U64_MAX
  }

  /** A page that leaves a given valid cursor behind. */
  function PageLeaving(c: Cursor): (p: Page)
    requires HasRoom(c)
  {
    var more := IsTerminal(c.state) && !c.drained;
    var reason := if c.state.Failed? && c.drained && !c.recoveryRequired then Some("f") else None;
    if c.recoveryRequired then
      var first: U64 := Position(c.after) + 1;
      Page(c.binding.identity, c.after, Some(first), None, None, 0, first, c.after, c.state, c.observedAt, true, false, None, [])
    else
      var latest: U64 := Position(c.after) + if more then 1 else 0;
      Page(c.binding.identity, c.after, None, None, None, 0, latest, c.after, c.state, c.observedAt, false, more, reason, [])
  }

  /** The cursors that pass validation are those that pages leave behind, up to the end of the
      sequence numbers and cursors of a run that was over before it had an event. */
  lemma ValidCursorsAreThoseOfPages(c: Cursor)
    requires c.binding.admitted
    ensures LeftByAPage(c) <==> CursorValid(Key(c.binding), c) && HasRoom(c)
  {
    if CursorValid(Key(c.binding), c) && HasRoom(c) {
      var p := PageLeaving(c);
      assert Utf8Length("f") == 1 by {
        assert "f"[1..] == "";
      }
      assert PageValid(p) && CursorAfter(c.binding, p) == c;
    }
  }

  /** Every receipt matching the pending batch commits, no validation stands in its way: the slot is
      free again, and the cursor of the batch's binding is the only one that moved. */
  lemma MatchingReceiptCommits(file: Option<State>, node: Uuid, receipt: Receipt)
    requires FileOk(file, node)
    ensures
      var s, t := Contents(file, node), Commit(file, node, receipt);
      && (t.outcome.Ok? <==> s.pending.Some? && ReceiptMatches(receipt, s.pending.value))
      && (t.outcome.Err? ==> t.file == file && t.outcome.error == if s.pending.None? then Conflict else Invalid)
      && (t.outcome.Ok? ==>
            var b, now := s.pending.value, Contents(t.file, node);
            && now.nodeId == node && now.pending.None?
            && now.cursors.Keys == s.cursors.Keys + {Key(b.binding)}
            && now.cursors[Key(b.binding)] == CursorAfter(b.binding, b.page)
            && (forall k :: k in s.cursors && k != Key(b.binding) ==> now.cursors[k] == s.cursors[k]))
  {
    var s := Contents(file, node);
    if s.pending.Some? {
      CommittedCursorIsValid(s.pending.value);
    }
  }

  /** Retaining under a pending batch could strand it: the trimmed state validates exactly when
      the batch's own cursor survives or was never needed. snapshot_sync therefore skips
      retention while a batch is pending. */
  lemma RetentionUnderPendingStrandsIff(s: State, node: Uuid, bindings: seq<Binding>)
    requires Valid(s, node) && s.pending.Some?
    ensures Valid(s.(cursors := Retained(s.cursors, bindings)), node) <==>
            Key(s.pending.value.binding) in Keys(bindings) || s.pending.value.page.after.None?
  {
  }
}
