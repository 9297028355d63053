/** Choosing the next page to ship, and one whole call of ship_once:
    crates/node-agent/src/agent_provider_event_shipper.rs. */
module Collect {
  import opened Base
  import opened Sorting
  import opened ProviderEvents
  import opened Shipping

  const PAGE_LIMIT: int := 8

  /** What one binding answers to an event-page request. `Refused` is every failure other
      than an unavailable Runtime unit. */
  datatype Reply = Unavailable | Refused | Replied(page: Page)

  datatype Candidate = Candidate(binding: Binding, cursor: Option<Cursor>)

  function ObservedAt(c: Candidate): (t: U64) {
    if c.cursor.Some? then c.cursor.value.observedAt else 0
  }

  function After(c: Candidate): (a: Option<U64>) {
    if c.cursor.Some? then c.cursor.value.after else None
  }

  /** The polling order: longest unobserved first, ties by execution. */
  predicate Before(a: Candidate, b: Candidate) {
    || ObservedAt(a) < ObservedAt(b)
    || (ObservedAt(a) == ObservedAt(b) && a.binding.executionId <= b.binding.executionId)
  }

  /** The transport hands a page over only if it validates and answers the request. */
  predicate Answers(p: Page, c: Candidate) {
    && PageValidFor(p, REFERENCE_CAPABILITIES)
    && p.identity == c.binding.identity
    && p.after == After(c)
    && p.sourceCount <= PAGE_LIMIT
  }

  /** A page says something its cursor does not already say. */
  predicate Changed(p: Page, cursor: Option<Cursor>) {
    || p.retentionGap
    || cursor.None?
    || cursor.value.after != p.next
    || cursor.value.state != p.state
    || (IsTerminal(p.state) && !cursor.value.drained)
  }

  datatype Visit = Skip | Fail | Ship(page: Page)

  function ReplyOf(replies: map<Binding, Reply>, b: Binding): (r: Reply) {
    if b in replies then replies[b] else Unavailable
  }

  /** One turn of the candidate loop. */
  function VisitCandidate(c: Candidate, reply: Reply): (v: Visit) {
    if c.cursor.Some? && c.cursor.value.drained then Skip
    else
      match reply
      case Unavailable => Skip
      case Refused => Fail
      case Replied(p) =>
        if !Answers(p, c) then Fail
        else if p.events == [] && !Changed(p, c.cursor) then Skip
        else Ship(p)
  }

  function CandidateOf(cursors: map<string, Cursor>, b: Binding): (c: Candidate) {
    Candidate(b, if Key(b) in cursors then Some(cursors[Key(b)]) else None)
  }

  function Candidates(cursors: map<string, Cursor>, bindings: seq<Binding>): (r: seq<Candidate>) {
    seq(|bindings|, i requires 0 <= i < |bindings| => CandidateOf(cursors, bindings[i]))
  }

  function Scan(sorted: seq<Candidate>, replies: map<Binding, Reply>): (r: Result<Option<Choice>, ShipError>) {
    if sorted == [] then Ok(None)
    else
      match VisitCandidate(sorted[0], ReplyOf(replies, sorted[0].binding))
      case Skip => Scan(sorted[1..], replies)
      case Fail => Err(Harness)
      case Ship(p) => Ok(Some(Chosen(sorted[0], p)))
  }

  datatype Choice = Chosen(candidate: Candidate, page: Page)

  function Max(a: U64, b: U64): (m: U64) {
    if a >= b then a else b
  }

  function BatchOf(ship: Choice, node: Uuid, batchId: Uuid, now: U64): (b: Batch) {
    Batch(batchId, node, ship.candidate.binding, ship.page, Max(now, ship.page.observedAt))
  }

  /** collect. */
  function CollectBatch(
    node: Uuid, bindings: seq<Binding>, snapshot: State,
    replies: map<Binding, Reply>, batchId: Uuid, now: U64): (r: Result<Option<Batch>, ShipError>)
  {
    if !SameBindings(snapshot.cursors, bindings) then Err(Conflict)
    else
      match Scan(Sort(Candidates(snapshot.cursors, bindings), Before), replies)
      case Err(e) => Err(e)
      case Ok(None) => Ok(None)
      case Ok(Some(ship)) =>
        var b := BatchOf(ship, node, batchId, now);
        if BatchValid(b) then Ok(Some(b)) else Err(Invalid)
  }

  /** What the control plane does with one uploaded batch. */
  datatype Upload =
    | Rejected                                    // nothing recorded
    | RecordedUnanswered                          // recorded, the response is lost
    | Recorded(acceptedAt: U64, replayed: bool)   // recorded and receipted

  /** Everything one call of ship_once meets outside its own file. */
  datatype Call = Call(
    bindings: seq<Binding>,
    replies: map<Binding, Reply>,
    batchId: Uuid,
    now: U64,
    upload: Upload)

  datatype Shipment = Shipment(
    file: Option<State>,
    outcome: Result<bool, ShipError>,
    uploaded: Option<Batch>)

  function Settle(file: Option<State>, node: Uuid, batch: Batch, upload: Upload): (r: Shipment) {
    match upload
    case Rejected => Shipment(file, Err(ControlPlane), None)
    case RecordedUnanswered => Shipment(file, Err(ControlPlane), Some(batch))
    case Recorded(acceptedAt, replayed) =>
      var t := Commit(file, node, ReceiptFor(batch, acceptedAt, replayed));
      match t.outcome
      case Err(e) => Shipment(t.file, Err(e), Some(batch))
      case Ok(_) => Shipment(t.file, Ok(true), Some(batch))
  }

  /** ship_once, when no other process touches the file. */
  function ShipOnce(file: Option<State>, node: Uuid, call: Call): (r: Shipment) {
    if !TargetsOk(call.bindings) then Shipment(file, Err(TargetsError(call.bindings)), None) else
    var snap := Snapshot(file, node, call.bindings);
    match snap.outcome
    case Err(e) => Shipment(snap.file, Err(e), None)
    case Ok(s) =>
      if s.pending.Some? then Settle(snap.file, node, s.pending.value, call.upload)
      else
        match CollectBatch(node, call.bindings, s, call.replies, call.batchId, call.now)
        case Err(e) => Shipment(snap.file, Err(e), None)
        case Ok(None) => Shipment(snap.file, Ok(false), None)
        case Ok(Some(batch)) =>
          var staged := SetPending(snap.file, node, batch);
          match staged.outcome
          case Err(e) => Shipment(staged.file, Err(e), None)
          case Ok(_) => Settle(staged.file, node, batch, call.upload)
  }

  lemma BeforeIsATotalPreorder()
    ensures TotalPreorder(Before)
  {
  }

  function VisitOf(c: Candidate, replies: map<Binding, Reply>): (v: Visit) {
    VisitCandidate(c, ReplyOf(replies, c.binding))
  }

  predicate Shippable(c: Candidate, replies: map<Binding, Reply>) {
    VisitOf(c, replies).Ship?
  }

  predicate Failing(c: Candidate, replies: map<Binding, Reply>) {
    VisitOf(c, replies).Fail?
  }

  /** The scan does not pass over the candidate: it ships or it fails. */
  predicate Stops(c: Candidate, replies: map<Binding, Reply>) {
    !VisitOf(c, replies).Skip?
  }

  /** The scan stops at the first candidate that is not skipped. */
  lemma {:induction false} ScanStopsAtFirst(sorted: seq<Candidate>, replies: map<Binding, Reply>) returns (k: nat)
    ensures k <= |sorted|
    ensures forall i :: 0 <= i < k ==> !Stops(sorted[i], replies)
    ensures k == |sorted| <==> Scan(sorted, replies) == Ok(None)
    ensures k < |sorted| ==>
      match VisitOf(sorted[k], replies)
      case Skip => false
      case Fail => Scan(sorted, replies) == Err(Harness)
      case Ship(p) => Scan(sorted, replies) == Ok(Some(Chosen(sorted[k], p)))
  {
    k := 0;
    if sorted != [] && !Stops(sorted[0], replies) {
      var j := ScanStopsAtFirst(sorted[1..], replies);
      k := j + 1;
      assert forall i :: 1 <= i < |sorted| ==> sorted[i] == sorted[1..][i - 1];
    }
  }

  predicate FailsFirst(sorted: seq<Candidate>, replies: map<Binding, Reply>, i: nat) {
    && i < |sorted|
    && Failing(sorted[i], replies)
    && forall j :: 0 <= j < i ==> !Shippable(sorted[j], replies)
  }

  /** The scan fails exactly when some failing candidate stands before every shippable one. */
  lemma ScanFailsIff(sorted: seq<Candidate>, replies: map<Binding, Reply>)
    ensures Scan(sorted, replies).Err? <==> exists i: nat :: i < |sorted| && FailsFirst(sorted, replies, i)
  {
    var k := ScanStopsAtFirst(sorted, replies);
    if Scan(sorted, replies).Err? {
      assert FailsFirst(sorted, replies, k);
    }
    if i: nat :| i < |sorted| && FailsFirst(sorted, replies, i) {
      assert Stops(sorted[i], replies);
    }
  }

  lemma CandidatesAreTheListed(cursors: map<string, Cursor>, bindings: seq<Binding>)
    ensures forall c :: c in Sort(Candidates(cursors, bindings), Before) <==>
                        exists b :: b in bindings && c == CandidateOf(cursors, b)
  {
    var cs := Candidates(cursors, bindings);
    SortPermutes(cs, Before);
    forall b | b in bindings
      ensures CandidateOf(cursors, b) in cs
    {
      var i :| 0 <= i < |bindings| && bindings[i] == b;
      assert cs[i] == CandidateOf(cursors, b);
    }
  }

  predicate Listed(c: Candidate, cursors: map<string, Cursor>, bindings: seq<Binding>) {
    c.binding in bindings && c == CandidateOf(cursors, c.binding)
  }

  /** Every listed binding the scan would stop at stands at or behind `c`. */
  ghost predicate NoneEarlier(
    c: Candidate, cursors: map<string, Cursor>, bindings: seq<Binding>, replies: map<Binding, Reply>)
  {
    forall b :: b in bindings && Stops(CandidateOf(cursors, b), replies) ==>
      Before(c, CandidateOf(cursors, b))
  }

  ghost predicate FailsAt(
    b: Binding, cursors: map<string, Cursor>, bindings: seq<Binding>, replies: map<Binding, Reply>)
  {
    && b in bindings
    && Failing(CandidateOf(cursors, b), replies)
    && NoneEarlier(CandidateOf(cursors, b), cursors, bindings, replies)
  }

  /** The earliest binding of the polling order that is not skipped decides the scan, whatever the
      order of the list it was given: it ships, or it fails the whole scan. */
  lemma ScanShipsTheEarliest(cursors: map<string, Cursor>, bindings: seq<Binding>, replies: map<Binding, Reply>)
    ensures
      var r := Scan(Sort(Candidates(cursors, bindings), Before), replies);
      && (r == Ok(None) <==>
            forall b :: b in bindings ==> !Stops(CandidateOf(cursors, b), replies))
      && (r.Ok? && r.value.Some? ==>
            && Listed(r.value.value.candidate, cursors, bindings)
            && VisitOf(r.value.value.candidate, replies) == Ship(r.value.value.page)
            && NoneEarlier(r.value.value.candidate, cursors, bindings, replies))
      && (r.Err? ==> r.error == Harness && exists b :: FailsAt(b, cursors, bindings, replies))
  {
    var sorted := Sort(Candidates(cursors, bindings), Before);
    CandidatesAreTheListed(cursors, bindings);
    BeforeIsATotalPreorder();
    SortSorts(Candidates(cursors, bindings), Before);
    var k := ScanStopsAtFirst(sorted, replies);
    forall b | b in bindings && Stops(CandidateOf(cursors, b), replies)
      ensures k < |sorted| && Before(sorted[k], CandidateOf(cursors, b))
    {
      var c := CandidateOf(cursors, b);
      assert c in sorted;
      var i :| 0 <= i < |sorted| && sorted[i] == c;
      assert i >= k;
    }
    if k < |sorted| {
      assert sorted[k] in sorted;
      var first := sorted[k].binding;
      assert Stops(CandidateOf(cursors, first), replies);
      if Failing(sorted[k], replies) {
        assert FailsAt(first, cursors, bindings, replies);
      }
    }
  }

  lemma DistinctPlaces(cursors: map<string, Cursor>, bindings: seq<Binding>, x: Binding, y: Binding)
    requires TargetsOk(bindings) && x in bindings && y in bindings
    requires Before(CandidateOf(cursors, x), CandidateOf(cursors, y))
    requires Before(CandidateOf(cursors, y), CandidateOf(cursors, x))
    ensures x == y
  {
    var i :| 0 <= i < |bindings| && bindings[i] == x;
    var j :| 0 <= j < |bindings| && bindings[j] == y;
    assert !(i < j) && !(j < i);
  }

  /** For targets ship_once admits, the failing half is exact: the scan fails if and only if some
      failing binding stands before everything else it would stop at. */
  lemma AdmittedScanFailsIff(cursors: map<string, Cursor>, bindings: seq<Binding>, replies: map<Binding, Reply>)
    requires TargetsOk(bindings)
    ensures Scan(Sort(Candidates(cursors, bindings), Before), replies).Err? <==>
            exists b :: FailsAt(b, cursors, bindings, replies)
  {
    var r := Scan(Sort(Candidates(cursors, bindings), Before), replies);
    ScanShipsTheEarliest(cursors, bindings, replies);
    if b :| FailsAt(b, cursors, bindings, replies) {
      if r.Ok? && r.value.Some? {
        DistinctPlaces(cursors, bindings, b, r.value.value.candidate.binding);
      }
    }
  }

  /** What a collected batch is: a fresh page answering the snapshot's cursor. */
  lemma CollectedBatch(
    node: Uuid, bindings: seq<Binding>, snapshot: State,
    replies: map<Binding, Reply>, batchId: Uuid, now: U64)
    requires CollectBatch(node, bindings, snapshot, replies, batchId, now).Ok?
    ensures
      var r := CollectBatch(node, bindings, snapshot, replies, batchId, now).value;
      r.Some? ==>
        var b := r.value;
        && BatchValid(b)
        && b.batchId == batchId
        && b.nodeId == node
        && b.binding in bindings
        && b.binding in replies
        && replies[b.binding] == Replied(b.page)
        && b.sentAt >= now && b.sentAt >= b.page.observedAt && (b.sentAt == now || b.sentAt == b.page.observedAt)
        && Answers(b.page, CandidateOf(snapshot.cursors, b.binding))
        && !(Key(b.binding) in snapshot.cursors && snapshot.cursors[Key(b.binding)].drained)
  {
    ScanShipsTheEarliest(snapshot.cursors, bindings, replies);
  }

  /** A page that repeats what its cursor says: committing it would change nothing in the cursor but
      its observation time. */
  predicate Repeats(p: Page, c: Candidate)
    requires c.cursor.Some?
  {
    CursorAfter(c.binding, p) == c.cursor.value.(observedAt := p.observedAt)
  }

  /** Skipping agrees with shipping: of the pages that answer an undrained cursor, exactly those
      without events, of a run still under way, that repeat the cursor are passed over. */
  lemma SkippedPageSaysNothing(c: Candidate, p: Page)
    requires c.cursor.Some? && CursorValid(Key(c.binding), c.cursor.value) && c.cursor.value.binding == c.binding
    requires !c.cursor.value.drained && Answers(p, c)
    ensures VisitCandidate(c, Replied(p)).Skip? <==> p.events == [] && !IsTerminal(p.state) && Repeats(p, c)
    ensures VisitCandidate(c, Replied(p)).Skip? || VisitCandidate(c, Replied(p)) == Ship(p)
  {
  }

  /** Apart from that: a drained cursor and an unavailable unit are passed over, the first answer to a
      binding without a cursor ships whatever it says, and anything that does not answer fails. */
  lemma OtherVisits(c: Candidate, reply: Reply)
    ensures c.cursor.Some? && c.cursor.value.drained ==> VisitCandidate(c, reply).Skip?
    ensures VisitCandidate(c, Unavailable).Skip?
    ensures c.cursor.None? && reply.Replied? && Answers(reply.page, c) ==> VisitCandidate(c, reply) == Ship(reply.page)
    ensures VisitCandidate(c, reply).Fail? <==>
            && !(c.cursor.Some? && c.cursor.value.drained)
            && !reply.Unavailable?
            && (reply.Replied? ==> !Answers(reply.page, c))
  {
  }

  /** An answer is a valid page of the binding's own run that starts where its cursor ended and covers
      at most eight source events. */
  lemma AnswersCoverAtMostEight(p: Page, c: Candidate)
    ensures Answers(p, c) <==>
            && PageValidFor(p, REFERENCE_CAPABILITIES)
            && p.identity == c.binding.identity
            && p.after == After(c)
            && Position(p.next) <= Position(After(c)) + 8
  {
    if PageValidFor(p, REFERENCE_CAPABILITIES) {
      ValidPageAdvances(p);
    }
  }
}
