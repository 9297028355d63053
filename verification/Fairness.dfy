/** Sequences of calls by one shipper: no binding is bypassed more than once by another, and a
    run that has ended drains. */
module Fairness {
  import opened Base
  import opened Sorting
  import opened ProviderEvents
  import opened Shipping
  import opened Collect
  import opened Progress

  function Cursors(file: Option<State>, node: Uuid): (r: map<string, Cursor>) {
    Contents(file, node).cursors
  }

  function Place(file: Option<State>, node: Uuid, b: Binding): (c: Candidate) {
    CandidateOf(Cursors(file, node), b)
  }

  function FileAfter(file: Option<State>, node: Uuid, calls: seq<Call>): (r: Option<State>)
    decreases |calls|
  {
    if calls == [] then file else FileAfter(ShipOnce(file, node, calls[0]).file, node, calls[1..])
  }

  predicate ShipsNow(file: Option<State>, node: Uuid, call: Call, b: Binding) {
    var r := ShipOnce(file, node, call);
    r.outcome == Ok(true) && r.uploaded.Some? && r.uploaded.value.binding == b
  }

  predicate Ships(file: Option<State>, node: Uuid, calls: seq<Call>, b: Binding)
    decreases |calls|
  {
    calls != [] &&
    (ShipsNow(file, node, calls[0], b) || Ships(ShipOnce(file, node, calls[0]).file, node, calls[1..], b))
  }

  predicate Ready(file: Option<State>, node: Uuid) {
    FileOk(file, node) && Contents(file, node).pending.None?
  }

  /** Providers' clocks have passed every stored observation. */
  predicate ClocksAdvance(cursors: map<string, Cursor>, replies: map<Binding, Reply>) {
    forall b, k :: b in replies && replies[b].Replied? && k in cursors ==>
      cursors[k].observedAt < replies[b].page.observedAt
  }

  /** What one call does to the cursors when it ships. */
  predicate Advances(file: Option<State>, node: Uuid, call: Call) {
    var r := ShipOnce(file, node, call);
    && r.uploaded.Some?
    && var y := r.uploaded.value;
       && y.binding in call.bindings
       && BatchValid(y)
       && y.binding in call.replies
       && call.replies[y.binding] == Replied(y.page)
       && Answers(y.page, Place(file, node, y.binding))
       && Shippable(Place(file, node, y.binding), call.replies)
       && Cursors(r.file, node) ==
            Retained(Cursors(file, node), call.bindings)[Key(y.binding) := CursorAfter(y.binding, y.page)]
       && (forall b :: b in call.bindings && Stops(Place(file, node, b), call.replies) ==>
             Before(Place(file, node, y.binding), Place(file, node, b)))
  }

  /** Staging and settling a batch moves its cursor and nothing else. */
  lemma StagedAndSettled(file: Option<State>, node: Uuid, b: Batch, upload: Upload)
    requires Ready(file, node)
    requires SetPending(file, node, b).outcome.Ok?
    requires Settle(SetPending(file, node, b).file, node, b, upload).outcome.Ok?
    ensures
      var r := Settle(SetPending(file, node, b).file, node, b, upload);
      && Ready(r.file, node)
      && r.outcome == Ok(true)
      && r.uploaded == Some(b)
      && Cursors(r.file, node) == Cursors(file, node)[Key(b.binding) := CursorAfter(b.binding, b.page)]
  {
  }

  /** The first place of the polling order that is not skipped decides the scan of a call. */
  lemma ScanOfPlaces(file: Option<State>, node: Uuid, call: Call)
    ensures
      var r := Scan(Sort(Candidates(Retained(Cursors(file, node), call.bindings), call.bindings), Before), call.replies);
      && (r == Ok(None) ==> forall b :: b in call.bindings ==> !Stops(Place(file, node, b), call.replies))
      && (r.Ok? && r.value.Some? ==>
            var y := r.value.value.candidate.binding;
            && y in call.bindings
            && VisitOf(Place(file, node, y), call.replies) == Ship(r.value.value.page)
            && (forall b :: b in call.bindings && Stops(Place(file, node, b), call.replies) ==>
                  Before(Place(file, node, y), Place(file, node, b))))
  {
    var cursors := Retained(Cursors(file, node), call.bindings);
    forall b | b in call.bindings
      ensures CandidateOf(cursors, b) == Place(file, node, b)
    {
      RetainedCandidate(Cursors(file, node), call.bindings, b);
    }
    ScanShipsTheEarliest(cursors, call.bindings, call.replies);
  }

  /** A successful call ships the earliest binding that is not skipped, or skips them all. */
  lemma SuccessfulCall(file: Option<State>, node: Uuid, call: Call)
    requires Ready(file, node) && ShipOnce(file, node, call).outcome.Ok?
    ensures Ready(ShipOnce(file, node, call).file, node)
    ensures TargetsOk(call.bindings)
    ensures ShipOnce(file, node, call).outcome.value ==> Advances(file, node, call)
    ensures !ShipOnce(file, node, call).outcome.value ==>
              && Cursors(ShipOnce(file, node, call).file, node) == Retained(Cursors(file, node), call.bindings)
              && (forall b :: b in call.bindings ==> !Stops(Place(file, node, b), call.replies))
  {
    var snap := Snapshot(file, node, call.bindings);
    var s := snap.outcome.value;
    assert s.cursors == Retained(Cursors(file, node), call.bindings) && s.pending.None?;
    RetainedStateIsValid(Contents(file, node), node, call.bindings);
    assert Ready(snap.file, node) && Cursors(snap.file, node) == s.cursors;
    ScanOfPlaces(file, node, call);
    var r := CollectBatch(node, call.bindings, s, call.replies, call.batchId, call.now);
    if r.value.Some? {
      CollectedBatch(node, call.bindings, s, call.replies, call.batchId, call.now);
      RetainedCandidate(Cursors(file, node), call.bindings, r.value.value.binding);
      StagedAndSettled(snap.file, node, r.value.value, call.upload);
    }
  }

  /** Another listed binding's place is unmoved by the call. */
  lemma OthersStay(file: Option<State>, node: Uuid, call: Call, b: Binding)
    requires Ready(file, node) && ShipOnce(file, node, call).outcome.Ok?
    requires b in call.bindings && !ShipsNow(file, node, call, b)
    ensures Place(ShipOnce(file, node, call).file, node, b) == Place(file, node, b)
  {
    SuccessfulCall(file, node, call);
    RetainedCandidate(Cursors(file, node), call.bindings, b);
    var r := ShipOnce(file, node, call);
    if r.outcome.value {
      var y := r.uploaded.value.binding;
      assert y != b;
      DistinctKeys(call.bindings, y, b);
    }
  }

  predicate OwnCursor(file: Option<State>, node: Uuid, b: Binding) {
    Key(b) in Cursors(file, node) ==> Cursors(file, node)[Key(b)].binding == b
  }

  /** A successful call leaves under a listed binding's key no cursor but its own. */
  lemma SuccessfulCallOwnsCursors(file: Option<State>, node: Uuid, call: Call, b: Binding)
    requires Ready(file, node) && ShipOnce(file, node, call).outcome.Ok? && b in call.bindings
    ensures OwnCursor(ShipOnce(file, node, call).file, node, b)
  {
    SuccessfulCall(file, node, call);
    SnapshotSucceedsIff(file, node, call.bindings);
    assert OwnCursor(file, node, b);
    var r := ShipOnce(file, node, call);
    if r.outcome.value && r.uploaded.value.binding != b {
      DistinctKeys(call.bindings, r.uploaded.value.binding, b);
    }
  }

  lemma DistinctKeys(bindings: seq<Binding>, x: Binding, y: Binding)
    requires TargetsOk(bindings) && x in bindings && y in bindings && x != y
    ensures Key(x) != Key(y) && x.executionId != y.executionId
  {
    var i :| 0 <= i < |bindings| && bindings[i] == x;
    var j :| 0 <= j < |bindings| && bindings[j] == y;
    assert i < j || j < i;
  }

  // ---------------------------------------------------------------------------------------
  // Bounded bypass

  /** The bindings that may ship before `b`: those of `rivals` at or before its place. */
  function Ahead(file: Option<State>, node: Uuid, rivals: set<Binding>, b: Binding): (r: set<Binding>) {
    set y | y in rivals && Before(Place(file, node, y), Place(file, node, b))
  }

  /** A call that succeeds without skipping `b`, is asked of all rivals, and meets advancing clocks.
      Having news is one way not to be skipped; an answer that would fail the call is the other. */
  predicate FairCall(file: Option<State>, node: Uuid, call: Call, rivals: set<Binding>, b: Binding) {
    && ShipOnce(file, node, call).outcome.Ok?
    && rivals <= (set x | x in call.bindings)
    && b in rivals
    && (forall y :: y in call.bindings && Shippable(Place(file, node, y), call.replies) ==> y in rivals)
    && Stops(Place(file, node, b), call.replies)
    && ClocksAdvance(Cursors(file, node), call.replies)
  }

  lemma ShippedMovesBehind(file: Option<State>, node: Uuid, call: Call, y: Binding, b: Binding)
    requires Ready(file, node) && ShipOnce(file, node, call).outcome.Ok?
    requires ShipsNow(file, node, call, y) && b in call.bindings && b != y
    requires ClocksAdvance(Cursors(file, node), call.replies)
    ensures !Before(Place(ShipOnce(file, node, call).file, node, y), Place(ShipOnce(file, node, call).file, node, b))
  {
    SuccessfulCall(file, node, call);
    OthersStay(file, node, call, b);
    var page := ShipOnce(file, node, call).uploaded.value.page;
    assert page.observedAt > 0;
    assert ObservedAt(Place(file, node, b)) < page.observedAt;
  }

  /** Either the call ships `b`, or whatever it shipped instead falls behind `b` for good. */
  lemma FairCallShipsOrShrinks(file: Option<State>, node: Uuid, call: Call, rivals: set<Binding>, b: Binding)
    requires Ready(file, node) && FairCall(file, node, call, rivals, b)
    ensures Ready(ShipOnce(file, node, call).file, node)
    ensures b in Ahead(file, node, rivals, b)
    ensures ShipsNow(file, node, call, b) ||
            Ahead(ShipOnce(file, node, call).file, node, rivals, b) < Ahead(file, node, rivals, b)
  {
    SuccessfulCall(file, node, call);
    if !ShipsNow(file, node, call, b) {
      var r := ShipOnce(file, node, call);
      var y := r.uploaded.value.binding;
      var was, now := Ahead(file, node, rivals, b), Ahead(r.file, node, rivals, b);
      assert y in was;
      OthersStay(file, node, call, b);
      ShippedMovesBehind(file, node, call, y, b);
      assert y !in now;
      forall x | x in now
        ensures x in was
      {
        assert x != y;
        OthersStay(file, node, call, x);
      }
    }
  }

  predicate FairCalls(file: Option<State>, node: Uuid, calls: seq<Call>, rivals: set<Binding>, b: Binding)
    decreases |calls|
  {
    calls != [] ==>
      && FairCall(file, node, calls[0], rivals, b)
      && FairCalls(ShipOnce(file, node, calls[0]).file, node, calls[1..], rivals, b)
  }

  lemma StrictSubsetIsSmaller<T>(a: set<T>, b: set<T>)
    requires a < b
    ensures |a| < |b|
  {
    assert b == a + (b - a);
    assert |b| == |a| + |b - a|;
    assert b - a != {};
  }

  /** Bounded bypass: as long as `b` is not skipped it ships within as many calls as there are bindings
      ahead of it in the polling order, itself included; each of the others passes it once. */
  lemma {:induction false} BoundedBypass(
    file: Option<State>, node: Uuid, calls: seq<Call>, rivals: set<Binding>, b: Binding)
    requires Ready(file, node) && FairCalls(file, node, calls, rivals, b)
    requires |calls| >= |Ahead(file, node, rivals, b)| && calls != []
    ensures Ships(file, node, calls, b)
    decreases |calls|
  {
    FairCallShipsOrShrinks(file, node, calls[0], rivals, b);
    if !ShipsNow(file, node, calls[0], b) {
      var next := ShipOnce(file, node, calls[0]).file;
      StrictSubsetIsSmaller(Ahead(next, node, rivals, b), Ahead(file, node, rivals, b));
      var ahead := Ahead(next, node, rivals, b);
      assert b in ahead by {
        assert Before(Place(next, node, b), Place(next, node, b));
      }
      assert |ahead| > 0;
      BoundedBypass(next, node, calls[1..], rivals, b);
    }
  }

  /** So if n bindings are never skipped and nothing else has news, any n consecutive calls ship every
      one of them. */
  lemma EveryRoundShipsEveryone(file: Option<State>, node: Uuid, calls: seq<Call>, rivals: set<Binding>)
    requires Ready(file, node) && |calls| == |rivals|
    requires forall b :: b in rivals ==> FairCalls(file, node, calls, rivals, b)
    ensures forall b :: b in rivals ==> Ships(file, node, calls, b)
  {
    forall b | b in rivals
      ensures Ships(file, node, calls, b)
    {
      AheadIsBounded(file, node, rivals, b);
      BoundedBypass(file, node, calls, rivals, b);
    }
  }

  lemma AheadIsBounded(file: Option<State>, node: Uuid, rivals: set<Binding>, b: Binding)
    ensures |Ahead(file, node, rivals, b)| <= |rivals|
    ensures b in rivals ==> |rivals| > 0
  {
    var ahead := Ahead(file, node, rivals, b);
    assert rivals == ahead + (rivals - ahead);
  }

  // ---------------------------------------------------------------------------------------
  // Draining

  predicate Drained(c: Candidate) {
    c.cursor.Some? && c.cursor.value.drained
  }

  /** What an ended run answers: a terminal page of a source that stands at `total` events, with
      more to come only behind events of its own. */
  predicate EndedReply(c: Candidate, reply: Reply, total: U64) {
    && reply.Replied?
    && Answers(reply.page, c)
    && !reply.page.retentionGap
    && IsTerminal(reply.page.state)
    && reply.page.latestExclusive == total
    && (reply.page.hasMore ==> reply.page.sourceCount > 0)
  }

  /** The ships an ended run still needs: its remaining source events and the final one. */
  function ShipsLeft(c: Candidate, total: U64): (n: nat) {
    if Drained(c) then 0
    else if Position(After(c)) > total then 1
    else total - Position(After(c)) + 1
  }

  lemma EndedStops(c: Candidate, replies: map<Binding, Reply>, total: U64)
    requires !Drained(c) && EndedReply(c, ReplyOf(replies, c.binding), total)
    ensures Shippable(c, replies)
  {
  }

  /** A page of an ended run, progress aside. */
  predicate TerminalAnswer(c: Candidate, p: Page, total: U64) {
    Answers(p, c) && !p.retentionGap && IsTerminal(p.state) && p.latestExclusive == total
  }

  /** Exactly the pages with progress bring an ended run closer to its end: more to come only behind
      source events of their own. */
  lemma TerminalPageLowersShipsLeftIff(c: Candidate, p: Page, total: U64)
    requires !Drained(c) && TerminalAnswer(c, p, total)
    ensures ShipsLeft(Candidate(c.binding, Some(CursorAfter(c.binding, p))), total) < ShipsLeft(c, total)
            <==> (p.hasMore ==> p.sourceCount > 0)
  {
    ValidPageAdvances(p);
  }

  /** A successful call in which `b`, unless drained, either answers as an ended run does or would
      fail the call if its turn came. */
  predicate EndedCall(
    file: Option<State>, node: Uuid, call: Call, rivals: set<Binding>, b: Binding, total: U64)
  {
    && ShipOnce(file, node, call).outcome.Ok?
    && (set x | x in call.bindings) == rivals
    && b in rivals
    && ClocksAdvance(Cursors(file, node), call.replies)
    && (!Drained(Place(file, node, b)) ==>
          || EndedReply(Place(file, node, b), ReplyOf(call.replies, b), total)
          || Failing(Place(file, node, b), call.replies))
  }

  predicate EndedCalls(
    file: Option<State>, node: Uuid, calls: seq<Call>, rivals: set<Binding>, b: Binding, total: U64)
    decreases |calls|
  {
    calls != [] ==>
      && EndedCall(file, node, calls[0], rivals, b, total)
      && EndedCalls(ShipOnce(file, node, calls[0]).file, node, calls[1..], rivals, b, total)
  }

  lemma DrainedCallKeepsDrained(file: Option<State>, node: Uuid, call: Call, b: Binding)
    requires Ready(file, node) && ShipOnce(file, node, call).outcome.Ok?
    requires b in call.bindings && Drained(Place(file, node, b))
    ensures Drained(Place(ShipOnce(file, node, call).file, node, b))
  {
    SuccessfulCall(file, node, call);
    OthersStay(file, node, call, b);
  }

  /** The distance to a drained cursor, in calls: full rounds for all but the next ship. */
  function Rounds(rivals: nat, left: nat, ahead: nat): (n: nat) {
    if left == 0 then 0 else rivals * (left - 1) + ahead
  }

  lemma {:induction false} TimesGrows(n: nat, a: nat, b: nat)
    requires a <= b
    ensures n * a <= n * b
    decreases b
  {
    if a < b {
      TimesGrows(n, a, b - 1);
      assert n * b == n * (b - 1) + n;
    }
  }

  lemma FewerShipsFewerRounds(rivals: nat, left: nat, ahead: nat, left': nat, ahead': nat)
    requires left' < left && 0 < ahead && ahead' <= rivals
    ensures Rounds(rivals, left', ahead') < Rounds(rivals, left, ahead)
  {
    TimesGrows(rivals, left', left - 1);
    if left' > 0 {
      assert rivals * left' == rivals * (left' - 1) + rivals;
    } else {
      assert rivals * left' == 0;
    }
  }

  function CallsLeft(file: Option<State>, node: Uuid, rivals: set<Binding>, b: Binding, total: U64): (n: nat) {
    Rounds(|rivals|, ShipsLeft(Place(file, node, b), total), |Ahead(file, node, rivals, b)|)
  }

  lemma EndedShipLowersShipsLeft(
    file: Option<State>, node: Uuid, call: Call, rivals: set<Binding>, b: Binding, total: U64)
    requires Ready(file, node) && EndedCall(file, node, call, rivals, b, total)
    requires !Drained(Place(file, node, b)) && ShipsNow(file, node, call, b)
    ensures ShipsLeft(Place(ShipOnce(file, node, call).file, node, b), total)
            < ShipsLeft(Place(file, node, b), total)
  {
    SuccessfulCall(file, node, call);
    var p := call.replies[b].page;
    assert Shippable(Place(file, node, b), call.replies);
    TerminalPageLowersShipsLeftIff(Place(file, node, b), p, total);
    assert Place(ShipOnce(file, node, call).file, node, b) == Candidate(b, Some(CursorAfter(b, p)));
  }

  lemma EndedCallLowersCallsLeft(
    file: Option<State>, node: Uuid, call: Call, rivals: set<Binding>, b: Binding, total: U64)
    requires Ready(file, node) && EndedCall(file, node, call, rivals, b, total)
    requires !Drained(Place(file, node, b))
    ensures CallsLeft(ShipOnce(file, node, call).file, node, rivals, b, total)
            < CallsLeft(file, node, rivals, b, total)
  {
    var next := ShipOnce(file, node, call).file;
    var left, left' := ShipsLeft(Place(file, node, b), total), ShipsLeft(Place(next, node, b), total);
    var ahead, ahead' := Ahead(file, node, rivals, b), Ahead(next, node, rivals, b);
    if EndedReply(Place(file, node, b), ReplyOf(call.replies, b), total) {
      EndedStops(Place(file, node, b), call.replies, total);
    }
    FairCallShipsOrShrinks(file, node, call, rivals, b);
    AheadIncludesSelf(file, node, rivals, b);
    AheadIsBounded(next, node, rivals, b);
    if ShipsNow(file, node, call, b) {
      EndedShipLowersShipsLeft(file, node, call, rivals, b, total);
      FewerShipsFewerRounds(|rivals|, left, |ahead|, left', |ahead'|);
    } else {
      OthersStay(file, node, call, b);
      StrictSubsetIsSmaller(ahead', ahead);
      assert left' == left;
    }
  }

  lemma AheadIncludesSelf(file: Option<State>, node: Uuid, rivals: set<Binding>, b: Binding)
    requires b in rivals
    ensures |Ahead(file, node, rivals, b)| > 0
  {
    assert b in Ahead(file, node, rivals, b);
  }

  lemma {:induction false} EndedRunDrainsWithin(
    file: Option<State>, node: Uuid, calls: seq<Call>, rivals: set<Binding>, b: Binding, total: U64)
    requires Ready(file, node) && EndedCalls(file, node, calls, rivals, b, total) && b in rivals
    requires |calls| >= CallsLeft(file, node, rivals, b, total)
    ensures Drained(Place(FileAfter(file, node, calls), node, b))
    decreases |calls|
  {
    if calls == [] {
      AheadIncludesSelf(file, node, rivals, b);
    } else {
      var next := ShipOnce(file, node, calls[0]).file;
      SuccessfulCall(file, node, calls[0]);
      if Drained(Place(file, node, b)) {
        DrainedCallKeepsDrained(file, node, calls[0], b);
      } else {
        EndedCallLowersCallsLeft(file, node, calls[0], rivals, b, total);
      }
      EndedRunDrainsWithin(next, node, calls[1..], rivals, b, total);
    }
  }

  lemma RoundsAreBounded(rivals: nat, left: nat, ahead: nat)
    requires ahead <= rivals
    ensures Rounds(rivals, left, ahead) <= rivals * left
  {
    if left > 0 {
      assert rivals * left == rivals * (left - 1) + rivals;
    }
  }

  /** An ended run drains: with `total` source events at its provider, `rivals` bindings polled by
      every call, calls that succeed and clocks that advance, the cursor is drained after at most
      |rivals| calls for each remaining source event and |rivals| more for the final page. */
  lemma EndedRunDrains(
    file: Option<State>, node: Uuid, calls: seq<Call>, rivals: set<Binding>, b: Binding, total: U64)
    requires Ready(file, node) && EndedCalls(file, node, calls, rivals, b, total) && b in rivals
    requires |calls| >= |rivals| * ShipsLeft(Place(file, node, b), total)
    ensures Drained(Place(FileAfter(file, node, calls), node, b))
  {
    AheadIsBounded(file, node, rivals, b);
    RoundsAreBounded(|rivals|, ShipsLeft(Place(file, node, b), total), |Ahead(file, node, rivals, b)|);
    EndedRunDrainsWithin(file, node, calls, rivals, b, total);
  }

  /** The progress an ended run must make is not something page validation asks for: this page of
      a cancelled run passes every check, carries nothing, and leaves its cursor where it was. */
  lemma ValidPageNeedNotAdvance(identity: RunIdentity)
    ensures
      var p := Page(identity, Some(0), Some(0), None, None, 0, 5, Some(0), Cancelled, 1, false, true, None, []);
      && PageValidFor(p, REFERENCE_CAPABILITIES)
      && p.hasMore
      && p.next == p.after
      && !Drains(p)
  {
  }

  /** A call whose provider answers for `b` that there is more, without a source event. */
  predicate StalledCall(file: Option<State>, node: Uuid, call: Call, b: Binding) {
    && ShipOnce(file, node, call).outcome.Ok?
    && b in call.bindings
    && b in call.replies
    && call.replies[b].Replied?
    && call.replies[b].page.hasMore
    && call.replies[b].page.sourceCount == 0
  }

  predicate StalledCalls(file: Option<State>, node: Uuid, calls: seq<Call>, b: Binding)
    decreases |calls|
  {
    calls != [] ==>
      && StalledCall(file, node, calls[0], b)
      && StalledCalls(ShipOnce(file, node, calls[0]).file, node, calls[1..], b)
  }

  /** And without that progress no number of calls helps: while the provider answers every request
      with a page that says there is more and carries nothing, whatever its state, the cursor is
      never drained and its position never moves. */
  lemma {:induction false} StalledRunNeverDrains(file: Option<State>, node: Uuid, calls: seq<Call>, b: Binding)
    requires Ready(file, node) && StalledCalls(file, node, calls, b) && !Drained(Place(file, node, b))
    ensures !Drained(Place(FileAfter(file, node, calls), node, b))
    ensures After(Place(FileAfter(file, node, calls), node, b)) == After(Place(file, node, b))
    decreases |calls|
  {
    if calls != [] {
      var next := ShipOnce(file, node, calls[0]).file;
      SuccessfulCall(file, node, calls[0]);
      if ShipsNow(file, node, calls[0], b) {
        ValidPageAdvances(calls[0].replies[b].page);
      } else {
        OthersStay(file, node, calls[0], b);
      }
      StalledRunNeverDrains(next, node, calls[1..], b);
    }
  }

  // ---------------------------------------------------------------------------------------
  // A binding that fails

  lemma SettleUploadsItsBatch(file: Option<State>, node: Uuid, batch: Batch, upload: Upload)
    ensures
      var r := Settle(file, node, batch, upload);
      r.outcome != Ok(false) && (r.uploaded.Some? ==> r.uploaded == Some(batch))
  {
  }

  lemma SnapshotRetains(file: Option<State>, node: Uuid, bindings: seq<Binding>)
    requires FileOk(file, node) && Snapshot(file, node, bindings).outcome.Ok?
    ensures
      var s := Contents(file, node);
      Snapshot(file, node, bindings).outcome.value ==
        if s.pending.Some? then s else State(s.nodeId, Retained(s.cursors, bindings), None)
  {
  }

  /** What a call uploads is the batch it collected, or the pending one. */
  lemma UploadIsCollected(file: Option<State>, node: Uuid, call: Call)
    requires FileOk(file, node)
    ensures
      var r := ShipOnce(file, node, call);
      var s := Contents(file, node);
      var kept := State(s.nodeId, Retained(s.cursors, call.bindings), None);
      var collected := CollectBatch(node, call.bindings, kept, call.replies, call.batchId, call.now);
      && (s.pending.Some? ==> r.outcome != Ok(false) && (r.uploaded.Some? ==> r.uploaded == s.pending))
      && (s.pending.None? ==>
            && (r.outcome == Ok(false) ==> collected == Ok(None))
            && (r.uploaded.Some? ==> collected == Ok(r.uploaded)))
  {
    var snap := Snapshot(file, node, call.bindings);
    if snap.outcome.Ok? {
      SnapshotRetains(file, node, call.bindings);
      var s := snap.outcome.value;
      if s.pending.Some? {
        SettleUploadsItsBatch(snap.file, node, s.pending.value, call.upload);
      } else {
        var collected := CollectBatch(node, call.bindings, s, call.replies, call.batchId, call.now);
        if collected.Ok? && collected.value.Some? {
          var batch := collected.value.value;
          SettleUploadsItsBatch(SetPending(snap.file, node, batch).file, node, batch, call.upload);
        }
      }
    }
  }

  /** Whatever comes of a call that found nothing pending, what it uploaded stands at or before every
      binding it would have stopped at. */
  lemma UploadIsTheEarliest(file: Option<State>, node: Uuid, call: Call, b: Binding)
    requires Ready(file, node) && b in call.bindings && Stops(Place(file, node, b), call.replies)
    ensures
      var r := ShipOnce(file, node, call);
      && r.outcome != Ok(false)
      && (r.uploaded.Some? ==>
            && r.uploaded.value.binding in call.bindings
            && Shippable(Place(file, node, r.uploaded.value.binding), call.replies)
            && Before(Place(file, node, r.uploaded.value.binding), Place(file, node, b)))
  {
    UploadIsCollected(file, node, call);
    ScanOfPlaces(file, node, call);
  }

  /** The polling order spelled out: what a call uploads was observed least recently of all it would
      have stopped at, never observed counting as longest ago, and among equals its execution id is
      the smallest. */
  lemma LeastRecentlyObservedShips(file: Option<State>, node: Uuid, call: Call, b: Binding)
    requires Ready(file, node) && b in call.bindings && Stops(Place(file, node, b), call.replies)
    requires ShipOnce(file, node, call).uploaded.Some?
    ensures
      var y := ShipOnce(file, node, call).uploaded.value.binding;
      var cursors := Cursors(file, node);
      && (Key(b) !in cursors ==> Key(y) !in cursors)
      && (Key(b) in cursors && Key(y) in cursors ==> cursors[Key(y)].observedAt <= cursors[Key(b)].observedAt)
      && ((Key(b) !in cursors || (Key(y) in cursors && cursors[Key(y)].observedAt == cursors[Key(b)].observedAt)) ==>
            y.executionId <= b.executionId)
  {
    UploadIsTheEarliest(file, node, call, b);
  }

  /** A binding with nothing to say: drained, out of reach, or with a provider whose run is still
      under way and who answers the cursor, without events, by repeating it. */
  predicate Quiet(c: Candidate, reply: Reply) {
    || (c.cursor.Some? && c.cursor.value.drained)
    || reply.Unavailable?
    || (&& c.cursor.Some?
        && reply.Replied?
        && Answers(reply.page, c)
        && reply.page.events == [] && !IsTerminal(reply.page.state)
        && Repeats(reply.page, c))
  }

  lemma QuietIsSkipped(file: Option<State>, node: Uuid, call: Call, b: Binding)
    requires Ready(file, node) && b in call.bindings && SameBindings(Cursors(file, node), call.bindings)
    requires Quiet(Place(file, node, b), ReplyOf(call.replies, b))
    ensures !Stops(Place(file, node, b), call.replies)
  {
    var c, reply := Place(file, node, b), ReplyOf(call.replies, b);
    OtherVisits(c, reply);
    if c.cursor.Some? && !c.cursor.value.drained && reply.Replied? {
      var i :| 0 <= i < |call.bindings| && call.bindings[i] == b;
      assert c.cursor.value.binding == b && CursorValid(Key(b), c.cursor.value);
      SkippedPageSaysNothing(c, reply.page);
    }
  }

  /** A call over such bindings uploads nothing and reports that nothing was shipped. */
  lemma QuietCallShipsNothing(file: Option<State>, node: Uuid, call: Call)
    requires Ready(file, node) && TargetsOk(call.bindings) && SameBindings(Cursors(file, node), call.bindings)
    requires forall b :: b in call.bindings ==> Quiet(Place(file, node, b), ReplyOf(call.replies, b))
    ensures ShipOnce(file, node, call).outcome == Ok(false)
    ensures ShipOnce(file, node, call).uploaded == None
    ensures Cursors(ShipOnce(file, node, call).file, node) == Retained(Cursors(file, node), call.bindings)
  {
    var cursors := Cursors(file, node);
    var kept := Retained(cursors, call.bindings);
    SnapshotSucceedsIff(file, node, call.bindings);
    SnapshotRetains(file, node, call.bindings);
    forall b | b in call.bindings
      ensures !Stops(CandidateOf(kept, b), call.replies)
    {
      RetainedCandidate(cursors, call.bindings, b);
      QuietIsSkipped(file, node, call, b);
    }
    ScanShipsTheEarliest(kept, call.bindings, call.replies);
    assert SameBindings(kept, call.bindings);
  }

  /** While a run without a cursor is listed and fails, it stands before all that have one: a call
      settles a batch left pending, fails, or ships another binding without a cursor. So no binding
      that has a cursor is collected any more. */
  lemma FailingNewcomerBlocks(file: Option<State>, node: Uuid, call: Call, b: Binding)
    requires FileOk(file, node) && b in call.bindings
    requires Place(file, node, b).cursor.None? && Failing(Place(file, node, b), call.replies)
    ensures
      var r := ShipOnce(file, node, call);
      && r.outcome != Ok(false)
      && (r.uploaded.Some? ==>
            || r.uploaded == Contents(file, node).pending
            || (&& r.uploaded.value.binding != b
                && Place(file, node, r.uploaded.value.binding).cursor.None?))
  {
    UploadIsCollected(file, node, call);
    if Contents(file, node).pending.None? {
      UploadIsTheEarliest(file, node, call, b);
    }
  }

  /** The bindings no page of which has been committed. */
  function Newcomers(file: Option<State>, node: Uuid, rivals: set<Binding>): (r: set<Binding>) {
    set y | y in rivals && Place(file, node, y).cursor.None?
  }

  predicate FailingCalls(file: Option<State>, node: Uuid, calls: seq<Call>, rivals: set<Binding>, b: Binding)
    decreases |calls|
  {
    calls != [] ==>
      && ShipOnce(file, node, calls[0]).outcome.Ok?
      && (set x | x in calls[0].bindings) == rivals
      && Failing(Place(file, node, b), calls[0].replies)
      && FailingCalls(ShipOnce(file, node, calls[0]).file, node, calls[1..], rivals, b)
  }

  lemma FailingCallUsesUpANewcomer(file: Option<State>, node: Uuid, call: Call, rivals: set<Binding>, b: Binding)
    requires Ready(file, node) && FailingCalls(file, node, [call], rivals, b)
    requires b in rivals && Place(file, node, b).cursor.None?
    ensures
      var next := ShipOnce(file, node, call).file;
      && Ready(next, node)
      && Place(next, node, b).cursor.None?
      && Newcomers(next, node, rivals) < Newcomers(file, node, rivals)
  {
    var r := ShipOnce(file, node, call);
    var was, now := Newcomers(file, node, rivals), Newcomers(r.file, node, rivals);
    SuccessfulCall(file, node, call);
    FailingNewcomerBlocks(file, node, call, b);
    var y := r.uploaded.value.binding;
    OthersStay(file, node, call, b);
    assert y in was && y !in now;
    forall x | x in now
      ensures x in was
    {
      OthersStay(file, node, call, x);
    }
  }

  /** So such a run brings shipping to a stop: fewer calls can still succeed than there are polled
      bindings without a cursor, itself included. */
  lemma {:induction false} FailingNewcomerStopsShipping(
    file: Option<State>, node: Uuid, calls: seq<Call>, rivals: set<Binding>, b: Binding)
    requires Ready(file, node) && FailingCalls(file, node, calls, rivals, b)
    requires b in rivals && Place(file, node, b).cursor.None?
    ensures |calls| < |Newcomers(file, node, rivals)|
    decreases |calls|
  {
    assert b in Newcomers(file, node, rivals);
    if calls != [] {
      var next := ShipOnce(file, node, calls[0]).file;
      FailingCallUsesUpANewcomer(file, node, calls[0], rivals, b);
      StrictSubsetIsSmaller(Newcomers(next, node, rivals), Newcomers(file, node, rivals));
      FailingNewcomerStopsShipping(next, node, calls[1..], rivals, b);
    }
  }
}
