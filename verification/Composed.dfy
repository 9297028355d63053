/** The shipper together with the reference provider it polls: commands reach the provider and
    crashes reach the shippers at any point between any two steps. */
module Composed {
  import opened Base
  import opened ProviderEvents
  import opened Shipping
  import opened Collect
  import opened Protocol
  import opened Delivery
  import opened Fairness
  import R = ReferenceProvider

  datatype System = System(provider: R.Provider, world: World)

  const START: System := System(R.NEW_PROVIDER, INITIAL)

  /** `Poll` is the collect step: `clocks` names the bindings whose unit is reachable and the time
      the provider reads when it answers each. */
  datatype Event =
    | Submit(command: R.Command, now: U64)
    | Poll(shipper: nat, clocks: map<Binding, U64>, batchId: Uuid, sentAt: U64)
    | Local(step: Step)

  function ProviderReply(p: R.Provider, b: Binding, after: Option<U64>, now: U64): (r: Reply) {
    var page := R.EventPage(p, b.identity, after, now);
    if page.Ok? then Replied(page.value) else Refused
  }

  function RepliesFor(p: R.Provider, cursors: map<string, Cursor>, clocks: map<Binding, U64>): (r: map<Binding, Reply>) {
    map b | b in clocks :: ProviderReply(p, b, After(CandidateOf(cursors, b)), clocks[b])
  }

  /** The protocol step an event amounts to; None leaves the shippers alone. */
  function StepOf(s: System, event: Event): (r: Option<Step>) {
    match event
    case Submit(_, _) => None
    case Poll(i, clocks, batchId, sentAt) =>
      var phase := PhaseOf(s.world, i);
      if phase.Collecting? then
        Some(Choose(i, RepliesFor(s.provider, phase.snapshot.cursors, clocks), batchId, sentAt))
      else None
    case Local(step) => if step.Choose? then None else Some(step)
  }

  function Advance(node: Uuid, s: System, event: Event): (r: System) {
    var step := StepOf(s, event);
    System(
      if event.Submit? then R.Accept(s.provider, event.command, event.now).provider else s.provider,
      if step.Some? then Apply(node, s.world, step.value) else s.world)
  }

  function Play(node: Uuid, events: seq<Event>): (s: System) {
    if events == [] then START
    else Advance(node, Play(node, events[..|events| - 1]), events[|events| - 1])
  }

  /** The protocol run inside a run of the whole system. */
  function Trace(node: Uuid, events: seq<Event>): (r: seq<Step>) {
    if events == [] then []
    else
      var before := events[..|events| - 1];
      var step := StepOf(Play(node, before), events[|events| - 1]);
      Trace(node, before) + (if step.Some? then [step.value] else [])
  }

  lemma {:induction false} SystemRunsTheProtocol(node: Uuid, events: seq<Event>)
    ensures Play(node, events).world == Exec(node, INITIAL, Trace(node, events))
  {
    if events != [] {
      var before := events[..|events| - 1];
      SystemRunsTheProtocol(node, before);
      var step := StepOf(Play(node, before), events[|events| - 1]);
      var steps := Trace(node, events);
      if step.Some? {
        assert steps[..|steps| - 1] == Trace(node, before);
      } else {
        assert steps == Trace(node, before);
      }
    }
  }

  ghost predicate Listed(events: seq<Event>, b: Binding) {
    forall k :: 0 <= k < |events| && events[k].Local? && events[k].step.Snap? ==> b in events[k].step.bindings
  }

  lemma {:induction false} ListedTrace(node: Uuid, events: seq<Event>, b: Binding)
    requires Listed(events, b)
    ensures AlwaysListed(Trace(node, events), b)
  {
    if events != [] {
      var before := events[..|events| - 1];
      ListedTrace(node, before, b);
      assert events[|events| - 1].Local? && events[|events| - 1].step.Snap? ==>
          b in events[|events| - 1].step.bindings;
    }
  }

  // ---------------------------------------------------------------------------------------
  // What the provider's pages say

  predicate HasRun(p: R.Provider, identity: RunIdentity) {
    identity.runId in p.runs && p.runs[identity.runId].identity == identity
  }

  function EventOf(p: R.Provider, identity: RunIdentity): (r: Record)
    requires HasRun(p, identity)
  {
    p.runs[identity.runId].event
  }

  /** A page the provider served for a run it still holds. */
  predicate Served(p: R.Provider, b: Binding, page: Page) {
    && HasRun(p, b.identity)
    && Honest([Some(EventOf(p, b.identity))], page)
    && !page.retentionGap
    && page.next == Some(0)
  }

  lemma ReplyIsServed(p: R.Provider, b: Binding, after: Option<U64>, now: U64)
    requires ProviderReply(p, b, after, now).Replied?
    ensures Served(p, b, ProviderReply(p, b, after, now).page)
  {
    var src := [Some(EventOf(p, b.identity))];
    assert Records(src, 0, 1) == [EventOf(p, b.identity)] by {
      assert Records(src, 0, 0) == [];
    }
    assert Records(src, 1, 1) == [];
  }

  lemma ServedSurvives(p: R.Provider, q: R.Provider, b: Binding, page: Page)
    requires Served(p, b, page) && R.Grew(p, q)
    ensures Served(q, b, page)
  {
  }

  predicate BatchServed(p: R.Provider, x: Batch) {
    Served(p, x.binding, x.page)
  }

  predicate AllServed(s: System) {
    && (forall x :: x in s.world.staged ==> BatchServed(s.provider, x))
    && (forall i :: i in s.world.shippers && s.world.shippers[i].Staging? ==>
          BatchServed(s.provider, s.world.shippers[i].batch))
  }

  lemma SubmitKeepsServed(node: Uuid, s: System, event: Event)
    requires event.Submit? && R.RunsOk(s.provider) && AllServed(s)
    ensures AllServed(Advance(node, s, event)) && R.RunsOk(Advance(node, s, event).provider)
  {
    var q := R.Accept(s.provider, event.command, event.now).provider;
    R.AcceptKeepsRunsOk(s.provider, event.command, event.now);
    forall x | BatchServed(s.provider, x)
      ensures BatchServed(q, x)
    {
      ServedSurvives(s.provider, q, x.binding, x.page);
    }
  }

  lemma PollKeepsServed(node: Uuid, s: System, event: Event)
    requires event.Poll? && AllServed(s)
    ensures AllServed(Advance(node, s, event))
  {
    var phase := PhaseOf(s.world, event.shipper);
    if phase.Collecting? {
      var replies := RepliesFor(s.provider, phase.snapshot.cursors, event.clocks);
      var r := CollectBatch(node, phase.bindings, phase.snapshot, replies, event.batchId, event.sentAt);
      if r.Ok? && r.value.Some? {
        CollectedBatch(node, phase.bindings, phase.snapshot, replies, event.batchId, event.sentAt);
        var x := r.value.value;
        ReplyIsServed(s.provider, x.binding, After(CandidateOf(phase.snapshot.cursors, x.binding)),
                      event.clocks[x.binding]);
      }
    }
  }

  lemma LocalKeepsServed(node: Uuid, s: System, event: Event)
    requires event.Local? && AllServed(s)
    ensures AllServed(Advance(node, s, event))
  {
  }

  lemma {:induction false} EverythingIsServed(node: Uuid, events: seq<Event>)
    ensures AllServed(Play(node, events)) && R.RunsOk(Play(node, events).provider)
  {
    if events != [] {
      var before, event := events[..|events| - 1], events[|events| - 1];
      EverythingIsServed(node, before);
      match event
      case Submit(_, _) => SubmitKeepsServed(node, Play(node, before), event);
      case Poll(_, _, _, _) => PollKeepsServed(node, Play(node, before), event);
      case Local(_) => LocalKeepsServed(node, Play(node, before), event);
    }
  }

  lemma {:induction false} PagesAreServed(s: seq<Batch>, p: R.Provider, b: Binding)
    requires forall x :: x in s ==> BatchServed(p, x)
    ensures forall page :: page in PagesOf(s, b) ==> Served(p, b, page)
  {
    if s != [] {
      assert BatchServed(p, s[|s| - 1]);
      PagesAreServed(s[..|s| - 1], p, b);
    }
  }

  /** Pages that continue one another and were all served for one event deliver exactly that event. */
  lemma ServedChainDelivers(pages: seq<Page>, e: Record)
    requires pages != [] && Chain(pages)
    requires forall p :: p in pages ==> Honest([Some(e)], p) && p.next == Some(0)
    ensures Delivered(pages) == [e]
  {
    var src := [Some(e)];
    ChainDelivers(pages, src);
    assert pages[|pages| - 1] in pages;
    assert Reached(pages) == 1;
    assert Records(src, 0, 1) == Records(src, 0, 0) + [e];
  }

  lemma LogIsServed(node: Uuid, events: seq<Event>, b: Binding)
    requires node != NIL
    ensures
      var s := Play(node, events);
      forall p :: p in PagesOf(Dedup(s.world.log), b) ==> Served(s.provider, b, p)
  {
    var s := Play(node, events);
    SystemRunsTheProtocol(node, events);
    ReachableInv(node, Trace(node, events));
    EverythingIsServed(node, events);
    DedupMembers(s.world.log);
    PagesAreServed(Dedup(s.world.log), s.provider, b);
  }

  lemma LogIsAChain(node: Uuid, events: seq<Event>, b: Binding)
    requires node != NIL && Listed(events, b)
    ensures
      var w := Play(node, events).world;
      && Tracked(node, w, b)
      && PagesOf(w.committed, b) <= PagesOf(Dedup(w.log), b)
      && Chain(PagesOf(Dedup(w.log), b))
  {
    var w := Play(node, events).world;
    SystemRunsTheProtocol(node, events);
    ListedTrace(node, events, b);
    ReachableInv(node, Trace(node, events));
    ReachableTracked(node, Trace(node, events), b);
    StagedIsAChain(node, w, b);
    assert w.committed <= Dedup(w.log);
    PagesOfPrefix(w.committed, Dedup(w.log), b);
  }

  /** At most once: under any crash schedule and any interleaving of commands, the deduplicated log
      holds for a listed binding either nothing or the one event of its run, once. */
  lemma EventDeliveredExactlyOnce(node: Uuid, events: seq<Event>, b: Binding)
    requires node != NIL && Listed(events, b)
    ensures
      var s := Play(node, events);
      var pages := PagesOf(Dedup(s.world.log), b);
      pages != [] ==>
        && HasRun(s.provider, b.identity)
        && Delivered(pages) == [EventOf(s.provider, b.identity)]
  {
    var s := Play(node, events);
    LogIsServed(node, events, b);
    LogIsAChain(node, events, b);
    var pages := PagesOf(Dedup(s.world.log), b);
    if pages != [] {
      assert Served(s.provider, b, pages[0]);
      ServedChainDelivers(pages, EventOf(s.provider, b.identity));
    }
  }

  /** And at least once: as soon as the binding has a cursor, drained or not, its run's event is in
      the log. */
  lemma CursorMeansDelivered(node: Uuid, events: seq<Event>, b: Binding)
    requires node != NIL && Listed(events, b)
    requires
      var cursors := Contents(Play(node, events).world.file, node).cursors;
      Key(b) in cursors && cursors[Key(b)].binding == b
    ensures
      var s := Play(node, events);
      && HasRun(s.provider, b.identity)
      && Delivered(PagesOf(Dedup(s.world.log), b)) == [EventOf(s.provider, b.identity)]
  {
    var w := Play(node, events).world;
    LogIsAChain(node, events, b);
    assert PagesOf(w.committed, b) != [];
    EventDeliveredExactlyOnce(node, events, b);
  }

  // ---------------------------------------------------------------------------------------
  // Draining a cancelled run

  predicate IsCancelled(p: R.Provider, b: Binding) {
    HasRun(p, b.identity) && p.runs[b.identity.runId].state.Cancelled?
  }

  /** The provider can still serve a cancelled run's next page: the shipper already holds the event,
      or the event is not a request for approval. */
  predicate StillServed(p: R.Provider, b: Binding, after: Option<U64>, now: U64) {
    && HasRun(p, b.identity)
    && now > 0
    && (|| after == Some(0)
        || (after.None? && !IsApprovalRequest(EventOf(p, b.identity)) && 0 < EventOf(p, b.identity).occurredAt <= now))
  }

  /** A cancelled run answers with a page that ends it exactly when it can still be served, and
      refuses otherwise. */
  lemma CancelledAnswersIff(p: R.Provider, b: Binding, c: Candidate, now: U64)
    requires R.RunsOk(p) && IsCancelled(p, b) && c.binding == b
    ensures EndedReply(c, ProviderReply(p, b, After(c), now), 1) <==> StillServed(p, b, After(c), now)
    ensures ProviderReply(p, b, After(c), now) == Refused <==> !StillServed(p, b, After(c), now)
  {
    R.PageServedIff(p, b.identity, After(c), now);
  }

  /** One provider observation per call: the provider as the call finds it and the clock it reads. */
  datatype Observation = Observation(provider: R.Provider, clock: U64)

  predicate CancelledCall(
    file: Option<State>, node: Uuid, call: Call, o: Observation, rivals: set<Binding>, b: Binding)
  {
    && ShipOnce(file, node, call).outcome.Ok?
    && (set x | x in call.bindings) == rivals
    && b in rivals
    && ClocksAdvance(Cursors(file, node), call.replies)
    && R.RunsOk(o.provider)
    && IsCancelled(o.provider, b)
    && ReplyOf(call.replies, b) == ProviderReply(o.provider, b, After(Place(file, node, b)), o.clock)
  }

  predicate CancelledCalls(
    file: Option<State>, node: Uuid, calls: seq<Call>, os: seq<Observation>, rivals: set<Binding>, b: Binding)
    requires |os| == |calls|
    decreases |calls|
  {
    calls != [] ==>
      && CancelledCall(file, node, calls[0], os[0], rivals, b)
      && CancelledCalls(ShipOnce(file, node, calls[0]).file, node, calls[1..], os[1..], rivals, b)
  }

  lemma {:induction false} CancelledCallsEnd(
    file: Option<State>, node: Uuid, calls: seq<Call>, os: seq<Observation>, rivals: set<Binding>, b: Binding)
    requires |os| == |calls| && CancelledCalls(file, node, calls, os, rivals, b)
    ensures EndedCalls(file, node, calls, rivals, b, 1)
    decreases |calls|
  {
    if calls != [] {
      CancelledAnswersIff(os[0].provider, b, Place(file, node, b), os[0].clock);
      CancelledCallsEnd(ShipOnce(file, node, calls[0]).file, node, calls[1..], os[1..], rivals, b);
    }
  }

  lemma AtMostTwoRounds(rivals: nat, c: Candidate)
    ensures rivals * ShipsLeft(c, 1) <= 2 * rivals
  {
    assert ShipsLeft(c, 1) == 0 || ShipsLeft(c, 1) == 1 || ShipsLeft(c, 1) == 2;
  }

  /** After an accepted Cancel, continued successful shipping drains the cursor: two rounds over the
      polled bindings suffice. Should the provider refuse the run, that run's turn would fail the
      call, so successful calls cannot go on without it. */
  lemma CancelledRunDrains(
    file: Option<State>, node: Uuid, calls: seq<Call>, os: seq<Observation>, rivals: set<Binding>, b: Binding)
    requires Ready(file, node) && |os| == |calls| && CancelledCalls(file, node, calls, os, rivals, b)
    requires b in rivals && |calls| >= 2 * |rivals|
    ensures Drained(Place(FileAfter(file, node, calls), node, b))
  {
    CancelledCallsEnd(file, node, calls, os, rivals, b);
    AtMostTwoRounds(|rivals|, Place(file, node, b));
    EndedRunDrains(file, node, calls, rivals, b, 1);
  }

  /** A run that asked for approval and no longer waits for it. */
  predicate PastApproval(p: R.Provider, b: Binding) {
    && HasRun(p, b.identity)
    && IsApprovalRequest(EventOf(p, b.identity))
    && !p.runs[b.identity.runId].state.AwaitingApproval?
  }

  /** Once a run that asked for approval has left AwaitingApproval, its first page is refused for
      ever: whatever is submitted later and whatever the clock reads. */
  lemma ApprovalRunOnceMovedIsNeverServed(p: R.Provider, q: R.Provider, b: Binding, now: U64)
    requires R.RunsOk(p) && R.RunsOk(q) && R.Grew(p, q) && PastApproval(p, b)
    ensures ProviderReply(q, b, None, now) == Refused
  {
    R.PageServedIff(q, b.identity, None, now);
  }

  predicate PastApprovalCalls(
    file: Option<State>, node: Uuid, calls: seq<Call>, os: seq<Observation>, p: R.Provider,
    rivals: set<Binding>, b: Binding)
    requires |os| == |calls|
    decreases |calls|
  {
    calls != [] ==>
      && ShipOnce(file, node, calls[0]).outcome.Ok?
      && (set x | x in calls[0].bindings) == rivals
      && R.RunsOk(os[0].provider) && R.Grew(p, os[0].provider)
      && ReplyOf(calls[0].replies, b) == ProviderReply(os[0].provider, b, After(Place(file, node, b)), os[0].clock)
      && PastApprovalCalls(ShipOnce(file, node, calls[0]).file, node, calls[1..], os[1..], p, rivals, b)
  }

  lemma {:induction false} PastApprovalCallsFail(
    file: Option<State>, node: Uuid, calls: seq<Call>, os: seq<Observation>, p: R.Provider,
    rivals: set<Binding>, b: Binding)
    requires Ready(file, node) && R.RunsOk(p) && PastApproval(p, b)
    requires |os| == |calls| && PastApprovalCalls(file, node, calls, os, p, rivals, b)
    requires b in rivals && Place(file, node, b).cursor.None?
    ensures FailingCalls(file, node, calls, rivals, b)
    decreases |calls|
  {
    if calls != [] {
      ApprovalRunOnceMovedIsNeverServed(p, os[0].provider, b, os[0].clock);
      assert Failing(Place(file, node, b), calls[0].replies);
      FailingCallUsesUpANewcomer(file, node, calls[0], rivals, b);
      PastApprovalCallsFail(ShipOnce(file, node, calls[0]).file, node, calls[1..], os[1..], p, rivals, b);
    }
  }

  /** Cancelled or resumed before its first page was shipped, such a run does not merely go without
      its event: as long as it is listed, fewer calls succeed than there are polled bindings without
      a cursor, and none of them ships a binding that has one. */
  lemma PastApprovalStopsShipping(
    file: Option<State>, node: Uuid, calls: seq<Call>, os: seq<Observation>, p: R.Provider,
    rivals: set<Binding>, b: Binding)
    requires Ready(file, node) && R.RunsOk(p) && PastApproval(p, b)
    requires |os| == |calls| && PastApprovalCalls(file, node, calls, os, p, rivals, b)
    requires b in rivals && Place(file, node, b).cursor.None?
    ensures |calls| < |Newcomers(file, node, rivals)|
  {
    PastApprovalCallsFail(file, node, calls, os, p, rivals, b);
    FailingNewcomerStopsShipping(file, node, calls, rivals, b);
  }

  function ApprovalStart(identity: RunIdentity, invocation: R.Invocation): (c: R.Command) {
    R.Start("start", identity, "start-digest", Some(invocation), R.APPROVAL_PROMPT)
  }

  lemma StartAsksApproval(identity: RunIdentity, tool: Tool, t: U64)
    requires identity.invocationProfileDigest == Some("invocation") && tool.approvalRequired && t > 0
    ensures
      var start := ApprovalStart(identity, R.Invocation("invocation", identity.releaseIdentity, [tool]));
      var p := R.Accept(R.NEW_PROVIDER, start, t).provider;
      && HasRun(p, identity)
      && IsApprovalRequest(EventOf(p, identity))
      && p.commands.Keys == {"start"}
  {
    assert R.ApprovalTools([tool]) == [tool] by {
      assert [tool][1..] == [];
    }
  }

  lemma CancelPastApproval(p: R.Provider, b: Binding, t: U64)
    requires HasRun(p, b.identity) && IsApprovalRequest(EventOf(p, b.identity))
    requires "cancel" !in p.commands && t > 0
    ensures
      var cancel := R.Cancel("cancel", b.identity, "cancel-digest", "changed mind");
      var q := R.Accept(p, cancel, t).provider;
      R.FirstAccepted(p, cancel, t) && IsCancelled(q, b) && PastApproval(q, b)
  {
  }

  lemma CancelledForGood(p: R.Provider, q: R.Provider, b: Binding)
    requires R.RunsOk(q) && R.Grew(p, q) && IsCancelled(p, b) && PastApproval(p, b)
    ensures IsCancelled(q, b) && PastApproval(q, b)
  {
  }

  /** A run comes there by an ordinary history. Started with the approval prompt and cancelled before
      any page was polled, its first page is refused whatever commands follow, so every call that
      lists it fails once the other bindings without a cursor have shipped. */
  lemma CancelBeforeFirstPageStrands(b: Binding, tool: Tool, later: seq<R.Submission>, t: U64, now: U64)
    requires b.identity.invocationProfileDigest == Some("invocation")
    requires tool.approvalRequired && t > 0
    ensures
      var start := R.Submission(ApprovalStart(b.identity, R.Invocation("invocation", b.identity.releaseIdentity, [tool])), t);
      var cancel := R.Submission(R.Cancel("cancel", b.identity, "cancel-digest", "changed mind"), t);
      var history := [start, cancel] + later;
      && R.FirstAccepted(R.At(history, 1), cancel.command, t)
      && IsCancelled(R.After(R.NEW_PROVIDER, history), b)
      && PastApproval(R.After(R.NEW_PROVIDER, history), b)
      && ProviderReply(R.After(R.NEW_PROVIDER, history), b, None, now) == Refused
  {
    var start := R.Submission(ApprovalStart(b.identity, R.Invocation("invocation", b.identity.releaseIdentity, [tool])), t);
    var cancel := R.Submission(R.Cancel("cancel", b.identity, "cancel-digest", "changed mind"), t);
    var history := [start, cancel] + later;
    assert history[..0] == [] && R.At(history, 0) == R.NEW_PROVIDER;
    R.AtSucc(history, 0);
    StartAsksApproval(b.identity, tool, t);
    R.AtSucc(history, 1);
    CancelPastApproval(R.At(history, 1), b, t);
    R.EveryRunIsOk(history);
    R.RunsOnlyMoveForward(history, 2, |history|);
    assert history[..|history|] == history;
    var last := R.After(R.NEW_PROVIDER, history);
    CancelledForGood(R.At(history, 2), last, b);
    R.PageServedIff(last, b.identity, None, now);
  }
}
