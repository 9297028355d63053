/** The two halves joined: calls made in the running system, so that what drains is also delivered. */
module EndToEnd {
  import opened Base
  import opened ProviderEvents
  import opened Shipping
  import opened Collect
  import opened Protocol
  import opened Delivery
  import opened Progress
  import opened Fairness
  import opened Composed
  import R = ReferenceProvider

  /** Commands that reach the provider, and then one call of a shipper. */
  datatype Round = Round(
    commands: seq<R.Submission>,
    bindings: seq<Binding>,
    clocks: map<Binding, U64>,
    batchId: Uuid,
    now: U64,
    upload: Upload)

  function SubmitAll(commands: seq<R.Submission>): (r: seq<Event>) {
    seq(|commands|, k requires 0 <= k < |commands| => Submit(commands[k].command, commands[k].now))
  }

  function CallEvents(i: nat, r: Round): (e: seq<Event>) {
    [Local(Snap(i, r.bindings)), Poll(i, r.clocks, r.batchId, r.now), Local(Stage(i)),
     Local(Send(i, r.upload)), Local(Acknowledge(i))]
  }

  function RoundEvents(i: nat, r: Round): (e: seq<Event>) {
    SubmitAll(r.commands) + CallEvents(i, r)
  }

  function Events(i: nat, rounds: seq<Round>): (e: seq<Event>) {
    if rounds == [] then [] else RoundEvents(i, rounds[0]) + Events(i, rounds[1..])
  }

  function PlayFrom(node: Uuid, s: System, events: seq<Event>): (r: System) {
    if events == [] then s
    else Advance(node, PlayFrom(node, s, events[..|events| - 1]), events[|events| - 1])
  }

  lemma {:induction false} PlayJoin(node: Uuid, s: System, a: seq<Event>, b: seq<Event>)
    ensures PlayFrom(node, PlayFrom(node, s, a), b) == PlayFrom(node, s, a + b)
  {
    var all := a + b;
    if b == [] {
      assert all == a;
    } else {
      var n := |b| - 1;
      PlayJoin(node, s, a, b[..n]);
      assert all[..|all| - 1] == a + b[..n] && all[|all| - 1] == b[n];
    }
  }

  lemma {:induction false} PlayFromStart(node: Uuid, events: seq<Event>)
    ensures PlayFrom(node, START, events) == Play(node, events)
  {
    if events != [] {
      PlayFromStart(node, events[..|events| - 1]);
    }
  }

  lemma {:induction false} SubmissionsAtTheProvider(node: Uuid, s: System, commands: seq<R.Submission>)
    requires R.RunsOk(s.provider)
    ensures
      var t := PlayFrom(node, s, SubmitAll(commands));
      t.world == s.world && R.RunsOk(t.provider) && R.Grew(s.provider, t.provider)
  {
    var events := SubmitAll(commands);
    if commands != [] {
      var n := |commands| - 1;
      SubmissionsAtTheProvider(node, s, commands[..n]);
      assert events[..|events| - 1] == SubmitAll(commands[..n]);
      var before := PlayFrom(node, s, SubmitAll(commands[..n]));
      R.AcceptKeepsRunsOk(before.provider, commands[n].command, commands[n].now);
      var t := PlayFrom(node, s, events);
      assert t == Advance(node, before, events[n]);
      R.GrewTransitive(s.provider, before.provider, t.provider);
    }
  }

  /** What a call meets when it runs in the system: the provider's answers to the retained cursors. */
  function CallIn(node: Uuid, s: System, r: Round): (c: Call) {
    Call(r.bindings, RepliesFor(s.provider, Retained(Cursors(s.world.file, node), r.bindings), r.clocks),
         r.batchId, r.now, r.upload)
  }

  lemma FiveEvents(node: Uuid, s: System, a: Event, b: Event, c: Event, d: Event, e: Event)
    ensures PlayFrom(node, s, [a, b, c, d, e]) ==
            Advance(node, Advance(node, Advance(node, Advance(node, Advance(node, s, a), b), c), d), e)
  {
    assert [a, b, c, d, e][..4] == [a, b, c, d] && [a, b, c, d][..3] == [a, b, c];
    assert [a, b, c][..2] == [a, b] && [a, b][..1] == [a] && [a][..0] == [];
    assert PlayFrom(node, s, [a]) == Advance(node, s, a);
    assert PlayFrom(node, s, [a, b]) == Advance(node, PlayFrom(node, s, [a]), b);
    assert PlayFrom(node, s, [a, b, c]) == Advance(node, PlayFrom(node, s, [a, b]), c);
    assert PlayFrom(node, s, [a, b, c, d]) == Advance(node, PlayFrom(node, s, [a, b, c]), d);
  }

  /** Polling is choosing among the answers the call meets. */
  lemma PollIsChoose(node: Uuid, s: System, i: nat, r: Round)
    requires Ready(s.world.file, node) && PhaseOf(s.world, i).Idle?
    ensures
      var call := CallIn(node, s, r);
      var s1 := Advance(node, s, Local(Snap(i, r.bindings)));
      && s1.provider == s.provider
      && s1.world == Apply(node, s.world, Snap(i, r.bindings))
      && Advance(node, s1, Poll(i, r.clocks, r.batchId, r.now)) ==
           System(s.provider, Apply(node, s1.world, Choose(i, call.replies, r.batchId, r.now)))
  {
    var snap := Snapshot(s.world.file, node, r.bindings);
    if snap.outcome.Ok? {
      SnapshotRetains(s.world.file, node, r.bindings);
    }
  }

  /** A call played in the system is a call on its file. */
  lemma RoundIsACall(node: Uuid, s: System, i: nat, r: Round)
    requires Ready(s.world.file, node) && PhaseOf(s.world, i).Idle? && r.batchId !in s.world.used
    ensures
      var t := PlayFrom(node, s, CallEvents(i, r));
      && t.provider == s.provider
      && t.world.file == ShipOnce(s.world.file, node, CallIn(node, s, r)).file
      && PhaseOf(t.world, i).Idle?
  {
    var call := CallIn(node, s, r);
    FiveEvents(node, s, Local(Snap(i, r.bindings)), Poll(i, r.clocks, r.batchId, r.now), Local(Stage(i)),
               Local(Send(i, r.upload)), Local(Acknowledge(i)));
    PollIsChoose(node, s, i, r);
    FiveSteps(node, s.world, Snap(i, call.bindings), Choose(i, call.replies, call.batchId, call.now), Stage(i),
              Send(i, call.upload), Acknowledge(i));
    CallIsAProtocolRun(node, s.world, i, call);
  }

  /** A round whose call succeeds: it polls exactly `rivals`, reaches the unit of `b`, draws a fresh
      batch id and meets clocks that advance. */
  predicate GoodRound(node: Uuid, s: System, r: Round, rivals: set<Binding>, b: Binding) {
    var t := PlayFrom(node, s, SubmitAll(r.commands));
    var call := CallIn(node, t, r);
    && r.batchId !in t.world.used
    && (set x | x in r.bindings) == rivals
    && b in rivals
    && b in r.clocks
    && ShipOnce(t.world.file, node, call).outcome.Ok?
    && ClocksAdvance(Cursors(t.world.file, node), call.replies)
  }

  predicate GoodRounds(node: Uuid, s: System, i: nat, rounds: seq<Round>, rivals: set<Binding>, b: Binding)
    decreases |rounds|
  {
    rounds != [] ==>
      && GoodRound(node, s, rounds[0], rivals, b)
      && GoodRounds(node, PlayFrom(node, s, RoundEvents(i, rounds[0])), i, rounds[1..], rivals, b)
  }

  /** The calls of the rounds and what each found at the provider. */
  function CallsIn(node: Uuid, s: System, i: nat, rounds: seq<Round>): (r: seq<Call>)
    ensures |r| == |rounds|
    decreases |rounds|
  {
    if rounds == [] then []
    else
      [CallIn(node, PlayFrom(node, s, SubmitAll(rounds[0].commands)), rounds[0])] +
      CallsIn(node, PlayFrom(node, s, RoundEvents(i, rounds[0])), i, rounds[1..])
  }

  function Observed(node: Uuid, s: System, i: nat, rounds: seq<Round>, b: Binding): (r: seq<Observation>)
    ensures |r| == |rounds|
    decreases |rounds|
  {
    if rounds == [] then []
    else
      [Observation(PlayFrom(node, s, SubmitAll(rounds[0].commands)).provider,
                   if b in rounds[0].clocks then rounds[0].clocks[b] else 0)] +
      Observed(node, PlayFrom(node, s, RoundEvents(i, rounds[0])), i, rounds[1..], b)
  }

  lemma CancelledStays(p: R.Provider, q: R.Provider, b: Binding)
    requires R.Grew(p, q) && R.RunsOk(q) && IsCancelled(p, b)
    ensures IsCancelled(q, b)
  {
  }

  lemma AnswerMetByCall(node: Uuid, s: System, r: Round, b: Binding)
    requires b in r.bindings && b in r.clocks
    ensures ReplyOf(CallIn(node, s, r).replies, b) ==
            ProviderReply(s.provider, b, After(Place(s.world.file, node, b)), r.clocks[b])
  {
    RetainedCandidate(Cursors(s.world.file, node), r.bindings, b);
  }

  lemma GoodRoundIsACancelledCall(node: Uuid, s: System, r: Round, rivals: set<Binding>, b: Binding)
    requires Ready(s.world.file, node)
    requires R.RunsOk(s.provider) && IsCancelled(s.provider, b) && GoodRound(node, s, r, rivals, b)
    ensures
      var at := PlayFrom(node, s, SubmitAll(r.commands));
      && at.world == s.world
      && R.RunsOk(at.provider) && IsCancelled(at.provider, b)
      && CancelledCall(s.world.file, node, CallIn(node, at, r), Observation(at.provider, r.clocks[b]), rivals, b)
  {
    var at := PlayFrom(node, s, SubmitAll(r.commands));
    SubmissionsAtTheProvider(node, s, r.commands);
    CancelledStays(s.provider, at.provider, b);
    assert b in (set x | x in r.bindings);
    AnswerMetByCall(node, at, r, b);
  }

  lemma GoodRoundGoesOn(node: Uuid, s: System, i: nat, r: Round, rivals: set<Binding>, b: Binding)
    requires Ready(s.world.file, node) && PhaseOf(s.world, i).Idle?
    requires R.RunsOk(s.provider) && IsCancelled(s.provider, b) && GoodRound(node, s, r, rivals, b)
    ensures
      var at := PlayFrom(node, s, SubmitAll(r.commands));
      var t := PlayFrom(node, s, RoundEvents(i, r));
      && t.world.file == ShipOnce(s.world.file, node, CallIn(node, at, r)).file
      && Ready(t.world.file, node) && PhaseOf(t.world, i).Idle?
      && R.RunsOk(t.provider) && IsCancelled(t.provider, b)
  {
    var at := PlayFrom(node, s, SubmitAll(r.commands));
    GoodRoundIsACancelledCall(node, s, r, rivals, b);
    PlayJoin(node, s, SubmitAll(r.commands), CallEvents(i, r));
    RoundIsACall(node, at, i, r);
    SuccessfulCall(at.world.file, node, CallIn(node, at, r));
  }

  lemma {:induction false} RoundsAreCancelledCalls(
    node: Uuid, s: System, i: nat, rounds: seq<Round>, rivals: set<Binding>, b: Binding)
    requires Ready(s.world.file, node) && PhaseOf(s.world, i).Idle?
    requires R.RunsOk(s.provider) && IsCancelled(s.provider, b) && GoodRounds(node, s, i, rounds, rivals, b)
    ensures CancelledCalls(s.world.file, node, CallsIn(node, s, i, rounds), Observed(node, s, i, rounds, b), rivals, b)
    ensures PlayFrom(node, s, Events(i, rounds)).world.file ==
            FileAfter(s.world.file, node, CallsIn(node, s, i, rounds))
    decreases |rounds|
  {
    if rounds != [] {
      var t := PlayFrom(node, s, RoundEvents(i, rounds[0]));
      GoodRoundIsACancelledCall(node, s, rounds[0], rivals, b);
      GoodRoundGoesOn(node, s, i, rounds[0], rivals, b);
      RoundsAreCancelledCalls(node, t, i, rounds[1..], rivals, b);
      PlayJoin(node, s, RoundEvents(i, rounds[0]), Events(i, rounds[1..]));
      var calls, os := CallsIn(node, s, i, rounds), Observed(node, s, i, rounds, b);
      assert calls[1..] == CallsIn(node, t, i, rounds[1..]) && os[1..] == Observed(node, t, i, rounds[1..], b);
    }
  }

  lemma {:induction false} CancelledCallsOwnCursors(
    file: Option<State>, node: Uuid, calls: seq<Call>, os: seq<Observation>, rivals: set<Binding>, b: Binding)
    requires Ready(file, node) && |os| == |calls| && CancelledCalls(file, node, calls, os, rivals, b)
    requires calls != [] || OwnCursor(file, node, b)
    ensures OwnCursor(FileAfter(file, node, calls), node, b)
    decreases |calls|
  {
    if calls != [] {
      assert b in (set x | x in calls[0].bindings);
      SuccessfulCall(file, node, calls[0]);
      SuccessfulCallOwnsCursors(file, node, calls[0], b);
      CancelledCallsOwnCursors(ShipOnce(file, node, calls[0]).file, node, calls[1..], os[1..], rivals, b);
    }
  }

  /** The rounds drain the cursor, and the drained cursor is the binding's own. */
  lemma RoundsDrain(node: Uuid, s: System, i: nat, rounds: seq<Round>, rivals: set<Binding>, b: Binding)
    requires Ready(s.world.file, node) && PhaseOf(s.world, i).Idle?
    requires R.RunsOk(s.provider) && IsCancelled(s.provider, b) && GoodRounds(node, s, i, rounds, rivals, b)
    requires b in rivals && |rounds| >= 2 * |rivals|
    ensures
      var file := PlayFrom(node, s, Events(i, rounds)).world.file;
      Drained(Place(file, node, b)) && OwnCursor(file, node, b)
  {
    var calls, os := CallsIn(node, s, i, rounds), Observed(node, s, i, rounds, b);
    RoundsAreCancelledCalls(node, s, i, rounds, rivals, b);
    AheadIsBounded(s.world.file, node, rivals, b);
    CancelledRunDrains(s.world.file, node, calls, os, rivals, b);
    CancelledCallsOwnCursors(s.world.file, node, calls, os, rivals, b);
  }

  lemma PlayThenPlayFrom(node: Uuid, events: seq<Event>, more: seq<Event>)
    ensures Play(node, events + more) == PlayFrom(node, Play(node, events), more)
  {
    PlayFromStart(node, events);
    PlayFromStart(node, events + more);
    PlayJoin(node, START, events, more);
  }

  lemma ListedJoin(a: seq<Event>, b: seq<Event>, x: Binding)
    requires Composed.Listed(a, x) && Composed.Listed(b, x)
    ensures Composed.Listed(a + b, x)
  {
  }

  lemma {:induction false} EventsAreListed(i: nat, rounds: seq<Round>, b: Binding)
    requires forall k :: 0 <= k < |rounds| ==> b in rounds[k].bindings
    ensures Composed.Listed(Events(i, rounds), b)
  {
    if rounds != [] {
      EventsAreListed(i, rounds[1..], b);
      assert forall e :: e in RoundEvents(i, rounds[0]) && e.Local? && e.step.Snap? ==> e.step.bindings == rounds[0].bindings;
    }
  }

  lemma {:induction false} GoodRoundsList(
    node: Uuid, s: System, i: nat, rounds: seq<Round>, rivals: set<Binding>, b: Binding)
    requires GoodRounds(node, s, i, rounds, rivals, b)
    ensures forall k :: 0 <= k < |rounds| ==> b in rounds[k].bindings
    decreases |rounds|
  {
    if rounds != [] {
      GoodRoundsList(node, PlayFrom(node, s, RoundEvents(i, rounds[0])), i, rounds[1..], rivals, b);
      assert b in (set x | x in rounds[0].bindings);
    }
  }

  /** Cancelled, drained and delivered. Take the system after any history of commands, crashes and
      interleavings, with a run that is cancelled, a free slot and an idle shipper. After two rounds
      of successful calls over the polled bindings, whatever commands come in between, the run's
      cursor is drained and the control plane's deduplicated log holds its event, exactly once. */
  lemma CancelledRunIsDeliveredOnce(
    node: Uuid, events: seq<Event>, i: nat, rounds: seq<Round>, rivals: set<Binding>, b: Binding)
    requires node != NIL && Composed.Listed(events, b) && b in rivals
    requires
      var s := Play(node, events);
      && IsCancelled(s.provider, b)
      && Ready(s.world.file, node)
      && PhaseOf(s.world, i).Idle?
      && GoodRounds(node, s, i, rounds, rivals, b)
    requires |rounds| >= 2 * |rivals|
    ensures
      var t := Play(node, events + Events(i, rounds));
      && Drained(Place(t.world.file, node, b))
      && HasRun(t.provider, b.identity)
      && Delivered(PagesOf(Dedup(t.world.log), b)) == [EventOf(t.provider, b.identity)]
  {
    var more := Events(i, rounds);
    EverythingIsServed(node, events);
    RoundsDrain(node, Play(node, events), i, rounds, rivals, b);
    PlayThenPlayFrom(node, events, more);
    GoodRoundsList(node, Play(node, events), i, rounds, rivals, b);
    EventsAreListed(i, rounds, b);
    ListedJoin(events, more, b);
    CursorMeansDelivered(node, events + more, b);
  }
}
