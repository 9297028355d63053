/** Provider event pages, the batches that carry them and the receipts that settle
    them: crates/contracts/src/agent_provider/events.rs and
    crates/contracts/src/node/agent_provider.rs. */
module ProviderEvents {
  import opened Base
  import opened Text

  datatype RunState =
    | Created | Planning | Executing | AwaitingApproval | Verifying
    | Completed | Failed | Cancelled

  predicate IsTerminal(s: RunState) {
    s.Completed? || s.Failed? || s.Cancelled?
  }

  /** A run is over in three of its eight states. */
  lemma OverIff(s: RunState)
    ensures !IsTerminal(s) <==> s in {Created, Planning, Executing, AwaitingApproval, Verifying}
  {
  }

  datatype Capability =
    | Cancellation | Cleanup | EventPages | PauseResume | Recovery | StreamingOutput | ToolCalls

  /** contracts/a1.3/reference-echo-provider-profile.acl, the one profile a node admits. */
  const REFERENCE_CAPABILITIES: set<Capability> :=
    {Cancellation, Cleanup, EventPages, PauseResume, StreamingOutput, ToolCalls}

  /** A run identity together with the digest `digest()` returns for it. Nothing is
      assumed of the digest: two identities may share one. */
  datatype RunIdentity = RunIdentity(
    invocationProfileDigest: Option<string>,
    releaseIdentity: string,
    sessionId: string,
    runId: string,
    digest: string)

  /** `admitted` stands for validate_reference_echo_binding: the field checks of the
      binding and its profile being the reference profile. */
  datatype Binding = Binding(
    executionId: Uuid,
    runtimeUnitId: string,
    runtimeGeneration: U64,
    runtimeSpecDigest: string,
    identity: RunIdentity,
    admitted: bool)

  datatype Tool = Tool(name: string, revision: string, contractDigest: string, approvalRequired: bool)

  datatype Payload = Payload(digest: string, sizeBytes: U64, mediaType: string)

  datatype SemanticEvent =
    | ModelOutput(text: string)
    | ToolRequest(callId: string, tool: Tool, request: Payload)
    | ToolResult(callId: string, tool: Tool, requestDigest: string, succeeded: bool, result: Payload)

  datatype Record = Record(sequence: U64, occurredAt: U64, event: SemanticEvent)

  datatype Page = Page(
    identity: RunIdentity,
    after: Option<U64>,
    firstAvailable: Option<U64>,
    sourceFirst: Option<U64>,
    sourceLast: Option<U64>,
    sourceCount: U64,
    latestExclusive: U64,
    next: Option<U64>,
    state: RunState,
    observedAt: U64,
    retentionGap: bool,
    hasMore: bool,
    terminalFailure: Option<string>,
    events: seq<Record>)

  const MAX_EVENTS_PER_PAGE: int := 64

  /** next_sequence: the first source sequence behind a cursor; None is the overflow error. */
  function NextSequence(after: Option<U64>): (r: Option<U64>) {
    if after.None? then Some(0)
    else if after.value == U64_MAX then None
    else Some(after.value + 1)
  }

  /** How many source events lie at or before a cursor. */
  function Position(after: Option<U64>): (n: nat)
    ensures n == 0 <==> after.None?
  {
    if after.None? then 0 else after.value + 1
  }

  predicate GapEvidence(p: Page) {
    && NextSequence(p.after).Some?
    && p.events == []
    && p.terminalFailure.None?
    && p.sourceFirst.None?
    && p.sourceLast.None?
    && p.sourceCount == 0
    && !p.hasMore
    && p.next == p.after
    && p.firstAvailable.Some?
    && NextSequence(p.after).value < p.firstAvailable.value <= p.latestExclusive
  }

  predicate SourceInterval(p: Page) {
    && NextSequence(p.after).Some?
    && (p.firstAvailable.Some? ==> p.firstAvailable.value <= NextSequence(p.after).value)
    && if p.sourceCount == 0 then p.sourceFirst.None? && p.sourceLast.None?
       else
         && p.sourceFirst == NextSequence(p.after)
         && p.sourceLast.Some?
         && p.sourceFirst.value <= p.sourceLast.value
         && p.sourceLast.value - p.sourceFirst.value + 1 == p.sourceCount
  }

  /** One turn of the event loop: the record follows its predecessor inside the interval. */
  predicate RecordFits(p: Page, i: nat)
    requires i < |p.events|
  {
    var r := p.events[i];
    && r.occurredAt > 0
    && (if i == 0 then p.after.Some? ==> r.sequence > p.after.value
        else r.sequence > p.events[i - 1].sequence)
    && p.sourceFirst.Some? && r.sequence >= p.sourceFirst.value
    && p.sourceLast.Some? && r.sequence <= p.sourceLast.value
    && r.occurredAt <= p.observedAt
  }

  predicate OrderedSubset(p: Page) {
    forall i :: 0 <= i < |p.events| ==> RecordFits(p, i)
  }

  predicate CursorEvidence(p: Page) {
    var cursor := if p.sourceCount == 0 then p.after else p.sourceLast;
    && p.next == cursor
    && (cursor.Some? ==> cursor.value < p.latestExclusive)
    && (p.hasMore ==> cursor.Some? && cursor.value + 1 < p.latestExclusive)
    && (!p.hasMore ==>
          if cursor.Some? then cursor.value + 1 == p.latestExclusive else p.latestExclusive == 0)
  }

  const MAX_FAILURE_BYTES: nat := 16384

  predicate FailureOk(reason: string) {
    && reason != "" && Utf8Length(reason) <= MAX_FAILURE_BYTES
    && '\0' !in reason && '\r' !in reason && '\n' !in reason
  }

  predicate TerminalFailureEvidence(p: Page) {
    if p.terminalFailure.Some? then p.state.Failed? && !p.hasMore && FailureOk(p.terminalFailure.value)
    else p.state.Failed? ==> p.hasMore
  }

  /** AgentProviderEventPageV1::validate. */
  predicate PageValid(p: Page) {
    && p.observedAt > 0
    && p.sourceCount <= MAX_EVENTS_PER_PAGE
    && |p.events| <= p.sourceCount
    && if p.retentionGap then GapEvidence(p)
       else TerminalFailureEvidence(p) && SourceInterval(p) && OrderedSubset(p) && CursorEvidence(p)
  }

  predicate IsApprovalRequest(r: Record) {
    r.event.ToolRequest? && r.event.tool.approvalRequired
  }

  predicate IsToolEvent(r: Record) {
    r.event.ToolRequest? || r.event.ToolResult?
  }

  function ApprovalRequests(events: seq<Record>): (r: seq<Record>) {
    if events == [] then []
    else (if IsApprovalRequest(events[0]) then [events[0]] else []) + ApprovalRequests(events[1..])
  }

  /** AgentProviderEventPageV1::validate_for: a request for approval closes one paused page. */
  predicate PageValidFor(p: Page, profile: set<Capability>) {
    && PageValid(p)
    && ((exists i :: 0 <= i < |p.events| && IsToolEvent(p.events[i])) ==> ToolCalls in profile)
    && (p.state.AwaitingApproval? ==> PauseResume in profile)
    && var requests := ApprovalRequests(p.events);
       if |requests| == 1 then
         && PauseResume in profile
         && p.state.AwaitingApproval?
         && !p.hasMore
         && !p.retentionGap
         && p.sourceLast == Some(requests[0].sequence)
       else
         && requests == []
         && (p.state.AwaitingApproval? ==> p.sourceCount == 0 && p.events == [])
  }

  /** A valid page covers exactly the source events behind its cursor, up to `next`. */
  lemma ValidPageAdvances(p: Page)
    requires PageValid(p)
    ensures Position(p.next) == Position(p.after) + p.sourceCount
    ensures p.retentionGap ==> p.next == p.after && !p.hasMore
    ensures Position(p.next) <= p.latestExclusive
    ensures !p.retentionGap && !p.hasMore ==> Position(p.next) == p.latestExclusive
    ensures !p.retentionGap && p.hasMore ==> Position(p.next) < p.latestExclusive
  {
  }

  // ---------------------------------------------------------------------------------------
  // What validation admits, in terms of positions

  /** The records lie behind the cursor and within the page, in strictly increasing order, and none
      is later than the page itself. */
  predicate EventsInOrder(p: Page) {
    && (forall i :: 0 <= i < |p.events| ==>
          && Position(p.after) <= p.events[i].sequence < Position(p.next)
          && 0 < p.events[i].occurredAt <= p.observedAt)
    && (forall i, j :: 0 <= i < j < |p.events| ==> p.events[i].sequence < p.events[j].sequence)
  }

  /** A page behind a gap: it says where the source now starts, and nothing else. */
  predicate SaysGap(p: Page) {
    && p.next == p.after && p.sourceCount == 0 && p.sourceFirst.None? && p.sourceLast.None?
    && p.events == [] && p.terminalFailure.None? && !p.hasMore
    && p.firstAvailable.Some?
    && Position(p.after) < p.firstAvailable.value <= p.latestExclusive
  }

  /** A contiguous page: it covers the next `sourceCount` events, and says whether more follow. */
  predicate SaysInterval(p: Page) {
    && (p.firstAvailable.Some? ==> p.firstAvailable.value <= Position(p.after))
    && Position(p.next) == Position(p.after) + p.sourceCount
    && p.sourceFirst == (if p.sourceCount == 0 then None else Some(Position(p.after)))
    && p.sourceLast == (if p.sourceCount == 0 then None else p.next)
    && Position(p.next) <= p.latestExclusive
    && (p.hasMore <==> Position(p.next) < p.latestExclusive)
    && (p.hasMore ==> p.next.Some?)
  }

  /** A failed run gives its reason on its last page, and no other page does. */
  predicate SaysFailure(p: Page) {
    && (p.terminalFailure.Some? <==> p.state.Failed? && !p.hasMore)
    && (p.terminalFailure.Some? ==> FailureOk(p.terminalFailure.value))
  }

  lemma {:induction false} SequencesIncrease(p: Page, i: nat, j: nat)
    requires OrderedSubset(p) && i < j < |p.events|
    ensures p.events[i].sequence < p.events[j].sequence
  {
    assert RecordFits(p, j);
    if i < j - 1 {
      SequencesIncrease(p, i, j - 1);
    }
  }

  lemma IntervalIff(p: Page)
    requires p.after != Some(U64_MAX)
    ensures SourceInterval(p) && CursorEvidence(p) <==> SaysInterval(p)
  {
  }

  lemma EventsInOrderIff(p: Page)
    requires SaysInterval(p) && p.after != Some(U64_MAX) && |p.events| <= p.sourceCount
    ensures OrderedSubset(p) <==> EventsInOrder(p)
  {
    if OrderedSubset(p) {
      forall i, j | 0 <= i < j < |p.events|
        ensures p.events[i].sequence < p.events[j].sequence
      {
        SequencesIncrease(p, i, j);
      }
      forall i | 0 <= i < |p.events|
        ensures Position(p.after) <= p.events[i].sequence < Position(p.next)
        ensures 0 < p.events[i].occurredAt <= p.observedAt
      {
        assert RecordFits(p, i);
      }
    }
    if EventsInOrder(p) {
      forall i | 0 <= i < |p.events|
        ensures RecordFits(p, i)
      {
      }
    }
  }

  /** Page validation, exactly. */
  lemma PageValidIff(p: Page)
    ensures PageValid(p) <==>
            && p.observedAt > 0 && p.sourceCount <= 64 && |p.events| <= p.sourceCount && p.after != Some(U64_MAX)
            && if p.retentionGap then SaysGap(p) else SaysFailure(p) && SaysInterval(p) && EventsInOrder(p)
  {
    if p.after != Some(U64_MAX) {
      IntervalIff(p);
      if SaysInterval(p) && |p.events| <= p.sourceCount {
        EventsInOrderIff(p);
      }
    }
  }

  lemma {:induction false} RequestsAreThoseOf(events: seq<Record>)
    ensures |ApprovalRequests(events)| <= |events|
    ensures forall r :: r in ApprovalRequests(events) <==> r in events && IsApprovalRequest(r)
  {
    if events != [] {
      RequestsAreThoseOf(events[1..]);
    }
  }

  lemma {:induction false} TwoRequests(events: seq<Record>)
    requires |ApprovalRequests(events)| > 1
    ensures exists i, j :: 0 <= i < j < |events| && IsApprovalRequest(events[i]) && IsApprovalRequest(events[j])
  {
    var rest := events[1..];
    if IsApprovalRequest(events[0]) {
      RequestsAreThoseOf(rest);
      var r := ApprovalRequests(rest)[0];
      assert r in ApprovalRequests(rest);
      var j :| 0 <= j < |rest| && rest[j] == r;
      assert events[j + 1] == r;
    } else {
      TwoRequests(rest);
      var i, j :| 0 <= i < j < |rest| && IsApprovalRequest(rest[i]) && IsApprovalRequest(rest[j]);
      assert events[i + 1] == rest[i] && events[j + 1] == rest[j];
    }
  }

  /** A request for approval, if there is one, closes the page and the run waits for it; a run that
      waits sends nothing else. Tool events and waiting need a profile that knows them. */
  predicate SaysApproval(p: Page, profile: set<Capability>) {
    && (forall i :: 0 <= i < |p.events| ==> IsToolEvent(p.events[i]) ==> ToolCalls in profile)
    && (p.state.AwaitingApproval? ==> PauseResume in profile)
    && (forall i :: 0 <= i < |p.events| && IsApprovalRequest(p.events[i]) ==>
          && p.state.AwaitingApproval? && !p.hasMore
          && p.events[i].sequence + 1 == Position(p.next))
    && (p.state.AwaitingApproval? && p.sourceCount > 0 ==>
          exists i :: 0 <= i < |p.events| && IsApprovalRequest(p.events[i]))
  }

  lemma ApprovalPageIff(p: Page, profile: set<Capability>)
    ensures PageValidFor(p, profile) <==> PageValid(p) && SaysApproval(p, profile)
  {
    if PageValid(p) {
      PageValidIff(p);
      var requests := ApprovalRequests(p.events);
      RequestsAreThoseOf(p.events);
      if |requests| > 1 {
        TwoRequests(p.events);
      }
      if |requests| == 1 {
        assert requests[0] in requests;
      }
    }
  }

  datatype Batch = Batch(batchId: Uuid, nodeId: Uuid, binding: Binding, page: Page, sentAt: U64)

  /** NodeAgentProviderEventBatchV1::validate for an admitted binding. */
  predicate BatchValid(b: Batch) {
    && b.batchId != NIL
    && b.nodeId != NIL
    && b.binding.admitted
    && PageValidFor(b.page, REFERENCE_CAPABILITIES)
    && b.page.identity == b.binding.identity
    && b.sentAt >= b.page.observedAt
  }

  /** A receipt names the page it settles; the source names it by its digest. */
  datatype Receipt = Receipt(
    batchId: Uuid, nodeId: Uuid, executionId: Uuid, page: Page, acceptedAt: U64, replayed: bool)

  /** NodeAgentProviderEventReceiptV1::validate_for. */
  predicate ReceiptMatches(r: Receipt, b: Batch) {
    && BatchValid(b)
    && r.batchId == b.batchId
    && r.nodeId == b.nodeId
    && r.executionId == b.binding.executionId
    && r.page == b.page
    && r.acceptedAt > 0
    && r.acceptedAt >= b.sentAt
  }

  /** The receipt an accepting control plane issues at time `acceptedAt`. */
  function ReceiptFor(b: Batch, acceptedAt: U64, replayed: bool): (r: Receipt)
    ensures ReceiptMatches(r, b) <==> BatchValid(b) && acceptedAt >= b.sentAt
  {
    Receipt(b.batchId, b.nodeId, b.binding.executionId, b.page, acceptedAt, replayed)
  }

  /** A batch has one receipt, up to the time it is issued at and whether it is a replay. */
  lemma MatchingReceiptIsIssued(r: Receipt, b: Batch)
    ensures ReceiptMatches(r, b) <==>
            BatchValid(b) && b.sentAt <= r.acceptedAt && r == ReceiptFor(b, r.acceptedAt, r.replayed)
  {
  }
}
