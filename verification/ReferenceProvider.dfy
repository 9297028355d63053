/** The reference provider: idempotent command admission, the run lifecycle with exact approval
    matching, and event pages. crates/contracts/examples/reference_echo_provider.rs, with the
    command and receipt checks of crates/contracts/src/agent_provider/protocol.rs. */
module ReferenceProvider {
  import opened Base
  import opened ProviderEvents

  /** An invocation profile: its digest, the artifact of the agent it invokes and its tools. */
  datatype Invocation = Invocation(digest: string, agentRelease: string, tools: seq<Tool>)

  datatype Decision = Decision(
    runIdentityDigest: string, callId: string, tool: Tool, requestDigest: string, approved: bool)

  /** A command together with the digest `digest()` returns for it. */
  datatype Command =
    | Start(requestId: string, identity: RunIdentity, digest: string, invocation: Option<Invocation>, prompt: string)
    | Cancel(requestId: string, identity: RunIdentity, digest: string, reason: string)
    | Recover(requestId: string, identity: RunIdentity, digest: string, checkpointRunId: string)
    | Resume(requestId: string, identity: RunIdentity, digest: string, decision: Decision)

  datatype Action = StartRun | CancelRun | RecoverRun | ResumeRun

  function ActionOf(c: Command): (a: Action) {
    match c
    case Start(_, _, _, _, _) => StartRun
    case Cancel(_, _, _, _) => CancelRun
    case Recover(_, _, _, _) => RecoverRun
    case Resume(_, _, _, _) => ResumeRun
  }

  function Required(c: Command): (r: Capability) {
    match c
    case Start(_, _, _, _, _) => EventPages
    case Cancel(_, _, _, _) => Cancellation
    case Recover(_, _, _, _) => Recovery
    case Resume(_, _, _, _) => PauseResume
  }

  /** AgentProviderCommandV1::validate_for, apart from the bounds of single text fields and the
      digests of the one profile there is. */
  predicate CommandValid(c: Command) {
    && Required(c) in REFERENCE_CAPABILITIES
    && (c.Start? ==>
          if c.invocation.None? then c.identity.invocationProfileDigest.None?
          else
            && c.identity.invocationProfileDigest == Some(c.invocation.value.digest)
            && c.identity.releaseIdentity == c.invocation.value.agentRelease)
    && (c.Resume? ==>
          && c.decision.tool.approvalRequired
          && c.decision.runIdentityDigest == c.identity.digest)
  }

  /** Which commands this provider takes: every Cancel and no Recover, a Start whose identity names
      exactly the invocation it brings, if any, and that invocation's agent, and a Resume that decides
      on a tool in need of approval for the run it names. */
  lemma CommandValidIff(c: Command)
    ensures c.Cancel? ==> CommandValid(c)
    ensures c.Recover? ==> !CommandValid(c)
    ensures c.Start? && c.invocation.None? ==> (CommandValid(c) <==> c.identity.invocationProfileDigest.None?)
    ensures c.Start? && c.invocation.Some? ==>
              (CommandValid(c) <==>
               && c.identity.invocationProfileDigest == Some(c.invocation.value.digest)
               && c.identity.releaseIdentity == c.invocation.value.agentRelease)
    ensures c.Resume? ==>
              (CommandValid(c) <==> c.decision.tool.approvalRequired && c.decision.runIdentityDigest == c.identity.digest)
  {
  }

  datatype CommandReceipt = CommandReceipt(
    requestId: string, digest: string, identity: RunIdentity, action: Action,
    state: RunState, observedAt: U64, replayed: bool)

  /** AgentProviderCommandReceiptV1::validate_for. */
  predicate ReceiptValid(r: CommandReceipt, c: Command) {
    && r.observedAt > 0
    && CommandValid(c)
    && r.requestId == c.requestId
    && r.digest == c.digest
    && r.identity == c.identity
    && r.action == ActionOf(c)
    && (c.Resume? ==> !(r.state.Created? || r.state.Planning? || r.state.AwaitingApproval?))
  }

  datatype Approval = Approval(callId: string, tool: Tool, requestDigest: string)

  datatype Run = Run(identity: RunIdentity, state: RunState, event: Record, approval: Option<Approval>)

  datatype Accepted = Accepted(digest: string, receipt: CommandReceipt)

  datatype Provider = Provider(runs: map<string, Run>, commands: map<string, Accepted>)

  const NEW_PROVIDER: Provider := Provider(map[], map[])

  datatype Refusal =
    | InvalidCommand | DigestChanged | ReceiptInvalid | RunExists | NoSuchRun | IdentityChanged
    | NotAwaitingApproval | ApprovalChanged | BadApprovalStart | RecoveryUnsupported
    | CursorBeyondRun | PageInvalid

  const APPROVAL_PROMPT: string := "Request one governed Tool approval."
  const OUTPUT_TEXT: string := "reference harness output"
  const CALL_ID: string := "reference-governed-call"
  const REQUEST: Payload :=
    Payload("sha256:ffffffffffffffffffffffffffffffffffffffffffffffffffffffffffffffff", 128, "application/json")

  function ApprovalTools(tools: seq<Tool>): (r: seq<Tool>) {
    if tools == [] then []
    else (if tools[0].approvalRequired then [tools[0]] else []) + ApprovalTools(tools[1..])
  }

  /** reference_start_event: the run a Start creates. */
  function StartedRun(c: Command, now: U64): (r: Result<Run, Refusal>)
    requires c.Start?
  {
    if c.prompt != APPROVAL_PROMPT then
      Ok(Run(c.identity, Executing, Record(0, now, ModelOutput(OUTPUT_TEXT)), None))
    else if c.invocation.None? then Err(BadApprovalStart)
    else
      var tools := ApprovalTools(c.invocation.value.tools);
      if |tools| != 1 then Err(BadApprovalStart)
      else
        Ok(Run(c.identity, AwaitingApproval, Record(0, now, ToolRequest(CALL_ID, tools[0], REQUEST)),
               Some(Approval(CALL_ID, tools[0], REQUEST.digest))))
  }

  /** The run a first-time command leaves behind, or why it is refused. */
  function NextRun(p: Provider, c: Command, now: U64): (r: Result<Run, Refusal>) {
    var id := c.identity.runId;
    match c
    case Start(_, _, _, _, _) => if id in p.runs then Err(RunExists) else StartedRun(c, now)
    case Cancel(_, _, _, _) =>
      if id !in p.runs then Err(NoSuchRun)
      else if p.runs[id].identity != c.identity then Err(IdentityChanged)
      else Ok(p.runs[id].(state := Cancelled, approval := None))
    case Resume(_, _, _, _) =>
      if id !in p.runs then Err(NoSuchRun)
      else
        var run := p.runs[id];
        if run.identity != c.identity || !run.state.AwaitingApproval? then Err(NotAwaitingApproval)
        else if run.approval.None? then Err(NotAwaitingApproval)
        else if Approval(c.decision.callId, c.decision.tool, c.decision.requestDigest) != run.approval.value
        then Err(ApprovalChanged)
        else Ok(run.(state := Executing, approval := None))
    case Recover(_, _, _, _) => Err(RecoveryUnsupported)
  }

  function ReceiptOf(c: Command, state: RunState, now: U64): (r: CommandReceipt) {
    CommandReceipt(c.requestId, c.digest, c.identity, ActionOf(c), state, now, false)
  }

  datatype Admission = Admission(provider: Provider, outcome: Result<CommandReceipt, Refusal>)

  /** accept_command. The run is written before the receipt is checked, as in the source: a
      receipt refused for its clock leaves the run behind without its command. */
  function Accept(p: Provider, c: Command, now: U64): (r: Admission) {
    if !CommandValid(c) then Admission(p, Err(InvalidCommand))
    else if c.requestId in p.commands then
      var accepted := p.commands[c.requestId];
      var replay := accepted.receipt.(replayed := true);
      if accepted.digest != c.digest then Admission(p, Err(DigestChanged))
      else if !ReceiptValid(replay, c) then Admission(p, Err(ReceiptInvalid))
      else Admission(p, Ok(replay))
    else
      match NextRun(p, c, now)
      case Err(e) => Admission(p, Err(e))
      case Ok(run) =>
        var moved := p.(runs := p.runs[c.identity.runId := run]);
        var receipt := ReceiptOf(c, run.state, now);
        if !ReceiptValid(receipt, c) then Admission(moved, Err(ReceiptInvalid))
        else
          Admission(moved.(commands := p.commands[c.requestId := Accepted(c.digest, receipt)]), Ok(receipt))
  }

  /** event_page. */
  function EventPage(p: Provider, identity: RunIdentity, after: Option<U64>, now: U64): (r: Result<Page, Refusal>) {
    if identity.runId !in p.runs then Err(NoSuchRun)
    else if p.runs[identity.runId].identity != identity then Err(IdentityChanged)
    else if after.Some? && after.value != 0 then Err(CursorBeyondRun)
    else
      var run := p.runs[identity.runId];
      var page := ReferencePage(run, after, now);
      if PageValidFor(page, REFERENCE_CAPABILITIES) then Ok(page) else Err(PageInvalid)
  }

  function ReferencePage(run: Run, after: Option<U64>, now: U64): (p: Page) {
    if after.None? then
      Page(run.identity, None, Some(0), Some(0), Some(0), 1, 1, Some(0), run.state, now,
           false, false, None, [run.event])
    else
      Page(run.identity, after, Some(0), None, None, 0, 1, Some(0), run.state, now,
           false, false, None, [])
  }

  // ---------------------------------------------------------------------------------------
  // The provider process

  class Process {
    var runs: map<string, Run>
    var commands: map<string, Accepted>

    function View(): (p: Provider)
      reads this
    {
      Provider(runs, commands)
    }

    constructor ()
      ensures View() == NEW_PROVIDER
    {
      runs, commands := map[], map[];
    }

    method AcceptCommand(c: Command, now: U64) returns (r: Result<CommandReceipt, Refusal>)
      modifies this
      ensures View() == Accept(old(View()), c, now).provider
      ensures r == Accept(old(View()), c, now).outcome
    {
      if !CommandValid(c) {
        return Err(InvalidCommand);
      }
      if c.requestId in commands {
        var accepted := commands[c.requestId];
        if accepted.digest != c.digest {
          return Err(DigestChanged);
        }
        var receipt := accepted.receipt.(replayed := true);
        if !ReceiptValid(receipt, c) {
          return Err(ReceiptInvalid);
        }
        return Ok(receipt);
      }
      var id := c.identity.runId;
      var state;
      match c {
        case Start(_, _, _, _, _) =>
          if id in runs {
            return Err(RunExists);
          }
          var started := StartedRun(c, now);
          if started.Err? {
            return Err(started.error);
          }
          runs := runs[id := started.value];
          state := started.value.state;
        case Cancel(_, _, _, _) =>
          if id !in runs {
            return Err(NoSuchRun);
          }
          if runs[id].identity != c.identity {
            return Err(IdentityChanged);
          }
          runs := runs[id := runs[id].(state := Cancelled, approval := None)];
          state := Cancelled;
        case Resume(_, _, _, decision) =>
          if id !in runs {
            return Err(NoSuchRun);
          }
          if runs[id].identity != c.identity || !runs[id].state.AwaitingApproval? || runs[id].approval.None? {
            return Err(NotAwaitingApproval);
          }
          var pending := runs[id].approval.value;
          if decision.callId != pending.callId || decision.tool != pending.tool
            || decision.requestDigest != pending.requestDigest
          {
            return Err(ApprovalChanged);
          }
          runs := runs[id := runs[id].(state := Executing, approval := None)];
          state := Executing;
        case Recover(_, _, _, _) =>
          return Err(RecoveryUnsupported);
      }
      var receipt := ReceiptOf(c, state, now);
      if !ReceiptValid(receipt, c) {
        return Err(ReceiptInvalid);
      }
      commands := commands[c.requestId := Accepted(c.digest, receipt)];
      return Ok(receipt);
    }
  }

  // ---------------------------------------------------------------------------------------
  // Histories

  datatype Submission = Submission(command: Command, now: U64)

  function After(p: Provider, history: seq<Submission>): (r: Provider) {
    if history == [] then p
    else
      var last := history[|history| - 1];
      Accept(After(p, history[..|history| - 1]), last.command, last.now).provider
  }

  /** The provider as it stands when submission k arrives. */
  function At(history: seq<Submission>, k: nat): (p: Provider)
    requires k <= |history|
  {
    After(NEW_PROVIDER, history[..k])
  }

  lemma AtSucc(history: seq<Submission>, k: nat)
    requires k < |history|
    ensures At(history, k + 1) == Accept(At(history, k), history[k].command, history[k].now).provider
  {
    assert history[..k + 1][..k] == history[..k];
  }

  /** The command is admitted for the first time, not replayed. */
  predicate FirstAccepted(p: Provider, c: Command, now: U64) {
    c.requestId !in p.commands && Accept(p, c, now).outcome.Ok?
  }

  // ---------------------------------------------------------------------------------------
  // Lifecycle

  predicate RunOk(id: string, run: Run) {
    && run.identity.runId == id
    && run.event.sequence == 0
    && (run.state.AwaitingApproval? || run.state.Executing? || run.state.Cancelled?)
    && (run.approval.Some? <==> run.state.AwaitingApproval?)
    && (IsApprovalRequest(run.event) || run.event.event.ModelOutput?)
    && (run.approval.Some? ==>
          && IsApprovalRequest(run.event)
          && run.approval.value ==
               Approval(run.event.event.callId, run.event.event.tool, run.event.event.request.digest))
  }

  predicate RunsOk(p: Provider) {
    forall id :: id in p.runs ==> RunOk(id, p.runs[id])
  }

  function Rank(s: RunState): (n: nat) {
    if s.AwaitingApproval? then 0 else if s.Executing? then 1 else 2
  }

  /** A run is never replaced and only moves forward. */
  predicate Grew(p: Provider, q: Provider) {
    forall id :: id in p.runs ==> id in q.runs && RunGrew(p.runs[id], q.runs[id])
  }

  lemma {:induction false} ApprovalToolsNeedApproval(tools: seq<Tool>)
    ensures forall t :: t in ApprovalTools(tools) ==> t in tools && t.approvalRequired
  {
    if tools != [] {
      ApprovalToolsNeedApproval(tools[1..]);
    }
  }

  predicate RunGrew(was: Run, now: Run) {
    && now.identity == was.identity
    && now.event == was.event
    && Rank(was.state) <= Rank(now.state)
  }

  lemma NextRunOk(p: Provider, c: Command, now: U64)
    requires RunsOk(p) && NextRun(p, c, now).Ok?
    ensures RunOk(c.identity.runId, NextRun(p, c, now).value)
    ensures c.identity.runId in p.runs ==> RunGrew(p.runs[c.identity.runId], NextRun(p, c, now).value)
    ensures NextRun(p, c, now).value.identity == c.identity
    ensures c.identity.runId !in p.runs <==> c.Start?
  {
    if c.Start? && c.invocation.Some? {
      ApprovalToolsNeedApproval(c.invocation.value.tools);
    }
  }

  /** A command moves at most its own run, and is remembered only if its receipt is good. */
  lemma AcceptMoves(p: Provider, c: Command, now: U64)
    ensures
      var q := Accept(p, c, now).provider;
      || q == p
      || (&& NextRun(p, c, now).Ok?
          && c.requestId !in p.commands
          && q.runs == p.runs[c.identity.runId := NextRun(p, c, now).value]
          && q.commands == if now == 0 then p.commands
                           else p.commands[c.requestId :=
                                  Accepted(c.digest, ReceiptOf(c, NextRun(p, c, now).value.state, now))])
  {
  }

  lemma AcceptKeepsRunsOk(p: Provider, c: Command, now: U64)
    requires RunsOk(p)
    ensures RunsOk(Accept(p, c, now).provider) && Grew(p, Accept(p, c, now).provider)
  {
    AcceptMoves(p, c, now);
    if NextRun(p, c, now).Ok? {
      NextRunOk(p, c, now);
    }
  }

  /** Over every history: a run waits for approval exactly while it holds the pending request its
      event announced, and its state is one of the three the provider uses. */
  lemma {:induction false} EveryRunIsOk(history: seq<Submission>)
    ensures RunsOk(After(NEW_PROVIDER, history))
  {
    if history != [] {
      var before, last := history[..|history| - 1], history[|history| - 1];
      EveryRunIsOk(before);
      AcceptKeepsRunsOk(After(NEW_PROVIDER, before), last.command, last.now);
    }
  }

  lemma GrewTransitive(p: Provider, q: Provider, r: Provider)
    requires Grew(p, q) && Grew(q, r)
    ensures Grew(p, r)
  {
  }

  lemma SubmissionMovesForward(history: seq<Submission>, k: nat)
    requires k < |history|
    ensures Grew(At(history, k), At(history, k + 1))
  {
    EveryRunIsOk(history[..k]);
    AtSucc(history, k);
    AcceptKeepsRunsOk(At(history, k), history[k].command, history[k].now);
  }

  /** Over every history: a run's identity and event never change, and its state only moves along
      AwaitingApproval, Executing, Cancelled. */
  lemma {:induction false} RunsOnlyMoveForward(history: seq<Submission>, j: nat, k: nat)
    requires j <= k <= |history|
    ensures Grew(At(history, j), At(history, k))
    decreases k
  {
    if j < k {
      RunsOnlyMoveForward(history, j, k - 1);
      SubmissionMovesForward(history, k - 1);
      GrewTransitive(At(history, j), At(history, k - 1), At(history, k));
    }
  }

  /** An accepted Resume names the call, the tool and the request digest the run's one event asked
      approval for, and takes the run out of waiting. */
  lemma ResumeMatchesTheRequest(p: Provider, c: Command, now: U64)
    requires RunsOk(p) && c.Resume? && FirstAccepted(p, c, now)
    ensures
      var id := c.identity.runId;
      && id in p.runs
      && p.runs[id].event.event.ToolRequest?
      && c.decision.callId == p.runs[id].event.event.callId
      && c.decision.tool == p.runs[id].event.event.tool
      && c.decision.requestDigest == p.runs[id].event.event.request.digest
      && Rank(p.runs[id].state) == 0
      && Rank(Accept(p, c, now).provider.runs[id].state) == 1
  {
  }

  /** At most one distinct Resume of a run is ever accepted. */
  lemma AtMostOneResume(history: seq<Submission>, j: nat, k: nat)
    requires j < k < |history|
    requires history[j].command.Resume? && history[k].command.Resume?
    requires history[j].command.identity.runId == history[k].command.identity.runId
    requires FirstAccepted(At(history, j), history[j].command, history[j].now)
    ensures !FirstAccepted(At(history, k), history[k].command, history[k].now)
  {
    EveryRunIsOk(history[..j]);
    EveryRunIsOk(history[..k]);
    ResumeMatchesTheRequest(At(history, j), history[j].command, history[j].now);
    AtSucc(history, j);
    RunsOnlyMoveForward(history, j + 1, k);
    if FirstAccepted(At(history, k), history[k].command, history[k].now) {
      ResumeMatchesTheRequest(At(history, k), history[k].command, history[k].now);
    }
  }

  // ---------------------------------------------------------------------------------------
  // What a history decides

  ghost predicate OneApprovalTool(tools: seq<Tool>, tool: Tool) {
    tool.approvalRequired && exists i :: IsOnlyAt(tools, tool, i)
  }

  predicate IsOnlyAt(tools: seq<Tool>, tool: Tool, i: int) {
    0 <= i < |tools| && tools[i] == tool && forall j :: 0 <= j < |tools| && j != i ==> !tools[j].approvalRequired
  }

  lemma {:induction false} NoToolIff(tools: seq<Tool>)
    ensures ApprovalTools(tools) == [] <==> forall j :: 0 <= j < |tools| ==> !tools[j].approvalRequired
  {
    if tools != [] {
      NoToolIff(tools[1..]);
      assert forall j :: 0 < j < |tools| ==> tools[j] == tools[1..][j - 1];
    }
  }

  lemma {:induction false} OneToolIff(tools: seq<Tool>, tool: Tool)
    ensures ApprovalTools(tools) == [tool] <==> OneApprovalTool(tools, tool)
  {
    if tools != [] {
      var rest := tools[1..];
      assert forall j :: 0 < j < |tools| ==> tools[j] == rest[j - 1];
      if tools[0].approvalRequired {
        NoToolIff(rest);
        assert ApprovalTools(tools)[1..] == ApprovalTools(rest);
        if ApprovalTools(tools) == [tool] {
          assert IsOnlyAt(tools, tool, 0);
        }
      } else {
        OneToolIff(rest, tool);
        OnlyAtMoves(tools, tool);
      }
    }
  }

  lemma OnlyAtMoves(tools: seq<Tool>, tool: Tool)
    requires tools != [] && !tools[0].approvalRequired
    ensures OneApprovalTool(tools, tool) <==> OneApprovalTool(tools[1..], tool)
  {
    var rest := tools[1..];
    assert forall j :: 0 < j < |tools| ==> tools[j] == rest[j - 1];
    if OneApprovalTool(rest, tool) {
      var i :| IsOnlyAt(rest, tool, i);
      assert IsOnlyAt(tools, tool, i + 1);
    } else if OneApprovalTool(tools, tool) {
      var i :| IsOnlyAt(tools, tool, i);
      assert IsOnlyAt(rest, tool, i - 1);
    }
  }

  /** A Start goes ahead with any prompt but the approval prompt, and with that one exactly when the
      invocation names a single tool that needs approval. */
  ghost predicate CanStart(c: Command)
    requires c.Start?
  {
    c.prompt != APPROVAL_PROMPT || (c.invocation.Some? && exists tool :: OneApprovalTool(c.invocation.value.tools, tool))
  }

  /** The run a Start leaves: executing with one line of output, or waiting with one request for that
      tool, whose identity it remembers. */
  ghost predicate RunAsStarted(run: Run, c: Command, now: U64)
    requires c.Start?
  {
    && run.identity == c.identity
    && run.event.sequence == 0
    && run.event.occurredAt == now
    && if c.prompt != APPROVAL_PROMPT then
         run.state.Executing? && run.event.event.ModelOutput? && run.approval.None?
       else
         && run.state.AwaitingApproval?
         && run.event.event.ToolRequest?
         && c.invocation.Some?
         && OneApprovalTool(c.invocation.value.tools, run.event.event.tool)
         && run.approval ==
              Some(Approval(run.event.event.callId, run.event.event.tool, run.event.event.request.digest))
  }

  lemma StartDecides(c: Command, now: U64)
    requires c.Start?
    ensures StartedRun(c, now).Ok? <==> CanStart(c)
    ensures StartedRun(c, now).Ok? ==> RunAsStarted(StartedRun(c, now).value, c, now)
  {
    if c.prompt == APPROVAL_PROMPT && c.invocation.Some? {
      var found := ApprovalTools(c.invocation.value.tools);
      if |found| == 1 {
        OneToolIff(c.invocation.value.tools, found[0]);
        assert found == [found[0]];
      }
      forall tool | OneApprovalTool(c.invocation.value.tools, tool)
        ensures |found| == 1
      {
        OneToolIff(c.invocation.value.tools, tool);
      }
    }
  }

  /** When a command that was not seen before is admitted. */
  ghost predicate Admissible(p: Provider, c: Command) {
    var id := c.identity.runId;
    match c
    case Start(_, _, _, _, _) => id !in p.runs && CanStart(c)
    case Cancel(_, _, _, _) => id in p.runs && p.runs[id].identity == c.identity
    case Resume(_, _, _, d) =>
      && id in p.runs && p.runs[id].identity == c.identity
      && p.runs[id].state.AwaitingApproval?
      && p.runs[id].event.event.ToolRequest?
      && d.callId == p.runs[id].event.event.callId
      && d.tool == p.runs[id].event.event.tool
      && d.requestDigest == p.runs[id].event.event.request.digest
    case Recover(_, _, _, _) => false
  }

  /** Admission, exactly, for a running clock; a command that is not admitted changes nothing, and one
      that is leaves its own run as it says and a receipt with that run's state. */
  lemma AdmissionDecides(p: Provider, c: Command, now: U64)
    requires RunsOk(p) && now > 0
    ensures FirstAccepted(p, c, now) <==> c.requestId !in p.commands && CommandValid(c) && Admissible(p, c)
    ensures !FirstAccepted(p, c, now) ==> Accept(p, c, now).provider == p
    ensures FirstAccepted(p, c, now) ==>
              var q, r := Accept(p, c, now).provider, Accept(p, c, now).outcome.value;
              var id := c.identity.runId;
              && id in q.runs
              && q.runs.Keys == p.runs.Keys + {id}
              && (forall x :: x in p.runs && x != id ==> q.runs[x] == p.runs[x])
              && (match c
                  case Start(_, _, _, _, _) => RunAsStarted(q.runs[id], c, now)
                  case Cancel(_, _, _, _) => q.runs[id] == p.runs[id].(state := Cancelled, approval := None)
                  case Resume(_, _, _, _) => q.runs[id] == p.runs[id].(state := Executing, approval := None)
                  case Recover(_, _, _, _) => false)
              && r == CommandReceipt(c.requestId, c.digest, c.identity, ActionOf(c), q.runs[id].state, now, false)
  {
    AcceptMoves(p, c, now);
    if c.Start? {
      StartDecides(c, now);
    }
  }

  /** Submission k is the first of its request and is admitted for run `id`. */
  predicate AdmittedFor(history: seq<Submission>, k: nat, id: string) {
    && k < |history|
    && FirstAccepted(At(history, k), history[k].command, history[k].now)
    && history[k].command.identity.runId == id
  }

  ghost predicate CancelAdmitted(history: seq<Submission>, n: nat, id: string) {
    exists k: nat :: k < n && AdmittedFor(history, k, id) && history[k].command.Cancel?
  }

  ghost predicate ResumeAdmitted(history: seq<Submission>, n: nat, id: string) {
    exists k: nat :: k < n && AdmittedFor(history, k, id) && history[k].command.Resume?
  }

  ghost predicate StartAdmitted(history: seq<Submission>, n: nat, id: string) {
    exists k: nat :: k < n && AdmittedFor(history, k, id) && history[k].command.Start?
  }

  ghost predicate PlainStartAdmitted(history: seq<Submission>, n: nat, id: string) {
    exists k: nat :: k < n && AdmittedFor(history, k, id) && history[k].command.Start?
                  && history[k].command.prompt != APPROVAL_PROMPT
  }

  /** The state the admitted commands of a run add up to. */
  ghost function StateBy(history: seq<Submission>, n: nat, id: string): (s: RunState) {
    if CancelAdmitted(history, n, id) then Cancelled
    else if PlainStartAdmitted(history, n, id) || ResumeAdmitted(history, n, id) then Executing
    else AwaitingApproval
  }

  ghost predicate OneMore(history: seq<Submission>, n: nat, id: string, was: bool, now: bool, kind: bool) {
    now <==> was || (AdmittedFor(history, n, id) && kind)
  }

  lemma AdmittedOneMore(history: seq<Submission>, n: nat, id: string)
    requires n < |history|
    ensures
      var c := history[n].command;
      && OneMore(history, n, id, CancelAdmitted(history, n, id), CancelAdmitted(history, n + 1, id), c.Cancel?)
      && OneMore(history, n, id, ResumeAdmitted(history, n, id), ResumeAdmitted(history, n + 1, id), c.Resume?)
      && OneMore(history, n, id, StartAdmitted(history, n, id), StartAdmitted(history, n + 1, id), c.Start?)
      && OneMore(history, n, id, PlainStartAdmitted(history, n, id), PlainStartAdmitted(history, n + 1, id),
                 c.Start? && c.prompt != APPROVAL_PROMPT)
  {
  }

  ghost predicate Decided(history: seq<Submission>, n: nat, id: string)
    requires n <= |history|
  {
    && (id in At(history, n).runs <==> StartAdmitted(history, n, id))
    && (id in At(history, n).runs ==> At(history, n).runs[id].state == StateBy(history, n, id))
    && (id !in At(history, n).runs ==> !CancelAdmitted(history, n, id) && !ResumeAdmitted(history, n, id))
  }

  lemma SubmissionDecides(history: seq<Submission>, n: nat, id: string)
    requires n < |history| && history[n].now > 0
    requires Decided(history, n, id)
    ensures Decided(history, n + 1, id)
  {
    var p, c, now := At(history, n), history[n].command, history[n].now;
    EveryRunIsOk(history[..n]);
    AtSucc(history, n);
    AdmissionDecides(p, c, now);
    AdmittedOneMore(history, n, id);
    assert PlainStartAdmitted(history, n, id) ==> StartAdmitted(history, n, id);
  }

  lemma NothingDecided(history: seq<Submission>, id: string)
    ensures Decided(history, 0, id)
  {
    assert history[..0] == [];
  }

  lemma EverySubmissionDecides(history: seq<Submission>, n: nat, id: string)
    requires n <= |history| && forall k :: 0 <= k < n ==> history[k].now > 0
    ensures Decided(history, n, id)
  {
    NothingDecided(history, id);
    for m := 0 to n
      invariant Decided(history, m, id)
    {
      SubmissionDecides(history, m, id);
    }
  }

  /** A history decides every run. For running clocks, a run exists exactly when a Start of its id was
      admitted; it is cancelled exactly when a Cancel was, otherwise it executes exactly when its
      Start had another prompt than the approval prompt or a Resume was admitted, and otherwise it
      waits. */
  lemma HistoryDecidesState(history: seq<Submission>, n: nat, id: string)
    requires n <= |history| && forall k :: 0 <= k < n ==> history[k].now > 0
    ensures id in At(history, n).runs <==> StartAdmitted(history, n, id)
    ensures id in At(history, n).runs ==> At(history, n).runs[id].state == StateBy(history, n, id)
    ensures id !in At(history, n).runs ==> !CancelAdmitted(history, n, id) && !ResumeAdmitted(history, n, id)
  {
    EverySubmissionDecides(history, n, id);
  }

  // ---------------------------------------------------------------------------------------
  // Replay

  predicate Remembers(p: Provider, q: Provider) {
    forall r :: r in p.commands ==> r in q.commands && q.commands[r] == p.commands[r]
  }

  lemma {:induction false} CommandsAreRemembered(history: seq<Submission>, j: nat, k: nat)
    requires j <= k <= |history|
    ensures Remembers(At(history, j), At(history, k))
    decreases k
  {
    if j < k {
      CommandsAreRemembered(history, j, k - 1);
      AtSucc(history, k - 1);
    }
  }

  /** Replay is stable: however many submissions come in between, resubmitting an accepted command
      returns its first receipt with only `replayed` set and leaves the provider as it was, and
      the same request id under another digest is refused without effect. */
  lemma ReplayIsStable(history: seq<Submission>, j: nat, k: nat, again: U64, other: Command)
    requires j < k <= |history|
    requires FirstAccepted(At(history, j), history[j].command, history[j].now)
    requires other.requestId == history[j].command.requestId && other.digest != history[j].command.digest
    ensures
      var c := history[j].command;
      var first := Accept(At(history, j), c, history[j].now).outcome.value;
      && !first.replayed
      && Accept(At(history, k), c, again) == Admission(At(history, k), Ok(first.(replayed := true)))
      && Accept(At(history, k), other, again).outcome == Err(if CommandValid(other) then DigestChanged else InvalidCommand)
      && Accept(At(history, k), other, again).provider == At(history, k)
  {
    AtSucc(history, j);
    CommandsAreRemembered(history, j + 1, k);
  }

  /** What is remembered of a request: its own id and digest, a running clock, the first answer. */
  predicate RemembersWell(r: string, a: Accepted) {
    && a.receipt.requestId == r && a.receipt.digest == a.digest && a.receipt.observedAt > 0 && !a.receipt.replayed
    && (a.receipt.action.ResumeRun? ==> a.receipt.state.Executing?)
  }

  ghost predicate CommandsOk(p: Provider) {
    forall r :: r in p.commands ==> RemembersWell(r, p.commands[r])
  }

  lemma CommandsStayOk(history: seq<Submission>, k: nat)
    requires k <= |history|
    ensures CommandsOk(At(history, k))
  {
    assert history[..0] == [];
    for n := 0 to k
      invariant CommandsOk(At(history, n))
    {
      AtSucc(history, n);
      AcceptMoves(At(history, n), history[n].command, history[n].now);
    }
  }

  /** A request that was admitted before is answered exactly when it has the digest, the run and the
      action it had then, always with the first receipt; otherwise it is refused, and either way
      nothing changes. */
  lemma ReplayDecides(history: seq<Submission>, k: nat, c: Command, now: U64)
    requires k <= |history| && CommandValid(c) && c.requestId in At(history, k).commands
    ensures
      var first := At(history, k).commands[c.requestId].receipt;
      Accept(At(history, k), c, now) ==
      Admission(At(history, k),
                if first.digest != c.digest then Err(DigestChanged)
                else if first.identity == c.identity && first.action == ActionOf(c) then Ok(first.(replayed := true))
                else Err(ReceiptInvalid))
  {
    CommandsStayOk(history, k);
  }

  /** Why a command that was not seen before is refused, and that this changes nothing while the clock
      runs. */
  lemma RefusedBecause(p: Provider, c: Command, now: U64)
    requires CommandValid(c) && c.requestId !in p.commands
    ensures
      var id, r := c.identity.runId, Accept(p, c, now);
      && (r.outcome == Err(RunExists) <==> c.Start? && id in p.runs)
      && (r.outcome == Err(BadApprovalStart) <==> c.Start? && id !in p.runs && !CanStart(c))
      && (r.outcome == Err(NoSuchRun) <==> !c.Start? && id !in p.runs)
      && (r.outcome == Err(IdentityChanged) <==> c.Cancel? && id in p.runs && p.runs[id].identity != c.identity)
      && (r.outcome == Err(NotAwaitingApproval) <==>
          && c.Resume? && id in p.runs
          && (p.runs[id].identity != c.identity || !p.runs[id].state.AwaitingApproval? || p.runs[id].approval.None?))
      && (r.outcome == Err(ApprovalChanged) <==>
          && c.Resume? && id in p.runs
          && p.runs[id].identity == c.identity && p.runs[id].state.AwaitingApproval? && p.runs[id].approval.Some?
          && var a := p.runs[id].approval.value;
             a.callId != c.decision.callId || a.tool != c.decision.tool || a.requestDigest != c.decision.requestDigest)
      && (r.outcome == Err(ReceiptInvalid) ==> now == 0)
      && (r.outcome.Err? && now > 0 ==> r.provider == p)
  {
    if c.Start? {
      StartDecides(c, now);
    }
  }

  // ---------------------------------------------------------------------------------------
  // Runs and Start requests

  predicate IsStart(p: Provider, r: string) {
    r in p.commands && p.commands[r].receipt.action.StartRun?
  }

  function RunIdOf(p: Provider, r: string): (id: string)
    requires r in p.commands
  {
    p.commands[r].receipt.identity.runId
  }

  ghost predicate StartedBy(p: Provider, id: string) {
    exists r :: IsStart(p, r) && RunIdOf(p, r) == id
  }

  ghost predicate StartsHaveRuns(p: Provider) {
    forall r :: IsStart(p, r) ==>
      RunIdOf(p, r) in p.runs && p.runs[RunIdOf(p, r)].identity == p.commands[r].receipt.identity
  }

  ghost predicate StartsDiffer(p: Provider) {
    forall r, s :: IsStart(p, r) && IsStart(p, s) && RunIdOf(p, r) == RunIdOf(p, s) ==> r == s
  }

  ghost predicate RunsHaveStarts(p: Provider) {
    forall id :: id in p.runs ==> StartedBy(p, id)
  }

  /** Accepted Start requests and runs correspond one to one. */
  ghost predicate OneToOne(p: Provider) {
    StartsHaveRuns(p) && StartsDiffer(p) && RunsHaveStarts(p)
  }

  /** What remains true when a command both moves its run and is remembered. */
  ghost predicate Admitted(p: Provider, q: Provider, c: Command, run: Run, receipt: CommandReceipt) {
    && c.requestId !in p.commands
    && receipt.action == ActionOf(c)
    && receipt.identity == c.identity
    && run.identity == c.identity
    && (c.identity.runId !in p.runs <==> c.Start?)
    && (c.identity.runId in p.runs ==> p.runs[c.identity.runId].identity == c.identity)
    && q == Provider(p.runs[c.identity.runId := run], p.commands[c.requestId := Accepted(c.digest, receipt)])
  }

  lemma AdmittedKeepsStarts(p: Provider, q: Provider, c: Command, run: Run, receipt: CommandReceipt)
    requires Admitted(p, q, c, run, receipt) && StartsHaveRuns(p) && StartsDiffer(p)
    ensures StartsHaveRuns(q) && StartsDiffer(q)
  {
    assert forall r :: IsStart(q, r) && r != c.requestId ==> IsStart(p, r) && RunIdOf(q, r) == RunIdOf(p, r);
    assert IsStart(q, c.requestId) ==> c.Start? && RunIdOf(q, c.requestId) == c.identity.runId;
  }

  lemma AdmittedKeepsRuns(p: Provider, q: Provider, c: Command, run: Run, receipt: CommandReceipt)
    requires Admitted(p, q, c, run, receipt) && RunsHaveStarts(p)
    ensures RunsHaveStarts(q)
  {
    forall id | id in q.runs
      ensures StartedBy(q, id)
    {
      if id in p.runs {
        var r :| IsStart(p, r) && RunIdOf(p, r) == id;
        assert IsStart(q, r) && RunIdOf(q, r) == id;
      } else {
        assert IsStart(q, c.requestId) && RunIdOf(q, c.requestId) == id;
      }
    }
  }

  lemma AcceptKeepsOneToOne(p: Provider, c: Command, now: U64)
    requires RunsOk(p) && OneToOne(p) && now > 0
    ensures OneToOne(Accept(p, c, now).provider)
  {
    var q := Accept(p, c, now).provider;
    AcceptMoves(p, c, now);
    if q != p {
      NextRunOk(p, c, now);
      var run := NextRun(p, c, now).value;
      var receipt := ReceiptOf(c, run.state, now);
      assert Admitted(p, q, c, run, receipt);
      AdmittedKeepsStarts(p, q, c, run, receipt);
      AdmittedKeepsRuns(p, q, c, run, receipt);
    }
  }

  /** Over every history whose clock has started, runs and accepted Starts are one to one. */
  lemma {:induction false} RunsMatchStarts(history: seq<Submission>)
    requires forall k :: 0 <= k < |history| ==> history[k].now > 0
    ensures OneToOne(After(NEW_PROVIDER, history))
  {
    if history != [] {
      var before, last := history[..|history| - 1], history[|history| - 1];
      RunsMatchStarts(before);
      EveryRunIsOk(before);
      AcceptKeepsOneToOne(After(NEW_PROVIDER, before), last.command, last.now);
    }
  }

  /** The clock condition is exact: a Start that creates a run keeps the correspondence if and only
      if its clock reads more than zero. */
  lemma StartKeepsOneToOneIff(p: Provider, c: Command, now: U64)
    requires RunsOk(p) && OneToOne(p)
    requires c.Start? && CommandValid(c) && c.requestId !in p.commands && NextRun(p, c, now).Ok?
    ensures OneToOne(Accept(p, c, now).provider) <==> now > 0
  {
    if now > 0 {
      AcceptKeepsOneToOne(p, c, now);
    } else {
      var q := Accept(p, c, now).provider;
      assert c.identity.runId in q.runs && q.commands == p.commands;
      if StartedBy(q, c.identity.runId) {
        var r :| IsStart(q, r) && RunIdOf(q, r) == c.identity.runId;
        assert IsStart(p, r);
      }
    }
  }

  // ---------------------------------------------------------------------------------------
  // Event pages

  /** A page of a run, exactly: the run's own identity, a cursor at the start or at its one event,
      and a running clock. The first page of a run that asked for approval is served only while
      the run still waits for it. */
  lemma PageServedIff(p: Provider, identity: RunIdentity, after: Option<U64>, now: U64)
    requires RunsOk(p)
    ensures EventPage(p, identity, after, now).Ok? <==>
            && identity.runId in p.runs
            && p.runs[identity.runId].identity == identity
            && now > 0
            && var run := p.runs[identity.runId];
               || after == Some(0)
               || (&& after.None?
                   && 0 < run.event.occurredAt <= now
                   && (IsApprovalRequest(run.event) ==> run.state.AwaitingApproval?))
  {
    if identity.runId in p.runs && p.runs[identity.runId].identity == identity && (after.None? || after == Some(0)) {
      var run := p.runs[identity.runId];
      var page := ReferencePage(run, after, now);
      FirstPageRequests(run.event);
      if after.None? {
        assert page.events == [run.event] && page.events[0] == run.event;
        assert RecordFits(page, 0) <==> 0 < run.event.occurredAt <= now;
      }
    }
  }

  /** Why a page is refused: there is no such run, it is another one's, the cursor is beyond its one event,
      or the page would not pass its own checks. */
  lemma PageRefusedBecause(p: Provider, identity: RunIdentity, after: Option<U64>, now: U64)
    ensures
      var r := EventPage(p, identity, after, now);
      var mine := identity.runId in p.runs && p.runs[identity.runId].identity == identity;
      && (r == Err(NoSuchRun) <==> identity.runId !in p.runs)
      && (r == Err(IdentityChanged) <==> identity.runId in p.runs && !mine)
      && (r == Err(CursorBeyondRun) <==> mine && Position(after) > 1)
      && (r == Err(PageInvalid) <==> mine && Position(after) <= 1 && r.Err?)
  {
  }

  /** A served page speaks for its run as it stands: the run's own state and identity, the provider's
      clock, and from the start its one event, which is all there is. */
  lemma ServedPageSays(p: Provider, identity: RunIdentity, after: Option<U64>, now: U64)
    requires EventPage(p, identity, after, now).Ok?
    ensures
      var page, run := EventPage(p, identity, after, now).value, p.runs[identity.runId];
      && page.identity == identity && page.state == run.state && page.observedAt == now
      && page.after == after && Position(page.next) == 1 && page.latestExclusive == 1
      && page.firstAvailable == Some(0) && !page.retentionGap && !page.hasMore
      && page.events == if after.None? then [run.event] else []
  {
  }

  lemma FirstPageRequests(r: Record)
    ensures ApprovalRequests([r]) == if IsApprovalRequest(r) then [r] else []
    ensures ApprovalRequests([]) == []
  {
    assert [r][1..] == [];
  }
}
