/** The bounded agent turn loop.  The provider, the tool owners and the observation
    authority are a `World`: what they answer in each turn of one run. */
module AgentTurnLoop {
  import opened Wrappers
  import opened Json
  import FinalReceipts

  // ---------------------------------------------------------------------------
  // Policy and setup
  // ---------------------------------------------------------------------------

  datatype Policy = Policy(
    maximumTurns: nat,
    maximumToolCalls: nat,
    maximumRepairRounds: nat,
    maximumArtifactBytes: nat)

  /** `assertLoopPolicy`, on the bounds. */
  predicate IsPolicy(p: Policy) {
    && p.maximumTurns >= 2 && 1 <= p.maximumToolCalls < p.maximumTurns
    && p.maximumRepairRounds >= 1 && p.maximumArtifactBytes >= 1
  }

  /** What parsing a run configuration leaves of the bounds. */
  predicate IsParsedPolicy(p: Policy) {
    && p.maximumTurns == 7 && 1 <= p.maximumToolCalls < p.maximumTurns
    && 1 <= p.maximumRepairRounds <= 8 && 1024 <= p.maximumArtifactBytes <= 8388608
  }

  datatype Binding = Retrieval | Continuation | Cache | Job

  /** The shared effect of the attempt's capability, when its runtime authority is there,
      and whether the capability is required at all. */
  datatype Setup = Setup(sharedEffect: Option<Binding>, capabilityRequired: bool)

  // ---------------------------------------------------------------------------
  // The world
  // ---------------------------------------------------------------------------

  datatype Status =
    | Completed | SchemaFailed | Blocked | InfrastructureError | ProviderError | Cancelled | TimedOut | RateLimited

  datatype Call = ResultSubmit | Controlled | Observing | SharedEffect | Unowned

  /** The output of a controlled call: its receipt, and what the loop reads off it. */
  datatype Execution = Execution(
    rejected: bool,
    artifactBytes: nat,
    transactions: nat,
    hasClosure: bool,
    receipt: FinalReceipts.ToolReceipt)

  datatype Outcome = Supported | Unsupported | Failing

  /** One provider turn: how it ended, the bytes it brought, and its tool calls when they
      all decode. */
  datatype Runtime = Runtime(
    status: Status,
    terminalEventCompleted: bool,
    artifactBytes: nat,
    calls: Option<seq<Call>>,
    responseDigest: nat)

  datatype Observation = Observation(hasReceipt: bool, showsSource: bool)

  /** What one turn meets; `None` stands for an error that ends the run. */
  datatype TurnWorld = TurnWorld(
    aborted: bool,
    requestRefReady: bool,
    runtime: Option<Runtime>,
    finalization: Option<Observation>,
    submissionValid: bool,
    assessed: bool,
    controlled: nat -> Option<Execution>,
    capability: nat -> Option<Outcome>,
    continued: bool)

  type World = nat -> TurnWorld

  // ---------------------------------------------------------------------------
  // The state of a run
  // ---------------------------------------------------------------------------

  datatype Phase = DomainTools | ResultSubmission

  datatype Turn = Turn(
    turnIndex: nat,
    phase: Phase,
    terminal: bool,
    status: Status,
    responseDigest: nat,
    executions: seq<Execution>,
    hasContinuation: bool,
    isBootstrap: bool,
    hasSubmission: bool)

  /** `finalized`, `shared` and `assessments` record, turn by turn, the calls that finalized
      an observation, executed a shared effect or assessed the result. */
  datatype State = State(
    turns: seq<Turn>,
    toolOutputs: seq<Execution>,
    capabilityOutputs: seq<Outcome>,
    phase: Phase,
    repairRounds: nat,
    artifactBytes: nat,
    controlledBytes: nat,
    hasPriorSource: bool,
    finalized: seq<nat>,
    shared: seq<nat>,
    assessments: nat)

  const INITIAL := State([], [], [], DomainTools, 0, 0, 0, false, [], [], 0)

  datatype Step = Continue(state: State) | Return(state: State, finalStatus: Status) | Throw(state: State)

  function ToolCalls(s: State): nat {
    |s.toolOutputs| + |s.capabilityOutputs|
  }

  // ---------------------------------------------------------------------------
  // The capability-effect decision
  // ---------------------------------------------------------------------------

  datatype Decision = NoDecision | IssueRequestRef | Bootstrap | SourceUnavailable | Invalid

  const DECISION_TURN_LIMIT: nat := 7

  function DecisionOf(setup: Setup, s: State): Decision {
    if s.phase.ResultSubmission? || setup.sharedEffect.None? then NoDecision
    else if |s.turns| >= DECISION_TURN_LIMIT then Invalid
    else if setup.sharedEffect.value.Retrieval? || s.hasPriorSource then IssueRequestRef
    else if |s.turns| == 0 then Bootstrap
    else SourceUnavailable
  }

  /** Whether the turn gets as far as invoking the provider. */
  predicate IsPrepared(setup: Setup, s: State, w: TurnWorld) {
    var d := DecisionOf(setup, s);
    && !w.aborted && !d.Invalid? && !d.SourceUnavailable?
    && (d.IssueRequestRef? ==> w.requestRefReady)
    && (d.Bootstrap? ==> !setup.sharedEffect.value.Cache?)
  }

  // ---------------------------------------------------------------------------
  // One turn, as a function
  // ---------------------------------------------------------------------------

  function TurnOf(s: State, w: TurnWorld, terminal: bool, status: Status): Turn
    requires w.runtime.Some?
  {
    Turn(|s.turns|, s.phase, terminal, status, w.runtime.value.responseDigest, [], false, false, false)
  }

  function Finalized(s: State): State {
    s.(finalized := s.finalized + [|s.turns|])
  }

  /** Finalizes the observation and ends the run with a last turn. */
  function End(s: State, w: TurnWorld, turn: Turn): Step {
    if w.finalization.None? then Throw(Finalized(s))
    else Return(Finalized(s).(turns := s.turns + [turn]), turn.status)
  }

  function PlayTurn(policy: Policy, setup: Setup, s: State, w: TurnWorld): Step {
    if !IsPrepared(setup, s, w) || w.runtime.None? || s.artifactBytes + w.runtime.value.artifactBytes > MAXIMUM_SAFE_INTEGER
    then Throw(s)
    else
      var runtime := w.runtime.value;
      var t := s.(artifactBytes := s.artifactBytes + runtime.artifactBytes);
      if !(runtime.status.Completed? && runtime.terminalEventCompleted) then
        End(t, w, TurnOf(t, w, true, if runtime.status.Completed? then SchemaFailed else runtime.status))
      else if t.phase.ResultSubmission? then PlaySubmission(t, w)
      else if DecisionOf(setup, s).Bootstrap? && runtime.calls == Some([]) then PlayBootstrap(t, w)
      else if !AreCallsAdmitted(policy, t, runtime.calls) then End(t, w, TurnOf(t, w, true, SchemaFailed))
      else PlayDomain(policy, setup, t, w)
  }

  function PlaySubmission(s: State, w: TurnWorld): Step
    requires w.runtime.Some?
  {
    if w.runtime.value.calls != Some([ResultSubmit]) || !w.submissionValid then
      End(s, w, TurnOf(s, w, true, SchemaFailed))
    else if w.finalization.None? then Throw(Finalized(s))
    else
      var t := Finalized(s).(assessments := s.assessments + 1);
      if !w.assessed then Throw(t)
      else Return(t.(turns := s.turns + [TurnOf(s, w, true, Completed).(hasSubmission := true)]), Completed)
  }

  function PlayBootstrap(s: State, w: TurnWorld): Step
    requires w.runtime.Some?
  {
    if w.finalization.None? || !w.finalization.value.hasReceipt then Throw(Finalized(s))
    else
      var seen := w.finalization.value.showsSource;
      var t := Finalized(s).(turns := s.turns + [TurnOf(s, w, !seen, Completed).(isBootstrap := true)]);
      if seen then Continue(t.(hasPriorSource := true)) else Return(t, Completed)
  }

  predicate AreCallsAdmitted(policy: Policy, s: State, calls: Option<seq<Call>>) {
    && calls.Some? && calls.value != [] && ResultSubmit !in calls.value
    && ToolCalls(s) + |calls.value| <= policy.maximumToolCalls
  }

  /** The executions of the controlled calls among `calls[from..]`, if none fails. */
  function ControlledOutputs(calls: seq<Call>, w: TurnWorld, n: nat): Option<seq<Execution>>
    requires n <= |calls|
  {
    if n == 0 then Some([])
    else
      var before := ControlledOutputs(calls, w, n - 1);
      if before.None? || !calls[n - 1].Controlled? then before
      else if w.controlled(n - 1).None? then None
      else Some(before.value + [w.controlled(n - 1).value])
  }

  predicate IsCapabilityCall(call: Call) {
    call.Observing? || call.SharedEffect?
  }

  function CapabilityOutputs(calls: seq<Call>, w: TurnWorld, n: nat): Option<seq<Outcome>>
    requires n <= |calls|
  {
    if n == 0 then Some([])
    else
      var before := CapabilityOutputs(calls, w, n - 1);
      if before.None? || !IsCapabilityCall(calls[n - 1]) then before
      else if w.capability(n - 1).None? then None
      else Some(before.value + [w.capability(n - 1).value])
  }

  /** A shared effect may run only under an issued request ref, an observing call only with
      an observation receipt, and neither for a capability that is not required. */
  predicate MayRunCapabilities(setup: Setup, s: State, w: TurnWorld, calls: seq<Call>) {
    && ((exists c :: c in calls && IsCapabilityCall(c)) ==> setup.capabilityRequired)
    && (SharedEffect in calls ==> DecisionOf(setup, s).IssueRequestRef?)
    && (Observing in calls ==> w.finalization.Some? && w.finalization.value.hasReceipt)
  }

  function PlayDomain(policy: Policy, setup: Setup, s: State, w: TurnWorld): Step
    requires w.runtime.Some? && w.runtime.value.calls.Some?
  {
    var calls := w.runtime.value.calls.value;
    var shared := SharedEffect in calls;
    if Unowned in calls || (shared && calls != [SharedEffect]) then Throw(s)
    else
      var t := if shared then s else Finalized(s);
      if !shared && w.finalization.None? then Throw(t)
      else
        var executions := ControlledOutputs(calls, w, |calls|);
        if executions.None? || !MayRunCapabilities(setup, s, w, calls) then Throw(t)
        else
          var u := if shared then s.(shared := s.shared + [|s.turns|]) else t;
          var outcomes := CapabilityOutputs(calls, w, |calls|);
          if outcomes.None? then Throw(u)
          else
            var v := if shared then Finalized(u) else u;
            if w.finalization.None? then Throw(v)
            else CloseDomain(policy, v, w, executions.value, outcomes.value)
  }

  function BytesOf(executions: seq<Execution>): nat {
    if executions == [] then 0 else BytesOf(executions[..|executions| - 1]) + executions[|executions| - 1].artifactBytes
  }

  predicate SomeRejected(executions: seq<Execution>) {
    exists e :: e in executions && e.rejected
  }

  predicate SomeClosure(executions: seq<Execution>) {
    exists e :: e in executions && e.hasClosure
  }

  function FirstUnsupported(outcomes: seq<Outcome>): Option<Outcome> {
    if outcomes == [] then None
    else if !outcomes[0].Supported? then Some(outcomes[0]) else FirstUnsupported(outcomes[1..])
  }

  /** Books what the calls brought, and goes on unless a ceiling or a capability ends it. */
  function CloseDomain(policy: Policy, s: State, w: TurnWorld, executions: seq<Execution>, outcomes: seq<Outcome>): Step
    requires w.runtime.Some?
  {
    var bytes := BytesOf(executions);
    if s.controlledBytes + bytes > MAXIMUM_SAFE_INTEGER then Throw(s)
    else
      var t := s.(toolOutputs := s.toolOutputs + executions,
                  capabilityOutputs := s.capabilityOutputs + outcomes,
                  repairRounds := s.repairRounds + if SomeRejected(executions) then 1 else 0,
                  controlledBytes := s.controlledBytes + bytes,
                  artifactBytes := s.artifactBytes + bytes);
      var failed := FirstUnsupported(outcomes);
      var last := TurnOf(s, w, true, SchemaFailed).(executions := executions);
      if t.repairRounds > policy.maximumRepairRounds || t.controlledBytes > policy.maximumArtifactBytes then
        Return(t.(turns := s.turns + [last]), SchemaFailed)
      else if failed.Some? then
        var status := if failed.value.Unsupported? then Blocked else InfrastructureError;
        Return(t.(turns := s.turns + [last.(status := status)]), status)
      else if executions != [] && !w.continued then Throw(t)
      else
        var turn := TurnOf(s, w, false, Completed).(executions := executions, hasContinuation := executions != []);
        var submits := SomeClosure(executions) || (|s.shared| > 0 && s.shared[|s.shared| - 1] == |s.turns|) ||
                       |s.turns| + 1 == policy.maximumTurns - 1;
        Continue(t.(turns := s.turns + [turn], phase := if submits then ResultSubmission else DomainTools))
  }

  /** The rest of the run from a state at the head of the loop. */
  function RunFrom(policy: Policy, setup: Setup, world: World, s: State): Step
    decreases policy.maximumTurns - |s.turns|
  {
    if |s.turns| >= policy.maximumTurns then Throw(s)
    else
      var step := PlayTurn(policy, setup, s, world(|s.turns|));
      if step.Continue? && |step.state.turns| > |s.turns| then RunFrom(policy, setup, world, step.state) else step
  }

  // ---------------------------------------------------------------------------
  // Closed turns
  // ---------------------------------------------------------------------------

  /** A turn whose transport is closed.  A completed transport keeps the runtime for
      replay; a failed one keeps only what it failed with. */
  datatype ClosedTurn =
    | ClosedCompleted(turnIndex: nat, runtime: Runtime)
    | ClosedFailed(turnIndex: nat, status: Status, responseDigest: nat)

  /** Bytes of `{"reason":"sanitized-transport-failure"}`. */
  const SYNTHETIC_BYTES: nat := 40

  /** The one-event attempt that stands for a failed transport. */
  function SyntheticFailure(turn: ClosedTurn): Runtime
    requires turn.ClosedFailed?
  {
    Runtime(turn.status, false, SYNTHETIC_BYTES, Some([]), turn.responseDigest)
  }

  function Replayed(turn: ClosedTurn): Runtime {
    if turn.ClosedCompleted? then turn.runtime else SyntheticFailure(turn)
  }

  /** The world in which the first turns are replayed. */
  function Resumed(recovered: seq<ClosedTurn>, world: World): World {
    (t: nat) => if t < |recovered| then world(t).(runtime := Some(Replayed(recovered[t]))) else world(t)
  }

  /** The executor's side of an invocation: it replays a closed turn or goes to the
      provider, counts what it replays, and keeps an authority for every turn it answers. */
  class TurnInvoker {
    const recovered: seq<ClosedTurn>
    const world: World
    var recoveredTurnCount: nat
    var turnAuthorities: seq<nat>

    constructor (recovered: seq<ClosedTurn>, world: World)
      ensures this.recovered == recovered && this.world == world
      ensures recoveredTurnCount == 0 && turnAuthorities == []
    {
      this.recovered, this.world, recoveredTurnCount, turnAuthorities := recovered, world, 0, [];
    }

    method Invoke(turnIndex: nat) returns (runtime: Option<Runtime>)
      modifies this
      ensures runtime == Resumed(recovered, world)(turnIndex).runtime
      ensures recoveredTurnCount == old(recoveredTurnCount) + if turnIndex < |recovered| then 1 else 0
      ensures turnAuthorities == old(turnAuthorities) + if runtime.Some? then [turnIndex] else []
    {
      if turnIndex < |recovered| {
        recoveredTurnCount := recoveredTurnCount + 1;
        runtime := Some(Replayed(recovered[turnIndex]));
      } else {
        runtime := world(turnIndex).runtime;
      }
      if runtime.Some? {
        turnAuthorities := turnAuthorities + [turnIndex];
      }
    }

    /** One invocation for each of the first `n` turns, and nothing else. */
    predicate HasInvoked(n: nat)
      reads this
    {
      && recoveredTurnCount == (if n < |recovered| then n else |recovered|)
      && |turnAuthorities| == n && forall i :: 0 <= i < n ==> turnAuthorities[i] == i
    }
  }

  lemma PreparedBeforeInvoking(setup: Setup, s: State, w: TurnWorld, runtime: Option<Runtime>)
    ensures IsPrepared(setup, s, w.(runtime := runtime)) == IsPrepared(setup, s, w)
  {
  }

  lemma ResumedTurn(recovered: seq<ClosedTurn>, world: World, t: nat)
    ensures Resumed(recovered, world)(t) == world(t).(runtime := Resumed(recovered, world)(t).runtime)
  {
  }

  // ---------------------------------------------------------------------------
  // The loop, as the source runs it
  // ---------------------------------------------------------------------------

  method ExecuteControlled(calls: seq<Call>, w: TurnWorld) returns (executions: Option<seq<Execution>>)
    ensures executions == ControlledOutputs(calls, w, |calls|)
  {
    var done: seq<Execution> := [];
    for i := 0 to |calls|
      invariant ControlledOutputs(calls, w, i) == Some(done)
    {
      if calls[i].Controlled? {
        var execution := w.controlled(i);
        if execution.None? {
          ControlledStopsAt(calls, w, i + 1, |calls|);
          return None;
        }
        done := done + [execution.value];
      }
    }
    return Some(done);
  }

  lemma {:induction false} ControlledStopsAt(calls: seq<Call>, w: TurnWorld, n: nat, m: nat)
    requires n <= m <= |calls| && ControlledOutputs(calls, w, n).None?
    ensures ControlledOutputs(calls, w, m).None?
    decreases m
  {
    if n < m {
      ControlledStopsAt(calls, w, n, m - 1);
    }
  }

  method ExecuteCapabilities(calls: seq<Call>, w: TurnWorld) returns (outcomes: Option<seq<Outcome>>)
    ensures outcomes == CapabilityOutputs(calls, w, |calls|)
  {
    var done: seq<Outcome> := [];
    for i := 0 to |calls|
      invariant CapabilityOutputs(calls, w, i) == Some(done)
    {
      if IsCapabilityCall(calls[i]) {
        var outcome := w.capability(i);
        if outcome.None? {
          CapabilitiesStopAt(calls, w, i + 1, |calls|);
          return None;
        }
        done := done + [outcome.value];
      }
    }
    return Some(done);
  }

  lemma {:induction false} CapabilitiesStopAt(calls: seq<Call>, w: TurnWorld, n: nat, m: nat)
    requires n <= m <= |calls| && CapabilityOutputs(calls, w, n).None?
    ensures CapabilityOutputs(calls, w, m).None?
    decreases m
  {
    if n < m {
      CapabilitiesStopAt(calls, w, n, m - 1);
    }
  }

  /** The calls of an admitted domain turn: executed, booked, and closed with a turn. */
  method RunDomainCalls(policy: Policy, setup: Setup, s: State, w: TurnWorld, calls: seq<Call>) returns (step: Step)
    requires w.runtime.Some? && w.runtime.value.calls == Some(calls)
    ensures step == PlayDomain(policy, setup, s, w)
  {
    var t := s;
    if Unowned in calls || (SharedEffect in calls && calls != [SharedEffect]) {
      return Throw(t);
    }
    if SharedEffect !in calls {
      t := t.(finalized := t.finalized + [|t.turns|]);
      if w.finalization.None? {
        return Throw(t);
      }
    }
    var executions := ExecuteControlled(calls, w);
    if executions.None? || !MayRunCapabilities(setup, s, w, calls) {
      return Throw(t);
    }
    if SharedEffect in calls {
      t := t.(shared := t.shared + [|t.turns|]);
    }
    var outcomes := ExecuteCapabilities(calls, w);
    if outcomes.None? {
      return Throw(t);
    }
    if SharedEffect in calls {
      t := t.(finalized := t.finalized + [|t.turns|]);
      if w.finalization.None? {
        return Throw(t);
      }
    }
    step := BookDomain(policy, t, w, executions.value, outcomes.value);
  }

  method SumBytes(executions: seq<Execution>) returns (bytes: nat)
    ensures bytes == BytesOf(executions)
  {
    bytes := 0;
    for i := 0 to |executions|
      invariant bytes == BytesOf(executions[..i])
    {
      assert executions[..i + 1][..i] == executions[..i];
      bytes := bytes + executions[i].artifactBytes;
    }
    assert executions[..|executions|] == executions;
  }

  method BookDomain(policy: Policy, s: State, w: TurnWorld, executions: seq<Execution>, outcomes: seq<Outcome>)
    returns (step: Step)
    requires w.runtime.Some?
    ensures step == CloseDomain(policy, s, w, executions, outcomes)
  {
    hide SomeClosure, FirstUnsupported, BytesOf;
    var t := s.(toolOutputs := s.toolOutputs + executions, capabilityOutputs := s.capabilityOutputs + outcomes);
    if exists e :: e in executions && e.rejected {
      t := t.(repairRounds := t.repairRounds + 1);
    }
    var bytes := SumBytes(executions);
    if t.controlledBytes + bytes > MAXIMUM_SAFE_INTEGER {
      return Throw(s);
    }
    t := t.(controlledBytes := t.controlledBytes + bytes, artifactBytes := t.artifactBytes + bytes);
    var turn := Turn(|s.turns|, s.phase, true, SchemaFailed, w.runtime.value.responseDigest, executions, false, false, false);
    if t.repairRounds > policy.maximumRepairRounds || t.controlledBytes > policy.maximumArtifactBytes {
      return Return(t.(turns := t.turns + [turn]), SchemaFailed);
    }
    var failed := FirstUnsupported(outcomes);
    if failed.Some? {
      var status := if failed.value.Unsupported? then Blocked else InfrastructureError;
      return Return(t.(turns := t.turns + [turn.(status := status)]), status);
    }
    if executions != [] && !w.continued {
      return Throw(t);
    }
    turn := turn.(terminal := false, status := Completed, hasContinuation := executions != []);
    var sharedHere := |s.shared| > 0 && s.shared[|s.shared| - 1] == |s.turns|;
    if SomeClosure(executions) || sharedHere || |s.turns| + 1 == policy.maximumTurns - 1 {
      return Continue(t.(turns := t.turns + [turn], phase := ResultSubmission));
    }
    return Continue(t.(turns := t.turns + [turn], phase := DomainTools));
  }

  /** An invoked turn: one of its exits, or its domain calls. */
  method RunInvokedTurn(policy: Policy, setup: Setup, head: State, w: TurnWorld) returns (step: Step)
    requires w.runtime.Some? && IsPrepared(setup, head, w)
    ensures step == PlayTurn(policy, setup, head, w)
  {
    hide PlayDomain, IsPrepared, DecisionOf;
    var runtime := w.runtime.value;
    var s := head;
    var decision := DecisionOf(setup, s);
    if s.artifactBytes + runtime.artifactBytes > MAXIMUM_SAFE_INTEGER {
      return Throw(s);
    }
    s := s.(artifactBytes := s.artifactBytes + runtime.artifactBytes);
    var turn := Turn(|s.turns|, s.phase, true, SchemaFailed, runtime.responseDigest, [], false, false, false);

    if !(runtime.status.Completed? && runtime.terminalEventCompleted) {
      s := s.(finalized := s.finalized + [|s.turns|]);
      if w.finalization.None? {
        return Throw(s);
      }
      var status := if runtime.status.Completed? then SchemaFailed else runtime.status;
      return Return(s.(turns := s.turns + [turn.(status := status)]), status);
    }

    if s.phase.ResultSubmission? {
      s := s.(finalized := s.finalized + [|s.turns|]);
      if w.finalization.None? {
        return Throw(s);
      }
      if runtime.calls != Some([ResultSubmit]) || !w.submissionValid {
        return Return(s.(turns := s.turns + [turn]), SchemaFailed);
      }
      s := s.(assessments := s.assessments + 1);
      if !w.assessed {
        return Throw(s);
      }
      return Return(s.(turns := s.turns + [turn.(status := Completed, hasSubmission := true)]), Completed);
    }

    if decision.Bootstrap? && runtime.calls == Some([]) {
      s := s.(finalized := s.finalized + [|s.turns|]);
      if w.finalization.None? || !w.finalization.value.hasReceipt {
        return Throw(s);
      }
      var seen := w.finalization.value.showsSource;
      s := s.(turns := s.turns + [turn.(terminal := !seen, status := Completed, isBootstrap := true)]);
      if seen {
        return Continue(s.(hasPriorSource := true));
      }
      return Return(s, Completed);
    }

    if !AreCallsAdmitted(policy, s, runtime.calls) {
      s := s.(finalized := s.finalized + [|s.turns|]);
      if w.finalization.None? {
        return Throw(s);
      }
      return Return(s.(turns := s.turns + [turn]), SchemaFailed);
    }

    step := RunDomainCalls(policy, setup, s, w, runtime.calls.value);
  }

  /** A turn that does not fail adds exactly one turn. */
  lemma TurnsGrow(policy: Policy, setup: Setup, s: State, w: TurnWorld)
    requires !PlayTurn(policy, setup, s, w).Throw?
    ensures |PlayTurn(policy, setup, s, w).state.turns| == |s.turns| + 1
  {
    hide PlayDomain, IsPrepared;
    var t := s.(artifactBytes := s.artifactBytes + w.runtime.value.artifactBytes);
    if w.runtime.value.calls.Some? && !PlayDomain(policy, setup, t, w).Throw? {
      DomainGrows(policy, setup, t, w);
    }
  }

  lemma DomainGrows(policy: Policy, setup: Setup, s: State, w: TurnWorld)
    requires w.runtime.Some? && w.runtime.value.calls.Some? && !PlayDomain(policy, setup, s, w).Throw?
    ensures |PlayDomain(policy, setup, s, w).state.turns| == |s.turns| + 1
  {
    hide ControlledOutputs, CapabilityOutputs, MayRunCapabilities, BytesOf, FirstUnsupported, SomeRejected, SomeClosure;
  }

  /** `runAgentEvaluationAgentTurnLoop`: the run of one-turn steps over the world in which
      closed turns are replayed, each of its turns invoked once. */
  method RunAgentTurnLoop(policy: Policy, setup: Setup, invoker: TurnInvoker) returns (r: Step)
    requires IsPolicy(policy) && invoker.HasInvoked(0)
    modifies invoker
    ensures r == RunFrom(policy, setup, Resumed(invoker.recovered, invoker.world), INITIAL)
    ensures r.Return? ==> invoker.HasInvoked(|r.state.turns|)
  {
    hide PlayTurn, IsPrepared, Resumed;
    ghost var resumed := Resumed(invoker.recovered, invoker.world);
    var s := INITIAL;
    while |s.turns| < policy.maximumTurns
      invariant RunFrom(policy, setup, resumed, INITIAL) == RunFrom(policy, setup, resumed, s)
      invariant invoker.HasInvoked(|s.turns|)
      decreases policy.maximumTurns - |s.turns|
    {
      var w := invoker.world(|s.turns|);
      ResumedTurn(invoker.recovered, invoker.world, |s.turns|);
      PreparedBeforeInvoking(setup, s, w, resumed(|s.turns|).runtime);
      UnpreparedThrows(policy, setup, s, resumed(|s.turns|));
      if !IsPrepared(setup, s, w) {
        return Throw(s);
      }
      var runtime := invoker.Invoke(|s.turns|);
      if runtime.None? {
        return Throw(s);
      }
      var step := RunInvokedTurn(policy, setup, s, w.(runtime := runtime));
      if step.Throw? {
        return step;
      }
      TurnsGrow(policy, setup, s, resumed(|s.turns|));
      if step.Return? {
        return step;
      }
      s := step.state;
    }
    return Throw(s);
  }

  lemma UnpreparedThrows(policy: Policy, setup: Setup, s: State, w: TurnWorld)
    ensures !IsPrepared(setup, s, w) || w.runtime.None? ==> PlayTurn(policy, setup, s, w) == Throw(s)
  {
  }
}
