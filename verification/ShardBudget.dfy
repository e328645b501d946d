/** What the runs of a shard can spend at most, against what an accepted estimate covers. */
module ShardBudget {
  import opened Wrappers
  import opened Json
  import opened AgentTurnLoop
  import opened LoopSafety
  import FactCollector

  datatype Demand = Demand(modelInvocations: nat, toolCalls: nat, repairRounds: nat, artifactBytes: nat)

  /** `estimateShard` accepts an estimate that covers the loop's ceilings. */
  predicate IsAcceptedEstimate(policy: Policy, attempts: nat, demand: Demand) {
    && demand.modelInvocations == attempts * policy.maximumTurns
    && demand.toolCalls >= attempts * policy.maximumToolCalls
    && demand.repairRounds >= attempts * policy.maximumRepairRounds
    && demand.artifactBytes >= attempts * policy.maximumArtifactBytes
  }

  /** The bounds the controlled runtime insists on. */
  const FROZEN: Policy := Policy(7, 4, 2, 8388608)

  // ---------------------------------------------------------------------------
  // Shards
  // ---------------------------------------------------------------------------

  /** One attempt of the shard: its setup and its world, recovered turns included. */
  datatype Attempt = Attempt(setup: Setup, world: World)

  function RunOf(policy: Policy, attempt: Attempt): Step {
    RunFrom(policy, attempt.setup, attempt.world, INITIAL)
  }

  ghost predicate AllReturn(policy: Policy, attempts: seq<Attempt>) {
    forall a :: a in attempts ==> RunOf(policy, a).Return?
  }

  function Total(spent: Step -> nat, policy: Policy, attempts: seq<Attempt>): nat {
    if attempts == [] then 0 else Total(spent, policy, attempts[1..]) + spent(RunOf(policy, attempts[0]))
  }

  function Invocations(run: Step): nat { |run.state.turns| }

  function Calls(run: Step): nat { ToolCalls(run.state) }

  function Repairs(run: Step): nat { run.state.repairRounds }

  function Bytes(run: Step): nat { run.state.artifactBytes }

  lemma OneMore(n: nat, ceiling: nat)
    ensures (n + 1) * ceiling == n * ceiling + ceiling
  {
  }

  lemma {:induction false} TotalIsBounded(spent: Step -> nat, policy: Policy, attempts: seq<Attempt>, ceiling: nat)
    requires forall a :: a in attempts ==> spent(RunOf(policy, a)) <= ceiling
    ensures Total(spent, policy, attempts) <= |attempts| * ceiling
    decreases |attempts|
  {
    hide RunOf;
    if attempts != [] {
      assert attempts[0] in attempts;
      TotalIsBounded(spent, policy, attempts[1..], ceiling);
      OneMore(|attempts| - 1, ceiling);
    }
  }

  lemma {:induction false} TotalOfCopies(spent: Step -> nat, policy: Policy, a: Attempt, n: nat)
    ensures Total(spent, policy, seq(n, _ => a)) == n * spent(RunOf(policy, a))
    decreases n
  {
    hide RunOf;
    if n > 0 {
      assert seq(n, _ => a)[1..] == seq(n - 1, _ => a);
      TotalOfCopies(spent, policy, a, n - 1);
      OneMore(n - 1, spent(RunOf(policy, a)));
    }
  }

  // ---------------------------------------------------------------------------
  // Invocations and tool calls
  // ---------------------------------------------------------------------------

  /** Over a shard, invocations and tool calls never exceed an accepted estimate. */
  lemma InvocationsAndCallsStayWithin(policy: Policy, attempts: seq<Attempt>, demand: Demand)
    requires IsPolicy(policy) && IsAcceptedEstimate(policy, |attempts|, demand) && AllReturn(policy, attempts)
    ensures Total(Invocations, policy, attempts) <= demand.modelInvocations
    ensures Total(Calls, policy, attempts) <= demand.toolCalls
  {
    hide RunOf;
    forall a | a in attempts
      ensures Invocations(RunOf(policy, a)) <= policy.maximumTurns && Calls(RunOf(policy, a)) <= policy.maximumToolCalls
    {
      RunIsBounded(policy, a);
    }
    TotalIsBounded(Invocations, policy, attempts, policy.maximumTurns);
    TotalIsBounded(Calls, policy, attempts, policy.maximumToolCalls);
  }

  lemma RunIsBounded(policy: Policy, a: Attempt)
    requires IsPolicy(policy) && RunOf(policy, a).Return?
    ensures var run := RunOf(policy, a);
            && Invocations(run) <= policy.maximumTurns && Calls(run) <= policy.maximumToolCalls
            && Repairs(run) <= policy.maximumRepairRounds + 1
  {
    hide RunFrom, IsShaped, IsSharedLast, IsAssessedOnce;
    EveryRunIsSafe(policy, a.setup, a.world);
  }

  // ---------------------------------------------------------------------------
  // Repair rounds
  // ---------------------------------------------------------------------------

  lemma DomainRepairs(policy: Policy, setup: Setup, s: State, w: TurnWorld)
    requires w.runtime.Some? && w.runtime.value.calls.Some? && s.repairRounds <= |s.toolOutputs|
    ensures var t := PlayDomain(policy, setup, s, w).state; t.repairRounds <= |t.toolOutputs|
  {
    hide ControlledOutputs, CapabilityOutputs, MayRunCapabilities, BytesOf, FirstUnsupported, SomeClosure;
  }

  lemma TurnRepairs(policy: Policy, setup: Setup, s: State, w: TurnWorld)
    requires s.repairRounds <= |s.toolOutputs|
    ensures var t := PlayTurn(policy, setup, s, w).state; t.repairRounds <= |t.toolOutputs|
  {
    hide PlayDomain, IsPrepared, DecisionOf;
    if w.runtime.Some? && w.runtime.value.calls.Some? {
      DomainRepairs(policy, setup, s.(artifactBytes := s.artifactBytes + w.runtime.value.artifactBytes), w);
    }
  }

  /** A repair round needs a rejected call of its own. */
  lemma {:induction false} RepairsNeedCalls(policy: Policy, setup: Setup, world: World, s: State)
    requires s.repairRounds <= |s.toolOutputs|
    ensures var t := RunFrom(policy, setup, world, s).state; t.repairRounds <= |t.toolOutputs|
    decreases policy.maximumTurns - |s.turns|
  {
    hide PlayTurn;
    if |s.turns| < policy.maximumTurns {
      TurnRepairs(policy, setup, s, world(|s.turns|));
      var step := PlayTurn(policy, setup, s, world(|s.turns|));
      if step.Continue? && |step.state.turns| > |s.turns| {
        RepairsNeedCalls(policy, setup, world, step.state);
      }
    }
  }

  const PLAIN := Setup(None, false)

  function RejectedExecution(i: nat): Option<Execution> { Some(Execution(true, 0, 0, false, PLAIN_RECEIPT)) }

  function NoOutcome(i: nat): Option<Outcome> { None }

  function CallingTurn(bytes: nat, calls: Option<seq<Call>>, controlled: nat -> Option<Execution>): TurnWorld {
    TurnWorld(false, true, Some(Runtime(Completed, true, bytes, calls, 0)), Some(Observation(true, true)), true, true,
              controlled, NoOutcome, true)
  }

  /** One rejected call in every turn. */
  function Rejecting(t: nat): TurnWorld {
    CallingTurn(0, Some([Controlled]), RejectedExecution)
  }

  lemma OneCall(w: TurnWorld)
    requires w.controlled(0).Some?
    ensures ControlledOutputs([Controlled], w, 1) == Some([w.controlled(0).value])
    ensures CapabilityOutputs([Controlled], w, 1) == Some([])
  {
    assert ControlledOutputs([Controlled], w, 0) == Some([]) && CapabilityOutputs([Controlled], w, 0) == Some([]);
    assert [] + [w.controlled(0).value] == [w.controlled(0).value];
  }

  lemma OneExecution(x: Execution)
    ensures BytesOf([x]) == x.artifactBytes && SomeRejected([x]) == x.rejected
  {
    assert [x][..0] == [] && x in [x];
  }

  /** The state of a rejected run after `t` turns. */
  predicate IsRejectedTo(s: State, t: nat) {
    && |s.turns| == t && s.phase.DomainTools? && s.repairRounds == t && ToolCalls(s) == t
    && s.artifactBytes == 0 && s.controlledBytes == 0 && s.shared == []
  }

  lemma RejectedTurn(policy: Policy, s: State, t: nat)
    requires IsPolicy(policy) && IsRejectedTo(s, t) && t <= policy.maximumRepairRounds < policy.maximumToolCalls
    ensures var step := PlayTurn(policy, PLAIN, s, Rejecting(t));
            if t < policy.maximumRepairRounds then step.Continue? && IsRejectedTo(step.state, t + 1)
            else step.Return? && Repairs(step) == policy.maximumRepairRounds + 1
  {
    var w := Rejecting(t);
    OneCall(w);
    OneExecution(w.controlled(0).value);
    hide ControlledOutputs, CapabilityOutputs, SomeRejected, SomeClosure, BytesOf;
    assert forall c :: c in [Controlled] ==> c == Controlled;
  }

  lemma {:induction false} RejectedRun(policy: Policy, s: State, t: nat)
    requires IsPolicy(policy) && IsRejectedTo(s, t) && t <= policy.maximumRepairRounds < policy.maximumToolCalls
    ensures var run := RunFrom(policy, PLAIN, Rejecting, s); run.Return? && Repairs(run) == policy.maximumRepairRounds + 1
    decreases policy.maximumRepairRounds - t
  {
    hide PlayTurn;
    RejectedTurn(policy, s, t);
    if t < policy.maximumRepairRounds {
      RejectedRun(policy, PlayTurn(policy, PLAIN, s, Rejecting(t)).state, t + 1);
    }
  }

  ghost predicate RepairsAlwaysFit(policy: Policy, n: nat, demand: Demand) {
    forall attempts: seq<Attempt> ::
      |attempts| == n && AllReturn(policy, attempts) ==> Total(Repairs, policy, attempts) <= demand.repairRounds
  }

  /** Every shard stays within its accepted repair estimate if and only if the tool calls run
      out before the repairs do, or the estimate allows each attempt one round more. */
  lemma RepairEstimateHoldsExactly(policy: Policy, n: nat, demand: Demand)
    requires IsPolicy(policy) && n >= 1 && IsAcceptedEstimate(policy, n, demand)
    ensures RepairsAlwaysFit(policy, n, demand) <==>
            || policy.maximumToolCalls <= policy.maximumRepairRounds
            || demand.repairRounds >= n * (policy.maximumRepairRounds + 1)
  {
    hide RunOf, Total, AllReturn;
    var ceiling := if policy.maximumToolCalls <= policy.maximumRepairRounds then policy.maximumRepairRounds
                   else policy.maximumRepairRounds + 1;
    forall attempts: seq<Attempt> | |attempts| == n && AllReturn(policy, attempts)
      ensures Total(Repairs, policy, attempts) <= n * ceiling
    {
      RepairsWithin(policy, attempts, ceiling);
    }
    if policy.maximumToolCalls > policy.maximumRepairRounds {
      var worst := Attempt(PLAIN, Rejecting);
      WorstRepairs(policy, n);
      assert |seq(n, _ => worst)| == n;
    }
  }

  lemma RepairsWithin(policy: Policy, attempts: seq<Attempt>, ceiling: nat)
    requires IsPolicy(policy) && AllReturn(policy, attempts)
    requires ceiling == if policy.maximumToolCalls <= policy.maximumRepairRounds then policy.maximumRepairRounds
                        else policy.maximumRepairRounds + 1
    ensures Total(Repairs, policy, attempts) <= |attempts| * ceiling
  {
    forall a | a in attempts ensures Repairs(RunOf(policy, a)) <= ceiling {
      RunIsBounded(policy, a);
      RepairsNeedCalls(policy, a.setup, a.world, INITIAL);
    }
    TotalIsBounded(Repairs, policy, attempts, ceiling);
  }

  lemma WorstRepairs(policy: Policy, n: nat)
    requires IsPolicy(policy) && policy.maximumToolCalls > policy.maximumRepairRounds
    ensures var worst := seq(n, _ => Attempt(PLAIN, Rejecting));
            AllReturn(policy, worst) && Total(Repairs, policy, worst) == n * (policy.maximumRepairRounds + 1)
  {
    hide RunFrom;
    RejectedRun(policy, INITIAL, 0);
    TotalOfCopies(Repairs, policy, Attempt(PLAIN, Rejecting), n);
  }

  // ---------------------------------------------------------------------------
  // Artifact bytes
  // ---------------------------------------------------------------------------

  /** What the artifacts of one execution may hold. */
  const MAXIMUM_EXECUTION_BYTES: nat := 8388608

  const MAXIMUM_TURN_BYTES: nat := FactCollector.MAXIMUM_AGGREGATE_EVENT_BYTES

  /** A turn brings what the collector collected, and the workspace caps what an execution
      persists. */
  ghost predicate IsCappedTurn(w: TurnWorld) {
    && (w.runtime.Some? ==> FactCollector.IsCollected(w.runtime.value.artifactBytes))
    && forall i: nat :: w.controlled(i).Some? ==> w.controlled(i).value.artifactBytes <= MAXIMUM_EXECUTION_BYTES
  }

  ghost predicate IsCapped(world: World) {
    forall t: nat :: IsCappedTurn(world(t))
  }

  /** Every turn but a bootstrap and the last makes a tool call. */
  function TurnCeiling(policy: Policy): nat {
    if policy.maximumToolCalls + 2 < policy.maximumTurns then policy.maximumToolCalls + 2 else policy.maximumTurns
  }

  function ByteCeiling(policy: Policy): nat {
    TurnCeiling(policy) * MAXIMUM_TURN_BYTES + policy.maximumArtifactBytes
  }

  function Bootstraps(turns: seq<Turn>): nat {
    if turns != [] && turns[0].isBootstrap then 1 else 0
  }

  predicate IsNarrow(s: State) {
    |s.turns| <= ToolCalls(s) + Bootstraps(s.turns)
  }

  predicate FitsBytes(policy: Policy, s: State) {
    && |s.turns| <= TurnCeiling(policy)
    && |s.turns| * MAXIMUM_TURN_BYTES + s.controlledBytes <= ByteCeiling(policy)
  }

  lemma {:induction false} EveryCallCounts(calls: seq<Call>, w: TurnWorld, n: nat)
    requires n <= |calls| && ControlledOutputs(calls, w, n).Some? && CapabilityOutputs(calls, w, n).Some?
    requires Unowned !in calls && ResultSubmit !in calls
    ensures |ControlledOutputs(calls, w, n).value| + |CapabilityOutputs(calls, w, n).value| == n
    decreases n
  {
    if n > 0 {
      EveryCallCounts(calls, w, n - 1);
      assert calls[n - 1] in calls;
    }
  }

  lemma {:induction false} OutputsAreCapped(calls: seq<Call>, w: TurnWorld, n: nat)
    requires n <= |calls| && ControlledOutputs(calls, w, n).Some? && IsCappedTurn(w)
    ensures var executions := ControlledOutputs(calls, w, n).value;
            BytesOf(executions) <= |executions| * MAXIMUM_EXECUTION_BYTES
    decreases n
  {
    if n > 0 {
      OutputsAreCapped(calls, w, n - 1);
      var before := ControlledOutputs(calls, w, n - 1).value;
      if calls[n - 1].Controlled? {
        assert (before + [w.controlled(n - 1).value])[..|before|] == before;
      }
    }
  }

  lemma BookingFits(policy: Policy, s: State, w: TurnWorld, executions: seq<Execution>, outcomes: seq<Outcome>)
    requires IsParsedPolicy(policy) && IsNarrow(s) && w.runtime.Some?
    requires executions != [] || outcomes != []
    requires ToolCalls(s) + |executions| + |outcomes| <= policy.maximumToolCalls
    requires BytesOf(executions) <= |executions| * MAXIMUM_EXECUTION_BYTES
    requires s.controlledBytes <= policy.maximumArtifactBytes && |s.turns| <= policy.maximumTurns - 2
    ensures var step := CloseDomain(policy, s, w, executions, outcomes);
            && (step.Continue? ==> IsNarrow(step.state))
            && (step.Return? ==> FitsBytes(policy, step.state))
  {
    hide BytesOf, FirstUnsupported, SomeRejected, SomeClosure;
  }

  lemma DomainFits(policy: Policy, setup: Setup, s: State, w: TurnWorld)
    requires IsParsedPolicy(policy) && IsNarrow(s) && IsCappedTurn(w)
    requires w.runtime.Some? && w.runtime.value.calls.Some? && AreCallsAdmitted(policy, s, w.runtime.value.calls)
    requires s.controlledBytes <= policy.maximumArtifactBytes && |s.turns| <= policy.maximumTurns - 2
    ensures var step := PlayDomain(policy, setup, s, w);
            && (step.Continue? ==> IsNarrow(step.state))
            && (step.Return? ==> FitsBytes(policy, step.state))
  {
    hide CloseDomain, MayRunCapabilities, BytesOf, FitsBytes, IsCappedTurn;
    var calls := w.runtime.value.calls.value;
    var executions, outcomes := ControlledOutputs(calls, w, |calls|), CapabilityOutputs(calls, w, |calls|);
    if Unowned !in calls && executions.Some? && outcomes.Some? {
      EveryCallCounts(calls, w, |calls|);
      OutputsAreCapped(calls, w, |calls|);
      var t := Finalized(s);
      BookingFits(policy, t, w, executions.value, outcomes.value);
      BookingFits(policy, t.(shared := s.shared + [|s.turns|]), w, executions.value, outcomes.value);
    }
  }

  /** A turn before the calls ends the run within the ceiling, or is the bootstrap. */
  lemma ExitFits(policy: Policy, s: State, w: TurnWorld, turn: Turn)
    requires IsParsedPolicy(policy) && IsNarrow(s) && w.runtime.Some?
    requires ToolCalls(s) <= policy.maximumToolCalls
    requires s.controlledBytes <= policy.maximumArtifactBytes && |s.turns| < policy.maximumTurns
    ensures End(s, w, turn).Return? ==> FitsBytes(policy, End(s, w, turn).state)
    ensures PlaySubmission(s, w).Return? ==> FitsBytes(policy, PlaySubmission(s, w).state)
    ensures !End(s, w, turn).Continue? && !PlaySubmission(s, w).Continue?
    ensures s.turns == [] ==>
              var step := PlayBootstrap(s, w);
              (step.Return? ==> FitsBytes(policy, step.state)) && (step.Continue? ==> IsNarrow(step.state))
  {
  }

  lemma TurnFits(policy: Policy, setup: Setup, s: State, w: TurnWorld)
    requires IsParsedPolicy(policy) && LoopInvariant(policy, s) && IsNarrow(s) && |s.turns| < policy.maximumTurns
    requires IsCappedTurn(w)
    ensures var step := PlayTurn(policy, setup, s, w);
            && (step.Continue? ==> IsNarrow(step.state))
            && (step.Return? ==> FitsBytes(policy, step.state))
  {
    hide PlayDomain, PlaySubmission, PlayBootstrap, End, IsPrepared, FitsBytes, IsCappedTurn;
    if w.runtime.Some? {
      var t := s.(artifactBytes := s.artifactBytes + w.runtime.value.artifactBytes);
      var status := w.runtime.value.status;
      ExitFits(policy, t, w, TurnOf(t, w, true, if status.Completed? then SchemaFailed else status));
      ExitFits(policy, t, w, TurnOf(t, w, true, SchemaFailed));
      if t.phase.DomainTools? && w.runtime.value.calls.Some? && AreCallsAdmitted(policy, t, w.runtime.value.calls) {
        DomainFits(policy, setup, t, w);
      }
    }
  }

  lemma {:induction false} RunFits(policy: Policy, setup: Setup, world: World, s: State)
    requires IsParsedPolicy(policy) && LoopInvariant(policy, s) && IsNarrow(s) && IsCapped(world)
    ensures var run := RunFrom(policy, setup, world, s); run.Return? ==> FitsBytes(policy, run.state)
    decreases policy.maximumTurns - |s.turns|
  {
    hide PlayTurn, LoopInvariant, FitsBytes, IsNarrow, IsCappedTurn;
    if |s.turns| < policy.maximumTurns {
      TurnFits(policy, setup, s, world(|s.turns|));
      TurnIsSafe(policy, setup, s, world(|s.turns|));
      var step := PlayTurn(policy, setup, s, world(|s.turns|));
      if step.Continue? && |step.state.turns| > |s.turns| {
        RunFits(policy, setup, world, step.state);
      }
    }
  }

  lemma {:induction false} ProviderBytesAreCapped(world: World, n: nat)
    requires IsCapped(world)
    ensures ProviderBytes(world, n) <= n * MAXIMUM_TURN_BYTES
    decreases n
  {
    if n > 0 {
      assert IsCappedTurn(world(n - 1));
      if world(n - 1).runtime.Some? {
        FactCollector.CollectedExactly(world(n - 1).runtime.value.artifactBytes);
      }
      ProviderBytesAreCapped(world, n - 1);
    }
  }

  /** The most bytes a run can return with: a full turn from the provider for each turn it
      can have, and the whole artifact ceiling. */
  lemma RunStaysWithinBytes(policy: Policy, a: Attempt)
    requires IsParsedPolicy(policy) && IsCapped(a.world) && RunOf(policy, a).Return?
    ensures Bytes(RunOf(policy, a)) <= ByteCeiling(policy)
  {
    hide RunFrom, IsCapped;
    assert LoopInvariant(policy, INITIAL) && IsCounted(a.world, INITIAL);
    RunFits(policy, a.setup, a.world, INITIAL);
    BytesAreConserved(policy, a.setup, a.world, INITIAL);
    ProviderBytesAreCapped(a.world, |RunOf(policy, a).state.turns|);
  }

  const BOOTSTRAPPING := Setup(Some(Continuation), true)

  function SizedExecution(bytes: nat): nat -> Option<Execution> {
    (i: nat) => Some(Execution(false, bytes, 0, false, PLAIN_RECEIPT))
  }

  /** A bootstrap, then a tool call in every turn, the first persisting all it may, and at
      last a failed turn; each brings as much as the collector lets through. */
  function WidestTurn(policy: Policy, t: nat): TurnWorld {
    var w := CallingTurn(MAXIMUM_TURN_BYTES, Some(if t == 0 then [] else [Controlled]),
                         SizedExecution(if t == 1 then policy.maximumArtifactBytes else 0));
    if t + 1 == TurnCeiling(policy) then w.(runtime := Some(w.runtime.value.(status := TimedOut))) else w
  }

  function Widest(policy: Policy): World {
    (t: nat) => WidestTurn(policy, t)
  }

  /** The state of the widest run after `t` turns. */
  predicate IsWideTo(policy: Policy, s: State, t: nat) {
    && |s.turns| == t && ToolCalls(s) == t - 1 && s.repairRounds == 0 && s.shared == [] && s.hasPriorSource
    && s.controlledBytes == (if t == 1 then 0 else policy.maximumArtifactBytes)
    && s.artifactBytes == t * MAXIMUM_TURN_BYTES + s.controlledBytes
    && (t < policy.maximumTurns - 1 ==> s.phase.DomainTools?)
  }

  lemma WidestStarts(policy: Policy)
    requires IsParsedPolicy(policy)
    ensures var step := PlayTurn(policy, BOOTSTRAPPING, INITIAL, WidestTurn(policy, 0));
            step.Continue? && IsWideTo(policy, step.state, 1)
  {
    hide PlayDomain;
  }

  lemma PlainBooking(policy: Policy, s: State, w: TurnWorld, x: Execution)
    requires w.runtime.Some? && w.continued && !x.rejected && !x.hasClosure && s.shared == []
    requires s.repairRounds <= policy.maximumRepairRounds
    requires s.controlledBytes + x.artifactBytes <= policy.maximumArtifactBytes <= MAXIMUM_SAFE_INTEGER
    ensures var step := CloseDomain(policy, s, w, [x], []);
            && step.Continue? && ToolCalls(step.state) == ToolCalls(s) + 1
            && step.state.repairRounds == s.repairRounds && step.state.shared == []
            && step.state.hasPriorSource == s.hasPriorSource && |step.state.turns| == |s.turns| + 1
            && step.state.controlledBytes == s.controlledBytes + x.artifactBytes
            && step.state.artifactBytes == s.artifactBytes + x.artifactBytes
            && (|s.turns| + 1 < policy.maximumTurns - 1 ==> step.state.phase.DomainTools?)
  {
    OneExecution(x);
    assert FirstUnsupported([]) == None && !SomeClosure([x]);
    hide SomeRejected, SomeClosure, BytesOf, FirstUnsupported;
  }

  lemma WidestGoesOn(policy: Policy, s: State, t: nat)
    requires IsParsedPolicy(policy) && 1 <= t < TurnCeiling(policy) - 1 && IsWideTo(policy, s, t)
    ensures var step := PlayTurn(policy, BOOTSTRAPPING, s, WidestTurn(policy, t));
            step.Continue? && IsWideTo(policy, step.state, t + 1)
  {
    var w := WidestTurn(policy, t);
    OneCall(w);
    var u := Finalized(s.(artifactBytes := s.artifactBytes + MAXIMUM_TURN_BYTES));
    PlainBooking(policy, u, w, w.controlled(0).value);
    hide ControlledOutputs, CapabilityOutputs, CloseDomain;
    assert forall c :: c in [Controlled] ==> c == Controlled;
  }

  lemma WidestEnds(policy: Policy, s: State, t: nat)
    requires IsParsedPolicy(policy) && t == TurnCeiling(policy) - 1 && IsWideTo(policy, s, t)
    ensures var step := PlayTurn(policy, BOOTSTRAPPING, s, WidestTurn(policy, t));
            step.Return? && Bytes(step) == ByteCeiling(policy)
  {
    hide PlayDomain, PlaySubmission, PlayBootstrap;
  }

  lemma {:induction false} WidestRun(policy: Policy, s: State, t: nat)
    requires IsParsedPolicy(policy) && 1 <= t < TurnCeiling(policy) && IsWideTo(policy, s, t)
    ensures var run := RunFrom(policy, BOOTSTRAPPING, Widest(policy), s);
            run.Return? && Bytes(run) == ByteCeiling(policy)
    decreases TurnCeiling(policy) - t
  {
    hide PlayTurn, WidestTurn;
    assert Widest(policy)(t) == WidestTurn(policy, t);
    if t == TurnCeiling(policy) - 1 {
      WidestEnds(policy, s, t);
    } else {
      WidestGoesOn(policy, s, t);
      WidestRun(policy, PlayTurn(policy, BOOTSTRAPPING, s, Widest(policy)(t)).state, t + 1);
    }
  }

  lemma WidestIsCapped(policy: Policy)
    requires IsParsedPolicy(policy)
    ensures IsCapped(Widest(policy))
  {
    FactCollector.CollectedExactly(MAXIMUM_TURN_BYTES);
  }

  ghost predicate AreCapped(attempts: seq<Attempt>) {
    forall a :: a in attempts ==> IsCapped(a.world)
  }

  ghost predicate BytesAlwaysFit(policy: Policy, n: nat, demand: Demand) {
    forall attempts: seq<Attempt> ::
      |attempts| == n && AllReturn(policy, attempts) && AreCapped(attempts) ==>
        Total(Bytes, policy, attempts) <= demand.artifactBytes
  }

  /** Every shard stays within its accepted byte estimate if and only if that covers the
      byte ceiling of each attempt, provider bytes included. */
  lemma ByteEstimateHoldsExactly(policy: Policy, n: nat, demand: Demand)
    requires IsParsedPolicy(policy) && n >= 1 && IsAcceptedEstimate(policy, n, demand)
    ensures BytesAlwaysFit(policy, n, demand) <==> demand.artifactBytes >= n * ByteCeiling(policy)
  {
    hide RunOf, Total, AllReturn, AreCapped, ByteCeiling;
    forall attempts: seq<Attempt> | |attempts| == n && AllReturn(policy, attempts) && AreCapped(attempts)
      ensures Total(Bytes, policy, attempts) <= n * ByteCeiling(policy)
    {
      BytesWithin(policy, attempts);
    }
    WorstBytes(policy, n);
    assert |seq(n, _ => Attempt(BOOTSTRAPPING, Widest(policy)))| == n;
  }

  lemma BytesWithin(policy: Policy, attempts: seq<Attempt>)
    requires IsParsedPolicy(policy) && AllReturn(policy, attempts) && AreCapped(attempts)
    ensures Total(Bytes, policy, attempts) <= |attempts| * ByteCeiling(policy)
  {
    hide RunOf, Total, ByteCeiling, IsCapped;
    forall a | a in attempts ensures Bytes(RunOf(policy, a)) <= ByteCeiling(policy) {
      RunStaysWithinBytes(policy, a);
    }
    TotalIsBounded(Bytes, policy, attempts, ByteCeiling(policy));
  }

  lemma WorstBytes(policy: Policy, n: nat)
    requires IsParsedPolicy(policy)
    ensures var worst := seq(n, _ => Attempt(BOOTSTRAPPING, Widest(policy)));
            AllReturn(policy, worst) && AreCapped(worst) && Total(Bytes, policy, worst) == n * ByteCeiling(policy)
  {
    hide PlayTurn, WidestTurn, IsCapped, ByteCeiling, Total;
    assert Widest(policy)(0) == WidestTurn(policy, 0);
    WidestStarts(policy);
    var first := PlayTurn(policy, BOOTSTRAPPING, INITIAL, Widest(policy)(0));
    WidestRun(policy, first.state, 1);
    WidestIsCapped(policy);
    TotalOfCopies(Bytes, policy, Attempt(BOOTSTRAPPING, Widest(policy)), n);
  }

  /** Under the frozen bounds, every accepted estimate that asks for the least of repair
      rounds and bytes is exceeded in both by some shard. */
  lemma FrozenEstimateFallsShort(n: nat, demand: Demand)
    requires n >= 1 && IsAcceptedEstimate(FROZEN, n, demand)
    requires demand.repairRounds == n * FROZEN.maximumRepairRounds
    requires demand.artifactBytes == n * FROZEN.maximumArtifactBytes
    ensures !RepairsAlwaysFit(FROZEN, n, demand) && !BytesAlwaysFit(FROZEN, n, demand)
  {
    hide RepairsAlwaysFit, BytesAlwaysFit;
    RepairEstimateHoldsExactly(FROZEN, n, demand);
    ByteEstimateHoldsExactly(FROZEN, n, demand);
  }
}
