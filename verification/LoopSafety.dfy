/** What every run of the turn loop keeps: the shape of its turns, its ceilings, and how
    often it finalizes, executes a shared effect and assesses. */
module LoopSafety {
  import opened Wrappers
  import opened Json
  import opened AgentTurnLoop
  import FinalReceipts

  // ---------------------------------------------------------------------------
  // Invariants at the head of the loop
  // ---------------------------------------------------------------------------

  /** Turn `i` is at position `i`, completed, and not the last of its run. */
  predicate AreOpen(turns: seq<Turn>) {
    forall i :: 0 <= i < |turns| ==> turns[i].turnIndex == i && !turns[i].terminal && turns[i].status.Completed?
  }

  predicate IsFinalizedOnce(s: State) {
    |s.finalized| == |s.turns| && forall i :: 0 <= i < |s.turns| ==> s.finalized[i] == i
  }

  /** The shape of an unfinished run. */
  predicate ShapeInvariant(s: State) {
    AreOpen(s.turns) && IsFinalizedOnce(s) && s.assessments == 0
  }

  predicate BudgetInvariant(policy: Policy, s: State) {
    && ToolCalls(s) <= policy.maximumToolCalls
    && s.repairRounds <= policy.maximumRepairRounds
    && s.controlledBytes <= policy.maximumArtifactBytes
  }

  /** One shared effect at most, and then only the submission is left. */
  predicate SharedInvariant(s: State) {
    && |s.shared| <= 1
    && (|s.shared| == 1 ==> s.phase.ResultSubmission? && s.shared[0] == |s.turns| - 1)
  }

  /** The one way past the last domain turn: two turns in all, the first a bootstrap. */
  predicate IsShortBootstrap(policy: Policy, s: State) {
    policy.maximumTurns == 2 && s.turns != [] && s.turns[0].isBootstrap
  }

  predicate PhaseInvariant(policy: Policy, s: State) {
    && |s.turns| <= policy.maximumTurns
    && (|s.turns| == policy.maximumTurns ==> IsShortBootstrap(policy, s))
    && (s.phase.DomainTools? && |s.turns| == policy.maximumTurns - 1 ==> IsShortBootstrap(policy, s))
    && forall i :: 0 <= i < |s.turns| ==> s.turns[i].phase.DomainTools?
  }

  predicate LoopInvariant(policy: Policy, s: State) {
    ShapeInvariant(s) && BudgetInvariant(policy, s) && SharedInvariant(s) && PhaseInvariant(policy, s)
  }

  // ---------------------------------------------------------------------------
  // What a returned run looks like
  // ---------------------------------------------------------------------------

  /** Turn indexes are positions; one turn is terminal, the last; all before completed. */
  predicate IsShaped(s: State, finalStatus: Status) {
    var n := |s.turns|;
    && n >= 1
    && AreOpen(s.turns[..n - 1])
    && s.turns[n - 1].turnIndex == n - 1 && s.turns[n - 1].terminal && s.turns[n - 1].status == finalStatus
    && IsFinalizedOnce(s)
  }

  /** Tool calls within their ceiling; repairs and bytes over theirs only when the run ends
      for it as schema-failed, and repairs by one at most. */
  predicate IsWithinBudgets(policy: Policy, s: State, finalStatus: Status) {
    && ToolCalls(s) <= policy.maximumToolCalls
    && s.repairRounds <= policy.maximumRepairRounds + 1
    && (s.repairRounds > policy.maximumRepairRounds ==> finalStatus.SchemaFailed?)
    && (s.controlledBytes > policy.maximumArtifactBytes ==> finalStatus.SchemaFailed?)
  }

  /** One shared effect at most, in the last domain turn. */
  predicate IsSharedLast(s: State) {
    && |s.shared| <= 1
    && (|s.shared| == 1 ==>
          && s.shared[0] < |s.turns|
          && s.turns[s.shared[0]].phase.DomainTools?
          && forall i :: s.shared[0] < i < |s.turns| ==> s.turns[i].phase.ResultSubmission?)
  }

  predicate IsAssessedOnce(s: State) {
    s.assessments == if |s.turns| > 0 && s.turns[|s.turns| - 1].hasSubmission then 1 else 0
  }

  predicate IsSafeReturn(policy: Policy, s: State, finalStatus: Status) {
    && |s.turns| <= policy.maximumTurns
    && IsShaped(s, finalStatus) && IsWithinBudgets(policy, s, finalStatus) && IsSharedLast(s) && IsAssessedOnce(s)
  }

  /** What is still bounded when a run ends with an error. */
  predicate IsSafeThrow(policy: Policy, s: State) {
    && |s.turns| <= policy.maximumTurns && ToolCalls(s) <= policy.maximumToolCalls
    && |s.shared| <= 1 && s.assessments <= 1
    && |s.turns| <= |s.finalized| <= |s.turns| + 1
  }

  predicate IsSafe(policy: Policy, step: Step) {
    match step
    case Continue(t) => LoopInvariant(policy, t)
    case Return(t, finalStatus) => IsSafeReturn(policy, t, finalStatus)
    case Throw(t) => IsSafeThrow(policy, t)
  }

  // ---------------------------------------------------------------------------
  // One turn
  // ---------------------------------------------------------------------------

  lemma {:induction false} ControlledCount(calls: seq<Call>, w: TurnWorld, n: nat)
    requires n <= |calls| && ControlledOutputs(calls, w, n).Some? && CapabilityOutputs(calls, w, n).Some?
    ensures |ControlledOutputs(calls, w, n).value| + |CapabilityOutputs(calls, w, n).value| <= n
    decreases n
  {
    if n > 0 {
      ControlledCount(calls, w, n - 1);
    }
  }

  lemma LastTurnIsSafe(policy: Policy, s: State, turn: Turn, status: Status)
    requires LoopInvariant(policy, s) && |s.turns| < policy.maximumTurns
    requires turn.turnIndex == |s.turns| && turn.terminal && turn.status == status && turn.phase == s.phase
    ensures var assessments := if turn.hasSubmission then 1 else 0;
            IsSafeReturn(policy, Finalized(s).(turns := s.turns + [turn], assessments := assessments), status)
  {
    assert (s.turns + [turn])[..|s.turns|] == s.turns;
  }

  lemma FinalizedIsSafeThrow(policy: Policy, s: State, assessments: nat)
    requires LoopInvariant(policy, s) && assessments <= 1
    ensures IsSafeThrow(policy, Finalized(s).(assessments := assessments))
  {
  }

  lemma EndIsSafe(policy: Policy, s: State, w: TurnWorld, turn: Turn)
    requires LoopInvariant(policy, s) && |s.turns| < policy.maximumTurns
    requires turn.turnIndex == |s.turns| && turn.terminal && !turn.hasSubmission && turn.phase == s.phase
    ensures IsSafe(policy, End(s, w, turn))
  {
    LastTurnIsSafe(policy, s, turn, turn.status);
    FinalizedIsSafeThrow(policy, s, 0);
    hide IsSafeReturn, IsSafeThrow;
    assert s.assessments == 0;
  }

  lemma SubmissionIsSafe(policy: Policy, s: State, w: TurnWorld)
    requires LoopInvariant(policy, s) && |s.turns| < policy.maximumTurns && w.runtime.Some? && s.phase.ResultSubmission?
    ensures IsSafe(policy, PlaySubmission(s, w)) && !PlaySubmission(s, w).Continue?
  {
    EndIsSafe(policy, s, w, TurnOf(s, w, true, SchemaFailed));
    LastTurnIsSafe(policy, s, TurnOf(s, w, true, Completed).(hasSubmission := true), Completed);
    FinalizedIsSafeThrow(policy, s, 0);
    FinalizedIsSafeThrow(policy, s, 1);
    assert s.assessments == 0;
    hide LoopInvariant, IsSafeReturn, IsSafeThrow;
  }

  lemma BootstrapIsSafe(policy: Policy, s: State, w: TurnWorld)
    requires IsPolicy(policy) && LoopInvariant(policy, s) && w.runtime.Some? && s.turns == [] && s.phase.DomainTools?
    ensures IsSafe(policy, PlayBootstrap(s, w))
  {
    var turn := TurnOf(s, w, true, Completed).(isBootstrap := true);
    LastTurnIsSafe(policy, s, turn, Completed);
    FinalizedIsSafeThrow(policy, s, 0);
    OpenBootstrapIsSafe(policy, s, turn.(terminal := false));
    assert s.assessments == 0;
    hide LoopInvariant, IsSafeReturn, IsSafeThrow;
  }

  lemma OpenBootstrapIsSafe(policy: Policy, s: State, turn: Turn)
    requires IsPolicy(policy) && LoopInvariant(policy, s) && s.turns == [] && s.phase.DomainTools?
    requires turn.turnIndex == 0 && !turn.terminal && turn.status.Completed? && turn.isBootstrap && turn.phase.DomainTools?
    ensures LoopInvariant(policy, Finalized(s).(turns := s.turns + [turn], hasPriorSource := true))
  {
  }

  /** The state just before a domain turn is booked: its own observation finalized, and
      its shared effect, if any, counted. */
  predicate IsReadyToBook(policy: Policy, s: State, calls: nat) {
    && AreOpen(s.turns)
    && |s.finalized| == |s.turns| + 1 && (forall i :: 0 <= i <= |s.turns| ==> s.finalized[i] == i)
    && s.assessments == 0
    && BudgetInvariant(policy, s) && ToolCalls(s) + calls <= policy.maximumToolCalls
    && |s.turns| < policy.maximumTurns && s.phase.DomainTools?
    && (forall i :: 0 <= i < |s.turns| ==> s.turns[i].phase.DomainTools?)
    && |s.shared| <= 1 && (|s.shared| == 1 ==> s.shared[0] == |s.turns|)
    && (|s.turns| == policy.maximumTurns - 1 ==> IsShortBootstrap(policy, s))
  }

  /** `t` is `s` with only counters and outputs booked. */
  predicate IsBooked(s: State, t: State) {
    && t.turns == s.turns && t.finalized == s.finalized && t.shared == s.shared
    && t.assessments == s.assessments && t.phase == s.phase
  }

  lemma ReturnAfterBooking(policy: Policy, s: State, t: State, turn: Turn, status: Status)
    requires IsReadyToBook(policy, s, 0) && IsBooked(s, t)
    requires turn.turnIndex == |s.turns| && turn.terminal && turn.status == status && turn.phase.DomainTools?
    requires !turn.hasSubmission && IsWithinBudgets(policy, t, status)
    ensures IsSafeReturn(policy, t.(turns := s.turns + [turn]), status)
  {
    assert (s.turns + [turn])[..|s.turns|] == s.turns;
  }

  lemma ContinueAfterBooking(policy: Policy, s: State, t: State, turn: Turn, phase: Phase)
    requires IsReadyToBook(policy, s, 0) && IsBooked(s, t) && BudgetInvariant(policy, t)
    requires turn.turnIndex == |s.turns| && !turn.terminal && turn.status.Completed? && turn.phase.DomainTools?
    requires |s.shared| == 1 || |s.turns| + 1 == policy.maximumTurns - 1 ==> phase.ResultSubmission?
    requires IsPolicy(policy)
    ensures LoopInvariant(policy, t.(turns := s.turns + [turn], phase := phase))
  {
  }

  lemma BookingIsSafe(policy: Policy, s: State, w: TurnWorld, executions: seq<Execution>, outcomes: seq<Outcome>)
    requires IsPolicy(policy) && IsReadyToBook(policy, s, |executions| + |outcomes|) && w.runtime.Some?
    ensures IsSafe(policy, CloseDomain(policy, s, w, executions, outcomes))
  {
    hide BytesOf, FirstUnsupported, SomeRejected, SomeClosure, IsSafeReturn, LoopInvariant;
    var step := CloseDomain(policy, s, w, executions, outcomes);
    assert step.state.finalized == s.finalized && step.state.shared == s.shared;
    match step
    case Return(t, status) =>
      ReturnAfterBooking(policy, s, t.(turns := s.turns), t.turns[|s.turns|], status);
    case Continue(t) =>
      ContinueAfterBooking(policy, s, t.(turns := s.turns, phase := s.phase), t.turns[|s.turns|], t.phase);
    case Throw(t) =>
  }

  lemma DomainIsSafe(policy: Policy, setup: Setup, s: State, w: TurnWorld)
    requires IsPolicy(policy) && LoopInvariant(policy, s) && |s.turns| < policy.maximumTurns && s.phase.DomainTools?
    requires w.runtime.Some? && w.runtime.value.calls.Some? && AreCallsAdmitted(policy, s, w.runtime.value.calls)
    ensures IsSafe(policy, PlayDomain(policy, setup, s, w))
  {
    hide CloseDomain;
    var calls := w.runtime.value.calls.value;
    var executions, outcomes := ControlledOutputs(calls, w, |calls|), CapabilityOutputs(calls, w, |calls|);
    if executions.Some? && outcomes.Some? {
      ControlledCount(calls, w, |calls|);
      var t := Finalized(s);
      var u := if SharedEffect in calls then t.(shared := s.shared + [|s.turns|]) else t;
      assert IsReadyToBook(policy, u, |executions.value| + |outcomes.value|);
      BookingIsSafe(policy, u, w, executions.value, outcomes.value);
    }
  }

  lemma BytesKeepInvariant(policy: Policy, s: State, bytes: nat)
    requires LoopInvariant(policy, s)
    ensures LoopInvariant(policy, s.(artifactBytes := bytes))
  {
  }

  lemma TurnIsSafe(policy: Policy, setup: Setup, s: State, w: TurnWorld)
    requires IsPolicy(policy) && LoopInvariant(policy, s) && |s.turns| < policy.maximumTurns
    ensures IsSafe(policy, PlayTurn(policy, setup, s, w))
  {
    hide LoopInvariant, PlaySubmission, PlayBootstrap, PlayDomain, End;
    if w.runtime.Some? && IsPrepared(setup, s, w) {
      var t := s.(artifactBytes := s.artifactBytes + w.runtime.value.artifactBytes);
      BytesKeepInvariant(policy, s, t.artifactBytes);
      var status := w.runtime.value.status;
      EndIsSafe(policy, t, w, TurnOf(t, w, true, if status.Completed? then SchemaFailed else status));
      EndIsSafe(policy, t, w, TurnOf(t, w, true, SchemaFailed));
      if t.phase.ResultSubmission? {
        SubmissionIsSafe(policy, t, w);
      } else if DecisionOf(setup, s).Bootstrap? {
        BootstrapIsSafe(policy, t, w);
      }
      if t.phase.DomainTools? && w.runtime.value.calls.Some? && AreCallsAdmitted(policy, t, w.runtime.value.calls) {
        DomainIsSafe(policy, setup, t, w);
      }
    }
    LoopInvariantIsSafeThrow(policy, s);
  }

  lemma LoopInvariantIsSafeThrow(policy: Policy, s: State)
    requires LoopInvariant(policy, s)
    ensures IsSafeThrow(policy, s)
  {
  }

  // ---------------------------------------------------------------------------
  // Every run
  // ---------------------------------------------------------------------------

  lemma {:induction false} RunIsSafe(policy: Policy, setup: Setup, world: World, s: State)
    requires IsPolicy(policy) && LoopInvariant(policy, s)
    ensures IsSafe(policy, RunFrom(policy, setup, world, s)) && !RunFrom(policy, setup, world, s).Continue?
    decreases policy.maximumTurns - |s.turns|
  {
    hide LoopInvariant, IsSafeThrow, IsSafeReturn, PlayTurn;
    LoopInvariantIsSafeThrow(policy, s);
    if |s.turns| < policy.maximumTurns {
      TurnIsSafe(policy, setup, s, world(|s.turns|));
      var step := PlayTurn(policy, setup, s, world(|s.turns|));
      if step.Continue? {
        TurnsGrow(policy, setup, s, world(|s.turns|));
        RunIsSafe(policy, setup, world, step.state);
      }
    }
  }

  /** Every run that returns is well shaped, within its budgets, and finalizes each of its
      turns once; an error leaves no ceiling passed either. */
  lemma EveryRunIsSafe(policy: Policy, setup: Setup, world: World)
    requires IsPolicy(policy)
    ensures var r := RunFrom(policy, setup, world, INITIAL);
            && !r.Continue?
            && (r.Return? ==> IsSafeReturn(policy, r.state, r.finalStatus))
            && (r.Throw? ==> IsSafeThrow(policy, r.state))
  {
    hide RunFrom, IsSafeThrow, IsSafeReturn;
    assert LoopInvariant(policy, INITIAL);
    RunIsSafe(policy, setup, world, INITIAL);
  }

  // ---------------------------------------------------------------------------
  // The ceiling
  // ---------------------------------------------------------------------------

  /** The run gets past its last turn, where the source throws for its ceiling. */
  predicate ReachesCeiling(policy: Policy, setup: Setup, world: World, s: State)
    decreases policy.maximumTurns - |s.turns|
  {
    |s.turns| >= policy.maximumTurns ||
    var step := PlayTurn(policy, setup, s, world(|s.turns|));
    step.Continue? && |step.state.turns| > |s.turns| && ReachesCeiling(policy, setup, world, step.state)
  }

  lemma {:induction false} CeilingNeedsShortBootstrap(policy: Policy, setup: Setup, world: World, s: State)
    requires IsPolicy(policy) && LoopInvariant(policy, s) && ReachesCeiling(policy, setup, world, s)
    ensures policy.maximumTurns == 2
    decreases policy.maximumTurns - |s.turns|
  {
    hide PlayTurn;
    if |s.turns| < policy.maximumTurns {
      TurnIsSafe(policy, setup, s, world(|s.turns|));
      CeilingNeedsShortBootstrap(policy, setup, world, PlayTurn(policy, setup, s, world(|s.turns|)).state);
    }
  }

  /** A bootstrap turn is recorded only for an effect that has one. */
  predicate BootstrapIsCalledFor(setup: Setup, s: State) {
    s.turns != [] && s.turns[0].isBootstrap ==>
      setup.sharedEffect == Some(Continuation) || setup.sharedEffect == Some(Job)
  }

  lemma DomainKeepsFirst(policy: Policy, setup: Setup, s: State, w: TurnWorld)
    requires w.runtime.Some? && w.runtime.value.calls.Some? && PlayDomain(policy, setup, s, w).Continue?
    ensures PlayDomain(policy, setup, s, w).state.turns[..|s.turns|] == s.turns
    ensures var t := PlayDomain(policy, setup, s, w).state; !t.turns[|s.turns|].isBootstrap
  {
    hide BytesOf, FirstUnsupported, SomeRejected, SomeClosure, ControlledOutputs, CapabilityOutputs, MayRunCapabilities;
    DomainGrows(policy, setup, s, w);
  }

  lemma BootstrapOnlyWhenCalledFor(policy: Policy, setup: Setup, s: State, w: TurnWorld)
    requires BootstrapIsCalledFor(setup, s) && PlayTurn(policy, setup, s, w).Continue?
    ensures BootstrapIsCalledFor(setup, PlayTurn(policy, setup, s, w).state)
  {
    hide PlayDomain;
    var t := s.(artifactBytes := s.artifactBytes + w.runtime.value.artifactBytes);
    TurnsGrow(policy, setup, s, w);
    if w.runtime.value.calls.Some? && PlayDomain(policy, setup, t, w).Continue? {
      DomainKeepsFirst(policy, setup, t, w);
      var u := PlayDomain(policy, setup, t, w).state;
      assert s.turns != [] ==> u.turns[..|s.turns|][0] == s.turns[0];
    }
  }

  lemma {:induction false} CeilingNeedsSource(policy: Policy, setup: Setup, world: World, s: State)
    requires IsPolicy(policy) && LoopInvariant(policy, s) && ReachesCeiling(policy, setup, world, s)
    requires BootstrapIsCalledFor(setup, s)
    ensures setup.sharedEffect == Some(Continuation) || setup.sharedEffect == Some(Job)
    decreases policy.maximumTurns - |s.turns|
  {
    hide PlayTurn;
    if |s.turns| < policy.maximumTurns {
      TurnIsSafe(policy, setup, s, world(|s.turns|));
      BootstrapOnlyWhenCalledFor(policy, setup, s, world(|s.turns|));
      CeilingNeedsSource(policy, setup, world, PlayTurn(policy, setup, s, world(|s.turns|)).state);
    }
  }

  function BootstrapRuntime(): Runtime { Runtime(Completed, true, 0, Some([]), 0) }

  function OneToolRuntime(): Runtime { Runtime(Completed, true, 0, Some([Controlled]), 0) }

  const PLAIN_RECEIPT := FinalReceipts.ToolReceipt(0, 0, [], [], [])

  const PLAIN_EXECUTION := Execution(false, 0, 0, false, PLAIN_RECEIPT)

  function PlainExecution(i: nat): Option<Execution> { Some(PLAIN_EXECUTION) }

  function PlainOutcome(i: nat): Option<Outcome> { Some(Supported) }

  /** A world that bootstraps, and then makes one tool call in every turn. */
  function BootstrapThenTool(t: nat): TurnWorld {
    TurnWorld(false, true, Some(if t == 0 then BootstrapRuntime() else OneToolRuntime()),
              Some(Observation(true, true)), true, true, PlainExecution, PlainOutcome, true)
  }

  lemma OneToolOutputs()
    ensures ControlledOutputs([Controlled], BootstrapThenTool(1), 1) == Some([PLAIN_EXECUTION])
    ensures CapabilityOutputs([Controlled], BootstrapThenTool(1), 1) == Some([])
  {
    var w := BootstrapThenTool(1);
    assert ControlledOutputs([Controlled], w, 0) == Some([]) && CapabilityOutputs([Controlled], w, 0) == Some([]);
    assert w.controlled(0) == PlainExecution(0);
    assert [] + [PLAIN_EXECUTION] == [PLAIN_EXECUTION];
  }

  lemma ShortBootstrapReachesCeiling(policy: Policy, setup: Setup)
    requires IsPolicy(policy) && policy.maximumTurns == 2
    requires setup.sharedEffect == Some(Continuation) || setup.sharedEffect == Some(Job)
    ensures ReachesCeiling(policy, setup, BootstrapThenTool, INITIAL)
  {
    var first := PlayTurn(policy, setup, INITIAL, BootstrapThenTool(0));
    FirstIsBootstrap(policy, setup);
    SecondIsDomain(policy, setup, first.state);
    hide PlayTurn;
    var second := PlayTurn(policy, setup, first.state, BootstrapThenTool(1));
    assert ReachesCeiling(policy, setup, BootstrapThenTool, second.state);
    assert ReachesCeiling(policy, setup, BootstrapThenTool, first.state);
  }

  lemma FirstIsBootstrap(policy: Policy, setup: Setup)
    requires setup.sharedEffect == Some(Continuation) || setup.sharedEffect == Some(Job)
    ensures var first := PlayTurn(policy, setup, INITIAL, BootstrapThenTool(0));
            first.Continue? && |first.state.turns| == 1 && first.state.hasPriorSource &&
            first.state.phase.DomainTools? && ToolCalls(first.state) == 0 && first.state.repairRounds == 0 &&
            first.state.controlledBytes == 0 && first.state.artifactBytes == 0
  {
  }

  lemma SecondIsDomain(policy: Policy, setup: Setup, s: State)
    requires IsPolicy(policy) && setup.sharedEffect.Some? && |s.turns| == 1 && s.hasPriorSource && s.phase.DomainTools?
    requires ToolCalls(s) == 0 && s.repairRounds == 0 && s.controlledBytes == 0 && s.artifactBytes == 0
    ensures var second := PlayTurn(policy, setup, s, BootstrapThenTool(1));
            second.Continue? && |second.state.turns| == 2
  {
    OneToolOutputs();
    hide ControlledOutputs, CapabilityOutputs;
    assert [PLAIN_EXECUTION][..0] == [];
    assert BytesOf([PLAIN_EXECUTION]) == 0;
    assert forall c :: c in [Controlled] ==> c == Controlled;
  }

  /** The ceiling error can be met exactly when two turns are allowed and the first may be
      a bootstrap: never with three or more. */
  lemma CeilingExactly(policy: Policy, setup: Setup)
    requires IsPolicy(policy)
    ensures (exists world :: ReachesCeiling(policy, setup, world, INITIAL)) <==>
            policy.maximumTurns == 2 && (setup.sharedEffect == Some(Continuation) || setup.sharedEffect == Some(Job))
  {
    hide ReachesCeiling, PlayTurn;
    assert LoopInvariant(policy, INITIAL);
    forall world | ReachesCeiling(policy, setup, world, INITIAL)
      ensures policy.maximumTurns == 2 && (setup.sharedEffect == Some(Continuation) || setup.sharedEffect == Some(Job))
    {
      CeilingNeedsShortBootstrap(policy, setup, world, INITIAL);
      CeilingNeedsSource(policy, setup, world, INITIAL);
    }
    if policy.maximumTurns == 2 && (setup.sharedEffect == Some(Continuation) || setup.sharedEffect == Some(Job)) {
      ShortBootstrapReachesCeiling(policy, setup);
    }
  }

  // ---------------------------------------------------------------------------
  // Bytes
  // ---------------------------------------------------------------------------

  /** The bytes the provider brought in the first `n` turns. */
  function ProviderBytes(world: World, n: nat): nat {
    if n == 0 then 0
    else
      var runtime := world(n - 1).runtime;
      ProviderBytes(world, n - 1) + if runtime.Some? then runtime.value.artifactBytes else 0
  }

  /** The executions of a list of turns, in order. */
  function ExecutionsIn(turns: seq<Turn>): seq<Execution> {
    if turns == [] then [] else ExecutionsIn(turns[..|turns| - 1]) + turns[|turns| - 1].executions
  }

  lemma ExecutionsOfMore(turns: seq<Turn>, turn: Turn)
    ensures ExecutionsIn(turns + [turn]) == ExecutionsIn(turns) + turn.executions
  {
    assert (turns + [turn])[..|turns|] == turns;
  }

  /** The outputs are those of the turns, in order; every byte counted was brought by the
      provider in a turn of the run, or persisted by one of the outputs. */
  predicate IsCounted(world: World, s: State) {
    && s.toolOutputs == ExecutionsIn(s.turns)
    && s.controlledBytes == BytesOf(s.toolOutputs)
    && s.artifactBytes == ProviderBytes(world, |s.turns|) + s.controlledBytes
  }

  /** The same, once the turn's own bytes are added and before the turn is. */
  predicate IsBrought(world: World, s: State) {
    && s.toolOutputs == ExecutionsIn(s.turns)
    && s.controlledBytes == BytesOf(s.toolOutputs)
    && s.artifactBytes == ProviderBytes(world, |s.turns| + 1) + s.controlledBytes
  }

  lemma {:induction false} BytesOfMore(a: seq<Execution>, b: seq<Execution>)
    ensures BytesOf(a + b) == BytesOf(a) + BytesOf(b)
    decreases |b|
  {
    if b == [] {
      assert a + b == a;
    } else {
      BytesOfMore(a, b[..|b| - 1]);
      assert (a + b)[..|a + b| - 1] == a + b[..|b| - 1];
    }
  }

  lemma BookingCounts(policy: Policy, world: World, s: State, w: TurnWorld, executions: seq<Execution>, outcomes: seq<Outcome>)
    requires w.runtime.Some? && IsBrought(world, s)
    ensures var step := CloseDomain(policy, s, w, executions, outcomes); !step.Throw? ==> IsCounted(world, step.state)
  {
    hide BytesOf, FirstUnsupported, SomeRejected, SomeClosure, ProviderBytes, ExecutionsIn;
    BytesOfMore(s.toolOutputs, executions);
    var step := CloseDomain(policy, s, w, executions, outcomes);
    if !step.Throw? {
      assert step.state.turns == s.turns + [step.state.turns[|s.turns|]];
      ExecutionsOfMore(s.turns, step.state.turns[|s.turns|]);
    }
  }

  lemma DomainCounts(policy: Policy, setup: Setup, world: World, s: State, w: TurnWorld)
    requires w.runtime.Some? && w.runtime.value.calls.Some? && IsBrought(world, s)
    ensures var step := PlayDomain(policy, setup, s, w); !step.Throw? ==> IsCounted(world, step.state)
  {
    hide CloseDomain, MayRunCapabilities, BytesOf, ProviderBytes, IsCounted;
    var calls := w.runtime.value.calls.value;
    var executions, outcomes := ControlledOutputs(calls, w, |calls|), CapabilityOutputs(calls, w, |calls|);
    if executions.Some? && outcomes.Some? {
      var t := Finalized(s);
      BookingCounts(policy, world, t, w, executions.value, outcomes.value);
      BookingCounts(policy, world, t.(shared := s.shared + [|s.turns|]), w, executions.value, outcomes.value);
    }
  }

  /** The exits before the calls leave the bytes as they are. */
  lemma ExitCounts(world: World, s: State, w: TurnWorld, turn: Turn)
    requires w.runtime.Some? && IsBrought(world, s) && turn.executions == []
    ensures var step := End(s, w, turn); !step.Throw? ==> IsCounted(world, step.state)
    ensures var step := PlaySubmission(s, w); !step.Throw? ==> IsCounted(world, step.state)
    ensures var step := PlayBootstrap(s, w); !step.Throw? ==> IsCounted(world, step.state)
  {
    hide BytesOf, ProviderBytes, ExecutionsIn;
    ExecutionsOfMore(s.turns, turn);
    ExecutionsOfMore(s.turns, TurnOf(s, w, true, SchemaFailed));
    ExecutionsOfMore(s.turns, TurnOf(s, w, true, Completed).(hasSubmission := true));
    ExecutionsOfMore(s.turns, TurnOf(s, w, true, Completed).(isBootstrap := true));
    ExecutionsOfMore(s.turns, TurnOf(s, w, false, Completed).(isBootstrap := true));
  }

  lemma TurnBrings(world: World, s: State)
    requires IsCounted(world, s) && world(|s.turns|).runtime.Some?
    ensures IsBrought(world, s.(artifactBytes := s.artifactBytes + world(|s.turns|).runtime.value.artifactBytes))
  {
  }

  lemma TurnCounts(policy: Policy, setup: Setup, world: World, s: State)
    requires IsCounted(world, s)
    ensures var step := PlayTurn(policy, setup, s, world(|s.turns|)); !step.Throw? ==> IsCounted(world, step.state)
  {
    hide PlayDomain, PlaySubmission, PlayBootstrap, End, IsPrepared, IsCounted, IsBrought, DecisionOf;
    var w := world(|s.turns|);
    if w.runtime.Some? {
      TurnBrings(world, s);
      var t := s.(artifactBytes := s.artifactBytes + w.runtime.value.artifactBytes);
      var status := w.runtime.value.status;
      ExitCounts(world, t, w, TurnOf(t, w, true, if status.Completed? then SchemaFailed else status));
      ExitCounts(world, t, w, TurnOf(t, w, true, SchemaFailed));
      if w.runtime.value.calls.Some? {
        DomainCounts(policy, setup, world, t, w);
      }
    }
  }

  /** A returned run's total is exactly what the provider brought in its turns and what its
      executions persisted. */
  lemma {:induction false} BytesAreConserved(policy: Policy, setup: Setup, world: World, s: State)
    requires IsCounted(world, s)
    ensures var run := RunFrom(policy, setup, world, s); !run.Throw? ==> IsCounted(world, run.state)
    decreases policy.maximumTurns - |s.turns|
  {
    hide PlayTurn, IsCounted;
    if |s.turns| < policy.maximumTurns {
      TurnCounts(policy, setup, world, s);
      var step := PlayTurn(policy, setup, s, world(|s.turns|));
      if step.Continue? && |step.state.turns| > |s.turns| {
        BytesAreConserved(policy, setup, world, step.state);
      }
    }
  }

  // ---------------------------------------------------------------------------
  // Shared effects
  // ---------------------------------------------------------------------------

  /** A shared effect was the sole call of its turn. */
  predicate AreSole(world: World, shared: seq<nat>) {
    forall k :: k in shared ==> world(k).runtime.Some? && world(k).runtime.value.calls == Some([SharedEffect])
  }

  lemma BookingKeepsShared(policy: Policy, s: State, w: TurnWorld, executions: seq<Execution>, outcomes: seq<Outcome>)
    requires w.runtime.Some?
    ensures CloseDomain(policy, s, w, executions, outcomes).state.shared == s.shared
  {
  }

  lemma TurnKeepsSole(policy: Policy, setup: Setup, world: World, s: State)
    requires AreSole(world, s.shared)
    ensures AreSole(world, PlayTurn(policy, setup, s, world(|s.turns|)).state.shared)
  {
    hide CloseDomain, ControlledOutputs, CapabilityOutputs, MayRunCapabilities;
    var w := world(|s.turns|);
    forall t: State, executions, outcomes | w.runtime.Some?
      ensures CloseDomain(policy, t, w, executions, outcomes).state.shared == t.shared
    {
      BookingKeepsShared(policy, t, w, executions, outcomes);
    }
  }

  lemma {:induction false} RunKeepsSole(policy: Policy, setup: Setup, world: World, s: State)
    requires AreSole(world, s.shared)
    ensures AreSole(world, RunFrom(policy, setup, world, s).state.shared)
    decreases policy.maximumTurns - |s.turns|
  {
    hide PlayTurn, AreSole;
    if |s.turns| < policy.maximumTurns {
      TurnKeepsSole(policy, setup, world, s);
      var step := PlayTurn(policy, setup, s, world(|s.turns|));
      if step.Continue? && |step.state.turns| > |s.turns| {
        RunKeepsSole(policy, setup, world, step.state);
      }
    }
  }

  /** Whether a run returns or throws, at most one shared effect was executed in it, as the
      sole call of its turn. */
  lemma OneSoleSharedEffect(policy: Policy, setup: Setup, world: World)
    requires IsPolicy(policy)
    ensures var s := RunFrom(policy, setup, world, INITIAL).state; |s.shared| <= 1 && AreSole(world, s.shared)
  {
    hide RunFrom;
    EveryRunIsSafe(policy, setup, world);
    RunKeepsSole(policy, setup, world, INITIAL);
  }
}
