/** The attempt executor around the turn loop: closed turns are replayed instead of invoked
    again, the replayed list must be consumed exactly, and what a replay makes of a run that
    was interrupted. */
module AttemptRecovery {
  import opened Wrappers
  import opened Json
  import opened AgentTurnLoop
  import LoopMeaning
  import opened LoopSafety
  import opened ToolService
  import opened ServedRuns
  import FinalReceipts
  import ShardBudget

  predicate IsInSequence(recovered: seq<ClosedTurn>) {
    forall t :: 0 <= t < |recovered| ==> recovered[t].turnIndex == t
  }

  /** The list records what the world did: its runtimes, and the status of a failure,
      which is never `completed`. */
  predicate IsFaithful(recovered: seq<ClosedTurn>, world: World) {
    && IsInSequence(recovered)
    && forall t: nat :: t < |recovered| ==>
         && world(t).runtime.Some?
         && match recovered[t]
            case ClosedCompleted(_, runtime) => world(t).runtime.value == runtime
            case ClosedFailed(_, status, _) => !status.Completed? && world(t).runtime.value.status == status
  }

  // ---------------------------------------------------------------------------
  // The executor
  // ---------------------------------------------------------------------------

  datatype AttemptResult = Executed(state: State, finalStatus: Status) | Refused | Errored

  /** The loop comes to turn `t`: it goes on from every turn before. */
  predicate PlaysTurn(policy: Policy, setup: Setup, world: World, s: State, t: nat)
    decreases policy.maximumTurns - |s.turns|
  {
    |s.turns| < policy.maximumTurns &&
    (|s.turns| == t ||
     (|s.turns| < t &&
      var step := PlayTurn(policy, setup, s, world(|s.turns|));
      step.Continue? && |step.state.turns| > |s.turns| && PlaysTurn(policy, setup, world, step.state, t)))
  }

  lemma {:induction false} PlaysTurnExactly(policy: Policy, setup: Setup, world: World, s: State, t: nat)
    requires RunFrom(policy, setup, world, s).Return? && |s.turns| <= t
    ensures PlaysTurn(policy, setup, world, s, t) <==> t < |RunFrom(policy, setup, world, s).state.turns|
    ensures |s.turns| < |RunFrom(policy, setup, world, s).state.turns|
    decreases policy.maximumTurns - |s.turns|
  {
    hide PlayTurn;
    TurnsGrow(policy, setup, s, world(|s.turns|));
    var step := PlayTurn(policy, setup, s, world(|s.turns|));
    if step.Continue? {
      if |s.turns| < t {
        PlaysTurnExactly(policy, setup, world, step.state, t);
      } else {
        PlaysTurnExactly(policy, setup, world, step.state, t + 1);
      }
    }
  }

  /** Runs the loop over the closed turns and then live.  A list out of sequence is refused,
      and one whose last turn the returning run never comes to. */
  method ExecuteAttempt(policy: Policy, setup: Setup, world: World, recovered: seq<ClosedTurn>) returns (r: AttemptResult)
    requires IsPolicy(policy)
    ensures var resumed := Resumed(recovered, world);
            var run := RunFrom(policy, setup, resumed, INITIAL);
            && (r.Refused? <==> !IsInSequence(recovered) ||
                                (run.Return? && recovered != [] &&
                                 !PlaysTurn(policy, setup, resumed, INITIAL, |recovered| - 1)))
            && (r.Errored? <==> IsInSequence(recovered) && !run.Return?)
            && (r.Executed? ==> r == Executed(run.state, run.finalStatus))
    ensures r.Executed? ==>
              && |recovered| <= |r.state.turns|
              && LoopMeaning.IsRunOf(policy, setup, Resumed(recovered, world), Return(r.state, r.finalStatus))
  {
    hide RunFrom, PlaysTurn, Resumed, LoopMeaning.IsRunOf;
    LoopMeaning.RunsAreTheWorlds(policy, setup, Resumed(recovered, world));
    for i := 0 to |recovered|
      invariant forall t :: 0 <= t < i ==> recovered[t].turnIndex == t
    {
      if recovered[i].turnIndex != i {
        return Refused;
      }
    }
    var invoker := new TurnInvoker(recovered, world);
    var run := RunAgentTurnLoop(policy, setup, invoker);
    if !run.Return? {
      return Errored;
    }
    if recovered != [] {
      PlaysTurnExactly(policy, setup, Resumed(recovered, world), INITIAL, |recovered| - 1);
    }
    if invoker.recoveredTurnCount != |recovered| || |invoker.turnAuthorities| != |run.state.turns| {
      return Refused;
    }
    return Executed(run.state, run.finalStatus);
  }

  // ---------------------------------------------------------------------------
  // Recovery refines the uninterrupted run
  // ---------------------------------------------------------------------------

  /** Equal but for the response digest of the last turn and the total of artifact bytes. */
  predicate AgreesButForTheFailure(a: State, b: State) {
    && |a.turns| == |b.turns| >= 1
    && var n := |a.turns| - 1;
    && a.turns[..n] == b.turns[..n]
    && a.turns[n] == b.turns[n].(responseDigest := a.turns[n].responseDigest)
    && a == b.(turns := a.turns, artifactBytes := a.artifactBytes)
  }

  /** The run ends with a failed transport that the list replays. */
  predicate EndsInReplayedFailure(recovered: seq<ClosedTurn>, live: State) {
    var last := |live.turns| - 1;
    0 <= last < |recovered| && recovered[last].ClosedFailed?
  }

  /** The bytes before the replayed failure leave no room for those of its stand-in. */
  predicate Overflows(recovered: seq<ClosedTurn>, world: World, live: State) {
    && EndsInReplayedFailure(recovered, live)
    && var last := world(|live.turns| - 1);
    && last.runtime.Some?
    && live.artifactBytes - last.runtime.value.artifactBytes + SYNTHETIC_BYTES > MAXIMUM_SAFE_INTEGER
  }

  /** What a replay must show for a run that returned `live`. */
  predicate IsReplayOf(recovered: seq<ClosedTurn>, world: World, live: Step, replayed: Step)
    requires live.Return?
  {
    if !EndsInReplayedFailure(recovered, live.state) then replayed == live
    else if Overflows(recovered, world, live.state) then replayed.Throw?
    else
      replayed.Return? && replayed.finalStatus == live.finalStatus && AgreesButForTheFailure(replayed.state, live.state)
  }

  lemma SameWorldPastCompleted(recovered: seq<ClosedTurn>, world: World, t: nat)
    requires IsFaithful(recovered, world) && (t < |recovered| ==> recovered[t].ClosedCompleted?)
    ensures Resumed(recovered, world)(t) == world(t)
  {
  }

  lemma FailedMeets(recovered: seq<ClosedTurn>, world: World, t: nat)
    requires IsFaithful(recovered, world) && t < |recovered| && recovered[t].ClosedFailed?
    ensures world(t).runtime.Some? && world(t).runtime.value.status == recovered[t].status && !recovered[t].status.Completed?
    ensures Resumed(recovered, world)(t) == world(t).(runtime := Some(Replayed(recovered[t])))
  {
  }

  /** A failed transport ends the run in either world, with the same status, unless its
      stand-in overflows. */
  lemma FailedTurnAgrees(policy: Policy, setup: Setup, s: State, w: TurnWorld, closed: ClosedTurn)
    requires closed.ClosedFailed? && !closed.status.Completed?
    requires w.runtime.Some? && w.runtime.value.status == closed.status
    ensures var live, replayed := PlayTurn(policy, setup, s, w), PlayTurn(policy, setup, s, w.(runtime := Some(Replayed(closed))));
            && !live.Continue?
            && (live.Return? ==>
                  && |live.state.turns| == |s.turns| + 1
                  && live.state.artifactBytes == s.artifactBytes + w.runtime.value.artifactBytes
                  && if s.artifactBytes + SYNTHETIC_BYTES > MAXIMUM_SAFE_INTEGER then replayed.Throw?
                     else replayed.Return? && replayed.finalStatus == live.finalStatus &&
                          AgreesButForTheFailure(replayed.state, live.state))
  {
    hide PlaySubmission, PlayBootstrap, PlayDomain, IsPrepared;
    PreparedBeforeInvoking(setup, s, w, Some(Replayed(closed)));
    if PlayTurn(policy, setup, s, w).Return? {
      var live, replayed := PlayTurn(policy, setup, s, w).state, PlayTurn(policy, setup, s, w.(runtime := Some(Replayed(closed)))).state;
      assert live.turns[..|s.turns|] == s.turns;
      assert |replayed.turns| > |s.turns| ==> replayed.turns[..|s.turns|] == s.turns;
    }
  }

  /** A failed transport never comes to its calls, so its turn serves none. */
  lemma FailedTurnServesNothing(policy: Policy, setup: Setup, v: Service, s: State, w: TurnWorld, log: Log)
    requires w.runtime.Some? && !w.runtime.value.status.Completed?
    ensures PlayServed(policy, setup, v, s, w, log) == (PlayTurn(policy, setup, s, Assessing(v, s, w, log)), log)
  {
    hide PlayTurn, Assesses;
  }

  lemma ServedTurnsGrow(policy: Policy, setup: Setup, v: Service, s: State, w: TurnWorld, log: Log)
    requires !PlayServed(policy, setup, v, s, w, log).0.Throw?
    ensures |PlayServed(policy, setup, v, s, w, log).0.state.turns| == |s.turns| + 1
  {
    hide PlayTurn, PlayServed;
    var answered := ServedTurnIsATurn(policy, setup, v, s, w, log);
    TurnsGrow(policy, setup, s, answered);
  }

  lemma ReplayedFailure(policy: Policy, setup: Setup, v: Service, world: World, recovered: seq<ClosedTurn>, s: State, log: Log)
    requires IsFaithful(recovered, world) && |s.turns| < |recovered| && recovered[|s.turns|].ClosedFailed?
    requires |s.turns| < policy.maximumTurns && RunServed(policy, setup, v, world, s, log).0.Return?
    ensures var (live, after) := RunServed(policy, setup, v, world, s, log);
            var (replayed, last) := RunServed(policy, setup, v, Resumed(recovered, world), s, log);
            && IsReplayOf(recovered, world, live, replayed) && after == last == log
            && |live.state.turns| == |s.turns| + 1
  {
    hide PlayTurn, PlayServed, Resumed, IsFaithful, AgreesButForTheFailure, Assesses;
    var t := |s.turns|;
    FailedMeets(recovered, world, t);
    FailedTurnAgrees(policy, setup, s, Assessing(v, s, world(t), log), recovered[t]);
    FailedTurnServesNothing(policy, setup, v, s, world(t), log);
    FailedTurnServesNothing(policy, setup, v, s, Resumed(recovered, world)(t), log);
    assert Assessing(v, s, Resumed(recovered, world)(t), log) ==
           Assessing(v, s, world(t), log).(runtime := Some(Replayed(recovered[t])));
  }

  lemma ReturnIsItsOwnReplay(recovered: seq<ClosedTurn>, world: World, live: Step, t: nat)
    requires live.Return? && |live.state.turns| == t + 1 && (t < |recovered| ==> recovered[t].ClosedCompleted?)
    ensures IsReplayOf(recovered, world, live, live)
  {
  }

  /** Over one service, from any state of the loop: the closed turns replay what the world
      brought, a failed transport in its stand-in, and every call meets the same answer. */
  lemma {:induction false} ReplayAgrees(policy: Policy, setup: Setup, v: Service, world: World, recovered: seq<ClosedTurn>,
                                        s: State, log: Log)
    requires IsFaithful(recovered, world) && RunServed(policy, setup, v, world, s, log).0.Return?
    ensures var (live, after) := RunServed(policy, setup, v, world, s, log);
            var (replayed, last) := RunServed(policy, setup, v, Resumed(recovered, world), s, log);
            IsReplayOf(recovered, world, live, replayed) && after == last
    decreases policy.maximumTurns - |s.turns|
  {
    hide PlayTurn, PlayServed, Resumed, IsFaithful, IsReplayOf;
    var t := |s.turns|;
    if t < |recovered| && recovered[t].ClosedFailed? {
      ReplayedFailure(policy, setup, v, world, recovered, s, log);
    } else {
      SameWorldPastCompleted(recovered, world, t);
      var (live, after) := PlayServed(policy, setup, v, s, world(t), log);
      ServedTurnsGrow(policy, setup, v, s, world(t), log);
      if live.Continue? {
        ReplayAgrees(policy, setup, v, world, recovered, live.state, after);
      } else {
        ReturnIsItsOwnReplay(recovered, world, live, t);
      }
    }
  }

  // ---------------------------------------------------------------------------
  // No overflow under a parsed policy
  // ---------------------------------------------------------------------------

  ghost predicate IsCappedService(v: Service) {
    forall e :: FinalReceipts.Total(FinalReceipts.Bytes, v.artifacts(e)) <= ShardBudget.MAXIMUM_EXECUTION_BYTES
  }

  lemma CappedAnswers(v: Service, w: TurnWorld, answered: TurnWorld)
    requires IsCappedService(v) && ShardBudget.IsCappedTurn(w) && DiffersInAnswers(answered, w)
    requires answered.controlled == w.controlled || forall i: nat :: IsServed(v, answered.controlled(i))
    ensures ShardBudget.IsCappedTurn(answered)
  {
    if answered.controlled != w.controlled {
      forall i: nat | answered.controlled(i).Some?
        ensures answered.controlled(i).value.artifactBytes <= ShardBudget.MAXIMUM_EXECUTION_BYTES
      {
        assert IsServed(v, answered.controlled(i));
      }
    }
  }

  /** With the bounds a parsed configuration leaves, what the collector lets through and what
      an execution may persist, no replay overflows. */
  lemma CappedReplayNeverOverflows(policy: Policy, setup: Setup, v: Service, world: World, recovered: seq<ClosedTurn>, log: Log)
    requires IsParsedPolicy(policy) && IsCappedService(v) && ShardBudget.IsCapped(world)
    requires RunServed(policy, setup, v, world, INITIAL, log).0.Return?
    ensures !Overflows(recovered, world, RunServed(policy, setup, v, world, INITIAL, log).0.state)
  {
    hide RunServed, IsServed, DiffersInAnswers, IsCappedService, ShardBudget.IsCappedTurn;
    var answered := ServedRunIsARun(policy, setup, v, world, INITIAL, log);
    forall t: nat ensures ShardBudget.IsCappedTurn(answered(t)) {
      CappedAnswers(v, world(t), answered(t));
    }
    ShardBudget.RunStaysWithinBytes(policy, ShardBudget.Attempt(setup, answered));
  }

  // ---------------------------------------------------------------------------
  // Turn receipts
  // ---------------------------------------------------------------------------

  /** `createTurnReceipt` throws for a completed turn that is neither a bootstrap, nor a
      terminal one with a submission, nor one with a continuation receipt. */
  predicate HasReceipt(t: Turn) {
    t.status.Completed? ==> t.isBootstrap || (if t.terminal then t.hasSubmission else t.hasContinuation)
  }

  /** A turn that is gone on from gets a receipt if it made no call at all, as a bootstrap,
      or a controlled one. */
  predicate IsReceiptable(w: TurnWorld) {
    w.runtime.Some? && w.runtime.value.calls.Some? &&
    (w.runtime.value.calls.value == [] || Controlled in w.runtime.value.calls.value)
  }

  /** The loop plays turn `t` and goes on from it. */
  predicate GoesOnFrom(policy: Policy, setup: Setup, world: World, t: nat) {
    PlaysTurn(policy, setup, world, INITIAL, t + 1)
  }

  lemma NoOutputsWithoutCalls(calls: seq<Call>, w: TurnWorld, outputs: seq<Execution>)
    requires LoopMeaning.AreExecutions(calls, w, outputs, |calls|)
    ensures outputs != [] <==> Controlled in calls
  {
    var positions: seq<nat> :| LoopMeaning.AreAt(calls, w, outputs, |calls|, positions);
    if outputs != [] {
      assert positions[0] in positions;
    }
    if Controlled in calls {
      var k: nat :| k < |calls| && calls[k].Controlled?;
      assert k in positions;
    }
  }

  /** A turn gone on from gets its receipt from a bootstrap or a controlled call. */
  lemma OpenTurnReceipt(policy: Policy, setup: Setup, world: World, t: nat, turn: Turn)
    requires LoopMeaning.GoesOn(policy, setup, world, t)
    requires LoopMeaning.IsRecorded(policy, setup, world, t, turn, false, Completed)
    ensures HasReceipt(turn) <==> IsReceiptable(world(t))
  {
    hide LoopMeaning.AreExecutions, LoopMeaning.IsWithinCeilings, LoopMeaning.HasRefusal, LoopMeaning.IsSubmissionAt;
    if LoopMeaning.IsDomainAt(policy, setup, world, t) {
      NoOutputsWithoutCalls(LoopMeaning.CallsAt(world, t), world(t), turn.executions);
    }
  }

  lemma LastTurnReceipt(policy: Policy, setup: Setup, world: World, t: nat, turn: Turn, status: Status)
    requires LoopMeaning.EndsAs(policy, setup, world, t, status)
    requires LoopMeaning.IsRecorded(policy, setup, world, t, turn, true, status)
    ensures HasReceipt(turn)
  {
    hide LoopMeaning.AreExecutions, LoopMeaning.IsWithinCeilings, LoopMeaning.FirstRefusal, LoopMeaning.IsSubmissionAt,
      LoopMeaning.IsAdmittedAt;
  }

  /** The receipt of turn `t` can be made exactly when the loop ends there, or goes on from a
      bootstrap or a controlled call. */
  lemma TurnReceiptExactly(policy: Policy, setup: Setup, world: World, t: nat)
    requires RunFrom(policy, setup, world, INITIAL).Return?
    requires t < |RunFrom(policy, setup, world, INITIAL).state.turns|
    ensures HasReceipt(RunFrom(policy, setup, world, INITIAL).state.turns[t]) <==>
            (GoesOnFrom(policy, setup, world, t) ==> IsReceiptable(world(t)))
  {
    hide RunFrom, PlaysTurn, HasReceipt, IsReceiptable, LoopMeaning.GoesOn, LoopMeaning.Fails, LoopMeaning.EndsAs,
      LoopMeaning.IsRecorded, LoopMeaning.IsDomainAt;
    LoopMeaning.RunsAreTheWorlds(policy, setup, world);
    PlaysTurnExactly(policy, setup, world, INITIAL, t + 1);
    var run := RunFrom(policy, setup, world, INITIAL);
    if t + 1 < |run.state.turns| {
      OpenTurnReceipt(policy, setup, world, t, run.state.turns[t]);
    } else {
      LastTurnReceipt(policy, setup, world, t, run.state.turns[t], run.finalStatus);
    }
  }

  /** A returned run's turn receipts can all be made exactly when each turn it goes on from
      is a bootstrap or makes a controlled call. */
  lemma ReceiptsExactly(policy: Policy, setup: Setup, world: World)
    requires RunFrom(policy, setup, world, INITIAL).Return?
    ensures (forall turn :: turn in RunFrom(policy, setup, world, INITIAL).state.turns ==> HasReceipt(turn)) <==>
            (forall t: nat :: GoesOnFrom(policy, setup, world, t) ==> IsReceiptable(world(t)))
  {
    hide RunFrom, PlaysTurn, IsReceiptable, HasReceipt;
    var turns := RunFrom(policy, setup, world, INITIAL).state.turns;
    forall t: nat ensures GoesOnFrom(policy, setup, world, t) ==> t < |turns| {
      PlaysTurnExactly(policy, setup, world, INITIAL, t + 1);
    }
    forall t: nat | t < |turns|
      ensures HasReceipt(turns[t]) <==> (GoesOnFrom(policy, setup, world, t) ==> IsReceiptable(world(t)))
    {
      TurnReceiptExactly(policy, setup, world, t);
    }
  }
}
