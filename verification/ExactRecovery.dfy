/** When a resumed attempt is the uninterrupted one, seal for seal, and when it can submit:
    exactly when no seal the lost process left behind changed the snapshot. */
module ExactRecovery {
  import opened Wrappers
  import opened Json
  import opened AgentTurnLoop
  import opened ToolService
  import opened ServedRuns
  import opened AttemptRecovery
  import opened Checkpoints
  import FinalReceipts

  /** Every call of an attempt is its own. */
  ghost predicate IsIdentifying(v: Service) {
    forall t: nat, i: nat, u: nat, j: nat :: v.toolCall(t, i) == v.toolCall(u, j) ==> t == u && i == j
  }

  /** The call was made before call `n` of turn `t`. */
  ghost predicate IsEarlier(v: Service, call: ToolCall, t: nat, n: nat) {
    exists u: nat, j: nat :: call == v.toolCall(u, j) && (u < t || (u == t && j < n))
  }

  /** The seals of one attempt before call `n` of turn `t`. */
  ghost predicate IsOwn(v: Service, log: Log, t: nat, n: nat) {
    && IsLog(v.ws, log) && AreDistinct(log)
    && forall k :: 0 <= k < |log| ==> IsEarlier(v, log[k].call, t, n)
  }

  // ---------------------------------------------------------------------------
  // The uninterrupted run seals every call once
  // ---------------------------------------------------------------------------

  lemma OwnCallIsFresh(v: Service, log: Log, t: nat, n: nat)
    requires IsIdentifying(v) && IsOwn(v, log, t, n)
    ensures forall k :: 0 <= k < |log| ==> log[k].call != v.toolCall(t, n)
  {
  }

  lemma LaterIsOwn(v: Service, log: Log, t: nat, n: nat, u: nat, m: nat)
    requires IsOwn(v, log, t, n) && (t < u || (t == u && n <= m))
    ensures IsOwn(v, log, u, m)
  {
    hide IsLog, AreDistinct;
    forall k | 0 <= k < |log| ensures IsEarlier(v, log[k].call, u, m) {
      assert IsEarlier(v, log[k].call, t, n);
    }
  }

  lemma AskKeepsOwn(v: Service, log: Log, t: nat, n: nat)
    requires IsWorkspace(v.ws) && IsIdentifying(v) && IsOwn(v, log, t, n)
    ensures var call := v.toolCall(t, n);
            var (answer, after) := Ask(v.ws, log, call);
            && IsOwn(v, after, t, n + 1)
            && after == log + if answer.Some? then [Entry(call, answer.value)] else []
  {
    hide IsWorkspace, IsLog, Head, SealOf, IsIdentifying;
    var call := v.toolCall(t, n);
    OwnCallIsFresh(v, log, t, n);
    NewCallIsFresh(v.ws, log, call);
    AskIsTheOwners(v.ws, log, call);
    LaterIsOwn(v, log, t, n, t, n + 1);
    assert IsEarlier(v, call, t, n + 1);
  }

  lemma {:induction false} ServeKeepsOwn(v: Service, log: Log, t: nat, calls: seq<Call>, n: nat)
    requires IsWorkspace(v.ws) && IsIdentifying(v) && IsOwn(v, log, t, 0) && n <= |calls|
    ensures var r := Serve(v, log, t, calls, n); IsOwn(v, r.log, t, n)
    decreases n
  {
    hide IsWorkspace, IsIdentifying, IsOwn, Ask;
    if n > 0 {
      ServeKeepsOwn(v, log, t, calls, n - 1);
      var before := Serve(v, log, t, calls, n - 1);
      LaterIsOwn(v, before.log, t, n - 1, t, n);
      AskKeepsOwn(v, before.log, t, n - 1);
    }
  }

  lemma TurnKeepsOwn(policy: Policy, setup: Setup, v: Service, s: State, w: TurnWorld, log: Log)
    requires IsWorkspace(v.ws) && IsIdentifying(v) && IsOwn(v, log, |s.turns|, 0)
    ensures IsOwn(v, PlayServed(policy, setup, v, s, w, log).1, |s.turns| + 1, 0)
  {
    hide IsWorkspace, IsIdentifying, IsOwn, Serve, PlayTurn;
    LaterIsOwn(v, log, |s.turns|, 0, |s.turns| + 1, 0);
    if ReachesCalls(policy, setup, s, w) {
      var calls := w.runtime.value.calls.value;
      ServeKeepsOwn(v, log, |s.turns|, calls, |calls|);
      LaterIsOwn(v, Serve(v, log, |s.turns|, calls, |calls|).log, |s.turns|, |calls|, |s.turns| + 1, 0);
    }
  }

  lemma {:induction false} RunKeepsOwn(policy: Policy, setup: Setup, v: Service, world: World, s: State, log: Log)
    requires IsWorkspace(v.ws) && IsIdentifying(v) && IsOwn(v, log, |s.turns|, 0)
    ensures var (_, after) := RunServed(policy, setup, v, world, s, log);
            IsLog(v.ws, after) && AreDistinct(after)
    decreases policy.maximumTurns - |s.turns|
  {
    hide IsWorkspace, IsIdentifying, PlayServed, IsEarlier, IsLog;
    if |s.turns| < policy.maximumTurns {
      TurnKeepsOwn(policy, setup, v, s, world(|s.turns|), log);
      var (step, after) := PlayServed(policy, setup, v, s, world(|s.turns|), log);
      if step.Continue? && |step.state.turns| > |s.turns| {
        ServedTurnsGrow(policy, setup, v, s, world(|s.turns|), log);
        RunKeepsOwn(policy, setup, v, world, step.state, after);
      }
    }
  }

  // ---------------------------------------------------------------------------
  // A call that fails ends the run
  // ---------------------------------------------------------------------------

  lemma {:induction false} ServePrefix(v: Service, log: Log, t: nat, calls: seq<Call>, n: nat, m: nat)
    requires n <= m <= |calls|
    ensures Serve(v, log, t, calls, n).answers == Serve(v, log, t, calls, m).answers[..n]
    ensures Serve(v, log, t, calls, n).failed ==> Serve(v, log, t, calls, m).failed
    decreases m
  {
    hide Ask, ExecutionOf, Head;
    if n < m {
      ServePrefix(v, log, t, calls, n, m - 1);
    }
  }

  lemma {:induction false} FailedOutputs(v: Service, log: Log, t: nat, calls: seq<Call>, w: TurnWorld, n: nat)
    requires n <= |calls| && w.controlled == FromList(Serve(v, log, t, calls, |calls|).answers)
    ensures Serve(v, log, t, calls, n).failed <==> ControlledOutputs(calls, w, n).None?
    decreases n
  {
    hide Ask, ExecutionOf, Head;
    if n > 0 {
      FailedOutputs(v, log, t, calls, w, n - 1);
      ServePrefix(v, log, t, calls, n, |calls|);
      var answers := Serve(v, log, t, calls, |calls|).answers;
      assert FromList(answers)(n - 1) == answers[n - 1] == answers[..n][n - 1];
      var here := Serve(v, log, t, calls, n);
      assert here.answers[n - 1] == w.controlled(n - 1);
      if calls[n - 1].Controlled? && !Serve(v, log, t, calls, n - 1).failed {
        var answer := Ask(v.ws, Serve(v, log, t, calls, n - 1).log, v.toolCall(t, n - 1)).0;
        assert here.failed <==> answer.None?;
        assert here.answers[n - 1].None? <==> answer.None?;
        assert ControlledOutputs(calls, w, n).None? <==> w.controlled(n - 1).None?;
      } else {
        assert here.failed == Serve(v, log, t, calls, n - 1).failed;
        assert ControlledOutputs(calls, w, n) == ControlledOutputs(calls, w, n - 1);
      }
    }
  }

  lemma FailedServeThrows(policy: Policy, setup: Setup, v: Service, s: State, w: TurnWorld, log: Log)
    requires ReachesCalls(policy, setup, s, w)
    requires var calls := w.runtime.value.calls.value; Serve(v, log, |s.turns|, calls, |calls|).failed
    ensures PlayServed(policy, setup, v, s, w, log).0.Throw?
  {
    var calls := w.runtime.value.calls.value;
    var answered := Answering(w, Serve(v, log, |s.turns|, calls, |calls|).answers);
    FailedOutputs(v, log, |s.turns|, calls, answered, |calls|);
    PreparedWhateverAnswered(setup, s, w, answered.controlled);
    hide ControlledOutputs, CapabilityOutputs, CloseDomain, MayRunCapabilities, Serve, IsPrepared, PlaySubmission, PlayBootstrap, End;
  }

  // ---------------------------------------------------------------------------
  // Seals are only added
  // ---------------------------------------------------------------------------

  lemma {:induction false} ServeOnlyAdds(v: Service, log: Log, t: nat, calls: seq<Call>, n: nat)
    requires n <= |calls|
    ensures log <= Serve(v, log, t, calls, n).log
    decreases n
  {
    hide SealOf, Head;
    if n > 0 {
      ServeOnlyAdds(v, log, t, calls, n - 1);
    }
  }

  lemma TurnOnlyAdds(policy: Policy, setup: Setup, v: Service, s: State, w: TurnWorld, log: Log)
    ensures log <= PlayServed(policy, setup, v, s, w, log).1
  {
    hide Serve, PlayTurn;
    if ReachesCalls(policy, setup, s, w) {
      ServeOnlyAdds(v, log, |s.turns|, w.runtime.value.calls.value, |w.runtime.value.calls.value|);
    }
  }

  lemma {:induction false} RunOnlyAdds(policy: Policy, setup: Setup, v: Service, world: World, s: State, log: Log)
    ensures log <= RunServed(policy, setup, v, world, s, log).1
    decreases policy.maximumTurns - |s.turns|
  {
    hide PlayServed;
    if |s.turns| < policy.maximumTurns {
      TurnOnlyAdds(policy, setup, v, s, world(|s.turns|), log);
      var (step, after) := PlayServed(policy, setup, v, s, world(|s.turns|), log);
      if step.Continue? && |step.state.turns| > |s.turns| {
        RunOnlyAdds(policy, setup, v, world, step.state, after);
      }
    }
  }

  // ---------------------------------------------------------------------------
  // Without a change the resumed run follows the uninterrupted one
  // ---------------------------------------------------------------------------

  /** The seals of the resumed run where the uninterrupted one has `log`. */
  function Longer(left: Log, log: Log): Log {
    if |log| <= |left| then left else log
  }

  /** What the lost process left is the beginning of `all`, and changed nothing. */
  ghost predicate IsLeftover(v: Service, left: Log, all: Log) {
    IsLog(v.ws, left) && AreDistinct(left) && ChangesNothingFrom(left, 0) && left <= all
  }

  lemma AskFollows(v: Service, left: Log, all: Log, log: Log, t: nat, n: nat)
    requires IsWorkspace(v.ws) && IsIdentifying(v) && IsLeftover(v, left, all) && IsOwn(v, log, t, n)
    requires var (answer, after) := Ask(v.ws, log, v.toolCall(t, n)); answer.Some? && after <= all
    ensures var (answer, after) := Ask(v.ws, log, v.toolCall(t, n));
            Ask(v.ws, Longer(left, log), v.toolCall(t, n)) == (answer, Longer(left, after))
    ensures Head(v.ws, Longer(left, log)) == Head(v.ws, log)
  {
    hide IsWorkspace, IsIdentifying, IsLog, Ask, AreDistinct, Head;
    AskKeepsOwn(v, log, t, n);
    var (answer, after) := Ask(v.ws, log, v.toolCall(t, n));
    assert after[|log|] == Entry(v.toolCall(t, n), answer.value) == all[|log|];
    if |log| < |left| {
      assert left[|log|] == all[|log|];
      assert log == all[..|log|] == left[..|log|];
      ReplayedCallExactly(v.ws, left, |log|);
      HeadReturnsExactly(v.ws, left, |log|);
    } else if |log| == |left| {
      assert log == all[..|log|] == left;
    }
  }

  lemma {:induction false} ServeFollows(v: Service, left: Log, all: Log, log: Log, t: nat, calls: seq<Call>, n: nat)
    requires IsWorkspace(v.ws) && IsIdentifying(v) && IsLeftover(v, left, all) && IsOwn(v, log, t, 0) && n <= |calls|
    requires var r := Serve(v, log, t, calls, n); !r.failed && r.log <= all
    ensures var r := Serve(v, log, t, calls, n);
            Serve(v, Longer(left, log), t, calls, n) == r.(log := Longer(left, r.log))
    decreases n
  {
    hide IsWorkspace, IsIdentifying, IsLeftover, IsOwn, Ask, Longer, ExecutionOf, Head;
    if n > 0 {
      var before := Serve(v, log, t, calls, n - 1);
      ServeKeepsOwn(v, log, t, calls, n - 1);
      AskKeepsOwn(v, before.log, t, n - 1);
      ServeFollows(v, left, all, log, t, calls, n - 1);
      if calls[n - 1].Controlled? {
        assert Serve(v, log, t, calls, n).failed == Ask(v.ws, before.log, v.toolCall(t, n - 1)).0.None?;
        AskFollows(v, left, all, before.log, t, n - 1);
      }
    }
  }

  /** A turn of the uninterrupted run, made with what was left behind: it goes on, or it is
      the last and all seals are there. */
  lemma TurnFollows(policy: Policy, setup: Setup, v: Service, s: State, w: TurnWorld, left: Log, all: Log, log: Log)
    requires IsWorkspace(v.ws) && IsIdentifying(v) && IsLeftover(v, left, all) && IsOwn(v, log, |s.turns|, 0)
    requires var (step, after) := PlayServed(policy, setup, v, s, w, log);
             !step.Throw? && after <= all && (step.Return? ==> after == all)
    ensures var (step, after) := PlayServed(policy, setup, v, s, w, log);
            PlayServed(policy, setup, v, s, w, Longer(left, log)) == (step, Longer(left, after))
  {
    hide IsWorkspace, IsIdentifying, IsOwn, Serve, PlayTurn, Assesses, IsLog, AreDistinct, ChangesNothingFrom;
    if ReachesCalls(policy, setup, s, w) {
      var calls := w.runtime.value.calls.value;
      if Serve(v, log, |s.turns|, calls, |calls|).failed {
        FailedServeThrows(policy, setup, v, s, w, log);
      } else {
        ServeFollows(v, left, all, log, |s.turns|, calls, |calls|);
      }
    } else {
      var x, y := Assessing(v, s, w, log), Assessing(v, s, w, Longer(left, log));
      assert y == x.(assessed := y.assessed);
      AssessmentDecides(policy, setup, s, x, y.assessed);
      if PlayTurn(policy, setup, s, x).Return? {
        assert Longer(left, log) == log;
      }
    }
  }

  lemma {:induction false} RunFollows(policy: Policy, setup: Setup, v: Service, world: World, s: State, left: Log, all: Log, log: Log)
    requires IsWorkspace(v.ws) && IsIdentifying(v) && IsLeftover(v, left, all) && IsOwn(v, log, |s.turns|, 0)
    requires var (run, last) := RunServed(policy, setup, v, world, s, log); run.Return? && last == all
    ensures RunServed(policy, setup, v, world, s, Longer(left, log)) ==
            (RunServed(policy, setup, v, world, s, log).0, Longer(left, all))
    decreases policy.maximumTurns - |s.turns|
  {
    hide IsWorkspace, IsIdentifying, IsLeftover, IsOwn, PlayServed, Longer;
    var w := world(|s.turns|);
    var (step, after) := PlayServed(policy, setup, v, s, w, log);
    ServedTurnsGrow(policy, setup, v, s, w, log);
    if step.Continue? {
      RunOnlyAdds(policy, setup, v, world, step.state, after);
      TurnFollows(policy, setup, v, s, w, left, all, log);
      TurnKeepsOwn(policy, setup, v, s, w, log);
      RunFollows(policy, setup, v, world, step.state, left, all, after);
    } else {
      TurnFollows(policy, setup, v, s, w, left, all, log);
    }
  }

  // ---------------------------------------------------------------------------
  // After a change the first call is made anew
  // ---------------------------------------------------------------------------

  /** The first call of `left` was sealed a second time. */
  predicate IsSealedAgain(left: Log, log: Log) {
    left != [] && left < log && log[|left|].call == left[0].call
  }

  ghost predicate IsChangedLeftover(v: Service, left: Log) {
    IsLog(v.ws, left) && AreDistinct(left) && !ChangesNothingFrom(left, 0)
  }

  lemma FirstAskDiverges(v: Service, left: Log, call: ToolCall)
    requires IsWorkspace(v.ws) && IsChangedLeftover(v, left) && left[0].call == call
    ensures var (answer, after) := Ask(v.ws, left, call); answer.Some? ==> IsSealedAgain(left, after)
  {
    hide IsWorkspace, IsLog, Head;
    ReplayedCallExactly(v.ws, left, 0);
  }

  lemma {:induction false} ServeDiverges(v: Service, left: Log, t: nat, calls: seq<Call>, n: nat)
    requires IsWorkspace(v.ws) && IsChangedLeftover(v, left) && n <= |calls|
    requires var r := Serve(v, [], t, calls, n); !r.failed && (r.log != [] ==> r.log[0].call == left[0].call)
    ensures var r, q := Serve(v, [], t, calls, n), Serve(v, left, t, calls, n);
            if r.log == [] then q == r.(log := left) else q.failed || IsSealedAgain(left, q.log)
    decreases n
  {
    hide IsWorkspace, IsChangedLeftover, Head, ExecutionOf;
    if n > 0 {
      var before := Serve(v, [], t, calls, n - 1);
      var call := v.toolCall(t, n - 1);
      ServeDiverges(v, left, t, calls, n - 1);
      if calls[n - 1].Controlled? && before.log == [] {
        assert SealOf(v.ws, [], call).None?;
        FirstAskDiverges(v, left, call);
      }
    }
  }

  lemma TurnDiverges(policy: Policy, setup: Setup, v: Service, s: State, w: TurnWorld, left: Log)
    requires IsWorkspace(v.ws) && IsChangedLeftover(v, left)
    requires var (step, after) := PlayServed(policy, setup, v, s, w, []);
             !step.Throw? && (if after == [] then step.Continue? else after[0].call == left[0].call)
    ensures var (step, after) := PlayServed(policy, setup, v, s, w, []);
            var (again, last) := PlayServed(policy, setup, v, s, w, left);
            if after == [] then again == step && last == left else again.Throw? || IsSealedAgain(left, last)
  {
    hide IsWorkspace, IsChangedLeftover, Serve, PlayTurn, IsSealedAgain, Assesses;
    if ReachesCalls(policy, setup, s, w) {
      var calls := w.runtime.value.calls.value;
      if Serve(v, [], |s.turns|, calls, |calls|).failed {
        FailedServeThrows(policy, setup, v, s, w, []);
      } else {
        ServeDiverges(v, left, |s.turns|, calls, |calls|);
        if Serve(v, left, |s.turns|, calls, |calls|).failed {
          FailedServeThrows(policy, setup, v, s, w, left);
        }
      }
    } else {
      var x, y := Assessing(v, s, w, []), Assessing(v, s, w, left);
      assert y == x.(assessed := y.assessed);
      AssessmentDecides(policy, setup, s, x, y.assessed);
    }
  }

  /** A turn that goes on was completed, so the closed list replays the world's own. */
  lemma GoingOnIsCompleted(policy: Policy, setup: Setup, v: Service, world: World, recovered: seq<ClosedTurn>, s: State, log: Log)
    requires IsFaithful(recovered, world)
    requires var (step, after) := PlayServed(policy, setup, v, s, world(|s.turns|), log); step.Continue? || after != log
    ensures Resumed(recovered, world)(|s.turns|) == world(|s.turns|)
  {
    hide PlayTurn, Resumed, IsFaithful, Serve, Assesses;
    var t := |s.turns|;
    if t < |recovered| && recovered[t].ClosedFailed? {
      FailedMeets(recovered, world, t);
      FailedTurnServesNothing(policy, setup, v, s, world(t), log);
      FailedTurnAgrees(policy, setup, s, Assessing(v, s, world(t), log), recovered[t]);
    } else {
      SameWorldPastCompleted(recovered, world, t);
    }
  }

  lemma {:induction false} RunDiverges(policy: Policy, setup: Setup, v: Service, world: World, recovered: seq<ClosedTurn>,
                                       s: State, left: Log)
    requires IsWorkspace(v.ws) && IsChangedLeftover(v, left) && IsFaithful(recovered, world)
    requires var (run, all) := RunServed(policy, setup, v, world, s, []); run.Return? && left <= all
    ensures var (run, last) := RunServed(policy, setup, v, Resumed(recovered, world), s, left);
            run.Throw? || IsSealedAgain(left, last)
    decreases policy.maximumTurns - |s.turns|
  {
    hide IsWorkspace, PlayServed, IsLog, AreDistinct, Resumed, IsFaithful;
    var w := world(|s.turns|);
    var (step, after) := PlayServed(policy, setup, v, s, w, []);
    var (again, last) := PlayServed(policy, setup, v, s, w, left);
    ServedTurnsGrow(policy, setup, v, s, w, []);
    if step.Continue? {
      RunOnlyAdds(policy, setup, v, world, step.state, after);
    }
    GoingOnIsCompleted(policy, setup, v, world, recovered, s, []);
    TurnDiverges(policy, setup, v, s, w, left);
    if after == [] {
      RunDiverges(policy, setup, v, world, recovered, step.state, left);
    } else if again.Continue? && |again.state.turns| > |s.turns| {
      RunOnlyAdds(policy, setup, v, Resumed(recovered, world), again.state, last);
    }
  }

  // ---------------------------------------------------------------------------
  // After a change nothing can be submitted
  // ---------------------------------------------------------------------------

  /** A receipt's digest tells the operation it is for. */
  ghost predicate IsReceipting(v: Service) {
    forall a, b, x, y :: v.receiptDigest(a, x) == v.receiptDigest(b, y) ==> a == b
  }

  /** The execution was answered at another checkpoint than the initial one. */
  ghost predicate IsLater(v: Service, x: Execution) {
    exists current, call, answer ::
      x == ExecutionOf(v, current, call, answer) && current.digest != v.ws.initial.digest
  }

  ghost predicate AreLater(v: Service, outputs: seq<Execution>) {
    forall x :: x in outputs ==> IsLater(v, x)
  }

  lemma ChangedHeadIsLater(v: Service, log: Log)
    requires IsWorkspace(v.ws) && IsLog(v.ws, log) && !ChangesNothingFrom(log, 0)
    ensures Head(v.ws, log).digest != v.ws.initial.digest
  {
    hide IsWorkspace, IsLog;
    HeadReturnsExactly(v.ws, log, 0);
    assert log[..0] == [];
    EmptyLog(v.ws);
  }

  lemma {:induction false} ServedLater(v: Service, log: Log, t: nat, calls: seq<Call>, n: nat)
    requires IsWorkspace(v.ws) && IsLog(v.ws, log) && !ChangesNothingFrom(log, 0) && n <= |calls|
    ensures var r := Serve(v, log, t, calls, n);
            && IsLog(v.ws, r.log) && log <= r.log
            && forall i :: 0 <= i < n && r.answers[i].Some? ==> IsLater(v, r.answers[i].value)
    decreases n
  {
    hide IsWorkspace, IsLog, Head, Ask, ExecutionOf;
    if n > 0 {
      ServedLater(v, log, t, calls, n - 1);
      var before := Serve(v, log, t, calls, n - 1);
      ServeOnlyAdds(v, log, t, calls, n);
      AskIsTheOwners(v.ws, before.log, v.toolCall(t, n - 1));
      LongerIsChanged(log, before.log);
      ChangedHeadIsLater(v, before.log);
    }
  }

  lemma LongerIsChanged(log: Log, longer: Log)
    requires log <= longer && !ChangesNothingFrom(log, 0)
    ensures !ChangesNothingFrom(longer, 0)
  {
    var j: nat :| j < |log| && IsChange(log[j]);
    assert longer[j] == log[j];
  }

  /** Whatever a turn books comes from its controlled answers. */
  lemma {:induction false} OutputsComeFrom(v: Service, calls: seq<Call>, w: TurnWorld, n: nat)
    requires n <= |calls| && ControlledOutputs(calls, w, n).Some?
    requires forall i: nat :: i < |calls| && w.controlled(i).Some? ==> IsLater(v, w.controlled(i).value)
    ensures AreLater(v, ControlledOutputs(calls, w, n).value)
    decreases n
  {
    hide IsLater;
    if n > 0 {
      OutputsComeFrom(v, calls, w, n - 1);
    }
  }

  lemma DomainBooksOutputs(policy: Policy, setup: Setup, s: State, w: TurnWorld)
    requires w.runtime.Some? && w.runtime.value.calls.Some?
    ensures var t, calls := PlayDomain(policy, setup, s, w).state, w.runtime.value.calls.value;
            var executions := ControlledOutputs(calls, w, |calls|);
            t.toolOutputs == s.toolOutputs || (executions.Some? && t.toolOutputs == s.toolOutputs + executions.value)
  {
    hide ControlledOutputs, CapabilityOutputs, MayRunCapabilities, BytesOf, FirstUnsupported, SomeRejected, SomeClosure;
  }

  lemma TurnBooksOutputs(policy: Policy, setup: Setup, s: State, w: TurnWorld)
    ensures var t := PlayTurn(policy, setup, s, w).state;
            || t.toolOutputs == s.toolOutputs
            || (&& w.runtime.Some? && w.runtime.value.calls.Some?
                && var calls := w.runtime.value.calls.value;
                && ControlledOutputs(calls, w, |calls|).Some?
                && t.toolOutputs == s.toolOutputs + ControlledOutputs(calls, w, |calls|).value)
    ensures !ReachesCalls(policy, setup, s, w) ==> PlayTurn(policy, setup, s, w).state.toolOutputs == s.toolOutputs
  {
    hide PlayDomain, IsPrepared, DecisionOf, ControlledOutputs;
    if w.runtime.Some? && w.runtime.value.calls.Some? {
      var t := s.(artifactBytes := s.artifactBytes + w.runtime.value.artifactBytes);
      DomainBooksOutputs(policy, setup, t, w);
      UnreachedDomainBooksNothing(policy, setup, t, w);
    }
  }

  lemma UnreachedDomainBooksNothing(policy: Policy, setup: Setup, s: State, w: TurnWorld)
    requires w.runtime.Some? && w.runtime.value.calls.Some?
    ensures var calls := w.runtime.value.calls.value;
            Unowned in calls || (if SharedEffect in calls then calls != [SharedEffect] else w.finalization.None?) ==>
              PlayDomain(policy, setup, s, w).state.toolOutputs == s.toolOutputs
  {
    hide ControlledOutputs, CapabilityOutputs, CloseDomain;
  }

  lemma TurnStaysLater(policy: Policy, setup: Setup, v: Service, s: State, w: TurnWorld, log: Log)
    requires IsWorkspace(v.ws) && IsLog(v.ws, log) && !ChangesNothingFrom(log, 0) && AreLater(v, s.toolOutputs)
    ensures var (step, after) := PlayServed(policy, setup, v, s, w, log);
            IsLog(v.ws, after) && !ChangesNothingFrom(after, 0) && AreLater(v, step.state.toolOutputs)
  {
    hide IsWorkspace, IsLog, PlayTurn, IsLater, ControlledOutputs, Serve, Assesses, ChangesNothingFrom;
    if ReachesCalls(policy, setup, s, w) {
      var calls := w.runtime.value.calls.value;
      var tally := Serve(v, log, |s.turns|, calls, |calls|);
      ServedLater(v, log, |s.turns|, calls, |calls|);
      LongerIsChanged(log, tally.log);
      var answered := Answering(w, tally.answers);
      TurnBooksOutputs(policy, setup, s, answered);
      assert forall i: nat :: answered.controlled(i) == FromList(tally.answers)(i);
      if ControlledOutputs(calls, answered, |calls|).Some? {
        OutputsComeFrom(v, calls, answered, |calls|);
      }
    } else {
      PreparedWhateverAssessed(setup, s, w, Assessing(v, s, w, log).assessed);
      TurnBooksOutputs(policy, setup, s, Assessing(v, s, w, log));
    }
  }

  lemma AssessedIsDurable(v: Service, s: State, log: Log)
    requires Assesses(v, s, log)
    ensures multiset(FinalReceipts.ReceiptsOf(StoredSeals(v, log))) == multiset(Submitted(s.toolOutputs))
  {
    hide FinalReceipts.IsFinalAuthority, FinalReceipts.SortBy, StoredSeals, Submitted, Head;
    FinalReceipts.SortedComparisonConserves(FinalReceipts.Digests, FinalReceipts.Commands,
                                            FinalReceipts.ReceiptsOf(StoredSeals(v, log)), Submitted(s.toolOutputs));
  }

  /** The seal of the first call is of the initial checkpoint, and no receipt of a later call. */
  lemma LaterIsNotDurable(v: Service, s: State, log: Log)
    requires IsWorkspace(v.ws) && IsReceipting(v) && log != [] && AreLater(v, s.toolOutputs)
    ensures !Assesses(v, s, log)
  {
    hide Assesses, IsWorkspace, IsReceipting, StoredSealAt, IsLater;
    if Assesses(v, s, log) {
      AssessedIsDurable(v, s, log);
      var receipts, submitted := FinalReceipts.ReceiptsOf(StoredSeals(v, log)), Submitted(s.toolOutputs);
      assert receipts[0] in multiset(receipts);
      var i :| 0 <= i < |submitted| && submitted[i] == receipts[0];
      assert s.toolOutputs[i] in s.toolOutputs;
      FirstReceiptIsNotLater(v, log, s.toolOutputs[i]);
    }
  }

  lemma FirstReceiptIsNotLater(v: Service, log: Log, x: Execution)
    requires IsWorkspace(v.ws) && IsReceipting(v) && log != [] && IsLater(v, x)
    ensures x.receipt != StoredSealAt(v, log, 0).receipt
  {
    var current, call, answer :| x == ExecutionOf(v, current, call, answer) && current.digest != v.ws.initial.digest;
    EmptyLog(v.ws);
    assert log[..0] == [];
    SameOperation(v.ws, current, v.ws.initial, call, log[0].call);
    assert x.receipt.receiptDigest == v.receiptDigest(OperationOf(v.ws, current, call), answer);
    assert StoredSealAt(v, log, 0).receipt.receiptDigest == v.receiptDigest(OperationAt(v.ws, log, 0), log[0].answer);
  }

  lemma {:induction false} LaterNeverSubmits(policy: Policy, setup: Setup, v: Service, world: World, s: State, log: Log)
    requires IsWorkspace(v.ws) && IsReceipting(v) && IsLog(v.ws, log) && !ChangesNothingFrom(log, 0)
    requires AreLater(v, s.toolOutputs)
    ensures !Submits(RunServed(policy, setup, v, world, s, log).0)
    decreases policy.maximumTurns - |s.turns|
  {
    hide IsWorkspace, IsReceipting, IsLog, PlayServed, AreLater, Assesses;
    if |s.turns| < policy.maximumTurns {
      var w := world(|s.turns|);
      var (step, after) := PlayServed(policy, setup, v, s, w, log);
      if step.Continue? && |step.state.turns| > |s.turns| {
        TurnStaysLater(policy, setup, v, s, w, log);
        LaterNeverSubmits(policy, setup, v, world, step.state, after);
      } else if Submits(step) {
        SubmittedWasAssessed(policy, setup, v, s, w, log);
        LaterIsNotDurable(v, s, log);
      }
    }
  }

  /** An attempt that starts over seals of which one changed the snapshot never submits,
      whatever provider, sandbox and session answer it: the assessment is given the receipts
      of the calls it made itself, and compares them with all seals. */
  lemma ChangedSealsAreNeverSubmitted(policy: Policy, setup: Setup, v: Service, world: World, left: Log)
    requires IsWorkspace(v.ws) && IsReceipting(v) && IsLog(v.ws, left) && !ChangesNothingFrom(left, 0)
    ensures !Submits(RunServed(policy, setup, v, world, INITIAL, left).0)
  {
    LaterNeverSubmits(policy, setup, v, world, INITIAL, left);
  }

  // ---------------------------------------------------------------------------
  // The resumed attempt
  // ---------------------------------------------------------------------------

  lemma LeftoverIsLog(policy: Policy, setup: Setup, v: Service, world: World, m: nat)
    requires IsWorkspace(v.ws) && IsIdentifying(v) && m <= |RunServed(policy, setup, v, world, INITIAL, []).1|
    ensures var all := RunServed(policy, setup, v, world, INITIAL, []).1;
            IsLog(v.ws, all[..m]) && AreDistinct(all[..m])
  {
    hide RunServed, IsWorkspace, IsIdentifying;
    EmptyLog(v.ws);
    RunKeepsOwn(policy, setup, v, world, INITIAL, []);
    LogPrefix(v.ws, RunServed(policy, setup, v, world, INITIAL, []).1, m);
  }

  /** A process is lost after the first `m` seals of a run that would have returned, and the
      run is resumed from the turns it closed.  If none of the `m` seals changed the snapshot
      it replays the uninterrupted run: the same turns, final status, tool results and
      counters, every call sealed once and nothing else; only a replayed failure differs, in
      its own response digest and bytes, and it errs exactly when those overflow.  And only
      then does it return with the seals of the uninterrupted run. */
  lemma ResumedExactly(policy: Policy, setup: Setup, v: Service, world: World, recovered: seq<ClosedTurn>, m: nat)
    requires IsWorkspace(v.ws) && IsIdentifying(v) && IsFaithful(recovered, world)
    requires var (live, all) := RunServed(policy, setup, v, world, INITIAL, []); live.Return? && m <= |all|
    ensures var (live, all) := RunServed(policy, setup, v, world, INITIAL, []);
            var (replayed, last) := RunServed(policy, setup, v, Resumed(recovered, world), INITIAL, all[..m]);
            && (ChangesNothingFrom(all[..m], 0) ==> IsReplayOf(recovered, world, live, replayed) && last == all)
            && (replayed.Return? && last == all <==>
                ChangesNothingFrom(all[..m], 0) && !Overflows(recovered, world, live.state))
  {
    hide IsWorkspace, IsIdentifying, RunServed, IsFaithful, Resumed;
    var (live, all) := RunServed(policy, setup, v, world, INITIAL, []);
    var left := all[..m];
    EmptyLog(v.ws);
    RunKeepsOwn(policy, setup, v, world, INITIAL, []);
    LeftoverIsLog(policy, setup, v, world, m);
    if ChangesNothingFrom(left, 0) {
      RunFollows(policy, setup, v, world, INITIAL, left, all, []);
      assert Longer(left, []) == left && Longer(left, all) == all;
      ReplayAgrees(policy, setup, v, world, recovered, INITIAL, left);
    } else {
      RunDiverges(policy, setup, v, world, recovered, INITIAL, left);
      var (replayed, last) := RunServed(policy, setup, v, Resumed(recovered, world), INITIAL, left);
      assert replayed.Return? ==> last[|left|].call == last[0].call;
    }
  }

  /** A submission came in a turn whose transport completed. */
  lemma {:induction false} SubmissionIsNoFailure(policy: Policy, setup: Setup, v: Service, world: World,
                                                 recovered: seq<ClosedTurn>, s: State, log: Log)
    requires IsFaithful(recovered, world) && Submits(RunServed(policy, setup, v, world, s, log).0)
    ensures !EndsInReplayedFailure(recovered, RunServed(policy, setup, v, world, s, log).0.state)
    decreases policy.maximumTurns - |s.turns|
  {
    hide PlayServed, Assesses;
    var (step, after) := PlayServed(policy, setup, v, s, world(|s.turns|), log);
    ServedTurnsGrow(policy, setup, v, s, world(|s.turns|), log);
    if step.Continue? {
      SubmissionIsNoFailure(policy, setup, v, world, recovered, step.state, after);
    } else {
      SubmittedWasAssessed(policy, setup, v, s, world(|s.turns|), log);
    }
  }

  /** The loss of a process costs an attempt its submission exactly when a snapshot change
      was sealed before: a run that would have submitted does so after resumption if and only
      if none of the seals left behind changed the snapshot, and then as the same run. */
  lemma ResumedSubmitsExactly(policy: Policy, setup: Setup, v: Service, world: World, recovered: seq<ClosedTurn>, m: nat)
    requires IsWorkspace(v.ws) && IsIdentifying(v) && IsReceipting(v) && IsFaithful(recovered, world)
    requires var (live, all) := RunServed(policy, setup, v, world, INITIAL, []); Submits(live) && m <= |all|
    ensures var (live, all) := RunServed(policy, setup, v, world, INITIAL, []);
            var (replayed, last) := RunServed(policy, setup, v, Resumed(recovered, world), INITIAL, all[..m]);
            && (Submits(replayed) <==> ChangesNothingFrom(all[..m], 0))
            && (Submits(replayed) ==> replayed == live && last == all)
  {
    hide IsWorkspace, IsIdentifying, IsReceipting, RunServed, IsFaithful, Resumed;
    var (live, all) := RunServed(policy, setup, v, world, INITIAL, []);
    ResumedExactly(policy, setup, v, world, recovered, m);
    LeftoverIsLog(policy, setup, v, world, m);
    if ChangesNothingFrom(all[..m], 0) {
      SubmissionIsNoFailure(policy, setup, v, world, recovered, INITIAL, []);
    } else {
      ChangedSealsAreNeverSubmitted(policy, setup, v, Resumed(recovered, world), all[..m]);
    }
  }
}
