/** What the turn loop does, read off its world: which turn a run gets to, whether it fails
    there, and the status it ends with.  Nothing here runs the loop. */
module LoopMeaning {
  import opened Wrappers
  import opened Json
  import opened AgentTurnLoop
  import opened LoopSafety

  // ---------------------------------------------------------------------------
  // What one world's turn shows
  // ---------------------------------------------------------------------------

  function CallsAt(world: World, n: nat): seq<Call> {
    var runtime := world(n).runtime;
    if runtime.Some? && runtime.value.calls.Some? then runtime.value.calls.value else []
  }

  predicate IsTransported(w: TurnWorld) {
    w.runtime.Some? && w.runtime.value.status.Completed? && w.runtime.value.terminalEventCompleted
  }

  /** Controlled call `k` was answered by this execution. */
  predicate Executed(calls: seq<Call>, w: TurnWorld, k: nat, e: Execution) {
    k < |calls| && calls[k].Controlled? && w.controlled(k) == Some(e)
  }

  /** One of the first `n` calls was rejected. */
  ghost predicate RejectsSome(calls: seq<Call>, w: TurnWorld, n: nat) {
    exists k: nat, e :: k < n && Executed(calls, w, k, e) && e.rejected
  }

  /** One of them closed the verification. */
  ghost predicate ClosesSome(calls: seq<Call>, w: TurnWorld, n: nat) {
    exists k: nat, e :: k < n && Executed(calls, w, k, e) && e.hasClosure
  }

  /** The bytes persisted for the first `n` calls. */
  function PersistedBytes(calls: seq<Call>, w: TurnWorld, n: nat): nat
    requires n <= |calls|
  {
    if n == 0 then 0
    else
      PersistedBytes(calls, w, n - 1) +
      if calls[n - 1].Controlled? && w.controlled(n - 1).Some? then w.controlled(n - 1).value.artifactBytes else 0
  }

  /** The first capability answer that is not supported is this one. */
  ghost predicate FirstRefusal(calls: seq<Call>, w: TurnWorld, n: nat, o: Outcome)
    requires n <= |calls|
  {
    exists k: nat ::
      && k < n && IsCapabilityCall(calls[k]) && w.capability(k) == Some(o) && !o.Supported?
      && forall j: nat :: j < k && IsCapabilityCall(calls[j]) ==> w.capability(j) == Some(Supported)
  }

  // ---------------------------------------------------------------------------
  // What the turns before it leave
  // ---------------------------------------------------------------------------

  function CallsBefore(world: World, n: nat): nat {
    if n == 0 then 0 else CallsBefore(world, n - 1) + |CallsAt(world, n - 1)|
  }

  ghost function RepairsBefore(world: World, n: nat): nat {
    if n == 0 then 0
    else RepairsBefore(world, n - 1) + if RejectsSome(CallsAt(world, n - 1), world(n - 1), |CallsAt(world, n - 1)|) then 1 else 0
  }

  function BytesBefore(world: World, n: nat): nat {
    if n == 0 then 0
    else BytesBefore(world, n - 1) + PersistedBytes(CallsAt(world, n - 1), world(n - 1), |CallsAt(world, n - 1)|)
  }

  /** The first turn may prepare a source: it then makes no call at all. */
  predicate IsBootstrapAt(setup: Setup, world: World, n: nat) {
    && n == 0 && setup.sharedEffect.Some? && !setup.sharedEffect.value.Retrieval?
    && world(0).runtime.Some? && world(0).runtime.value.calls == Some([])
  }

  /** The submission is due after a closure, after a shared effect, and in the last turn. */
  ghost predicate IsSubmissionAt(policy: Policy, setup: Setup, world: World, n: nat) {
    && n > 0 && !IsBootstrapAt(setup, world, n - 1)
    && (|| ClosesSome(CallsAt(world, n - 1), world(n - 1), |CallsAt(world, n - 1)|) || SharedEffect in CallsAt(world, n - 1)
        || n == policy.maximumTurns - 1)
  }

  /** A shared effect can use a source: one of its own, or one the first turn prepared. */
  predicate HasSource(setup: Setup, world: World, n: nat) {
    setup.sharedEffect == Some(Retrieval) || (n > 0 && IsBootstrapAt(setup, world, 0))
  }

  // ---------------------------------------------------------------------------
  // Turn `n`
  // ---------------------------------------------------------------------------

  /** The turn's calls may run: all of them known, some room left, no submission yet. */
  predicate IsAdmittedAt(policy: Policy, world: World, n: nat) {
    && world(n).runtime.Some? && world(n).runtime.value.calls.Some?
    && CallsAt(world, n) != [] && ResultSubmit !in CallsAt(world, n)
    && CallsBefore(world, n) + |CallsAt(world, n)| <= policy.maximumToolCalls
  }

  /** The run does not get to the provider. */
  ghost predicate CannotInvoke(policy: Policy, setup: Setup, world: World, n: nat) {
    || world(n).aborted
    || (&& !IsSubmissionAt(policy, setup, world, n) && setup.sharedEffect.Some?
        && (|| n >= 7
            || (HasSource(setup, world, n) && !world(n).requestRefReady)
            || (!HasSource(setup, world, n) && (n > 0 || setup.sharedEffect.value.Cache?))))
  }

  /** A call cannot be made, or is not answered. */
  ghost predicate CannotAnswer(setup: Setup, world: World, n: nat) {
    var w, calls := world(n), CallsAt(world, n);
    || Unowned in calls
    || (SharedEffect in calls && (calls != [SharedEffect] || setup.sharedEffect.None? || !HasSource(setup, world, n)))
    || (Observing in calls && (w.finalization.None? || !w.finalization.value.hasReceipt))
    || SomeUnanswered(calls, w, |calls|)
    || (exists k: nat :: k < |calls| && IsCapabilityCall(calls[k]) && (!setup.capabilityRequired || w.capability(k).None?))
  }

  ghost predicate IsWithinCeilings(policy: Policy, world: World, n: nat) {
    RepairsBefore(world, n + 1) <= policy.maximumRepairRounds && BytesBefore(world, n + 1) <= policy.maximumArtifactBytes
  }

  ghost predicate HasRefusal(world: World, n: nat) {
    exists o :: FirstRefusal(CallsAt(world, n), world(n), |CallsAt(world, n)|, o)
  }

  /** The turn runs its calls. */
  ghost predicate IsDomainAt(policy: Policy, setup: Setup, world: World, n: nat) {
    && IsTransported(world(n)) && !IsSubmissionAt(policy, setup, world, n) && !IsBootstrapAt(setup, world, n)
    && IsAdmittedAt(policy, world, n)
  }

  /** The turn submits a result in order. */
  ghost predicate IsSubmittedAt(policy: Policy, setup: Setup, world: World, n: nat) {
    && IsTransported(world(n)) && IsSubmissionAt(policy, setup, world, n)
    && world(n).runtime.value.calls == Some([ResultSubmit]) && world(n).submissionValid
  }

  /** An error ends the run in turn `n`. */
  ghost predicate Fails(policy: Policy, setup: Setup, world: World, n: nat) {
    var w := world(n);
    || CannotInvoke(policy, setup, world, n) || w.runtime.None? || w.finalization.None?
    || ProviderBytes(world, n + 1) + BytesBefore(world, n) > MAXIMUM_SAFE_INTEGER
    || (IsSubmittedAt(policy, setup, world, n) && !w.assessed)
    || (IsTransported(w) && IsBootstrapAt(setup, world, n) && !w.finalization.value.hasReceipt)
    || (IsDomainAt(policy, setup, world, n) &&
        (|| CannotAnswer(setup, world, n) || BytesBefore(world, n + 1) > MAXIMUM_SAFE_INTEGER
         || (IsWithinCeilings(policy, world, n) && !HasRefusal(world, n) && Controlled in CallsAt(world, n) && !w.continued)))
  }

  /** The turn ends the run with this status. */
  ghost predicate EndsAs(policy: Policy, setup: Setup, world: World, n: nat, status: Status) {
    var w := world(n);
    if w.runtime.None? || w.finalization.None? then false
    else if !IsTransported(w) then status == if w.runtime.value.status.Completed? then SchemaFailed else w.runtime.value.status
    else if IsSubmissionAt(policy, setup, world, n) then
      status == if IsSubmittedAt(policy, setup, world, n) then Completed else SchemaFailed
    else if IsBootstrapAt(setup, world, n) then status == Completed && !w.finalization.value.showsSource
    else if !IsAdmittedAt(policy, world, n) || !IsWithinCeilings(policy, world, n) then status == SchemaFailed
    else
      || (status == Blocked && FirstRefusal(CallsAt(world, n), w, |CallsAt(world, n)|, Unsupported))
      || (status == InfrastructureError && FirstRefusal(CallsAt(world, n), w, |CallsAt(world, n)|, Failing))
  }

  /** Another turn follows. */
  ghost predicate GoesOn(policy: Policy, setup: Setup, world: World, n: nat) {
    var w := world(n);
    && IsTransported(w) && !IsSubmissionAt(policy, setup, world, n)
    && if IsBootstrapAt(setup, world, n) then w.finalization.Some? && w.finalization.value.showsSource
       else IsAdmittedAt(policy, world, n) && IsWithinCeilings(policy, world, n) && !HasRefusal(world, n)
  }

  // ---------------------------------------------------------------------------
  // What the calls of a turn bring
  // ---------------------------------------------------------------------------

  /** The executions at these positions, in call order: those of all controlled calls. */
  predicate AreAt(calls: seq<Call>, w: TurnWorld, outputs: seq<Execution>, n: nat, positions: seq<nat>)
    requires n <= |calls|
  {
    && |positions| == |outputs|
    && (forall i, j :: 0 <= i < j < |positions| ==> positions[i] < positions[j])
    && (forall k: nat :: k < n ==> (k in positions <==> calls[k].Controlled?))
    && (forall i :: 0 <= i < |positions| ==> positions[i] < n && w.controlled(positions[i]) == Some(outputs[i]))
  }

  ghost predicate AreExecutions(calls: seq<Call>, w: TurnWorld, outputs: seq<Execution>, n: nat)
    requires n <= |calls|
  {
    exists positions: seq<nat> :: AreAt(calls, w, outputs, n, positions)
  }

  lemma NoExecutions(calls: seq<Call>, w: TurnWorld)
    ensures AreExecutions(calls, w, [], 0)
  {
    assert AreAt(calls, w, [], 0, []);
  }

  lemma ExecutionsGrow(calls: seq<Call>, w: TurnWorld, outputs: seq<Execution>, n: nat)
    requires n < |calls| && AreExecutions(calls, w, outputs, n)
    ensures !calls[n].Controlled? ==> AreExecutions(calls, w, outputs, n + 1)
    ensures calls[n].Controlled? && w.controlled(n).Some? ==>
            AreExecutions(calls, w, outputs + [w.controlled(n).value], n + 1)
  {
    var positions: seq<nat> :| AreAt(calls, w, outputs, n, positions);
    if !calls[n].Controlled? {
      assert n !in positions;
      assert AreAt(calls, w, outputs, n + 1, positions);
    } else if w.controlled(n).Some? {
      assert AreAt(calls, w, outputs + [w.controlled(n).value], n + 1, positions + [n]);
    }
  }

  lemma SeenGrows(calls: seq<Call>, w: TurnWorld, n: nat)
    requires n < |calls|
    ensures !calls[n].Controlled? ==> RejectsSome(calls, w, n + 1) == RejectsSome(calls, w, n)
    ensures !calls[n].Controlled? ==> ClosesSome(calls, w, n + 1) == ClosesSome(calls, w, n)
    ensures calls[n].Controlled? && w.controlled(n).Some? ==>
              && RejectsSome(calls, w, n + 1) == (RejectsSome(calls, w, n) || w.controlled(n).value.rejected)
              && ClosesSome(calls, w, n + 1) == (ClosesSome(calls, w, n) || w.controlled(n).value.hasClosure)
  {
    if calls[n].Controlled? && w.controlled(n).Some? {
      assert Executed(calls, w, n, w.controlled(n).value);
    }
  }

  ghost predicate SomeUnanswered(calls: seq<Call>, w: TurnWorld, n: nat)
    requires n <= |calls|
  {
    exists k: nat :: k < n && calls[k].Controlled? && w.controlled(k).None?
  }

  /** The executions of the first `n` calls: all of them answered, in call order. */
  lemma {:induction false} ControlledExactly(calls: seq<Call>, w: TurnWorld, n: nat)
    requires n <= |calls|
    ensures var outputs := ControlledOutputs(calls, w, n);
            && (outputs.None? <==> SomeUnanswered(calls, w, n))
            && (outputs.Some? ==>
                  && AreExecutions(calls, w, outputs.value, n)
                  && (SomeRejected(outputs.value) <==> RejectsSome(calls, w, n))
                  && (SomeClosure(outputs.value) <==> ClosesSome(calls, w, n))
                  && (outputs.value == [] <==> Controlled !in calls[..n])
                  && BytesOf(outputs.value) == PersistedBytes(calls, w, n))
    decreases n
  {
    hide AreExecutions, SomeRejected, SomeClosure, RejectsSome, ClosesSome, BytesOf;
    if n == 0 {
      NoExecutions(calls, w);
      NothingSeen(calls, w);
    } else {
      ControlledExactly(calls, w, n - 1);
      SeenGrows(calls, w, n - 1);
      assert calls[..n] == calls[..n - 1] + [calls[n - 1]];
      var before := ControlledOutputs(calls, w, n - 1);
      if before.Some? {
        ExecutionsGrow(calls, w, before.value, n - 1);
        if calls[n - 1].Controlled? && w.controlled(n - 1).Some? {
          MoreExecutions(before.value, w.controlled(n - 1).value);
        }
      }
    }
  }

  lemma NothingSeen(calls: seq<Call>, w: TurnWorld)
    ensures !RejectsSome(calls, w, 0) && !ClosesSome(calls, w, 0) && !SomeRejected([]) && !SomeClosure([]) && BytesOf([]) == 0
  {
  }

  lemma MoreExecutions(before: seq<Execution>, e: Execution)
    ensures SomeRejected(before + [e]) <==> SomeRejected(before) || e.rejected
    ensures SomeClosure(before + [e]) <==> SomeClosure(before) || e.hasClosure
    ensures BytesOf(before + [e]) == BytesOf(before) + e.artifactBytes
  {
    assert (before + [e])[..|before|] == before;
    assert forall x :: x in before + [e] <==> x in before || x == e;
  }

  lemma {:induction false} FirstUnsupportedOfMore(outcomes: seq<Outcome>, o: Outcome)
    ensures FirstUnsupported(outcomes + [o]) ==
              if FirstUnsupported(outcomes).Some? then FirstUnsupported(outcomes)
              else if o.Supported? then None else Some(o)
  {
    if outcomes == [] {
      assert outcomes + [o] == [o];
    } else {
      assert (outcomes + [o])[1..] == outcomes[1..] + [o];
      FirstUnsupportedOfMore(outcomes[1..], o);
    }
  }

  /** The capability answers of the first `n` calls, and the first that is no support. */
  lemma {:induction false} CapabilitiesExactly(calls: seq<Call>, w: TurnWorld, n: nat)
    requires n <= |calls|
    ensures var outcomes := CapabilityOutputs(calls, w, n);
            && (outcomes.None? <==> exists k: nat :: k < n && IsCapabilityCall(calls[k]) && w.capability(k).None?)
            && (outcomes.Some? ==>
                  && (forall o :: FirstUnsupported(outcomes.value) == Some(o) <==> FirstRefusal(calls, w, n, o))
                  && (FirstUnsupported(outcomes.value).None? <==>
                        forall k: nat :: k < n && IsCapabilityCall(calls[k]) ==> w.capability(k) == Some(Supported)))
    decreases n
  {
    if n > 0 {
      CapabilitiesExactly(calls, w, n - 1);
      var before := CapabilityOutputs(calls, w, n - 1);
      if before.Some? && IsCapabilityCall(calls[n - 1]) && w.capability(n - 1).Some? {
        FirstUnsupportedOfMore(before.value, w.capability(n - 1).value);
      }
    }
  }

  /** Each call that is neither a submission nor unowned has one answer. */
  lemma {:induction false} AnswersAreCalls(calls: seq<Call>, w: TurnWorld, n: nat)
    requires n <= |calls| && ResultSubmit !in calls && Unowned !in calls
    requires ControlledOutputs(calls, w, n).Some? && CapabilityOutputs(calls, w, n).Some?
    ensures |ControlledOutputs(calls, w, n).value| + |CapabilityOutputs(calls, w, n).value| == n
    decreases n
  {
    if n > 0 {
      AnswersAreCalls(calls, w, n - 1);
      assert calls[n - 1] in calls;
    }
  }

  // ---------------------------------------------------------------------------
  // One turn of the loop
  // ---------------------------------------------------------------------------

  /** What is recorded of turn `n`. */
  ghost predicate IsRecorded(policy: Policy, setup: Setup, world: World, n: nat, turn: Turn, last: bool, status: Status) {
    && world(n).runtime.Some?
    && turn.turnIndex == n && turn.responseDigest == world(n).runtime.value.responseDigest
    && turn.terminal == last && turn.status == status
    && (turn.phase.ResultSubmission? <==> IsSubmissionAt(policy, setup, world, n))
    && (if IsDomainAt(policy, setup, world, n)
        then AreExecutions(CallsAt(world, n), world(n), turn.executions, |CallsAt(world, n)|)
        else turn.executions == [])
    && (turn.hasContinuation <==> !last && turn.executions != [])
    && (turn.isBootstrap <==> IsTransported(world(n)) && IsBootstrapAt(setup, world, n))
    && (turn.hasSubmission <==> IsSubmittedAt(policy, setup, world, n))
  }

  /** The state at the head of turn `n` is what the turns before it leave. */
  ghost predicate IsHead(policy: Policy, setup: Setup, world: World, s: State) {
    var n := |s.turns|;
    && (s.phase.ResultSubmission? <==> IsSubmissionAt(policy, setup, world, n))
    && (s.hasPriorSource <==> n > 0 && IsBootstrapAt(setup, world, 0))
    && s.repairRounds == RepairsBefore(world, n)
    && s.controlledBytes == BytesBefore(world, n)
    && s.artifactBytes == ProviderBytes(world, n) + BytesBefore(world, n)
    && ToolCalls(s) == CallsBefore(world, n)
    && (s.phase.DomainTools? ==> s.shared == [])
    && (forall i :: 0 <= i < n ==> GoesOn(policy, setup, world, i) && !Fails(policy, setup, world, i) &&
                                   IsRecorded(policy, setup, world, i, s.turns[i], false, Completed))
  }

  /** What turn `n` makes of a run that got there. */
  ghost predicate IsPlayed(policy: Policy, setup: Setup, world: World, s: State, step: Step) {
    var n := |s.turns|;
    match step
    case Throw(t) => t.turns == s.turns && Fails(policy, setup, world, n)
    case Return(t, status) =>
      && !Fails(policy, setup, world, n) && !GoesOn(policy, setup, world, n) && EndsAs(policy, setup, world, n, status)
      && |t.turns| == n + 1 && t.turns[..n] == s.turns && IsRecorded(policy, setup, world, n, t.turns[n], true, status)
      && var m := if IsDomainAt(policy, setup, world, n) then n + 1 else n;
         t.repairRounds == RepairsBefore(world, m) && t.controlledBytes == BytesBefore(world, m)
    case Continue(t) =>
      && |t.turns| == n + 1 && t.turns[..n] == s.turns && IsHead(policy, setup, world, t)
  }

  lemma PreparedExactly(policy: Policy, setup: Setup, world: World, s: State)
    requires IsHead(policy, setup, world, s)
    ensures IsPrepared(setup, s, world(|s.turns|)) <==> !CannotInvoke(policy, setup, world, |s.turns|)
    ensures !CannotInvoke(policy, setup, world, |s.turns|) && s.phase.DomainTools? ==>
              && (DecisionOf(setup, s).IssueRequestRef? <==> setup.sharedEffect.Some? && HasSource(setup, world, |s.turns|))
              && (DecisionOf(setup, s).Bootstrap? <==>
                    |s.turns| == 0 && setup.sharedEffect.Some? && !setup.sharedEffect.value.Retrieval?)
  {
    hide IsSubmissionAt, IsBootstrapAt, IsRecorded, GoesOn, Fails;
  }

  /** The state once turn `n` is invoked: its own bytes are counted. */
  predicate IsInvoked(world: World, s: State, t: State) {
    && t.turns == s.turns && t.phase == s.phase && t.hasPriorSource == s.hasPriorSource
    && t.toolOutputs == s.toolOutputs && t.capabilityOutputs == s.capabilityOutputs
    && t.repairRounds == s.repairRounds && t.controlledBytes == s.controlledBytes
    && t.artifactBytes == ProviderBytes(world, |s.turns| + 1) + s.controlledBytes
  }

  lemma EndIsPlayed(policy: Policy, setup: Setup, world: World, s: State, t: State, turn: Turn)
    requires IsHead(policy, setup, world, s) && IsInvoked(world, s, t) && !IsDomainAt(policy, setup, world, |s.turns|)
    requires world(|s.turns|).runtime.Some?
    requires IsRecorded(policy, setup, world, |s.turns|, turn, true, turn.status)
    requires world(|s.turns|).finalization.Some? ==>
               && !Fails(policy, setup, world, |s.turns|) && !GoesOn(policy, setup, world, |s.turns|)
               && EndsAs(policy, setup, world, |s.turns|, turn.status)
    ensures IsPlayed(policy, setup, world, s, End(t, world(|s.turns|), turn))
  {
    hide IsRecorded, IsDomainAt, GoesOn, EndsAs, CannotInvoke, IsHead;
    assert IsHead(policy, setup, world, s);
    HeadIs(policy, setup, world, s);
  }

  /** The state just before the calls are booked. */
  predicate IsReady(world: World, s: State, t: State) {
    && IsInvoked(world, s, t)
    && t.shared == if SharedEffect in CallsAt(world, |s.turns|) then [|s.turns|] else []
  }

  ghost predicate AreOutputs(world: World, n: nat, executions: seq<Execution>, outcomes: seq<Outcome>) {
    var calls, w := CallsAt(world, n), world(n);
    && AreExecutions(calls, w, executions, |calls|)
    && (SomeRejected(executions) <==> RejectsSome(calls, w, |calls|))
    && (SomeClosure(executions) <==> ClosesSome(calls, w, |calls|))
    && (executions == [] <==> Controlled !in calls)
    && BytesOf(executions) == PersistedBytes(calls, w, |calls|)
    && (forall o :: FirstUnsupported(outcomes) == Some(o) <==> FirstRefusal(calls, w, |calls|, o))
    && |executions| + |outcomes| == |calls|
  }

  /** What decides an admitted turn whose calls are answered. */
  lemma DomainFate(policy: Policy, setup: Setup, world: World, n: nat)
    requires IsDomainAt(policy, setup, world, n)
    requires !CannotInvoke(policy, setup, world, n) && !CannotAnswer(setup, world, n) && world(n).finalization.Some?
    requires ProviderBytes(world, n + 1) + BytesBefore(world, n) <= MAXIMUM_SAFE_INTEGER
    ensures GoesOn(policy, setup, world, n) <==> IsWithinCeilings(policy, world, n) && !HasRefusal(world, n)
    ensures Fails(policy, setup, world, n) <==>
              || BytesBefore(world, n + 1) > MAXIMUM_SAFE_INTEGER
              || (IsWithinCeilings(policy, world, n) && !HasRefusal(world, n) && Controlled in CallsAt(world, n) &&
                  !world(n).continued)
    ensures forall status :: EndsAs(policy, setup, world, n, status) <==>
              if !IsWithinCeilings(policy, world, n) then status == SchemaFailed
              else
                || (status == Blocked && FirstRefusal(CallsAt(world, n), world(n), |CallsAt(world, n)|, Unsupported))
                || (status == InfrastructureError && FirstRefusal(CallsAt(world, n), world(n), |CallsAt(world, n)|, Failing))
    ensures !IsSubmittedAt(policy, setup, world, n)
  {
    hide CannotInvoke, CannotAnswer, IsWithinCeilings, HasRefusal, FirstRefusal, BytesBefore, ProviderBytes,
      IsAdmittedAt, IsSubmissionAt, IsBootstrapAt;
  }

  /** The turn of an admitted, answered turn, closed as told. */
  lemma DomainIsRecorded(policy: Policy, setup: Setup, world: World, n: nat, turn: Turn, last: bool)
    requires IsDomainAt(policy, setup, world, n)
    requires turn.turnIndex == n && turn.responseDigest == world(n).runtime.value.responseDigest && turn.terminal == last
    requires turn.phase.DomainTools? && !turn.isBootstrap && !turn.hasSubmission
    requires AreExecutions(CallsAt(world, n), world(n), turn.executions, |CallsAt(world, n)|)
    requires turn.hasContinuation <==> !last && turn.executions != []
    ensures IsRecorded(policy, setup, world, n, turn, last, turn.status)
  {
    hide AreExecutions, IsSubmissionAt, IsBootstrapAt, IsAdmittedAt;
  }

  /** The head of the next turn, after an admitted one. */
  lemma HeadAfterDomain(policy: Policy, setup: Setup, world: World, s: State, t: State, turn: Turn)
    requires IsHead(policy, setup, world, s) && IsDomainAt(policy, setup, world, |s.turns|)
    requires GoesOn(policy, setup, world, |s.turns|) && !Fails(policy, setup, world, |s.turns|)
    requires IsRecorded(policy, setup, world, |s.turns|, turn, false, Completed)
    requires t.turns == s.turns + [turn] && t.hasPriorSource == s.hasPriorSource
    requires t.phase == if ClosesSome(CallsAt(world, |s.turns|), world(|s.turns|), |CallsAt(world, |s.turns|)|) ||
                           SharedEffect in CallsAt(world, |s.turns|) || |s.turns| + 1 == policy.maximumTurns - 1
                        then ResultSubmission else DomainTools
    requires t.repairRounds == RepairsBefore(world, |s.turns| + 1) && t.controlledBytes == BytesBefore(world, |s.turns| + 1)
    requires t.artifactBytes == ProviderBytes(world, |s.turns| + 1) + BytesBefore(world, |s.turns| + 1)
    requires ToolCalls(t) == CallsBefore(world, |s.turns| + 1)
    requires t.shared == if SharedEffect in CallsAt(world, |s.turns|) then [|s.turns|] else []
    ensures IsHead(policy, setup, world, t)
  {
    hide GoesOn, Fails, IsRecorded, ClosesSome, RepairsBefore, BytesBefore, ProviderBytes, CallsBefore, IsAdmittedAt,
      IsTransported;
    assert forall i :: 0 <= i < |s.turns| ==> t.turns[i] == s.turns[i];
  }

  lemma BookingCountsOn(world: World, s: State, t: State, executions: seq<Execution>, outcomes: seq<Outcome>)
    requires AreOutputs(world, |s.turns|, executions, outcomes) && IsReady(world, s, t)
    requires s.repairRounds == RepairsBefore(world, |s.turns|) && s.controlledBytes == BytesBefore(world, |s.turns|)
    requires ToolCalls(s) == CallsBefore(world, |s.turns|)
    ensures t.repairRounds + (if SomeRejected(executions) then 1 else 0) == RepairsBefore(world, |s.turns| + 1)
    ensures t.controlledBytes + BytesOf(executions) == BytesBefore(world, |s.turns| + 1)
    ensures ToolCalls(t) + |executions| + |outcomes| == CallsBefore(world, |s.turns| + 1)
    ensures t.artifactBytes == ProviderBytes(world, |s.turns| + 1) + BytesBefore(world, |s.turns|)
    ensures forall o :: FirstUnsupported(outcomes) == Some(o) <==>
                          FirstRefusal(CallsAt(world, |s.turns|), world(|s.turns|), |CallsAt(world, |s.turns|)|, o)
    ensures HasRefusal(world, |s.turns|) <==> FirstUnsupported(outcomes).Some?
    ensures AreExecutions(CallsAt(world, |s.turns|), world(|s.turns|), executions, |CallsAt(world, |s.turns|)|)
    ensures executions == [] <==> Controlled !in CallsAt(world, |s.turns|)
    ensures SomeClosure(executions) <==>
              ClosesSome(CallsAt(world, |s.turns|), world(|s.turns|), |CallsAt(world, |s.turns|)|)
  {
    hide AreExecutions, SomeRejected, SomeClosure, RejectsSome, ClosesSome, BytesOf, PersistedBytes, FirstUnsupported,
      FirstRefusal, ProviderBytes;
    if FirstUnsupported(outcomes).Some? {
      var o := FirstUnsupported(outcomes).value;
      assert FirstUnsupported(outcomes) == Some(o);
    }
  }

  lemma FirstUnsupportedIsNone(outcomes: seq<Outcome>)
    ensures FirstUnsupported(outcomes).Some? ==> !FirstUnsupported(outcomes).value.Supported?
  {
  }

  lemma BookingEnds(policy: Policy, setup: Setup, world: World, s: State, t: State, executions: seq<Execution>,
                    outcomes: seq<Outcome>)
    requires IsHead(policy, setup, world, s) && IsReady(world, s, t) && IsDomainAt(policy, setup, world, |s.turns|)
    requires AreOutputs(world, |s.turns|, executions, outcomes) && t.phase.DomainTools?
    requires !CannotInvoke(policy, setup, world, |s.turns|) && !CannotAnswer(setup, world, |s.turns|)
    requires world(|s.turns|).finalization.Some? && t.artifactBytes <= MAXIMUM_SAFE_INTEGER
    requires !CloseDomain(policy, t, world(|s.turns|), executions, outcomes).Continue?
    ensures IsPlayed(policy, setup, world, s, CloseDomain(policy, t, world(|s.turns|), executions, outcomes))
  {
    hide AreExecutions, SomeRejected, SomeClosure, RejectsSome, ClosesSome, BytesOf, PersistedBytes, FirstUnsupported,
      FirstRefusal, CannotInvoke, CannotAnswer, GoesOn, Fails, EndsAs, IsRecorded, IsHead, HasRefusal, RepairsBefore,
      BytesBefore, ProviderBytes, CallsBefore, AreOutputs;
    HeadIs(policy, setup, world, s);
    BookingCountsOn(world, s, t, executions, outcomes);
    FirstUnsupportedIsNone(outcomes);
    DomainFate(policy, setup, world, |s.turns|);
    var step := CloseDomain(policy, t, world(|s.turns|), executions, outcomes);
    if step.Return? {
      assert step.state.turns == s.turns + [step.state.turns[|s.turns|]];
      DomainIsRecorded(policy, setup, world, |s.turns|, step.state.turns[|s.turns|], true);
    }
  }

  lemma BookingGoesOn(policy: Policy, setup: Setup, world: World, s: State, t: State, executions: seq<Execution>,
                      outcomes: seq<Outcome>)
    requires IsHead(policy, setup, world, s) && IsReady(world, s, t) && IsDomainAt(policy, setup, world, |s.turns|)
    requires AreOutputs(world, |s.turns|, executions, outcomes) && t.phase.DomainTools?
    requires !CannotInvoke(policy, setup, world, |s.turns|) && !CannotAnswer(setup, world, |s.turns|)
    requires world(|s.turns|).finalization.Some? && t.artifactBytes <= MAXIMUM_SAFE_INTEGER
    requires CloseDomain(policy, t, world(|s.turns|), executions, outcomes).Continue?
    ensures IsPlayed(policy, setup, world, s, CloseDomain(policy, t, world(|s.turns|), executions, outcomes))
  {
    hide AreExecutions, SomeRejected, SomeClosure, RejectsSome, ClosesSome, BytesOf, PersistedBytes, FirstUnsupported,
      FirstRefusal, CannotInvoke, CannotAnswer, GoesOn, Fails, EndsAs, IsRecorded, IsHead, HasRefusal, RepairsBefore,
      BytesBefore, ProviderBytes, CallsBefore, AreOutputs;
    HeadIs(policy, setup, world, s);
    BookingCountsOn(world, s, t, executions, outcomes);
    FirstUnsupportedIsNone(outcomes);
    DomainFate(policy, setup, world, |s.turns|);
    var step := CloseDomain(policy, t, world(|s.turns|), executions, outcomes);
    var turn := step.state.turns[|s.turns|];
    assert step.state.turns == s.turns + [turn];
    DomainIsRecorded(policy, setup, world, |s.turns|, turn, false);
    HeadAfterDomain(policy, setup, world, s, step.state, turn);
  }

  lemma HeadIs(policy: Policy, setup: Setup, world: World, s: State)
    requires IsHead(policy, setup, world, s)
    ensures s.repairRounds == RepairsBefore(world, |s.turns|) && s.controlledBytes == BytesBefore(world, |s.turns|)
    ensures ToolCalls(s) == CallsBefore(world, |s.turns|)
    ensures s.artifactBytes == ProviderBytes(world, |s.turns|) + BytesBefore(world, |s.turns|)
    ensures s.phase.ResultSubmission? <==> IsSubmissionAt(policy, setup, world, |s.turns|)
    ensures s.phase.DomainTools? ==> s.shared == []
  {
  }

  /** The calls are run exactly when each of them can be made and is answered. */
  lemma AnswerableExactly(policy: Policy, setup: Setup, world: World, s: State)
    requires IsHead(policy, setup, world, s) && IsDomainAt(policy, setup, world, |s.turns|)
    requires !CannotInvoke(policy, setup, world, |s.turns|)
    ensures var w, calls := world(|s.turns|), CallsAt(world, |s.turns|);
            CannotAnswer(setup, world, |s.turns|) <==>
              || Unowned in calls || (SharedEffect in calls && calls != [SharedEffect])
              || ControlledOutputs(calls, w, |calls|).None? || !MayRunCapabilities(setup, s, w, calls)
              || CapabilityOutputs(calls, w, |calls|).None?
  {
    hide IsHead, GoesOn, Fails, IsRecorded, IsAdmittedAt, ControlledOutputs, CapabilityOutputs, AreExecutions, SomeUnanswered,
      SomeRejected, SomeClosure, RejectsSome, ClosesSome, BytesOf, PersistedBytes, FirstUnsupported, FirstRefusal, DecisionOf,
      HasSource, CannotInvoke, IsSubmissionAt, IsBootstrapAt;
    var w, calls := world(|s.turns|), CallsAt(world, |s.turns|);
    HeadIs(policy, setup, world, s);
    PreparedExactly(policy, setup, world, s);
    ControlledExactly(calls, w, |calls|);
    CapabilitiesExactly(calls, w, |calls|);
    assert forall c :: c in calls <==> exists k: nat :: k < |calls| && calls[k] == c;
    assert DecisionOf(setup, s).IssueRequestRef? <==> setup.sharedEffect.Some? && HasSource(setup, world, |s.turns|);
  }

  lemma OutputsAre(world: World, n: nat)
    requires var calls, w := CallsAt(world, n), world(n);
             && ControlledOutputs(calls, w, |calls|).Some? && CapabilityOutputs(calls, w, |calls|).Some?
             && Unowned !in calls && ResultSubmit !in calls
    ensures var calls, w := CallsAt(world, n), world(n);
            AreOutputs(world, n, ControlledOutputs(calls, w, |calls|).value, CapabilityOutputs(calls, w, |calls|).value)
  {
    hide ControlledOutputs, CapabilityOutputs, AreExecutions, SomeUnanswered, SomeRejected, SomeClosure, RejectsSome,
      ClosesSome, BytesOf, PersistedBytes, FirstUnsupported, FirstRefusal;
    var calls, w := CallsAt(world, n), world(n);
    ControlledExactly(calls, w, |calls|);
    CapabilitiesExactly(calls, w, |calls|);
    AnswersAreCalls(calls, w, |calls|);
    assert calls[..|calls|] == calls;
  }

  lemma DomainIsPlayed(policy: Policy, setup: Setup, world: World, s: State, t: State)
    requires IsHead(policy, setup, world, s) && IsInvoked(world, s, t) && t.shared == s.shared
    requires IsDomainAt(policy, setup, world, |s.turns|) && !CannotInvoke(policy, setup, world, |s.turns|)
    requires t.artifactBytes <= MAXIMUM_SAFE_INTEGER && t.phase.DomainTools?
    ensures IsPlayed(policy, setup, world, s, PlayDomain(policy, setup, t, world(|s.turns|)))
  {
    hide IsHead, AreOutputs, CloseDomain, GoesOn, EndsAs, IsRecorded, ControlledOutputs, CapabilityOutputs,
      MayRunCapabilities, CannotAnswer, CannotInvoke, IsAdmittedAt, DecisionOf, ProviderBytes, BytesBefore;
    var n, w, calls := |s.turns|, world(|s.turns|), CallsAt(world, |s.turns|);
    HeadIs(policy, setup, world, s);
    AnswerableExactly(policy, setup, world, s);
    SameRights(setup, s, t, w, calls);
    AdmittedHasNoSubmit(policy, world, n);
    if !CannotAnswer(setup, world, n) && w.finalization.Some? {
      OutputsAre(world, n);
      var executions, outcomes := ControlledOutputs(calls, w, |calls|).value, CapabilityOutputs(calls, w, |calls|).value;
      var u := if SharedEffect in calls then Finalized(t.(shared := t.shared + [n])) else Finalized(t);
      if CloseDomain(policy, u, w, executions, outcomes).Continue? {
        BookingGoesOn(policy, setup, world, s, u, executions, outcomes);
      } else {
        BookingEnds(policy, setup, world, s, u, executions, outcomes);
      }
    }
  }

  lemma AdmittedHasNoSubmit(policy: Policy, world: World, n: nat)
    requires IsAdmittedAt(policy, world, n)
    ensures ResultSubmit !in CallsAt(world, n) && world(n).runtime.Some? && world(n).runtime.value.calls == Some(CallsAt(world, n))
  {
  }

  lemma SameRights(setup: Setup, s: State, t: State, w: TurnWorld, calls: seq<Call>)
    requires t.turns == s.turns && t.phase == s.phase && t.hasPriorSource == s.hasPriorSource
    ensures DecisionOf(setup, t) == DecisionOf(setup, s)
    ensures MayRunCapabilities(setup, t, w, calls) == MayRunCapabilities(setup, s, w, calls)
  {
  }

  lemma SubmissionIsPlayed(policy: Policy, setup: Setup, world: World, s: State, t: State)
    requires IsHead(policy, setup, world, s) && IsInvoked(world, s, t) && s.phase.ResultSubmission?
    requires IsTransported(world(|s.turns|)) && !CannotInvoke(policy, setup, world, |s.turns|)
    requires t.artifactBytes <= MAXIMUM_SAFE_INTEGER
    ensures IsPlayed(policy, setup, world, s, PlaySubmission(t, world(|s.turns|)))
  {
    hide IsHead, CannotInvoke, CannotAnswer, IsAdmittedAt, ProviderBytes, BytesBefore, IsSubmissionAt;
    HeadIs(policy, setup, world, s);
    assert IsSubmissionAt(policy, setup, world, |s.turns|);
    assert |s.turns| > 0 by { SubmissionIsLater(policy, setup, world, |s.turns|); }
  }

  lemma SubmissionIsLater(policy: Policy, setup: Setup, world: World, n: nat)
    requires IsSubmissionAt(policy, setup, world, n)
    ensures n > 0
  {
  }

  lemma BootstrapIsPlayed(policy: Policy, setup: Setup, world: World, s: State, t: State)
    requires IsHead(policy, setup, world, s) && IsInvoked(world, s, t) && s.turns == [] && s.phase.DomainTools?
    requires t.shared == s.shared && t.capabilityOutputs == s.capabilityOutputs && t.toolOutputs == s.toolOutputs
    requires IsTransported(world(0)) && !CannotInvoke(policy, setup, world, 0) && IsBootstrapAt(setup, world, 0)
    requires t.artifactBytes <= MAXIMUM_SAFE_INTEGER
    ensures IsPlayed(policy, setup, world, s, PlayBootstrap(t, world(0)))
  {
    hide CannotInvoke, CannotAnswer, IsAdmittedAt, ProviderBytes;
  }

  lemma TurnIsPlayed(policy: Policy, setup: Setup, world: World, s: State)
    requires IsHead(policy, setup, world, s)
    ensures IsPlayed(policy, setup, world, s, PlayTurn(policy, setup, s, world(|s.turns|)))
  {
    hide IsHead, PlayDomain, PlaySubmission, PlayBootstrap, End, IsPlayed, IsPrepared, DecisionOf, IsDomainAt, AreCallsAdmitted,
      CannotInvoke, ProviderBytes, BytesBefore, IsSubmissionAt, IsBootstrapAt, Fails;
    var n, w := |s.turns|, world(|s.turns|);
    HeadIs(policy, setup, world, s);
    PreparedExactly(policy, setup, world, s);
    if CannotInvoke(policy, setup, world, n) || w.runtime.None? ||
       s.artifactBytes + w.runtime.value.artifactBytes > MAXIMUM_SAFE_INTEGER
    {
      NotInvoked(policy, setup, world, s);
    } else {
      var t := s.(artifactBytes := s.artifactBytes + w.runtime.value.artifactBytes);
      InvokedIs(world, s);
      if !IsTransported(w) {
        FailedTransport(policy, setup, world, s, t);
      } else if s.phase.ResultSubmission? {
        SubmissionIsPlayed(policy, setup, world, s, t);
      } else {
        KindOfTurn(policy, setup, world, s);
        SameAdmission(policy, s, t, w.runtime.value.calls);
        if IsBootstrapAt(setup, world, n) {
          BootstrapIsPlayed(policy, setup, world, s, t);
        } else if IsDomainAt(policy, setup, world, n) {
          DomainIsPlayed(policy, setup, world, s, t);
        } else {
          Unadmitted(policy, setup, world, s, t);
        }
      }
    }
  }

  lemma SameAdmission(policy: Policy, s: State, t: State, calls: Option<seq<Call>>)
    requires t.toolOutputs == s.toolOutputs && t.capabilityOutputs == s.capabilityOutputs
    ensures AreCallsAdmitted(policy, t, calls) == AreCallsAdmitted(policy, s, calls)
  {
  }

  lemma InvokedIs(world: World, s: State)
    requires world(|s.turns|).runtime.Some?
    requires s.artifactBytes == ProviderBytes(world, |s.turns|) + s.controlledBytes
    ensures IsInvoked(world, s, s.(artifactBytes := s.artifactBytes + world(|s.turns|).runtime.value.artifactBytes))
  {
  }

  lemma NotInvoked(policy: Policy, setup: Setup, world: World, s: State)
    requires IsHead(policy, setup, world, s)
    requires || CannotInvoke(policy, setup, world, |s.turns|) || world(|s.turns|).runtime.None?
             || s.artifactBytes + world(|s.turns|).runtime.value.artifactBytes > MAXIMUM_SAFE_INTEGER
    ensures IsPlayed(policy, setup, world, s, Throw(s))
  {
    hide CannotInvoke, GoesOn, IsRecorded, BytesBefore, IsSubmissionAt, IsBootstrapAt;
  }

  /** What a transported turn of the domain phase is. */
  lemma KindOfTurn(policy: Policy, setup: Setup, world: World, s: State)
    requires IsHead(policy, setup, world, s) && s.phase.DomainTools? && IsTransported(world(|s.turns|))
    requires !CannotInvoke(policy, setup, world, |s.turns|)
    ensures var n, calls := |s.turns|, world(|s.turns|).runtime.value.calls;
            && (IsBootstrapAt(setup, world, n) <==> DecisionOf(setup, s).Bootstrap? && calls == Some([]))
            && (IsBootstrapAt(setup, world, n) ==> n == 0)
            && (IsDomainAt(policy, setup, world, n) <==>
                  !IsBootstrapAt(setup, world, n) && AreCallsAdmitted(policy, s, calls))
            && (IsDomainAt(policy, setup, world, n) ==> calls.Some?)
  {
    hide IsHead, CannotInvoke, DecisionOf, IsSubmissionAt, CallsBefore;
    HeadIs(policy, setup, world, s);
    PreparedExactly(policy, setup, world, s);
  }

  lemma FailedTransport(policy: Policy, setup: Setup, world: World, s: State, t: State)
    requires IsHead(policy, setup, world, s) && IsInvoked(world, s, t)
    requires world(|s.turns|).runtime.Some? && !IsTransported(world(|s.turns|))
    requires !CannotInvoke(policy, setup, world, |s.turns|) && t.artifactBytes <= MAXIMUM_SAFE_INTEGER
    ensures var w := world(|s.turns|);
            var status := if w.runtime.value.status.Completed? then SchemaFailed else w.runtime.value.status;
            IsPlayed(policy, setup, world, s, End(t, w, TurnOf(t, w, true, status)))
  {
    hide IsHead, CannotInvoke, CannotAnswer, ProviderBytes, BytesBefore, IsSubmissionAt, IsBootstrapAt, IsPlayed;
    HeadIs(policy, setup, world, s);
    var w := world(|s.turns|);
    EndIsPlayed(policy, setup, world, s, t,
                TurnOf(t, w, true, if w.runtime.value.status.Completed? then SchemaFailed else w.runtime.value.status));
  }

  lemma Unadmitted(policy: Policy, setup: Setup, world: World, s: State, t: State)
    requires IsHead(policy, setup, world, s) && IsInvoked(world, s, t) && s.phase.DomainTools?
    requires IsTransported(world(|s.turns|)) && !IsDomainAt(policy, setup, world, |s.turns|)
    requires !IsBootstrapAt(setup, world, |s.turns|)
    requires !CannotInvoke(policy, setup, world, |s.turns|) && t.artifactBytes <= MAXIMUM_SAFE_INTEGER
    ensures var w := world(|s.turns|); IsPlayed(policy, setup, world, s, End(t, w, TurnOf(t, w, true, SchemaFailed)))
  {
    hide IsHead, CannotInvoke, CannotAnswer, ProviderBytes, BytesBefore, IsSubmissionAt, IsBootstrapAt, IsPlayed, IsAdmittedAt;
    HeadIs(policy, setup, world, s);
    var w := world(|s.turns|);
    EndIsPlayed(policy, setup, world, s, t, TurnOf(t, w, true, SchemaFailed));
  }

  // ---------------------------------------------------------------------------
  // Every run
  // ---------------------------------------------------------------------------

  /** A run goes through the turns that go on, and ends in the first that fails or does not. */
  ghost predicate IsRunOf(policy: Policy, setup: Setup, world: World, step: Step) {
    match step
    case Continue(t) => false
    case Throw(t) =>
      var n := |t.turns|;
      && (forall i :: 0 <= i < n ==> GoesOn(policy, setup, world, i) && !Fails(policy, setup, world, i) &&
                                     IsRecorded(policy, setup, world, i, t.turns[i], false, Completed))
      && (n >= policy.maximumTurns || Fails(policy, setup, world, n))
    case Return(t, status) =>
      |t.turns| > 0 &&
      var n := |t.turns| - 1;
      && n < policy.maximumTurns
      && (forall i :: 0 <= i < n ==> GoesOn(policy, setup, world, i) && !Fails(policy, setup, world, i) &&
                                     IsRecorded(policy, setup, world, i, t.turns[i], false, Completed))
      && !Fails(policy, setup, world, n) && !GoesOn(policy, setup, world, n)
      && EndsAs(policy, setup, world, n, status) && IsRecorded(policy, setup, world, n, t.turns[n], true, status)
      && var m := if IsDomainAt(policy, setup, world, n) then n + 1 else n;
         t.repairRounds == RepairsBefore(world, m) && t.controlledBytes == BytesBefore(world, m)
  }

  lemma HeadsGoOn(policy: Policy, setup: Setup, world: World, s: State)
    requires IsHead(policy, setup, world, s)
    ensures forall i :: 0 <= i < |s.turns| ==>
              GoesOn(policy, setup, world, i) && !Fails(policy, setup, world, i) &&
              IsRecorded(policy, setup, world, i, s.turns[i], false, Completed)
  {
    hide GoesOn, Fails, IsRecorded;
  }

  lemma EndOfRun(policy: Policy, setup: Setup, world: World, s: State, step: Step)
    requires IsHead(policy, setup, world, s) && IsPlayed(policy, setup, world, s, step) && !step.Continue?
    requires |s.turns| < policy.maximumTurns
    ensures IsRunOf(policy, setup, world, step)
  {
    hide GoesOn, Fails, IsRecorded, IsHead, EndsAs, IsDomainAt;
    HeadsGoOn(policy, setup, world, s);
    if step.Return? {
      assert forall i :: 0 <= i < |s.turns| ==> step.state.turns[i] == step.state.turns[..|s.turns|][i];
    }
  }

  lemma {:induction false} RunFromHead(policy: Policy, setup: Setup, world: World, s: State)
    requires IsHead(policy, setup, world, s)
    ensures IsRunOf(policy, setup, world, RunFrom(policy, setup, world, s))
    decreases policy.maximumTurns - |s.turns|
  {
    hide IsHead, PlayTurn, IsRunOf;
    if |s.turns| >= policy.maximumTurns {
      PastTheLast(policy, setup, world, s);
    } else {
      var step := PlayTurn(policy, setup, s, world(|s.turns|));
      TurnIsPlayed(policy, setup, world, s);
      if step.Continue? {
        RunFromHead(policy, setup, world, step.state);
      } else {
        EndOfRun(policy, setup, world, s, step);
      }
    }
  }

  lemma PastTheLast(policy: Policy, setup: Setup, world: World, s: State)
    requires IsHead(policy, setup, world, s) && |s.turns| >= policy.maximumTurns
    ensures IsRunOf(policy, setup, world, Throw(s))
  {
    hide GoesOn, Fails, IsRecorded, IsHead;
    HeadsGoOn(policy, setup, world, s);
  }

  lemma FirstHead(policy: Policy, setup: Setup, world: World)
    ensures IsHead(policy, setup, world, INITIAL)
  {
  }

  /** The loop does what its world says, turn by turn: it records every turn it plays, goes
      on from a turn exactly when that turn goes on, and ends where a turn fails or ends it. */
  lemma RunsAreTheWorlds(policy: Policy, setup: Setup, world: World)
    ensures IsRunOf(policy, setup, world, RunFrom(policy, setup, world, INITIAL))
  {
    hide IsHead, RunFrom, IsRunOf;
    FirstHead(policy, setup, world);
    RunFromHead(policy, setup, world, INITIAL);
  }

  /** The status is the one due in the last turn: that of a transport that was not
      completed; completed for a submission in order and for a first turn that prepared no
      source; blocked or failed for the first capability answer that is no support, unless a
      ceiling was passed; and schema-failed otherwise. */
  ghost predicate IsDue(policy: Policy, setup: Setup, world: World, n: nat, phase: Phase, bounded: bool, status: Status) {
    var w, calls := world(n), CallsAt(world, n);
    var running := phase.DomainTools? && IsAdmittedAt(policy, world, n) && bounded;
    && w.runtime.Some?
    && (!IsTransported(w) ==> status == if w.runtime.value.status.Completed? then SchemaFailed else w.runtime.value.status)
    && (IsTransported(w) ==>
          && (status.Blocked? <==> running && FirstRefusal(calls, w, |calls|, Unsupported))
          && (status.InfrastructureError? <==> running && FirstRefusal(calls, w, |calls|, Failing))
          && (status.Completed? <==>
                || (phase.ResultSubmission? && w.runtime.value.calls == Some([ResultSubmit]) && w.submissionValid && w.assessed)
                || (IsBootstrapAt(setup, world, n) && w.finalization.Some? && !w.finalization.value.showsSource))
          && (status.Blocked? || status.InfrastructureError? || status.Completed? || status.SchemaFailed?))
  }

  lemma OnlyOneRefusal(calls: seq<Call>, w: TurnWorld, n: nat)
    requires n <= |calls|
    ensures !(FirstRefusal(calls, w, n, Unsupported) && FirstRefusal(calls, w, n, Failing))
  {
  }

  lemma LastIsDue(policy: Policy, setup: Setup, world: World, n: nat, turn: Turn, bounded: bool, status: Status)
    requires !Fails(policy, setup, world, n) && EndsAs(policy, setup, world, n, status)
    requires IsRecorded(policy, setup, world, n, turn, true, status)
    requires IsDomainAt(policy, setup, world, n) ==> (bounded <==> IsWithinCeilings(policy, world, n))
    ensures IsDue(policy, setup, world, n, turn.phase, bounded, status)
  {
    hide FirstRefusal, IsWithinCeilings, AreExecutions, CannotAnswer, CannotInvoke, HasRefusal, IsSubmissionAt;
    OnlyOneRefusal(CallsAt(world, n), world(n), |CallsAt(world, n)|);
    if IsSubmissionAt(policy, setup, world, n) {
      SubmissionIsLater(policy, setup, world, n);
    }
  }

  /** Every run that returns does so with the status due in its last turn, its ceilings kept
      or passed as its counters say. */
  lemma FinalStatusExactly(policy: Policy, setup: Setup, world: World)
    requires RunFrom(policy, setup, world, INITIAL).Return?
    ensures var r := RunFrom(policy, setup, world, INITIAL);
            |r.state.turns| > 0 &&
            var n := |r.state.turns| - 1;
            var bounded := r.state.repairRounds <= policy.maximumRepairRounds &&
                           r.state.controlledBytes <= policy.maximumArtifactBytes;
            IsDue(policy, setup, world, n, r.state.turns[n].phase, bounded, r.finalStatus)
  {
    hide RunFrom, Fails, EndsAs, IsRecorded, GoesOn, IsDomainAt, IsDue;
    var r := RunFrom(policy, setup, world, INITIAL);
    RunsAreTheWorlds(policy, setup, world);
    var n := |r.state.turns| - 1;
    var bounded := r.state.repairRounds <= policy.maximumRepairRounds && r.state.controlledBytes <= policy.maximumArtifactBytes;
    LastIsDue(policy, setup, world, n, r.state.turns[n], bounded, r.finalStatus);
  }
}