/** What a run of the loop counted, against what its final assessment counts over the
    durable seals. */
module RunTotals {
  import opened Wrappers
  import opened Json
  import opened AgentTurnLoop
  import opened LoopSafety
  import opened ToolService
  import opened ServedRuns
  import opened FinalReceipts
  import Checkpoints
  import WorkspaceRuntime

  // ---------------------------------------------------------------------------
  // The outputs of a run
  // ---------------------------------------------------------------------------

  /** The loop reads its numbers off the receipt. */
  predicate IsReadOff(e: Execution) {
    && e.artifactBytes == Total(Bytes, e.receipt.artifacts)
    && e.transactions == |e.receipt.transactionReceipts|
    && (e.hasClosure <==> exists a :: a in e.receipt.artifacts && a.kind.VerificationClosure?)
  }

  predicate AreReadOff(outputs: seq<Execution>) {
    forall e :: e in outputs ==> IsReadOff(e)
  }

  lemma ServedIsReadOff(v: Service, x: Option<Execution>)
    requires IsServed(v, x) && x.Some?
    ensures IsReadOff(x.value)
  {
    hide Total;
  }

  lemma {:induction false} OutputsAreReadOff(calls: seq<Call>, w: TurnWorld, n: nat)
    requires n <= |calls| && ControlledOutputs(calls, w, n).Some?
    requires forall i: nat :: w.controlled(i).Some? ==> IsReadOff(w.controlled(i).value)
    ensures AreReadOff(ControlledOutputs(calls, w, n).value)
    decreases n
  {
    hide IsReadOff;
    if n > 0 {
      OutputsAreReadOff(calls, w, n - 1);
    }
  }

  lemma BookingKeepsReadOff(policy: Policy, s: State, w: TurnWorld, executions: seq<Execution>, outcomes: seq<Outcome>)
    requires AreReadOff(s.toolOutputs) && AreReadOff(executions) && w.runtime.Some?
    ensures AreReadOff(CloseDomain(policy, s, w, executions, outcomes).state.toolOutputs)
  {
    hide IsReadOff, BytesOf, FirstUnsupported, SomeRejected, SomeClosure;
  }

  lemma TurnKeepsReadOff(policy: Policy, setup: Setup, s: State, w: TurnWorld)
    requires AreReadOff(s.toolOutputs)
    requires forall i: nat :: w.controlled(i).Some? ==> IsReadOff(w.controlled(i).value)
    ensures AreReadOff(PlayTurn(policy, setup, s, w).state.toolOutputs)
  {
    hide IsReadOff, CloseDomain, ControlledOutputs, CapabilityOutputs, MayRunCapabilities, IsPrepared;
    if w.runtime.Some? && w.runtime.value.calls.Some? {
      var calls := w.runtime.value.calls.value;
      var executions, outcomes := ControlledOutputs(calls, w, |calls|), CapabilityOutputs(calls, w, |calls|);
      if executions.Some? && outcomes.Some? {
        OutputsAreReadOff(calls, w, |calls|);
        forall t: State | t.toolOutputs == s.toolOutputs
          ensures AreReadOff(CloseDomain(policy, t, w, executions.value, outcomes.value).state.toolOutputs)
        {
          BookingKeepsReadOff(policy, t, w, executions.value, outcomes.value);
        }
      }
    }
  }

  /** A turn that does not come to its calls adds no outputs. */
  lemma WithoutCallsNothingIsAdded(policy: Policy, setup: Setup, s: State, w: TurnWorld)
    requires !ReachesCalls(policy, setup, s, w)
    ensures PlayTurn(policy, setup, s, w).state.toolOutputs == s.toolOutputs
  {
    hide CloseDomain, ControlledOutputs, CapabilityOutputs, MayRunCapabilities, IsPrepared;
  }

  lemma ServedTurnKeepsReadOff(policy: Policy, setup: Setup, v: Service, s: State, w: TurnWorld, log: Log)
    requires AreReadOff(s.toolOutputs)
    ensures AreReadOff(PlayServed(policy, setup, v, s, w, log).0.state.toolOutputs)
  {
    hide IsReadOff, PlayTurn, Serve, Assesses, ReachesCalls, IsServed;
    if ReachesCalls(policy, setup, s, w) {
      CallsAreThere(policy, setup, s, w);
      var calls := w.runtime.value.calls.value;
      var answers := Serve(v, log, |s.turns|, calls, |calls|).answers;
      ServedAnswers(v, log, |s.turns|, calls, |calls|);
      forall i: nat | Answering(w, answers).controlled(i).Some?
        ensures IsReadOff(Answering(w, answers).controlled(i).value)
      {
        assert answers[i] in answers;
        ServedIsReadOff(v, answers[i]);
      }
      TurnKeepsReadOff(policy, setup, s, Answering(w, answers));
    } else {
      SameReach(policy, setup, v, s, w, log);
      WithoutCallsNothingIsAdded(policy, setup, s, Assessing(v, s, w, log));
    }
  }

  lemma CallsAreThere(policy: Policy, setup: Setup, s: State, w: TurnWorld)
    requires ReachesCalls(policy, setup, s, w)
    ensures w.runtime.Some? && w.runtime.value.calls.Some?
  {
  }

  lemma SameReach(policy: Policy, setup: Setup, v: Service, s: State, w: TurnWorld, log: Log)
    ensures ReachesCalls(policy, setup, s, Assessing(v, s, w, log)) == ReachesCalls(policy, setup, s, w)
  {
    hide Assesses;
  }

  lemma {:induction false} RunKeepsReadOff(policy: Policy, setup: Setup, v: Service, world: World, s: State, log: Log)
    requires AreReadOff(s.toolOutputs)
    ensures AreReadOff(RunServed(policy, setup, v, world, s, log).0.state.toolOutputs)
    decreases policy.maximumTurns - |s.turns|
  {
    hide AreReadOff, PlayServed;
    if |s.turns| < policy.maximumTurns {
      var (step, after) := PlayServed(policy, setup, v, s, world(|s.turns|), log);
      ServedTurnKeepsReadOff(policy, setup, v, s, world(|s.turns|), log);
      if step.Continue? && |step.state.turns| > |s.turns| {
        RunKeepsReadOff(policy, setup, v, world, step.state, after);
      }
    }
  }

  // ---------------------------------------------------------------------------
  // The last turn of a run that submits
  // ---------------------------------------------------------------------------

  /** A run that submits was assessed over all its seals and all its own outputs. */
  lemma {:induction false} SubmittingRunWasAssessed(policy: Policy, setup: Setup, v: Service, world: World, s: State, log: Log)
    returns (last: State)
    requires Submits(RunServed(policy, setup, v, world, s, log).0)
    ensures var (run, seals) := RunServed(policy, setup, v, world, s, log);
            Assesses(v, last, seals) && last.toolOutputs == run.state.toolOutputs
    decreases policy.maximumTurns - |s.turns|
  {
    hide PlayServed, Assesses, Submits;
    last := s;
    SubmitsReturns(RunServed(policy, setup, v, world, s, log).0);
    var (step, after) := PlayServed(policy, setup, v, s, world(|s.turns|), log);
    if step.Continue? && |step.state.turns| > |s.turns| {
      last := SubmittingRunWasAssessed(policy, setup, v, world, step.state, after);
    } else {
      SubmittedWasAssessed(policy, setup, v, s, world(|s.turns|), log);
    }
  }

  lemma SubmitsReturns(step: Step)
    requires Submits(step)
    ensures step.Return?
  {
  }

  // ---------------------------------------------------------------------------
  // Totals
  // ---------------------------------------------------------------------------

  function ReceiptBytes(r: ToolReceipt): nat { Total(Bytes, r.artifacts) }

  function TransactionsOf(outputs: seq<Execution>): nat {
    if outputs == [] then 0 else TransactionsOf(outputs[..|outputs| - 1]) + outputs[|outputs| - 1].transactions
  }

  lemma SubmittedOfMore(outputs: seq<Execution>)
    requires outputs != []
    ensures Submitted(outputs) == Submitted(outputs[..|outputs| - 1]) + [outputs[|outputs| - 1].receipt]
  {
  }

  lemma TotalOfOne<T>(amount: T -> nat, x: T)
    ensures Total(amount, [x]) == amount(x)
  {
    assert [x][1..] == [];
  }

  /** What the outputs amount to is what their receipts do. */
  lemma {:induction false} OutputsAmountToReceipts(outputs: seq<Execution>)
    requires AreReadOff(outputs)
    ensures Total(ReceiptBytes, Submitted(outputs)) == BytesOf(outputs)
    ensures Total(Transactions, Submitted(outputs)) == TransactionsOf(outputs)
    decreases |outputs|
  {
    hide Total, IsReadOff;
    if outputs == [] {
      NothingTotals();
    } else {
      var before, last := outputs[..|outputs| - 1], outputs[|outputs| - 1];
      OutputsAmountToReceipts(before);
      SubmittedOfMore(outputs);
      TotalOfConcatenation(ReceiptBytes, Submitted(before), [last.receipt]);
      TotalOfConcatenation(Transactions, Submitted(before), [last.receipt]);
      TotalOfOne(ReceiptBytes, last.receipt);
      TotalOfOne(Transactions, last.receipt);
      ReadOffAmounts(last);
    }
  }

  lemma NothingTotals()
    ensures Submitted([]) == [] && Total(ReceiptBytes, []) == 0 && Total(Transactions, []) == 0
    ensures BytesOf([]) == 0 && TransactionsOf([]) == 0
  {
  }

  lemma ReadOffAmounts(e: Execution)
    requires IsReadOff(e)
    ensures ReceiptBytes(e.receipt) == e.artifactBytes && Transactions(e.receipt) == e.transactions
  {
  }

  lemma {:induction false} SealedBytesAreReceipts(seals: seq<StoredSeal>)
    ensures Total(ReceiptBytes, ReceiptsOf(seals)) == Total(SealedBytes, seals)
  {
    if seals != [] {
      SealedBytesAreReceipts(seals[1..]);
      assert ReceiptsOf(seals)[1..] == ReceiptsOf(seals[1..]);
    }
  }

  /** Counts conserved over the seals are those of the outputs that were submitted. */
  lemma SubmittedTotals(seals: seq<StoredSeal>, outputs: seq<Execution>, a: Assessment)
    requires AreReadOff(outputs) && SortBy(Digests, ReceiptsOf(seals)) == SortBy(Digests, Submitted(outputs))
    requires IsConserved(seals, a)
    ensures a.toolCallCount == |outputs|
    ensures a.transactionCount == TransactionsOf(outputs)
    ensures a.artifactBytes == BytesOf(outputs)
  {
    hide Total, SortBy, IsReadOff;
    SortedComparisonConserves(Digests, ReceiptBytes, ReceiptsOf(seals), Submitted(outputs));
    SortedComparisonConserves(Digests, Transactions, ReceiptsOf(seals), Submitted(outputs));
    SealedBytesAreReceipts(seals);
    ReceiptTotals(seals);
    OutputsAmountToReceipts(outputs);
  }

  /** Some call closed the verification: the assessment found the closure among the
      artifacts of the run's own receipts. */
  lemma ClosureWasMade(key: Artifact -> nat, seals: seq<StoredSeal>, outputs: seq<Execution>, resolved: seq<Artifact>,
                       claim: ArtifactClaim)
    requires AreReadOff(outputs) && IsSubmissionDurable(key, seals, Submitted(outputs), resolved)
    requires IsResolved(resolved, Checkpoints.VerificationClosure, claim)
    ensures SomeClosure(outputs)
  {
    hide SortBy, Total;
    SortKeepsAll(key, ArtifactsOf(seals));
    SortKeepsAll(key, resolved);
    SortKeepsAll(Digests, ReceiptsOf(seals));
    SortKeepsAll(Digests, Submitted(outputs));
    var a :| a in resolved && a.kind.VerificationClosure?;
    assert a in multiset(resolved);
    assert a in multiset(ArtifactsOf(seals));
    var i := ArtifactIsInAReceipt(seals, a);
    var receipt := seals[i].receipt;
    assert ReceiptsOf(seals)[i] == receipt;
    assert receipt in multiset(ReceiptsOf(seals));
    assert receipt in multiset(Submitted(outputs));
    var j :| 0 <= j < |outputs| && Submitted(outputs)[j] == receipt;
    assert outputs[j] in outputs && IsReadOff(outputs[j]);
  }

  lemma {:induction false} ArtifactIsInAReceipt(seals: seq<StoredSeal>, a: Artifact) returns (i: nat)
    requires a in ArtifactsOf(seals)
    ensures i < |seals| && a in seals[i].receipt.artifacts
  {
    if a in seals[0].receipt.artifacts {
      i := 0;
    } else {
      i := ArtifactIsInAReceipt(seals[1..], a);
      i := i + 1;
    }
  }

  /** A run that submits and its assessment tell the same: the calls, transactions and
      persisted bytes the loop counted are those assessed over the durable seals, and one
      of its calls closed the verification. */
  lemma AssessmentTellsTheRun(policy: Policy, setup: Setup, v: Service, world: World, log: Log, a: Assessment)
    requires Submits(RunServed(policy, setup, v, world, INITIAL, log).0)
    requires IsConserved(StoredSeals(v, RunServed(policy, setup, v, world, INITIAL, log).1), a)
    ensures var s := RunServed(policy, setup, v, world, INITIAL, log).0.state;
            && a.toolCallCount == |s.toolOutputs|
            && a.transactionCount == TransactionsOf(s.toolOutputs)
            && a.artifactBytes == BytesOf(s.toolOutputs) == s.controlledBytes
            && SomeClosure(s.toolOutputs)
  {
    hide RunServed, IsConserved, AreReadOff, BytesOf, TransactionsOf, SomeClosure, IsServed, RunFrom, IsCounted, StoredSeals;
    var (run, seals) := RunServed(policy, setup, v, world, INITIAL, log);
    assert AreReadOff(INITIAL.toolOutputs) by { NothingIsReadOff(); }
    RunKeepsReadOff(policy, setup, v, world, INITIAL, log);
    var last := SubmittingRunWasAssessed(policy, setup, v, world, INITIAL, log);
    AssessedIsDurable(v, last, seals);
    SubmittedTotals(StoredSeals(v, seals), run.state.toolOutputs, a);
    var answered := ServedRunIsARun(policy, setup, v, world, INITIAL, log);
    InitialIsCounted(answered);
    BytesAreConserved(policy, setup, answered, INITIAL);
    SubmitsReturns(run);
    CountedBytes(answered, run.state);
  }

  lemma NothingIsReadOff()
    ensures AreReadOff([])
  {
  }

  lemma InitialIsCounted(world: World)
    ensures IsCounted(world, INITIAL)
  {
  }

  lemma CountedBytes(world: World, s: State)
    requires IsCounted(world, s)
    ensures s.controlledBytes == BytesOf(s.toolOutputs)
  {
  }

  lemma AssessedIsDurable(v: Service, s: State, log: Log)
    requires Assesses(v, s, log) && AreReadOff(s.toolOutputs)
    ensures SortBy(Digests, ReceiptsOf(StoredSeals(v, log))) == SortBy(Digests, Submitted(s.toolOutputs))
    ensures SomeClosure(s.toolOutputs)
  {
    hide StoredSeals, AreReadOff, SortBy, SomeClosure, Submitted, WorkspaceRuntime.IsPreviewAsRequired;
    var final := v.final(|s.turns|, log);
    var input := final.input;
    var resolved := WorkspaceRuntime.ResolvedOf(final.replies.resolve, |input.artifacts|);
    ClosureIsResolved(v.ws.initial.base.snapshot, Head(v.ws, log), StoredSeals(v, log), resolved, input.submission,
                      final.replies.authority.value);
    ClosureWasMade(input.artifactKey, StoredSeals(v, log), s.toolOutputs, resolved, final.replies.authority.value.closure);
  }

  lemma ClosureIsResolved(base: Checkpoints.Digest, current: Checkpoints.Checkpoint, seals: seq<StoredSeal>,
                          resolved: seq<Artifact>, submission: Submission, authority: FinalAuthority)
    requires IsFinalAuthority(base, current, seals, resolved, submission, authority)
    ensures IsResolved(resolved, Checkpoints.VerificationClosure, authority.closure)
  {
  }
}
