/** The turn loop with the controlled tools behind it: a controlled call is answered from the
    attempt's own seals or by its owner, at the checkpoint the calls before it led to. */
module ServedRuns {
  import opened Wrappers
  import opened Json
  import opened AgentTurnLoop
  import opened ToolService
  import Checkpoints
  import FinalReceipts
  import WorkspaceRuntime

  /** What the provider submits in a turn, and what the session answers its assessment. */
  datatype Final = Final(input: WorkspaceRuntime.FinalInput, replies: WorkspaceRuntime.FinalReplies)

  /** The identity of call `i` of turn `t`, the digest of a receipt by the operation and the
      answer it is for, the artifacts an effect persists, and the final assessment. */
  datatype Service = Service(
    ws: Workspace,
    toolCall: (nat, nat) -> Checkpoints.ToolCall,
    receiptDigest: (Checkpoints.Digest, Answer) -> Checkpoints.Digest,
    artifacts: Checkpoints.Effect -> seq<FinalReceipts.Artifact>,
    final: (nat, Log) -> Final)

  /** The receipt of a call; a rejection by the preflight persists nothing. */
  function ReceiptOf(v: Service, operation: Checkpoints.Digest, call: Checkpoints.ToolCall, answer: Answer): FinalReceipts.ToolReceipt {
    var digest := v.receiptDigest(operation, answer);
    match answer
    case Rejection => FinalReceipts.ToolReceipt(digest, call.turnIndex, [], [], [])
    case Effected(a) =>
      FinalReceipts.ToolReceipt(digest, call.turnIndex, v.artifacts(a.effect), a.effect.commandReceipts,
                                a.effect.transactionReceipts)
  }

  predicate HoldsClosure(artifacts: seq<FinalReceipts.Artifact>) {
    exists a :: a in artifacts && a.kind.VerificationClosure?
  }

  /** What the loop reads of an answer given at a checkpoint. */
  function ExecutionOf(v: Service, current: Checkpoints.Checkpoint, call: Checkpoints.ToolCall, answer: Answer): Execution {
    var receipt := ReceiptOf(v, OperationOf(v.ws, current, call), call, answer);
    Execution(answer.Rejection? || !answer.accepted.effect.succeeded,
              FinalReceipts.Total(FinalReceipts.Bytes, receipt.artifacts), |receipt.transactionReceipts|,
              HoldsClosure(receipt.artifacts), receipt)
  }

  /** The loop reads of an answer what the runtime's output holds: a rejection by either
      side, and the effect's own receipts and artifacts. */
  lemma ExecutionTellsTheOutput(v: Service, current: Checkpoints.Checkpoint, call: Checkpoints.ToolCall, answer: Answer)
    ensures var output := OutputOf(OperationOf(v.ws, current, call), answer);
            var e := ExecutionOf(v, current, call, answer);
            && e.receipt.turnIndex == call.turnIndex
            && (e.rejected <==> output.RejectedOutput? || !output.effect.succeeded)
            && (output.RejectedOutput? ==>
                  && e.receipt.artifacts == [] && e.receipt.commandReceipts == [] && e.receipt.transactionReceipts == []
                  && e.artifactBytes == 0 && !e.hasClosure)
            && (output.EffectOutput? ==>
                  && e.receipt.artifacts == v.artifacts(output.effect)
                  && e.receipt.commandReceipts == output.effect.commandReceipts
                  && e.receipt.transactionReceipts == output.effect.transactionReceipts)
  {
  }

  // ---------------------------------------------------------------------------
  // The final assessment
  // ---------------------------------------------------------------------------

  function StoredSealAt(v: Service, log: Log, i: nat): FinalReceipts.StoredSeal
    requires i < |log|
  {
    var answer := log[i].answer;
    FinalReceipts.StoredSeal(ReceiptOf(v, OperationAt(v.ws, log, i), log[i].call, answer),
                             if answer.Effected? then Some(answer.accepted.effect) else None)
  }

  /** The durable seals of the attempt, as the ledger lists them. */
  function StoredSeals(v: Service, log: Log): seq<FinalReceipts.StoredSeal> {
    seq(|log|, i requires 0 <= i < |log| => StoredSealAt(v, log, i))
  }

  function Submitted(outputs: seq<Execution>): seq<FinalReceipts.ToolReceipt> {
    seq(|outputs|, i requires 0 <= i < |outputs| => outputs[i].receipt)
  }

  /** The assessment is given every durable seal, and the receipts of the run's own calls. */
  ghost predicate Assesses(v: Service, s: State, log: Log) {
    var final := v.final(|s.turns|, log);
    WorkspaceRuntime.IsAssessable(v.ws.initial.base.snapshot, Head(v.ws, log),
                                  final.input.(toolReceipts := Submitted(s.toolOutputs)),
                                  final.replies.(seals := WorkspaceRuntime.Replied(StoredSeals(v, log))))
  }

  // ---------------------------------------------------------------------------
  // One turn
  // ---------------------------------------------------------------------------

  /** The turn comes to its controlled calls. */
  predicate ReachesCalls(policy: Policy, setup: Setup, s: State, w: TurnWorld) {
    && IsPrepared(setup, s, w) && w.runtime.Some? && s.phase.DomainTools?
    && var runtime := w.runtime.value;
    && s.artifactBytes + runtime.artifactBytes <= MAXIMUM_SAFE_INTEGER
    && runtime.status.Completed? && runtime.terminalEventCompleted
    && AreCallsAdmitted(policy, s, runtime.calls) && Unowned !in runtime.calls.value
    && if SharedEffect in runtime.calls.value then runtime.calls.value == [SharedEffect] else w.finalization.Some?
  }

  /** The answers given so far in a turn, call by call, and the seals after them. */
  datatype Tally = Tally(answers: seq<Option<Execution>>, log: Log, failed: bool)

  /** Serves the controlled ones among the first `n` calls in order, until one fails. */
  function Serve(v: Service, log: Log, t: nat, calls: seq<Call>, n: nat): (r: Tally)
    requires n <= |calls|
    ensures |r.answers| == n
  {
    if n == 0 then Tally([], log, false)
    else
      var before := Serve(v, log, t, calls, n - 1);
      if before.failed || !calls[n - 1].Controlled? then before.(answers := before.answers + [None])
      else
        var call := v.toolCall(t, n - 1);
        var (answer, after) := Ask(v.ws, before.log, call);
        var execution := if answer.Some? then Some(ExecutionOf(v, Head(v.ws, before.log), call, answer.value)) else None;
        Tally(before.answers + [execution], after, answer.None?)
  }

  function FromList(answers: seq<Option<Execution>>): nat -> Option<Execution> {
    (i: nat) => if i < |answers| then answers[i] else None
  }

  function Answering(w: TurnWorld, answers: seq<Option<Execution>>): TurnWorld {
    w.(controlled := FromList(answers))
  }

  /** A turn whose calls are served or whose submission is assessed, and the seals after it. */
  ghost function PlayServed(policy: Policy, setup: Setup, v: Service, s: State, w: TurnWorld, log: Log): (Step, Log) {
    if ReachesCalls(policy, setup, s, w) then
      var calls := w.runtime.value.calls.value;
      var tally := Serve(v, log, |s.turns|, calls, |calls|);
      (PlayTurn(policy, setup, s, Answering(w, tally.answers)), tally.log)
    else (PlayTurn(policy, setup, s, Assessing(v, s, w, log)), log)
  }

  /** The assessment returns when everything is in order and its cleanup succeeds. */
  ghost function Assessing(v: Service, s: State, w: TurnWorld, log: Log): TurnWorld {
    w.(assessed := w.assessed && Assesses(v, s, log))
  }

  ghost function RunServed(policy: Policy, setup: Setup, v: Service, world: World, s: State, log: Log): (Step, Log)
    decreases policy.maximumTurns - |s.turns|
  {
    if |s.turns| >= policy.maximumTurns then (Throw(s), log)
    else
      var (step, after) := PlayServed(policy, setup, v, s, world(|s.turns|), log);
      if step.Continue? && |step.state.turns| > |s.turns| then RunServed(policy, setup, v, world, step.state, after)
      else (step, after)
  }

  lemma PreparedWhateverAnswered(setup: Setup, s: State, w: TurnWorld, controlled: nat -> Option<Execution>)
    ensures IsPrepared(setup, s, w.(controlled := controlled)) == IsPrepared(setup, s, w)
  {
  }

  lemma PreparedWhateverAssessed(setup: Setup, s: State, w: TurnWorld, assessed: bool)
    ensures IsPrepared(setup, s, w.(assessed := assessed)) == IsPrepared(setup, s, w)
  {
  }

  // ---------------------------------------------------------------------------
  // What a run sees of the service
  // ---------------------------------------------------------------------------

  lemma {:induction false} ServeDependsOnHead(v: Service, a: Log, b: Log, t: nat, calls: seq<Call>, n: nat)
    requires IsWorkspace(v.ws) && IsLog(v.ws, a) && IsLog(v.ws, b) && Head(v.ws, a) == Head(v.ws, b) && n <= |calls|
    ensures var x, y := Serve(v, a, t, calls, n), Serve(v, b, t, calls, n);
            && x.answers == y.answers && x.failed == y.failed
            && IsLog(v.ws, x.log) && IsLog(v.ws, y.log) && Head(v.ws, x.log) == Head(v.ws, y.log)
  {
    hide IsWorkspace, IsLog, Head, Ask;
    if n > 0 {
      ServeDependsOnHead(v, a, b, t, calls, n - 1);
      AskIsTheOwners(v.ws, Serve(v, a, t, calls, n - 1).log, v.toolCall(t, n - 1));
      AskIsTheOwners(v.ws, Serve(v, b, t, calls, n - 1).log, v.toolCall(t, n - 1));
    }
  }

  /** The run ends with an assessed submission. */
  predicate Submits(step: Step) {
    step.Return? && step.state.turns != [] && step.state.turns[|step.state.turns| - 1].hasSubmission
  }

  /** One run submits, and the other errs in its place because the assessment refuses. */
  predicate IsRefusedSubmission(submitted: Step, refused: Step) {
    && Submits(submitted) && submitted.finalStatus.Completed? && refused.Throw?
    && refused.state == submitted.state.(turns := submitted.state.turns[..|submitted.state.turns| - 1])
  }

  predicate AreSameUntilAssessed(x: Step, y: Step) {
    x == y || IsRefusedSubmission(x, y) || IsRefusedSubmission(y, x)
  }

  lemma EndDoesNotAssess(s: State, w: TurnWorld, turn: Turn, a: bool)
    ensures End(s, w.(assessed := a), turn) == End(s, w, turn) && !End(s, w, turn).Continue?
    ensures !turn.hasSubmission ==> !Submits(End(s, w, turn))
  {
  }

  lemma BookingDoesNotAssess(policy: Policy, s: State, w: TurnWorld, a: bool, executions: seq<Execution>, outcomes: seq<Outcome>)
    requires w.runtime.Some?
    ensures CloseDomain(policy, s, w.(assessed := a), executions, outcomes) == CloseDomain(policy, s, w, executions, outcomes)
    ensures !Submits(CloseDomain(policy, s, w, executions, outcomes))
  {
    hide BytesOf, FirstUnsupported, SomeRejected, SomeClosure;
  }

  lemma DomainDoesNotAssess(policy: Policy, setup: Setup, s: State, w: TurnWorld, a: bool)
    requires w.runtime.Some? && w.runtime.value.calls.Some?
    ensures PlayDomain(policy, setup, s, w.(assessed := a)) == PlayDomain(policy, setup, s, w)
    ensures !Submits(PlayDomain(policy, setup, s, w))
  {
    var calls := w.runtime.value.calls.value;
    OutputsDoNotAssess(calls, w, a, |calls|);
    MayRunWhateverAssessed(setup, s, w, a, calls);
    hide CloseDomain, ControlledOutputs, CapabilityOutputs, MayRunCapabilities, BytesOf;
    var executions, outcomes := ControlledOutputs(calls, w, |calls|), CapabilityOutputs(calls, w, |calls|);
    if executions.Some? && outcomes.Some? {
      var t := Finalized(s);
      BookingDoesNotAssess(policy, t, w, a, executions.value, outcomes.value);
      BookingDoesNotAssess(policy, t.(shared := s.shared + [|s.turns|]), w, a, executions.value, outcomes.value);
    }
  }

  lemma MayRunWhateverAssessed(setup: Setup, s: State, w: TurnWorld, a: bool, calls: seq<Call>)
    ensures MayRunCapabilities(setup, s, w.(assessed := a), calls) == MayRunCapabilities(setup, s, w, calls)
  {
  }

  lemma {:induction false} OutputsDoNotAssess(calls: seq<Call>, w: TurnWorld, a: bool, n: nat)
    requires n <= |calls|
    ensures ControlledOutputs(calls, w.(assessed := a), n) == ControlledOutputs(calls, w, n)
    ensures CapabilityOutputs(calls, w.(assessed := a), n) == CapabilityOutputs(calls, w, n)
    decreases n
  {
    if n > 0 {
      OutputsDoNotAssess(calls, w, a, n - 1);
    }
  }

  /** A turn meets its assessment only when it submits, and submits only when that returns. */
  lemma AssessmentDecides(policy: Policy, setup: Setup, s: State, w: TurnWorld, a: bool)
    ensures AreSameUntilAssessed(PlayTurn(policy, setup, s, w), PlayTurn(policy, setup, s, w.(assessed := a)))
    ensures PlayTurn(policy, setup, s, w).Continue? ==> PlayTurn(policy, setup, s, w) == PlayTurn(policy, setup, s, w.(assessed := a))
    ensures Submits(PlayTurn(policy, setup, s, w)) ==>
              w.assessed && s.phase.ResultSubmission? && w.runtime.Some? && w.runtime.value.status.Completed?
  {
    hide End, PlayDomain, PlaySubmission, PlayBootstrap, IsPrepared, Submits, IsRefusedSubmission, DecisionOf;
    PreparedWhateverAssessed(setup, s, w, a);
    if w.runtime.Some? {
      var t := s.(artifactBytes := s.artifactBytes + w.runtime.value.artifactBytes);
      var status := w.runtime.value.status;
      EndDoesNotAssess(t, w, TurnOf(t, w, true, if status.Completed? then SchemaFailed else status), a);
      EndDoesNotAssess(t, w, TurnOf(t, w, true, SchemaFailed), a);
      SubmissionDecides(t, w, a);
      BootstrapDoesNotAssess(t, w, a);
      if w.runtime.value.calls.Some? {
        DomainDoesNotAssess(policy, setup, t, w, a);
      }
    }
    ThrowDoesNotSubmit(s);
  }

  lemma ThrowDoesNotSubmit(s: State)
    ensures !Submits(Throw(s))
  {
  }

  lemma SubmissionDecides(s: State, w: TurnWorld, a: bool)
    requires w.runtime.Some?
    ensures AreSameUntilAssessed(PlaySubmission(s, w), PlaySubmission(s, w.(assessed := a)))
    ensures Submits(PlaySubmission(s, w)) ==> w.assessed
    ensures !PlaySubmission(s, w).Continue?
  {
    assert (s.turns + [TurnOf(s, w, true, Completed).(hasSubmission := true)])[..|s.turns|] == s.turns;
  }

  lemma BootstrapDoesNotAssess(s: State, w: TurnWorld, a: bool)
    requires w.runtime.Some?
    ensures PlayBootstrap(s, w.(assessed := a)) == PlayBootstrap(s, w) && !Submits(PlayBootstrap(s, w))
  {
  }

  /** A served turn that submits was assessed over all the seals there are, and made no call. */
  lemma SubmittedWasAssessed(policy: Policy, setup: Setup, v: Service, s: State, w: TurnWorld, log: Log)
    requires Submits(PlayServed(policy, setup, v, s, w, log).0)
    ensures Assesses(v, s, log) && PlayServed(policy, setup, v, s, w, log).1 == log
    ensures w.runtime.Some? && w.runtime.value.status.Completed?
    ensures PlayServed(policy, setup, v, s, w, log).0.state.toolOutputs == s.toolOutputs
  {
    hide PlayTurn, Serve, Assesses, Submits;
    if ReachesCalls(policy, setup, s, w) {
      var calls := w.runtime.value.calls.value;
      AssessmentDecides(policy, setup, s, Answering(w, Serve(v, log, |s.turns|, calls, |calls|).answers), false);
    } else {
      AssessmentDecides(policy, setup, s, Assessing(v, s, w, log), false);
      SubmissionKeepsOutputs(policy, setup, s, Assessing(v, s, w, log));
    }
  }

  lemma SubmissionKeepsOutputs(policy: Policy, setup: Setup, s: State, w: TurnWorld)
    requires s.phase.ResultSubmission?
    ensures PlayTurn(policy, setup, s, w).state.toolOutputs == s.toolOutputs
  {
    hide IsPrepared, PlayDomain, PlayBootstrap;
  }

  lemma SameHeadSameTurn(policy: Policy, setup: Setup, v: Service, s: State, w: TurnWorld, a: Log, b: Log)
    requires IsWorkspace(v.ws) && IsLog(v.ws, a) && IsLog(v.ws, b) && Head(v.ws, a) == Head(v.ws, b)
    ensures var (x, la), (y, lb) := PlayServed(policy, setup, v, s, w, a), PlayServed(policy, setup, v, s, w, b);
            && AreSameUntilAssessed(x, y) && (x.Continue? || y.Continue? ==> x == y)
            && IsLog(v.ws, la) && IsLog(v.ws, lb) && Head(v.ws, la) == Head(v.ws, lb)
  {
    hide IsWorkspace, IsLog, Head, Serve, PlayTurn, Submits, Assesses;
    if ReachesCalls(policy, setup, s, w) {
      var calls := w.runtime.value.calls.value;
      ServeDependsOnHead(v, a, b, |s.turns|, calls, |calls|);
    } else {
      var x, y := Assessing(v, s, w, a), Assessing(v, s, w, b);
      assert y == x.(assessed := y.assessed) && x == y.(assessed := x.assessed);
      AssessmentDecides(policy, setup, s, x, y.assessed);
      AssessmentDecides(policy, setup, s, y, x.assessed);
    }
  }

  /** Two services at the same head, whatever they have sealed, give the same run and end at
      the same head, until one is assessed: only the assessment looks at the seals. */
  lemma {:induction false} SameHeadSameRun(policy: Policy, setup: Setup, v: Service, world: World, s: State, a: Log, b: Log)
    requires IsWorkspace(v.ws) && IsLog(v.ws, a) && IsLog(v.ws, b) && Head(v.ws, a) == Head(v.ws, b)
    ensures var (x, la), (y, lb) := RunServed(policy, setup, v, world, s, a), RunServed(policy, setup, v, world, s, b);
            AreSameUntilAssessed(x, y) && IsLog(v.ws, la) && IsLog(v.ws, lb) && Head(v.ws, la) == Head(v.ws, lb)
    decreases policy.maximumTurns - |s.turns|
  {
    hide IsWorkspace, IsLog, Head, PlayServed, IsRefusedSubmission;
    if |s.turns| < policy.maximumTurns {
      var w := world(|s.turns|);
      SameHeadSameTurn(policy, setup, v, s, w, a, b);
      var (step, after) := PlayServed(policy, setup, v, s, w, a);
      if step.Continue? && |step.state.turns| > |s.turns| {
        SameHeadSameRun(policy, setup, v, world, step.state, after, PlayServed(policy, setup, v, s, w, b).1);
      }
    }
  }

  // ---------------------------------------------------------------------------
  // A served run is a run
  // ---------------------------------------------------------------------------

  /** Two worlds that differ in what controlled calls and the assessment are answered, and in
      nothing else. */
  ghost predicate DiffersInAnswers(a: TurnWorld, b: TurnWorld) {
    a == b.(controlled := a.controlled, assessed := a.assessed)
  }

  lemma {:induction false} RunIsLocal(policy: Policy, setup: Setup, a: World, b: World, s: State)
    requires forall t: nat :: t >= |s.turns| ==> a(t) == b(t)
    ensures RunFrom(policy, setup, a, s) == RunFrom(policy, setup, b, s)
    decreases policy.maximumTurns - |s.turns|
  {
    hide PlayTurn;
    if |s.turns| < policy.maximumTurns {
      var step := PlayTurn(policy, setup, s, a(|s.turns|));
      if step.Continue? && |step.state.turns| > |s.turns| {
        RunIsLocal(policy, setup, a, b, step.state);
      }
    }
  }

  lemma {:induction false} ServedRunIsLocal(policy: Policy, setup: Setup, v: Service, a: World, b: World, s: State, log: Log)
    requires forall t: nat :: a(t) == b(t)
    ensures RunServed(policy, setup, v, a, s, log) == RunServed(policy, setup, v, b, s, log)
    decreases policy.maximumTurns - |s.turns|
  {
    hide PlayServed;
    if |s.turns| < policy.maximumTurns {
      var (step, after) := PlayServed(policy, setup, v, s, a(|s.turns|), log);
      if step.Continue? && |step.state.turns| > |s.turns| {
        ServedRunIsLocal(policy, setup, v, a, b, step.state, after);
      }
    }
  }

  /** An answer the service could give, or none. */
  ghost predicate IsServed(v: Service, x: Option<Execution>) {
    x.Some? ==> exists current, call, answer :: x.value == ExecutionOf(v, current, call, answer)
  }

  lemma NoAnswerIsServed(v: Service)
    ensures IsServed(v, None)
  {
  }

  lemma {:induction false} ServedAnswers(v: Service, log: Log, t: nat, calls: seq<Call>, n: nat)
    requires n <= |calls|
    ensures forall x :: x in Serve(v, log, t, calls, n).answers ==> IsServed(v, x)
    decreases n
  {
    hide Ask, ExecutionOf, Head;
    if n > 0 {
      ServedAnswers(v, log, t, calls, n - 1);
      var before := Serve(v, log, t, calls, n - 1);
      var call := v.toolCall(t, n - 1);
      var answer := Ask(v.ws, before.log, call).0;
      var execution := if answer.Some? then Some(ExecutionOf(v, Head(v.ws, before.log), call, answer.value)) else None;
      assert IsServed(v, execution) && IsServed(v, None);
      assert Serve(v, log, t, calls, n).answers == before.answers + [None] ||
             Serve(v, log, t, calls, n).answers == before.answers + [execution];
    }
  }

  lemma ServedTurnIsATurn(policy: Policy, setup: Setup, v: Service, s: State, w: TurnWorld, log: Log)
    returns (answered: TurnWorld)
    ensures DiffersInAnswers(answered, w)
    ensures answered.controlled == w.controlled || forall i: nat :: IsServed(v, answered.controlled(i))
    ensures PlayServed(policy, setup, v, s, w, log).0 == PlayTurn(policy, setup, s, answered)
  {
    hide PlayTurn, Serve, IsServed, Assesses;
    answered := Assessing(v, s, w, log);
    if ReachesCalls(policy, setup, s, w) {
      var calls := w.runtime.value.calls.value;
      ServedAnswers(v, log, |s.turns|, calls, |calls|);
      var answers := Serve(v, log, |s.turns|, calls, |calls|).answers;
      answered := Answering(w, answers);
      NoAnswerIsServed(v);
      forall i: nat ensures IsServed(v, answered.controlled(i)) {
        assert answered.controlled(i) == if i < |answers| then answers[i] else None;
      }
    }
  }

  /** The served run is the loop's run in a world that differs only in what controlled calls
      and the assessment are answered, so all that holds of every run holds of it. */
  lemma {:induction false} ServedRunIsARun(policy: Policy, setup: Setup, v: Service, world: World, s: State, log: Log)
    returns (answered: World)
    ensures forall t: nat :: DiffersInAnswers(answered(t), world(t))
    ensures forall t: nat :: answered(t).controlled == world(t).controlled || forall i: nat :: IsServed(v, answered(t).controlled(i))
    ensures RunServed(policy, setup, v, world, s, log).0 == RunFrom(policy, setup, answered, s)
    decreases policy.maximumTurns - |s.turns|
  {
    hide PlayTurn, PlayServed, IsServed;
    answered := world;
    if |s.turns| < policy.maximumTurns {
      var here, w := |s.turns|, world(|s.turns|);
      var (step, after) := PlayServed(policy, setup, v, s, w, log);
      var served := ServedTurnIsATurn(policy, setup, v, s, w, log);
      var goesOn := step.Continue? && |step.state.turns| > here;
      var rest := world;
      if goesOn {
        rest := ServedRunIsARun(policy, setup, v, world, step.state, after);
      }
      answered := (t: nat) => if t == here then served else rest(t);
      assert answered(here) == served;
      if goesOn {
        RunIsLocal(policy, setup, answered, rest, step.state);
      }
    }
  }
}
