/** Two runs of the loop that the final assessment lets complete: one that loses its process
    after its transaction, and one whose first turn gets no receipt. */
module RecoveryExamples {
  import opened Wrappers
  import opened Json
  import opened AgentTurnLoop
  import opened ToolService
  import opened ServedRuns
  import opened AttemptRecovery
  import opened ExactRecovery
  import opened Checkpoints
  import FinalReceipts
  import Lineage
  import ShardBudget
  import WorkspaceRuntime

  // ---------------------------------------------------------------------------
  // The workspace
  // ---------------------------------------------------------------------------

  /** What is free in the examples. */
  datatype Frame = Frame(
    digest: CheckpointBase -> Digest,
    idDigest: IntentIdentity -> Digest,
    grant: Grant,
    template: IntentIdentity,
    initial: Checkpoint)

  ghost predicate IsFrame(f: Frame) {
    && IsInjective(f.digest) && IsInjective(f.idDigest)
    && IsCheckpoint(f.digest, f.grant, f.initial) && f.initial.base.predecessor.None?
  }

  function DryRunAt(f: Frame, operation: Digest, current: Checkpoint): Accepted {
    var snapshot := current.base.snapshot;
    Accepted(Expectation(operation, 0, Some(ProposalDryRun), None, None, 0),
             Effect(operation, 0, f.grant, true, ProposalDryRun, snapshot, snapshot, false, current, [Proposal], [], [], [1, 2],
                    [], 0, Some(DomainDryRun(None, None, 3)), None, None, PublicScan(operation, true, 1, 2)))
  }

  function TransactionAt(f: Frame, operation: Digest, current: Checkpoint): Accepted {
    var snapshot := current.base.snapshot;
    var base := CheckpointBase("next", f.grant, Some(current.digest), snapshot + 1, 0);
    Accepted(Expectation(operation, 0, Some(VerificationTransaction), None, None, 0),
             Effect(operation, 0, f.grant, true, VerificationTransaction, snapshot, snapshot + 1, false,
                    Checkpoint(base, f.digest(base)), [VerificationPlan, VerificationClosure], [1], [1], [1, 2], ["document"], 0,
                    None, Some(G3Verification(true, [1])), None, PublicScan(operation, true, 1, 2)))
  }

  predicate AllowsDryRun(f: Frame, current: Checkpoint) {
    IsCheckpoint(f.digest, f.grant, current) && current.base.predecessor.None?
  }

  const DRY_RUN := "workspace.dry-run"
  const VERIFY := "workspace.verify"

  /** A dry run is performed while it can be accepted, and refused after that; any other
      call is a verification transaction. */
  function AnswerAt(f: Frame, current: Checkpoint, call: ToolCall): Answer {
    var operation := OperationIntent(f.idDigest, f.template, current, call).operationId;
    if call.toolId != DRY_RUN then Effected(TransactionAt(f, operation, current))
    else if AllowsDryRun(f, current) then Effected(DryRunAt(f, operation, current))
    else Rejection
  }

  function WorkspaceOf(f: Frame): Workspace {
    Workspace(f.digest, f.idDigest, f.grant, f.template, f.initial, (current, call) => Some(AnswerAt(f, current, call)))
  }

  lemma TransactionIsAccepted(f: Frame, operation: Digest, current: Checkpoint)
    ensures var a := TransactionAt(f, operation, current); IsAcceptedEffect(f.digest, f.grant, a.expectation, current, a.effect)
  {
    var e := TransactionAt(f, operation, current).effect;
    assert e.artifacts[0] == VerificationPlan && e.artifacts[1] == VerificationClosure;
    assert e.authorityReceipts[0] == 1 && e.authorityReceipts[1] == 2;
  }

  lemma DryRunIsAccepted(f: Frame, operation: Digest, current: Checkpoint)
    requires AllowsDryRun(f, current)
    ensures var a := DryRunAt(f, operation, current); IsAcceptedEffect(f.digest, f.grant, a.expectation, current, a.effect)
  {
    var e := DryRunAt(f, operation, current).effect;
    assert e.artifacts[0] == Proposal && e.authorityReceipts[0] == 1 && e.authorityReceipts[1] == 2;
  }

  lemma WorkspaceIsOne(f: Frame)
    requires IsFrame(f)
    ensures IsWorkspace(WorkspaceOf(f))
  {
    var ws := WorkspaceOf(f);
    forall current, call ensures IsAnswer(ws, current, call, ws.owner(current, call).value) {
      var operation := OperationOf(ws, current, call);
      TransactionIsAccepted(f, operation, current);
      if AllowsDryRun(f, current) {
        DryRunIsAccepted(f, operation, current);
      }
      hide IsAcceptedEffect;
    }
  }

  // ---------------------------------------------------------------------------
  // The service and its assessment
  // ---------------------------------------------------------------------------

  function ArtifactOf(kind: ArtifactKind): FinalReceipts.Artifact {
    FinalReceipts.Artifact(kind, "artifact", 0, 0, 0)
  }

  function ArtifactsFor(kinds: seq<ArtifactKind>): seq<FinalReceipts.Artifact> {
    seq(|kinds|, i requires 0 <= i < |kinds| => ArtifactOf(kinds[i]))
  }

  const SUBMITTED := ArtifactsFor([Proposal, VerificationPlan, VerificationClosure])

  const CLAIM := FinalReceipts.ArtifactClaim("artifact", 0)

  function SessionAuthority(head: Checkpoint): FinalReceipts.FinalAuthority {
    FinalReceipts.FinalAuthority(head.base.snapshot, head.digest, true, 3, G3Verification(true, [1]), CLAIM, CLAIM, 0, None, [1, 2],
                                 PublicScan(7, true, 1, 2))
  }

  function Resolve(i: nat): WorkspaceRuntime.Reply<FinalReceipts.Artifact> {
    if i < |SUBMITTED| then WorkspaceRuntime.Replied(SUBMITTED[i]) else WorkspaceRuntime.Threw
  }

  function NoKey(a: FinalReceipts.Artifact): nat { 0 }

  /** The submission names the three artifacts; the session signs the head it is at. */
  function FinalAt(head: Checkpoint): Final {
    Final(WorkspaceRuntime.FinalInput([], SUBMITTED, NoKey, FinalReceipts.Submission(CLAIM, CLAIM, true, 0, 7), false),
          WorkspaceRuntime.FinalReplies(WorkspaceRuntime.Threw, Resolve, WorkspaceRuntime.Replied(SessionAuthority(head))))
  }

  /** The dry run is called in turn `first`, the verification in the next. */
  function CallOf(first: nat, t: nat, i: nat): ToolCall {
    ToolCall(t, "call", if t == first then DRY_RUN else VERIFY, i, 0, 0)
  }

  function ServiceOf(f: Frame, first: nat): Service {
    Service(WorkspaceOf(f), (t: nat, i: nat) => CallOf(first, t, i), (operation: Digest, answer: Answer) => operation,
            (e: Effect) => ArtifactsFor(e.artifacts), (t: nat, log: Log) => FinalAt(Head(WorkspaceOf(f), log)))
  }

  lemma ServiceIsOne(f: Frame, first: nat)
    ensures IsIdentifying(ServiceOf(f, first)) && IsReceipting(ServiceOf(f, first))
  {
    var v := ServiceOf(f, first);
    forall t: nat, i: nat, u: nat, j: nat | v.toolCall(t, i) == v.toolCall(u, j) ensures t == u && i == j {
      assert CallOf(first, t, i) == CallOf(first, u, j);
    }
  }

  // ---------------------------------------------------------------------------
  // One turn at a time
  // ---------------------------------------------------------------------------

  const OBSERVING := Setup(None, true)

  function SupportedOutcome(i: nat): Option<Outcome> { Some(Supported) }

  function TurnWith(calls: seq<Call>): TurnWorld {
    ShardBudget.CallingTurn(0, Some(calls), ShardBudget.RejectedExecution).(capability := SupportedOutcome)
  }

  /** The dry run in turn `first`, the verification, and the submission; before them an
      observing call in each turn. */
  function ExampleWorld(first: nat): World {
    (t: nat) => TurnWith(if t < first then [Observing] else if t <= first + 1 then [Controlled] else [ResultSubmit])
  }

  /** An unfinished run of `t` turns, early enough for what is to come. */
  predicate IsOpenAt(s: State, t: nat) {
    && |s.turns| == t <= 3 && s.phase.DomainTools? && ToolCalls(s) <= t && s.repairRounds <= 1
    && s.controlledBytes == 0 && s.artifactBytes == 0 && s.shared == []
  }

  lemma OneExecutionBooks(s: State, w: TurnWorld, x: Execution)
    requires IsOpenAt(s, |s.turns|) && w.runtime.Some? && w.continued && x.artifactBytes == 0
    ensures var step := CloseDomain(ShardBudget.FROZEN, s, w, [x], []);
            && step.Continue? && |step.state.turns| == |s.turns| + 1
            && step.state.toolOutputs == s.toolOutputs + [x] && step.state.capabilityOutputs == s.capabilityOutputs
            && step.state.repairRounds == s.repairRounds + (if x.rejected then 1 else 0)
            && step.state.controlledBytes == 0 && step.state.artifactBytes == 0 && step.state.shared == []
            && step.state.phase == (if x.hasClosure then ResultSubmission else DomainTools)
            && step.state.turns[..|s.turns|] == s.turns
  {
    ShardBudget.OneExecution(x);
    assert x in [x];
    assert SomeClosure([x]) == x.hasClosure;
    assert FirstUnsupported([]) == None && s.capabilityOutputs + [] == s.capabilityOutputs;
    hide SomeRejected, SomeClosure, BytesOf, FirstUnsupported;
  }

  /** A turn with one controlled call goes on with its output. */
  lemma CallGoesOn(s: State, w: TurnWorld, x: Execution)
    requires IsOpenAt(s, |s.turns|) && x.artifactBytes == 0
    requires w == TurnWith([Controlled]).(controlled := w.controlled) && w.controlled(0) == Some(x)
    ensures var step := PlayTurn(ShardBudget.FROZEN, OBSERVING, s, w);
            && step.Continue? && |step.state.turns| == |s.turns| + 1
            && step.state.toolOutputs == s.toolOutputs + [x] && step.state.capabilityOutputs == s.capabilityOutputs
            && step.state.repairRounds == s.repairRounds + (if x.rejected then 1 else 0)
            && step.state.controlledBytes == 0 && step.state.artifactBytes == 0 && step.state.shared == []
            && step.state.phase == (if x.hasClosure then ResultSubmission else DomainTools)
            && step.state.turns[..|s.turns|] == s.turns
  {
    ShardBudget.OneCall(w);
    OneExecutionBooks(Finalized(s), w, x);
    hide ControlledOutputs, CapabilityOutputs, CloseDomain;
    assert forall c :: c in [Controlled] ==> c == Controlled;
  }

  lemma CallIsServed(v: Service, log: Log, t: nat, answer: Answer)
    requires SealOf(v.ws, log, v.toolCall(t, 0)).None?
    requires v.ws.owner(Head(v.ws, log), v.toolCall(t, 0)) == Some(answer)
    ensures Serve(v, log, t, [Controlled], 1) ==
            Tally([Some(ExecutionOf(v, Head(v.ws, log), v.toolCall(t, 0), answer))], log + [Entry(v.toolCall(t, 0), answer)], false)
  {
    hide SealOf, Head, ExecutionOf;
    assert Serve(v, log, t, [Controlled], 0) == Tally([], log, false);
    var x := ExecutionOf(v, Head(v.ws, log), v.toolCall(t, 0), answer);
    assert [] + [Some(x)] == [Some(x)];
  }

  /** A turn with one controlled call that has no seal, served. */
  lemma ServedCallGoesOn(v: Service, s: State, log: Log, answer: Answer)
    requires IsOpenAt(s, |s.turns|)
    requires SealOf(v.ws, log, v.toolCall(|s.turns|, 0)).None?
    requires v.ws.owner(Head(v.ws, log), v.toolCall(|s.turns|, 0)) == Some(answer)
    requires ExecutionOf(v, Head(v.ws, log), v.toolCall(|s.turns|, 0), answer).artifactBytes == 0
    ensures var (step, after) := PlayServed(ShardBudget.FROZEN, OBSERVING, v, s, TurnWith([Controlled]), log);
            var x := ExecutionOf(v, Head(v.ws, log), v.toolCall(|s.turns|, 0), answer);
            && after == log + [Entry(v.toolCall(|s.turns|, 0), answer)]
            && step.Continue? && |step.state.turns| == |s.turns| + 1
            && step.state.toolOutputs == s.toolOutputs + [x] && step.state.capabilityOutputs == s.capabilityOutputs
            && step.state.repairRounds == s.repairRounds + (if x.rejected then 1 else 0)
            && step.state.controlledBytes == 0 && step.state.artifactBytes == 0 && step.state.shared == []
            && step.state.phase == (if x.hasClosure then ResultSubmission else DomainTools)
            && step.state.turns[..|s.turns|] == s.turns
  {
    var x := ExecutionOf(v, Head(v.ws, log), v.toolCall(|s.turns|, 0), answer);
    CallIsServed(v, log, |s.turns|, answer);
    var answered := Answering(TurnWith([Controlled]), [Some(x)]);
    assert FromList([Some(x)])(0) == Some(x);
    CallGoesOn(s, answered, x);
    assert Unowned !in [Controlled] && SharedEffect !in [Controlled] && ResultSubmit !in [Controlled];
    assert ReachesCalls(ShardBudget.FROZEN, OBSERVING, s, TurnWith([Controlled]));
    hide PlayTurn, SealOf, Head, Serve, ExecutionOf, ReachesCalls;
  }

  /** The submission turn returns completed when the assessment does, and errs otherwise. */
  lemma SubmissionEnds(v: Service, s: State, log: Log)
    requires |s.turns| < ShardBudget.FROZEN.maximumTurns && s.phase.ResultSubmission? && s.artifactBytes == 0
    ensures var (step, after) := PlayServed(ShardBudget.FROZEN, OBSERVING, v, s, TurnWith([ResultSubmit]), log);
            && after == log
            && if Assesses(v, s, log)
               then Submits(step) && step.finalStatus.Completed? && |step.state.turns| == |s.turns| + 1 &&
                    step.state.turns[..|s.turns|] == s.turns
               else step.Throw?
  {
    hide Serve, PlayDomain, PlayBootstrap, Assesses;
  }

  // ---------------------------------------------------------------------------
  // The seals
  // ---------------------------------------------------------------------------

  function Call(f: Frame, first: nat, second: bool): ToolCall {
    CallOf(first, if second then first + 1 else first, 0)
  }

  function SealedAt(f: Frame, current: Checkpoint, call: ToolCall): Entry {
    Entry(call, AnswerAt(f, current, call))
  }

  function Next(f: Frame, current: Checkpoint): Checkpoint {
    TransactionAt(f, 0, current).effect.checkpoint
  }

  /** The seals of the uninterrupted run, and those of its resumption. */
  function LiveLog(f: Frame, first: nat): Log {
    [SealedAt(f, f.initial, Call(f, first, false)), SealedAt(f, f.initial, Call(f, first, true))]
  }

  function ResumedLog(f: Frame, first: nat): (log: Log)
    ensures |log| == 4
  {
    LiveLog(f, first) +
    [SealedAt(f, Next(f, f.initial), Call(f, first, false)), SealedAt(f, Next(f, f.initial), Call(f, first, true))]
  }

  /** The checkpoint before each of the four seals. */
  function HeadAt(f: Frame, n: nat): Checkpoint {
    if n <= 1 then f.initial else if n <= 3 then Next(f, f.initial) else Next(f, Next(f, f.initial))
  }

  lemma SealLeadsOn(f: Frame, first: nat, current: Checkpoint, second: bool)
    requires IsFrame(f) && IsCheckpoint(f.digest, f.grant, current)
    ensures var entry := SealedAt(f, current, Call(f, first, second));
            Led(current, entry.answer) == (if second then Next(f, current) else current) && IsChange(entry) == second
  {
  }

  lemma {:induction false} LogLeads(f: Frame, first: nat, n: nat)
    requires IsFrame(f) && n <= 4
    ensures var log := ResumedLog(f, first)[..n];
            IsLog(WorkspaceOf(f), log) && Head(WorkspaceOf(f), log) == HeadAt(f, n)
    decreases n
  {
    hide IsLog, Head, AnswerAt, IsWorkspace;
    var ws, all := WorkspaceOf(f), ResumedLog(f, first);
    WorkspaceIsOne(f);
    EmptyLog(ws);
    if n > 0 {
      LogLeads(f, first, n - 1);
      var before := all[..n - 1];
      assert all[..n] == before + [all[n - 1]];
      assert ws.owner(HeadAt(f, n - 1), all[n - 1].call) == Some(AnswerAt(f, HeadAt(f, n - 1), all[n - 1].call));
      LogGrows(ws, before, all[n - 1]);
      HeadAfter(ws, before, all[n - 1]);
      LogIsRun(ws, before);
      SealLeadsOn(f, first, HeadAt(f, n - 1), (n - 1) % 2 == 1);
    }
  }

  /** A call sealed only before a change has no seal that answers it. */
  lemma ChangedHasNoSeal(ws: Workspace, log: Log, call: ToolCall)
    requires IsWorkspace(ws) && IsLog(ws, log)
    requires forall i: nat :: i < |log| && log[i].call == call ==> !ChangesNothingFrom(log, i)
    ensures SealOf(ws, log, call).None?
  {
    hide IsWorkspace, IsLog, Head, OperationOf, OperationAt, ChangesNothingFrom;
    var found := SealOf(ws, log, call);
    if found.Some? {
      SealIsCurrent(ws, log, call, found.value);
    }
  }

  /** Each of the four calls is one without a seal. */
  lemma NoSealYet(f: Frame, first: nat, n: nat)
    requires IsFrame(f) && n < 4
    ensures SealOf(WorkspaceOf(f), ResumedLog(f, first)[..n], Call(f, first, n % 2 == 1)).None?
  {
    hide IsWorkspace, IsLog, Head, AnswerAt, IsChange;
    var log := ResumedLog(f, first)[..n];
    WorkspaceIsOne(f);
    LogLeads(f, first, n);
    if n >= 2 {
      SealLeadsOn(f, first, f.initial, true);
      assert IsChange(log[1]);
    }
    ChangedHasNoSeal(WorkspaceOf(f), log, Call(f, first, n % 2 == 1));
  }

  /** What the loop reads of the four answers. */
  lemma OutputsRead(f: Frame, first: nat, n: nat)
    requires IsFrame(f) && n < 4
    ensures var entry := ResumedLog(f, first)[n];
            var x := ExecutionOf(ServiceOf(f, first), HeadAt(f, n), entry.call, entry.answer);
            x.artifactBytes == 0 && x.hasClosure == (n % 2 == 1) && x.rejected == (n == 2)
  {
    var entry := ResumedLog(f, first)[n];
    var answer := entry.answer;
    if answer.Effected? {
      var kinds := answer.accepted.effect.artifacts;
      NoBytes(kinds);
      if n % 2 == 1 {
        assert ArtifactsFor(kinds)[1].kind.VerificationClosure?;
      }
    }
  }

  lemma {:induction false} NoBytes(kinds: seq<ArtifactKind>)
    ensures FinalReceipts.Total(FinalReceipts.Bytes, ArtifactsFor(kinds)) == 0
    decreases |kinds|
  {
    if kinds != [] {
      NoBytes(kinds[1..]);
      assert ArtifactsFor(kinds)[1..] == ArtifactsFor(kinds[1..]);
    }
  }

  // ---------------------------------------------------------------------------
  // The two calls and the submission
  // ---------------------------------------------------------------------------

  function Output(f: Frame, first: nat, n: nat): Execution
    requires n < 4
  {
    var entry := ResumedLog(f, first)[n];
    ExecutionOf(ServiceOf(f, first), HeadAt(f, n), entry.call, entry.answer)
  }

  /** Turn `n % 2` of the two, made over the first `n` of the seals. */
  lemma CallTurn(f: Frame, first: nat, n: nat, s: State)
    requires IsFrame(f) && n < 4 && IsOpenAt(s, |s.turns|) && |s.turns| == first + n % 2 && first <= 1
    ensures var v, log := ServiceOf(f, first), ResumedLog(f, first);
            var (step, after) := PlayServed(ShardBudget.FROZEN, OBSERVING, v, s, ExampleWorld(first)(|s.turns|), log[..n]);
            && after == log[..n + 1] && step.Continue? && |step.state.turns| == |s.turns| + 1
            && step.state.toolOutputs == s.toolOutputs + [Output(f, first, n)]
            && step.state.capabilityOutputs == s.capabilityOutputs
            && step.state.repairRounds == s.repairRounds + (if n == 2 then 1 else 0)
            && step.state.controlledBytes == 0 && step.state.artifactBytes == 0 && step.state.shared == []
            && step.state.phase == (if n % 2 == 1 then ResultSubmission else DomainTools)
            && step.state.turns[..|s.turns|] == s.turns
  {
    hide IsLog, Head, AnswerAt, PlayServed, SealOf, ExecutionOf, TurnWith;
    var v, log := ServiceOf(f, first), ResumedLog(f, first);
    var entry := log[n];
    assert ExampleWorld(first)(|s.turns|) == TurnWith([Controlled]);
    assert v.toolCall(|s.turns|, 0) == CallOf(first, |s.turns|, 0) == entry.call == Call(f, first, n % 2 == 1);
    LogLeads(f, first, n);
    NoSealYet(f, first, n);
    assert v.ws.owner(HeadAt(f, n), entry.call) == Some(AnswerAt(f, HeadAt(f, n), entry.call));
    OutputsRead(f, first, n);
    ServedCallGoesOn(v, s, log[..n], entry.answer);
    assert log[..n + 1] == log[..n] + [entry];
  }

  /** The state before the submission. */
  ghost predicate IsReadyToSubmit(f: Frame, first: nat, m: nat, s: State)
    requires m <= 2
  {
    && |s.turns| == first + 2 && s.phase.ResultSubmission? && s.artifactBytes == 0
    && s.toolOutputs == [Output(f, first, m), Output(f, first, m + 1)]
  }

  /** Both calls, over no seals or over those of the uninterrupted run. */
  lemma BothCalls(f: Frame, first: nat, m: nat, s: State) returns (ready: State)
    requires IsFrame(f) && first <= 1 && (m == 0 || m == 2)
    requires IsOpenAt(s, first) && s.repairRounds == 0 && s.toolOutputs == []
    ensures IsReadyToSubmit(f, first, m, ready) && ready.turns[..first] == s.turns
    ensures var v, log := ServiceOf(f, first), ResumedLog(f, first);
            RunServed(ShardBudget.FROZEN, OBSERVING, v, ExampleWorld(first), s, log[..m]) ==
            RunServed(ShardBudget.FROZEN, OBSERVING, v, ExampleWorld(first), ready, log[..m + 2])
  {
    hide PlayServed, Output, ResumedLog;
    var v, log := ServiceOf(f, first), ResumedLog(f, first);
    CallTurn(f, first, m, s);
    var middle := PlayServed(ShardBudget.FROZEN, OBSERVING, v, s, ExampleWorld(first)(first), log[..m]).0.state;
    CallTurn(f, first, m + 1, middle);
    ready := PlayServed(ShardBudget.FROZEN, OBSERVING, v, middle, ExampleWorld(first)(first + 1), log[..m + 1]).0.state;
    assert ready.turns[..first] == ready.turns[..first + 1][..first] == middle.turns[..first];
  }

  lemma SubmissionRun(f: Frame, first: nat, m: nat, ready: State)
    requires IsFrame(f) && first <= 1 && m <= 2 && IsReadyToSubmit(f, first, m, ready)
    ensures var v, log := ServiceOf(f, first), ResumedLog(f, first);
            var (run, last) := RunServed(ShardBudget.FROZEN, OBSERVING, v, ExampleWorld(first), ready, log[..m + 2]);
            && last == log[..m + 2]
            && if Assesses(v, ready, log[..m + 2])
               then Submits(run) && run.finalStatus.Completed? && |run.state.turns| == first + 3 &&
                    run.state.turns[..first + 2] == ready.turns
               else run.Throw?
  {
    hide PlayServed, Assesses, Output, ResumedLog, TurnWith;
    assert ExampleWorld(first)(first + 2) == TurnWith([ResultSubmit]);
    SubmissionEnds(ServiceOf(f, first), ready, ResumedLog(f, first)[..m + 2]);
  }

  // ---------------------------------------------------------------------------
  // The assessment of the uninterrupted run
  // ---------------------------------------------------------------------------

  lemma LiveReceipts(f: Frame, first: nat, s: State)
    requires IsFrame(f) && IsReadyToSubmit(f, first, 0, s)
    ensures Submitted(s.toolOutputs) == FinalReceipts.ReceiptsOf(StoredSeals(ServiceOf(f, first), LiveLog(f, first)))
  {
    hide IsLog, Head, AnswerAt;
    var v, log := ServiceOf(f, first), LiveLog(f, first);
    LogLeads(f, first, 0);
    LogLeads(f, first, 1);
    assert ResumedLog(f, first)[..0] == log[..0] && ResumedLog(f, first)[..1] == log[..1];
    var seals := FinalReceipts.ReceiptsOf(StoredSeals(v, log));
    assert seals[0] == Submitted(s.toolOutputs)[0];
    assert seals[1] == Submitted(s.toolOutputs)[1];
  }

  lemma LiveArtifacts(f: Frame, first: nat)
    requires IsFrame(f)
    ensures FinalReceipts.ArtifactsOf(StoredSeals(ServiceOf(f, first), LiveLog(f, first))) == SUBMITTED
    ensures WorkspaceRuntime.ResolvedOf(Resolve, |SUBMITTED|) == SUBMITTED
  {
    var seals := StoredSeals(ServiceOf(f, first), LiveLog(f, first));
    var first0, second := seals[0].receipt.artifacts, seals[1].receipt.artifacts;
    assert seals[1..][0] == seals[1] && seals[1..][1..] == [];
    assert FinalReceipts.ArtifactsOf(seals[1..]) == second + [];
    assert first0 == ArtifactsFor([Proposal]) && second == ArtifactsFor([VerificationPlan, VerificationClosure]);
    assert first0 + second == SUBMITTED;
    assert WorkspaceRuntime.ResolvedOf(Resolve, |SUBMITTED|) == SUBMITTED by {
      assert forall i: nat :: i < |SUBMITTED| ==> Resolve(i) == WorkspaceRuntime.Replied(SUBMITTED[i]);
    }
  }

  lemma TwoSortedSeals(turn: nat, e: Effect, g: Effect)
    ensures var listed := [Lineage.Sealed(turn, Some(e), true), Lineage.Sealed(turn + 1, Some(g), true)];
            Lineage.StableSort(listed) == listed && Lineage.EffectsOf(listed) == [e, g]
  {
    var a, b := Lineage.Sealed(turn, Some(e), true), Lineage.Sealed(turn + 1, Some(g), true);
    assert [a, b][1..] == [b] && [b][1..] == [] && [a, b][..1] == [a] && [a][..0] == [];
    assert Lineage.StableSort([b]) == [b];
    assert Lineage.Insert(a, [b]) == [a] + [b];
    assert Lineage.EffectsOf([a]) == [e];
  }

  lemma LiveEffects(f: Frame, first: nat)
    requires IsFrame(f)
    ensures var seals, log := StoredSeals(ServiceOf(f, first), LiveLog(f, first)), LiveLog(f, first);
            Lineage.EffectsOf(Lineage.StableSort(FinalReceipts.ListingOf(seals))) ==
            [log[0].answer.accepted.effect, log[1].answer.accepted.effect]
  {
    var seals, log := StoredSeals(ServiceOf(f, first), LiveLog(f, first)), LiveLog(f, first);
    var e, g := log[0].answer.accepted.effect, log[1].answer.accepted.effect;
    TwoSortedSeals(first, e, g);
    assert FinalReceipts.ListingOf(seals) ==
           [Lineage.Sealed(first, Some(e), true), Lineage.Sealed(first + 1, Some(g), true)];
  }

  lemma LiveIsSignedOff(f: Frame, first: nat)
    requires IsFrame(f)
    ensures FinalReceipts.IsFinalAuthority(f.initial.base.snapshot, HeadAt(f, 2), StoredSeals(ServiceOf(f, first), LiveLog(f, first)),
                                           SUBMITTED, FinalReceipts.Submission(CLAIM, CLAIM, true, 0, 7),
                                           SessionAuthority(HeadAt(f, 2)))
  {
    var seals, log := StoredSeals(ServiceOf(f, first), LiveLog(f, first)), LiveLog(f, first);
    var e, g := log[0].answer.accepted.effect, log[1].answer.accepted.effect;
    LiveEffects(f, first);
    hide StoredSeals, LiveLog, Lineage.StableSort, Lineage.EffectsOf, FinalReceipts.ListingOf;
    SignedOff(f, e, g, seals);
  }

  /** An authority over a dry run and a verification from the initial snapshot. */
  lemma SignedOff(f: Frame, e: Effect, g: Effect, seals: seq<FinalReceipts.StoredSeal>)
    requires Lineage.EffectsOf(Lineage.StableSort(FinalReceipts.ListingOf(seals))) == [e, g]
    requires exists operation :: e == DryRunAt(f, operation, f.initial).effect
    requires exists operation :: g == TransactionAt(f, operation, f.initial).effect
    ensures FinalReceipts.IsFinalAuthority(f.initial.base.snapshot, HeadAt(f, 2), seals, SUBMITTED,
                                           FinalReceipts.Submission(CLAIM, CLAIM, true, 0, 7), SessionAuthority(HeadAt(f, 2)))
  {
    hide Lineage.StableSort, FinalReceipts.ListingOf, Lineage.EffectsOf;
    assert [e, g][..1] == [e] && [e][..0] == [] && [e, g][1..] == [g] && [g][1..] == [];
    assert Lineage.Fold(f.initial.base.snapshot, [e]) == Some(f.initial.base.snapshot);
    assert Lineage.Fold(f.initial.base.snapshot, [e, g]) == Some(f.initial.base.snapshot + 1);
    assert e in [e, g] && FinalReceipts.LastVerification([e, g]) == g.g3;
    assert FinalReceipts.Total(FinalReceipts.Repairs, [g]) == 0;
    assert FinalReceipts.Total(FinalReceipts.Repairs, [e, g]) == 0;
    assert SUBMITTED[1] in SUBMITTED && SUBMITTED[2] in SUBMITTED;
    var receipts := SessionAuthority(HeadAt(f, 2)).authorityReceipts;
    assert receipts[0] == 1 && receipts[1] == 2;
  }

  lemma LiveIsAssessed(f: Frame, first: nat, s: State)
    requires IsFrame(f) && IsReadyToSubmit(f, first, 0, s)
    ensures Assesses(ServiceOf(f, first), s, LiveLog(f, first))
  {
    hide FinalReceipts.IsFinalAuthority, FinalReceipts.SortBy, Head, IsLog, StoredSeals, LiveLog, AnswerAt;
    LogLeads(f, first, 2);
    assert ResumedLog(f, first)[..2] == LiveLog(f, first);
    LiveReceipts(f, first, s);
    LiveArtifacts(f, first);
    LiveIsSignedOff(f, first);
    NoBytes([Proposal, VerificationPlan, VerificationClosure]);
    assert forall i: nat :: i < |SUBMITTED| ==> Resolve(i) == WorkspaceRuntime.Replied(SUBMITTED[i]);
  }

  // ---------------------------------------------------------------------------
  // The run that loses its process
  // ---------------------------------------------------------------------------

  lemma LiveRun(f: Frame, first: nat, s: State)
    requires IsFrame(f) && first <= 1 && IsOpenAt(s, first) && s.repairRounds == 0 && s.toolOutputs == []
    ensures var (run, all) := RunServed(ShardBudget.FROZEN, OBSERVING, ServiceOf(f, first), ExampleWorld(first), s, []);
            && Submits(run) && run.finalStatus.Completed? && all == LiveLog(f, first)
            && |run.state.turns| == first + 3 && run.state.turns[..first] == s.turns
  {
    hide RunServed, Assesses, ResumedLog, LiveLog, Submits, Output, ServiceOf, ExampleWorld;
    LiveComesFirst(f, first);
    assert ResumedLog(f, first)[..0] == [];
    var ready := BothCalls(f, first, 0, s);
    SubmissionRun(f, first, 0, ready);
    LiveIsAssessed(f, first, ready);
    var run := RunServed(ShardBudget.FROZEN, OBSERVING, ServiceOf(f, first), ExampleWorld(first), s, []).0;
    PrefixOfPrefix(run.state.turns, first, first + 2);
  }

  lemma PrefixOfPrefix(turns: seq<Turn>, n: nat, m: nat)
    requires n <= m
    ensures m <= |turns| ==> turns[..n] == turns[..m][..n]
  {
  }

  lemma LiveComesFirst(f: Frame, first: nat)
    ensures ResumedLog(f, first)[..2] == LiveLog(f, first)
  {
  }

  /** What a process that is lost after the verification's seal has closed. */
  function ClosedTurns(): seq<ClosedTurn> {
    [ClosedCompleted(0, TurnWith([Controlled]).runtime.value), ClosedCompleted(1, TurnWith([Controlled]).runtime.value)]
  }

  /** A dry run, a verification transaction, and a submission that the assessment signs off.
      Lost after the transaction and resumed, the dry run is refused at the new checkpoint,
      the transaction is made a second time under another operation, and the submission
      errs: the assessment finds four seals where two receipts are submitted. */
  lemma TransactionRunCannotResume(f: Frame)
    requires IsFrame(f)
    ensures var v, world := ServiceOf(f, 0), ExampleWorld(0);
            var (live, all) := RunServed(ShardBudget.FROZEN, OBSERVING, v, world, INITIAL, []);
            var (replayed, last) := RunServed(ShardBudget.FROZEN, OBSERVING, v, Resumed(ClosedTurns(), world), INITIAL, all);
            && Submits(live) && live.finalStatus.Completed? && |all| == 2 && IsFaithful(ClosedTurns(), world)
            && replayed.Throw? && |last| == 4 && last[..2] == all
            && last[1].call == last[3].call && IsChange(last[1]) && IsChange(last[3])
            && OperationAt(v.ws, last, 1) != OperationAt(v.ws, last, 3)
  {
    hide RunServed, LiveLog, ResumedLog, IsChange, OperationAt, Submits;
    LiveRun(f, 0, INITIAL);
    LiveComesFirst(f, 0);
    ClosedTurnsReplay();
    ServedRunIsLocal(ShardBudget.FROZEN, OBSERVING, ServiceOf(f, 0), Resumed(ClosedTurns(), ExampleWorld(0)), ExampleWorld(0),
                     INITIAL, ResumedLog(f, 0)[..2]);
    ResumedRun(f);
    SecondIsAnother(f);
    assert ResumedLog(f, 0)[..4] == ResumedLog(f, 0);
  }

  lemma ClosedTurnsReplay()
    ensures IsFaithful(ClosedTurns(), ExampleWorld(0))
    ensures forall t: nat :: Resumed(ClosedTurns(), ExampleWorld(0))(t) == ExampleWorld(0)(t)
  {
    forall t: nat ensures Resumed(ClosedTurns(), ExampleWorld(0))(t) == ExampleWorld(0)(t) {
      SameWorldPastCompleted(ClosedTurns(), ExampleWorld(0), t);
    }
  }

  lemma ResumedRun(f: Frame)
    requires IsFrame(f)
    ensures var v, log := ServiceOf(f, 0), ResumedLog(f, 0);
            var (replayed, last) := RunServed(ShardBudget.FROZEN, OBSERVING, v, ExampleWorld(0), INITIAL, log[..2]);
            replayed.Throw? && last == ResumedLog(f, 0)[..4]
  {
    hide RunServed, Assesses, ResumedLog;
    var ready := BothCalls(f, 0, 2, INITIAL);
    SubmissionRun(f, 0, 2, ready);
    ResumedIsRefused(f, ready);
  }

  lemma SecondIsAnother(f: Frame)
    requires IsFrame(f)
    ensures var ws, log := WorkspaceOf(f), ResumedLog(f, 0);
            && log[1].call == log[3].call && IsChange(log[1]) && IsChange(log[3])
            && OperationAt(ws, log, 1) != OperationAt(ws, log, 3)
  {
    hide IsLog, Head;
    LogLeads(f, 0, 1);
    LogLeads(f, 0, 3);
    SealLeadsOn(f, 0, f.initial, true);
    SealLeadsOn(f, 0, Next(f, f.initial), true);
    var ws, log := WorkspaceOf(f), ResumedLog(f, 0);
    SameOperation(ws, f.initial, Next(f, f.initial), log[1].call, log[3].call);
    assert f.digest(f.initial.base) == f.digest(Next(f, f.initial).base) ==> f.initial.base == Next(f, f.initial).base;
  }

  /** The two outputs of the resumed run are of another checkpoint than the first seal. */
  lemma ResumedIsRefused(f: Frame, ready: State)
    requires IsFrame(f) && IsReadyToSubmit(f, 0, 2, ready)
    ensures !Assesses(ServiceOf(f, 0), ready, ResumedLog(f, 0)[..4])
  {
    var v := ServiceOf(f, 0);
    WorkspaceIsOne(f);
    ServiceIsOne(f, 0);
    assert f.digest(f.initial.base) == f.digest(Next(f, f.initial).base) ==> f.initial.base == Next(f, f.initial).base;
    assert HeadAt(f, 2).digest != f.initial.digest && HeadAt(f, 3).digest != f.initial.digest;
    hide Assesses, ExecutionOf, AnswerAt, IsWorkspace, HeadAt;
    assert IsLater(v, Output(f, 0, 2)) && IsLater(v, Output(f, 0, 3));
    LaterIsNotDurable(v, ready, ResumedLog(f, 0)[..4]);
  }

  // ---------------------------------------------------------------------------
  // The run whose first turn gets no receipt
  // ---------------------------------------------------------------------------

  lemma ObservingTurnGoesOn(w: TurnWorld)
    requires w == TurnWith([Observing]).(controlled := w.controlled)
    ensures var step := PlayTurn(ShardBudget.FROZEN, OBSERVING, INITIAL, w);
            && step.Continue? && IsOpenAt(step.state, 1) && step.state.repairRounds == 0 && step.state.toolOutputs == []
            && !HasReceipt(step.state.turns[0])
  {
    assert w.capability(0) == SupportedOutcome(0) && [] + [Supported] == [Supported];
    assert ControlledOutputs([Observing], w, 0) == Some([]) && CapabilityOutputs([Observing], w, 0) == Some([]);
    assert ControlledOutputs([Observing], w, 1) == Some([]);
    assert CapabilityOutputs([Observing], w, 1) == Some([Supported]);
    assert forall c :: c in [Observing] ==> c == Observing;
    assert FirstUnsupported([Supported]) == FirstUnsupported([Supported][1..]) == None;
    assert BytesOf([]) == 0 && !SomeRejected([]) && !SomeClosure([]);
    hide ControlledOutputs, CapabilityOutputs, FirstUnsupported, BytesOf, SomeRejected, SomeClosure;
  }

  lemma ObservingTurnServesNothing(v: Service, w: TurnWorld)
    requires w == TurnWith([Observing])
    ensures var (step, after) := PlayServed(ShardBudget.FROZEN, OBSERVING, v, INITIAL, w, []);
            && after == [] && step.Continue? && IsOpenAt(step.state, 1) && step.state.repairRounds == 0
            && step.state.toolOutputs == [] && !HasReceipt(step.state.turns[0])
  {
    var tally := Serve(v, [], 0, [Observing], 1);
    assert Serve(v, [], 0, [Observing], 0) == Tally([], [], false);
    assert tally.log == [];
    ObservingTurnGoesOn(Answering(w, tally.answers));
    assert Unowned !in [Observing] && SharedEffect !in [Observing] && ResultSubmit !in [Observing];
    assert ReachesCalls(ShardBudget.FROZEN, OBSERVING, INITIAL, w);
    hide PlayTurn, Serve, ReachesCalls, HasReceipt;
  }

  /** The same run after one supported observing call: it completes, its submission signed
      off, and its first turn can have no receipt. */
  lemma ObservingTurnHasNoReceipt(f: Frame)
    requires IsFrame(f)
    ensures var (run, _) := RunServed(ShardBudget.FROZEN, OBSERVING, ServiceOf(f, 1), ExampleWorld(1), INITIAL, []);
            Submits(run) && run.finalStatus.Completed? && |run.state.turns| == 4 && !HasReceipt(run.state.turns[0])
  {
    hide PlayServed, HasReceipt;
    var v, world := ServiceOf(f, 1), ExampleWorld(1);
    assert world(0) == TurnWith([Observing]);
    ObservingTurnServesNothing(v, world(0));
    var s := PlayServed(ShardBudget.FROZEN, OBSERVING, v, INITIAL, world(0), []).0.state;
    LiveRun(f, 1, s);
    var (run, _) := RunServed(ShardBudget.FROZEN, OBSERVING, v, world, INITIAL, []);
    assert run.state.turns[0] == run.state.turns[..1][0] == s.turns[0];
  }
}
