/** Checkpoints, operation intents and effects of the controlled workspace, and what the
    validation of effects makes of a whole run: a predecessor chain that never returns. */
module Checkpoints {
  import opened Wrappers

  type Digest = nat

  /** The digest function, of which only injectivity is used. */
  ghost predicate IsInjective<T(!new)>(digest: T -> Digest) {
    forall x, y :: digest(x) == digest(y) ==> x == y
  }

  /** The attempt and its grant; every checkpoint, intent and effect carries it. */
  datatype Grant = Grant(attemptId: string, grantDigest: Digest, generation: nat)

  datatype CheckpointBase = CheckpointBase(
    checkpointRef: string,
    grant: Grant,
    predecessor: Option<Digest>,
    snapshot: Digest,
    persistenceReceipt: Digest)

  datatype Checkpoint = Checkpoint(base: CheckpointBase, digest: Digest)

  /** `validateCheckpoint`: bound to the grant, and carrying its own content's digest. */
  predicate IsCheckpoint(digest: CheckpointBase -> Digest, grant: Grant, c: Checkpoint) {
    c.base.grant == grant && c.digest == digest(c.base)
  }

  // ---------------------------------------------------------------------------
  // Effects
  // ---------------------------------------------------------------------------

  datatype EffectKind =
    | RejectedKind | ReadKind | ProposalDryRun | ControlledPreview | VerificationTransaction | RepairTransaction

  datatype ArtifactKind = Proposal | VerificationPlan | VerificationClosure | OtherArtifact

  datatype G3Verification = G3Verification(passed: bool, attemptGrants: seq<Digest>)

  /** What was tried, and the receipt of its validation. */
  datatype DomainDryRun = DomainDryRun(actionId: Option<string>, targetRef: Option<string>, receipt: Digest)

  datatype PublicScan = PublicScan(intent: Digest, safe: bool, receipt: Digest, fingerprint: Digest)

  datatype Effect = Effect(
    intent: Digest,
    dispatch: Digest,
    grant: Grant,
    succeeded: bool,
    kind: EffectKind,
    snapshotBefore: Digest,
    snapshotAfter: Digest,
    canonicalWriteObserved: bool,
    checkpoint: Checkpoint,
    artifacts: seq<ArtifactKind>,
    commandReceipts: seq<Digest>,
    transactionReceipts: seq<Digest>,
    authorityReceipts: seq<Digest>,
    changedDocuments: seq<string>,
    repairRoundCount: nat,
    dryRun: Option<DomainDryRun>,
    g3: Option<G3Verification>,
    preview: Option<Digest>,
    publicScan: PublicScan)

  /** What the preflight promised and the dispatch recorded. */
  datatype Expectation = Expectation(
    intent: Digest,
    dispatch: Digest,
    kind: Option<EffectKind>,
    actionId: Option<string>,
    targetRef: Option<string>,
    maximumRepairRounds: nat)

  const MAXIMUM_RECEIPTS: nat := 128
  const MAXIMUM_AUTHORITY_RECEIPTS: nat := 32
  const MAXIMUM_ARTIFACTS: nat := 16

  predicate IsStrictlyIncreasing(s: seq<Digest>) {
    forall i, j :: 0 <= i < j < |s| ==> s[i] < s[j]
  }

  /** An effect that leaves the snapshot alone must carry the current checkpoint, and that
      one must have no predecessor; any other must link to the current checkpoint. */
  predicate LinksTo(current: Checkpoint, e: Effect) {
    if e.snapshotAfter == current.base.snapshot
    then e.checkpoint.digest == current.digest && e.checkpoint.base.predecessor.None?
    else e.checkpoint.base.predecessor == Some(current.digest)
  }

  predicate IsEnvelopeValid(digest: CheckpointBase -> Digest, grant: Grant, x: Expectation, current: Checkpoint, e: Effect) {
    && IsCheckpoint(digest, grant, e.checkpoint)
    && IsStrictlyIncreasing(e.commandReceipts) && IsStrictlyIncreasing(e.transactionReceipts)
    && IsStrictlyIncreasing(e.authorityReceipts) && e.authorityReceipts != []
    && |e.commandReceipts| <= MAXIMUM_RECEIPTS && |e.transactionReceipts| <= MAXIMUM_RECEIPTS
    && |e.authorityReceipts| <= MAXIMUM_AUTHORITY_RECEIPTS && |e.artifacts| <= MAXIMUM_ARTIFACTS
    && e.intent == x.intent && e.dispatch == x.dispatch && e.grant == grant
    && e.snapshotBefore == current.base.snapshot
    && !e.canonicalWriteObserved
    && e.repairRoundCount <= x.maximumRepairRounds
    && e.checkpoint.base.snapshot == e.snapshotAfter
    && LinksTo(current, e)
    && e.publicScan.intent == x.intent
    && e.publicScan.receipt in e.authorityReceipts && e.publicScan.fingerprint in e.authorityReceipts
    && (!e.publicScan.safe ==> !e.succeeded)
  }

  predicate LeavesNoTrace(current: Checkpoint, e: Effect) {
    && e.snapshotAfter == current.base.snapshot
    && e.commandReceipts == [] && e.transactionReceipts == [] && e.changedDocuments == []
    && e.g3.None?
  }

  predicate IsG3Backed(e: Effect) {
    && e.g3.Some?
    && IsStrictlyIncreasing(e.g3.value.attemptGrants) && e.g3.value.attemptGrants != []
    && (forall d :: d in e.g3.value.attemptGrants ==> d in e.authorityReceipts)
    && e.preview.None?
    && VerificationPlan in e.artifacts && VerificationClosure in e.artifacts
  }

  /** The rules of each kind of effect. */
  predicate IsBodyValid(x: Expectation, current: Checkpoint, e: Effect) {
    if !e.succeeded then
      && e.kind.RejectedKind? && LeavesNoTrace(current, e)
      && e.artifacts == [] && e.dryRun.None? && e.preview.None?
    else if x.kind.None? || e.kind != x.kind.value then false
    else
      match e.kind
      case ReadKind =>
        LeavesNoTrace(current, e) && e.artifacts == [] && e.dryRun.None? && e.preview.None?
      case ProposalDryRun =>
        && e.dryRun.Some? && e.dryRun.value.actionId == x.actionId && e.dryRun.value.targetRef == x.targetRef
        && LeavesNoTrace(current, e) && e.preview.None? && Proposal in e.artifacts
      case ControlledPreview =>
        e.preview.Some? && LeavesNoTrace(current, e) && e.dryRun.None?
      case VerificationTransaction =>
        && IsG3Backed(e)
        && e.commandReceipts != [] && e.transactionReceipts != [] && e.changedDocuments != []
        && (|e.transactionReceipts| > 0) != (e.snapshotAfter == current.base.snapshot)
      case RepairTransaction =>
        && IsG3Backed(e)
        && e.repairRoundCount >= 1 && e.commandReceipts != [] && e.transactionReceipts != []
        && e.snapshotAfter != current.base.snapshot
      case RejectedKind => false
  }

  /** `validateEffect`. */
  predicate IsAcceptedEffect(digest: CheckpointBase -> Digest, grant: Grant, x: Expectation, current: Checkpoint, e: Effect) {
    IsEnvelopeValid(digest, grant, x, current, e) && IsBodyValid(x, current, e)
  }

  predicate IsTransaction(e: Effect) {
    e.succeeded && (e.kind.VerificationTransaction? || e.kind.RepairTransaction?)
  }

  /** Whatever the tool, an accepted effect changes the snapshot exactly when it is a
      successful transaction, and exactly then it has transaction receipts. */
  lemma TransactionsChangeTheSnapshot(digest: CheckpointBase -> Digest, grant: Grant, x: Expectation,
                                      current: Checkpoint, e: Effect)
    requires x.kind != Some(RejectedKind) && IsAcceptedEffect(digest, grant, x, current, e)
    ensures IsTransaction(e) <==> e.snapshotAfter != e.snapshotBefore
    ensures IsTransaction(e) <==> e.transactionReceipts != []
  {
  }

  /** An effect that keeps the snapshot is accepted only before the first link, and then
      its checkpoint is the current one, field by field. */
  lemma PreservingNeedsNoPredecessor(digest: CheckpointBase -> Digest, grant: Grant, x: Expectation,
                                     current: Checkpoint, e: Effect)
    requires IsInjective(digest) && IsCheckpoint(digest, grant, current)
    requires IsAcceptedEffect(digest, grant, x, current, e) && e.snapshotAfter == e.snapshotBefore
    ensures e.checkpoint == current && current.base.predecessor.None?
  {
    assert digest(e.checkpoint.base) == digest(current.base);
  }

  /** So a read can be accepted exactly while the current checkpoint has no predecessor. */
  lemma ReadsAreAcceptableExactly(digest: CheckpointBase -> Digest, grant: Grant, x: Expectation, current: Checkpoint)
    requires IsInjective(digest) && IsCheckpoint(digest, grant, current) && x.kind == Some(ReadKind)
    ensures (exists e :: IsAcceptedEffect(digest, grant, x, current, e) && e.succeeded) <==>
            current.base.predecessor.None?
  {
    var snapshot := current.base.snapshot;
    var e := Effect(x.intent, x.dispatch, grant, true, ReadKind, snapshot, snapshot, false, current, [], [], [],
                    [1, 2], [], 0, None, None, None, PublicScan(x.intent, true, 1, 2));
    if current.base.predecessor.None? {
      assert IsAcceptedEffect(digest, grant, x, current, e) && e.succeeded;
    }
    forall f | IsAcceptedEffect(digest, grant, x, current, f) && f.succeeded ensures current.base.predecessor.None? {
      PreservingNeedsNoPredecessor(digest, grant, x, current, f);
    }
  }

  // ---------------------------------------------------------------------------
  // Runs of accepted effects
  // ---------------------------------------------------------------------------

  datatype Accepted = Accepted(expectation: Expectation, effect: Effect)

  /** The checkpoint after the run: each accepted effect's checkpoint becomes current. */
  function CurrentAfter(initial: Checkpoint, run: seq<Accepted>): Checkpoint {
    if run == [] then initial else run[|run| - 1].effect.checkpoint
  }

  predicate IsRun(digest: CheckpointBase -> Digest, grant: Grant, initial: Checkpoint, run: seq<Accepted>) {
    && IsCheckpoint(digest, grant, initial) && initial.base.predecessor.None?
    && forall i :: 0 <= i < |run| ==>
         IsAcceptedEffect(digest, grant, run[i].expectation, CurrentAfter(initial, run[..i]), run[i].effect)
  }

  lemma RunPrefix(digest: CheckpointBase -> Digest, grant: Grant, initial: Checkpoint, run: seq<Accepted>, n: nat)
    requires IsRun(digest, grant, initial, run) && n <= |run|
    ensures IsRun(digest, grant, initial, run[..n])
    ensures IsCheckpoint(digest, grant, CurrentAfter(initial, run[..n]))
  {
    hide IsAcceptedEffect;
    var prefix := run[..n];
    forall i | 0 <= i < n
      ensures IsAcceptedEffect(digest, grant, prefix[i].expectation, CurrentAfter(initial, prefix[..i]), prefix[i].effect)
    {
      assert prefix[..i] == run[..i];
    }
    if n > 0 {
      LastIsCheckpoint(digest, grant, initial, prefix);
    }
  }

  lemma LastIsCheckpoint(digest: CheckpointBase -> Digest, grant: Grant, initial: Checkpoint, run: seq<Accepted>)
    requires IsRun(digest, grant, initial, run) && run != []
    ensures IsCheckpoint(digest, grant, CurrentAfter(initial, run))
  {
    var last := |run| - 1;
    assert IsAcceptedEffect(digest, grant, run[last].expectation, CurrentAfter(initial, run[..last]), run[last].effect);
  }

  lemma RunGrows(digest: CheckpointBase -> Digest, grant: Grant, initial: Checkpoint, run: seq<Accepted>, a: Accepted)
    requires IsRun(digest, grant, initial, run)
    requires IsAcceptedEffect(digest, grant, a.expectation, CurrentAfter(initial, run), a.effect)
    ensures IsRun(digest, grant, initial, run + [a]) && CurrentAfter(initial, run + [a]) == a.effect.checkpoint
  {
    hide IsAcceptedEffect;
    var grown := run + [a];
    assert grown[..|run|] == run;
    assert forall i :: 0 <= i < |run| ==> grown[..i] == run[..i];
  }

  predicate ChangeAt(run: seq<Accepted>, i: nat)
    requires i < |run|
  {
    run[i].effect.snapshotAfter != run[i].effect.snapshotBefore
  }

  /** What effect `i` of a run did to the current checkpoint. */
  lemma Step(digest: CheckpointBase -> Digest, grant: Grant, initial: Checkpoint, run: seq<Accepted>, i: nat)
    requires IsInjective(digest) && IsRun(digest, grant, initial, run) && i < |run|
    ensures var before, after := CurrentAfter(initial, run[..i]), CurrentAfter(initial, run[..i + 1]);
            && IsCheckpoint(digest, grant, before) && IsCheckpoint(digest, grant, after)
            && (ChangeAt(run, i) ==> after.base.predecessor == Some(before.digest))
            && (!ChangeAt(run, i) ==> after == before && before.base.predecessor.None?)
  {
    RunPrefix(digest, grant, initial, run, i);
    RunPrefix(digest, grant, initial, run, i + 1);
    var current := CurrentAfter(initial, run[..i]);
    assert IsAcceptedEffect(digest, grant, run[i].expectation, current, run[i].effect);
    if !ChangeAt(run, i) {
      PreservingNeedsNoPredecessor(digest, grant, run[i].expectation, current, run[i].effect);
    }
  }

  /** Snapshot-preserving effects are accepted only before the first link: after a change
      every accepted effect is a change. */
  lemma {:induction false} ChangesPersist(digest: CheckpointBase -> Digest, grant: Grant, initial: Checkpoint,
                                          run: seq<Accepted>, i: nat, j: nat)
    requires IsInjective(digest) && IsRun(digest, grant, initial, run) && i <= j < |run| && ChangeAt(run, i)
    ensures ChangeAt(run, j)
    decreases j - i
  {
    hide IsRun, IsInjective, IsCheckpoint, CurrentAfter, ChangeAt;
    if i < j {
      ChangesPersist(digest, grant, initial, run, i, j - 1);
      Step(digest, grant, initial, run, j - 1);
      Step(digest, grant, initial, run, j);
    }
  }

  /** Until the first change the current checkpoint is the initial one. */
  lemma {:induction false} UnchangedIsInitial(digest: CheckpointBase -> Digest, grant: Grant, initial: Checkpoint,
                                              run: seq<Accepted>, i: nat)
    requires IsInjective(digest) && IsRun(digest, grant, initial, run) && i <= |run|
    requires i > 0 ==> !ChangeAt(run, i - 1)
    ensures CurrentAfter(initial, run[..i]) == initial
    decreases i
  {
    hide IsRun, IsInjective, ChangeAt;
    if i > 0 {
      Step(digest, grant, initial, run, i - 1);
      if i > 1 && ChangeAt(run, i - 2) {
        ChangesPersist(digest, grant, initial, run, i - 2, i - 1);
      }
      UnchangedIsInitial(digest, grant, initial, run, i - 1);
    }
  }

  /** Just after a change, the current checkpoint is none of the earlier ones. */
  lemma {:induction false} ChangesDiffer(digest: CheckpointBase -> Digest, grant: Grant, initial: Checkpoint,
                                         run: seq<Accepted>, i: nat, j: nat)
    requires IsInjective(digest) && IsRun(digest, grant, initial, run) && i < j <= |run| && ChangeAt(run, j - 1)
    ensures CurrentAfter(initial, run[..i]).digest != CurrentAfter(initial, run[..j]).digest
    decreases i
  {
    hide CurrentAfter, ChangeAt, IsAcceptedEffect;
    var a, b := CurrentAfter(initial, run[..i]), CurrentAfter(initial, run[..j]);
    Step(digest, grant, initial, run, j - 1);
    Step(digest, grant, initial, run, i);
    if i == 0 || !ChangeAt(run, i - 1) {
      UnchangedIsInitial(digest, grant, initial, run, i);
    } else {
      Step(digest, grant, initial, run, i - 1);
      ChangesPersist(digest, grant, initial, run, i - 1, j - 2);
      ChangesDiffer(digest, grant, initial, run, i - 1, j - 1);
    }
    assert a.base.predecessor != b.base.predecessor;
  }

  /** A checkpoint digest never comes back, even when the snapshot does: the current
      checkpoint is the same at two points exactly when nothing changed in between. */
  lemma {:induction false} NoCheckpointReturns(digest: CheckpointBase -> Digest, grant: Grant, initial: Checkpoint,
                                               run: seq<Accepted>, i: nat, j: nat)
    requires IsInjective(digest) && IsRun(digest, grant, initial, run) && i <= j <= |run|
    ensures CurrentAfter(initial, run[..i]).digest == CurrentAfter(initial, run[..j]).digest <==>
            forall k :: i <= k < j ==> !ChangeAt(run, k)
    decreases j - i
  {
    hide CurrentAfter, ChangeAt, IsRun, IsInjective, IsCheckpoint;
    if i < j {
      if ChangeAt(run, j - 1) {
        ChangesDiffer(digest, grant, initial, run, i, j);
      } else {
        Step(digest, grant, initial, run, j - 1);
        NoCheckpointReturns(digest, grant, initial, run, i, j - 1);
      }
    }
  }

  /** What a final assessment must find among the effects, a dry run and the preview, comes
      before the first change, whatever the order of the calls asked for. */
  lemma PreservingEffectsComeFirst(digest: CheckpointBase -> Digest, grant: Grant, initial: Checkpoint,
                                   run: seq<Accepted>, i: nat, j: nat)
    requires IsInjective(digest) && IsRun(digest, grant, initial, run) && i < |run| && j < |run|
    requires !IsTransaction(run[i].effect) && run[i].expectation.kind != Some(RejectedKind) && ChangeAt(run, j)
    ensures i < j
  {
    assert IsAcceptedEffect(digest, grant, run[i].expectation, CurrentAfter(initial, run[..i]), run[i].effect);
    TransactionsChangeTheSnapshot(digest, grant, run[i].expectation, CurrentAfter(initial, run[..i]), run[i].effect);
    if j <= i {
      ChangesPersist(digest, grant, initial, run, j, i);
    }
  }

  // ---------------------------------------------------------------------------
  // Operation intents
  // ---------------------------------------------------------------------------

  /** A tool call and what its preflight resolved it to. */
  datatype ToolCall = ToolCall(
    turnIndex: nat,
    toolCallId: string,
    toolId: string,
    argumentsDigest: Digest,
    toolDefinition: Digest,
    inputSchema: Digest)

  /** The identity an intent digests: the call, the binding, and the current checkpoint. */
  datatype IntentIdentity = IntentIdentity(
    planDigest: Digest,
    grant: Grant,
    sessionId: string,
    toolRegistry: Digest,
    grantExpiresAt: int,
    priorCheckpoint: Digest,
    call: ToolCall)

  datatype Intent = Intent(operationId: Digest, identity: IntentIdentity)

  function OperationIntent(digest: IntentIdentity -> Digest, template: IntentIdentity, current: Checkpoint, call: ToolCall): Intent {
    var identity := template.(priorCheckpoint := current.digest, call := call);
    Intent(digest(identity), identity)
  }

  /** Two intents issued during a run have the same operation id exactly when they are for
      the same call and no effect changed the snapshot in between: a call repeated after a
      change is a new operation. */
  lemma OperationIdsFollowTheChain(digest: CheckpointBase -> Digest, idDigest: IntentIdentity -> Digest, grant: Grant,
                                   initial: Checkpoint, template: IntentIdentity, run: seq<Accepted>,
                                   i: nat, j: nat, first: ToolCall, second: ToolCall)
    requires IsInjective(digest) && IsInjective(idDigest)
    requires IsRun(digest, grant, initial, run) && i <= j <= |run|
    ensures OperationIntent(idDigest, template, CurrentAfter(initial, run[..i]), first).operationId ==
            OperationIntent(idDigest, template, CurrentAfter(initial, run[..j]), second).operationId <==>
            first == second && forall k :: i <= k < j ==> !ChangeAt(run, k)
  {
    NoCheckpointReturns(digest, grant, initial, run, i, j);
    hide IsRun, CurrentAfter, ChangeAt;
    var a := OperationIntent(idDigest, template, CurrentAfter(initial, run[..i]), first);
    var b := OperationIntent(idDigest, template, CurrentAfter(initial, run[..j]), second);
    assert idDigest(a.identity) == idDigest(b.identity) ==> a.identity == b.identity;
  }
}
