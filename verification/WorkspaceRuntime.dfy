/** The controlled-workspace runtime of one process: bindings of attempts to sandbox
    sessions, the tool call, and the durable cleanup of a binding.  What the ledger and the
    session answer is a parameter of each call. */
module WorkspaceRuntime {
  import opened Wrappers
  import opened Checkpoints
  import opened FinalReceipts
  import Lineage

  /** A call into the ledger or the session: an answer, or an error.  An answer that fails
      a field check that is not modelled counts as an error. */
  datatype Reply<+T> = Replied(value: T) | Threw

  datatype Failure =
    | AuthorityDenied | OwnerReceiptInvalid | PersistenceInvalid | OperationUnknown | CleanupFailed | OwnerError

  datatype Result<+T> = Ok(value: T) | Err(failure: Failure)

  // ---------------------------------------------------------------------------
  // Cleanup receipts
  // ---------------------------------------------------------------------------

  datatype Reason = Completed | Failed | Discarded | Orphaned

  /** An intent stands for its own digest. */
  datatype CleanupIntent = CleanupIntent(grant: Grant, sessionId: string, checkpoint: Digest, reason: Reason)

  datatype CleanupDispatch = CleanupDispatch(claimId: string, intent: CleanupIntent)

  datatype CleanupReceipt = CleanupReceipt(
    intent: CleanupIntent,
    dispatch: CleanupDispatch,
    sourceReferencesRevoked: bool,
    sandboxDestroyed: bool,
    residualReferences: nat)

  datatype CleanupSeal = CleanupSeal(intent: CleanupIntent, dispatch: CleanupDispatch, receipt: CleanupReceipt)

  /** `validateCleanup`: the receipt is for this intent and dispatch, and nothing is left. */
  predicate IsCleanup(receipt: CleanupReceipt, intent: CleanupIntent, dispatch: CleanupDispatch) {
    && receipt.intent == intent && receipt.dispatch == dispatch
    && receipt.sourceReferencesRevoked && receipt.sandboxDestroyed && receipt.residualReferences == 0
  }

  predicate IsCleanupSeal(seal: CleanupSeal, intent: CleanupIntent, dispatch: CleanupDispatch) {
    && seal.intent == intent && seal.dispatch == dispatch && dispatch.intent == intent
    && IsCleanup(seal.receipt, intent, dispatch)
  }

  datatype CleanupClaim =
    | CleanupSealed(seal: CleanupSeal)
    | CleanupDispatched(claimId: string, dispatch: CleanupDispatch)
    | CleanupClaimed(claimId: string)

  datatype CleanupReplies = CleanupReplies(
    claim: Reply<CleanupClaim>,
    mark: Reply<CleanupDispatch>,
    destroy: Reply<CleanupReceipt>,
    afterDestroyFailed: Reply<CleanupSeal>,
    seal: Reply<CleanupSeal>,
    afterSealLost: Reply<CleanupSeal>)

  // ---------------------------------------------------------------------------
  // Tool calls
  // ---------------------------------------------------------------------------

  datatype Preflight = Preflight(
    digest: Digest,
    ready: bool,
    kind: Option<EffectKind>,
    actionId: Option<string>,
    targetRef: Option<string>)

  datatype ToolOutput = RejectedOutput(operationId: Digest) | EffectOutput(effect: Effect)

  /** The preflight rejected the call, or the sandbox did. */
  predicate IsRejected(output: ToolOutput) {
    output.RejectedOutput? || !output.effect.succeeded
  }

  datatype DispatchReceipt = DispatchReceipt(operationId: Digest, priorCheckpoint: Digest, digest: Digest)

  datatype ClaimReply =
    | Denied
    | UnknownOperation
    | AlreadySealed(output: ToolOutput, checkpoint: Checkpoint)
    | AlreadyDispatched(prior: Option<Checkpoint>, dispatch: DispatchReceipt)
    | FreshClaim(prior: Option<Checkpoint>)

  datatype Recovered = StagedEffect(effect: Effect) | NoTrace

  /** A seal request: whether the ledger recorded it, and whether it said so. */
  datatype SealRequest = SealRequest(landed: bool, answered: bool)

  datatype ToolReplies = ToolReplies(
    preflight: Reply<Preflight>,
    claim: Reply<ClaimReply>,
    mark: Reply<DispatchReceipt>,
    execute: Reply<Effect>,
    recover: Reply<Recovered>,
    seal: SealRequest,
    ledgerAnswersReconcile: bool,
    reseal: SealRequest,
    rejection: SealRequest,
    sessionCheckpoint: Digest)

  /** The ledger answers a seal request only when it recorded the seal. */
  predicate IsHonest(request: SealRequest) {
    request.answered ==> request.landed
  }

  predicate IsHonestLedger(replies: ToolReplies) {
    IsHonest(replies.seal) && IsHonest(replies.reseal) && IsHonest(replies.rejection)
  }

  // ---------------------------------------------------------------------------
  // Bindings
  // ---------------------------------------------------------------------------

  function EffectsOfRun(run: seq<Accepted>): seq<Effect> {
    seq(|run|, i requires 0 <= i < |run| => run[i].effect)
  }

  /** While every seal is acknowledged, the sealed effects are those that moved the binding. */
  ghost predicate IsSealedRun(history: seq<Lineage.Event>, accepted: seq<Accepted>, pending: Option<Accepted>) {
    Lineage.AllAcknowledged(history) ==> pending.None? && Lineage.EffectsOf(history) == EffectsOfRun(accepted)
  }

  lemma SealedRunGrows(history: seq<Lineage.Event>, accepted: seq<Accepted>, pending: Option<Accepted>, turnIndex: nat,
                       a: Accepted, acknowledged: bool)
    requires IsSealedRun(history, accepted, pending)
    ensures var event := Lineage.Sealed(turnIndex, Some(a.effect), acknowledged);
            IsSealedRun(history + [event], accepted + if acknowledged then [a] else [], if acknowledged then None else Some(a))
  {
    Lineage.EffectsGrow(history, Lineage.Sealed(turnIndex, Some(a.effect), acknowledged));
    assert EffectsOfRun(accepted + [a]) == EffectsOfRun(accepted) + [a.effect];
  }

  lemma SealedRunStays(history: seq<Lineage.Event>, accepted: seq<Accepted>, pending: Option<Accepted>, event: Lineage.Event)
    requires IsSealedRun(history, accepted, pending)
    requires event.Sealed? ==> event.effect.None?
    ensures IsSealedRun(history + [event], accepted, None)
    ensures event.Reattached? ==> IsSealedRun(history + [event], accepted + if pending.Some? then [pending.value] else [], None)
  {
    Lineage.EffectsGrow(history, event);
    assert accepted + [] == accepted;
  }

  /** A binding's state: its history and its run of accepted effects lead to the same
      checkpoint, and the ledger is ahead by the pending effect at most. */
  ghost predicate IsState(digest: CheckpointBase -> Digest, grant: Grant, initial: Checkpoint, current: Checkpoint,
                          history: seq<Lineage.Event>, accepted: seq<Accepted>, pending: Option<Accepted>)
  {
    && Lineage.IsHistory(initial, history)
    && current == Lineage.Current(initial, history)
    && IsRun(digest, grant, initial, accepted)
    && current == CurrentAfter(initial, accepted)
    && Lineage.LedgerHead(initial, history) == (if pending.Some? then pending.value.effect.checkpoint else current)
    && (pending.Some? ==> IsAcceptedEffect(digest, grant, pending.value.expectation, current, pending.value.effect))
    && IsSealedRun(history, accepted, pending)
  }

  /** A reattached binding takes the ledger's checkpoint and the pending effect with it. */
  lemma StateReattaches(digest: CheckpointBase -> Digest, grant: Grant, initial: Checkpoint, current: Checkpoint,
                        history: seq<Lineage.Event>, accepted: seq<Accepted>, pending: Option<Accepted>)
    requires IsState(digest, grant, initial, current, history, accepted, pending)
    ensures IsState(digest, grant, initial, Lineage.LedgerHead(initial, history), history + [Lineage.Reattached],
                    accepted + if pending.Some? then [pending.value] else [], None)
  {
    hide IsSealedRun, Lineage.IsHistory, Lineage.Current, Lineage.LedgerHead, IsRun, IsAcceptedEffect;
    Lineage.HistoryGrows(initial, history, Lineage.Reattached);
    SealedRunStays(history, accepted, pending, Lineage.Reattached);
    if pending.Some? {
      RunGrows(digest, grant, initial, accepted, pending.value);
    } else {
      assert accepted + [] == accepted;
    }
  }

  class Binding {
    const grant: Grant
    const sessionId: string
    const initial: Checkpoint
    const digest: CheckpointBase -> Digest
    var current: Checkpoint
    var cleanupReceipt: Option<CleanupReceipt>
    /** What the ledger recorded for the attempt since its session was first loaded. */
    ghost var history: seq<Lineage.Event>
    /** The accepted effects that brought the binding to its current checkpoint. */
    ghost var accepted: seq<Accepted>
    /** The last sealed effect, while its seal is not acknowledged. */
    ghost var pending: Option<Accepted>

    ghost predicate Valid()
      reads this
    {
      IsState(digest, grant, initial, current, history, accepted, pending)
    }

    /** A first load: the session's current checkpoint is its initial one. */
    constructor (grant: Grant, sessionId: string, initial: Checkpoint, digest: CheckpointBase -> Digest)
      requires IsCheckpoint(digest, grant, initial) && initial.base.predecessor.None?
      ensures Valid() && history == [] && accepted == [] && current == initial && cleanupReceipt.None?
      ensures this.grant == grant && this.initial == initial && this.digest == digest
    {
      this.grant, this.sessionId, this.initial, this.digest := grant, sessionId, initial, digest;
      current, cleanupReceipt, history, accepted, pending := initial, None, [], [], None;
    }

    /** A load after a restart: the session carries the checkpoint of the ledger's state,
        or the load is refused. */
    constructor Reattach(ghost before: Binding, grant: Grant, sessionId: string, initial: Checkpoint,
                         digest: CheckpointBase -> Digest, loaded: Checkpoint)
      requires before.Valid() && before.grant == grant && before.initial == initial && before.digest == digest
      requires loaded == Lineage.LedgerHead(initial, before.history)
      ensures Valid() && history == before.history + [Lineage.Reattached] && current == loaded
      ensures before.accepted <= accepted
    {
      this.grant, this.sessionId, this.initial, this.digest := grant, sessionId, initial, digest;
      current, cleanupReceipt, history := loaded, None, before.history + [Lineage.Reattached];
      pending := None;
      accepted := before.accepted + if before.pending.Some? then [before.pending.value] else [];
      new;
      hide IsState;
      StateReattaches(digest, grant, initial, before.current, before.history, before.accepted, before.pending);
    }

    /** `#restoreClaimCheckpoint`: what the claim was made against is what is current. */
    predicate CanRestore(prior: Option<Checkpoint>)
      reads this`current
    {
      if prior.None? then current.digest == initial.digest
      else IsCheckpoint(digest, grant, prior.value) && prior.value.digest == current.digest
    }
  }

  /** A binding never comes back to a checkpoint it left, across calls, replays, lost seals
      and reattachments. */
  lemma NoCheckpointOfABindingReturns(b: Binding, i: nat, j: nat)
    requires b.Valid() && IsInjective(b.digest) && i <= j <= |b.accepted|
    ensures CurrentAfter(b.initial, b.accepted[..i]).digest == CurrentAfter(b.initial, b.accepted[..j]).digest <==>
            forall k :: i <= k < j ==> !ChangeAt(b.accepted, k)
  {
    hide IsRun, IsInjective, CurrentAfter, ChangeAt;
    NoCheckpointReturns(b.digest, b.grant, b.initial, b.accepted, i, j);
  }

  // ---------------------------------------------------------------------------
  // What a tool call promises
  // ---------------------------------------------------------------------------

  function ExpectationOf(operationId: Digest, dispatch: DispatchReceipt, preflight: Preflight, maximumRepairRounds: nat): Expectation {
    Expectation(operationId, dispatch.digest, preflight.kind, preflight.actionId, preflight.targetRef, maximumRepairRounds)
  }

  predicate IsDispatch(dispatch: DispatchReceipt, operationId: Digest, current: Checkpoint) {
    dispatch.operationId == operationId && dispatch.priorCheckpoint == current.digest
  }

  /** One call makes at most one seal, of a rejection or of an effect accepted against the
      checkpoint current at its start; the seal is acknowledged exactly when the call
      returns.  A call that seals nothing returns only what was sealed before. */
  ghost predicate IsToolStep(digest: CheckpointBase -> Digest, grant: Grant, operationId: Digest, turnIndex: nat,
                             current: Checkpoint, before: seq<Lineage.Event>, after: seq<Lineage.Event>,
                             replies: ToolReplies, r: Result<ToolOutput>)
  {
    || (after == before &&
        (r.Ok? ==> replies.claim.Replied? && replies.claim.value.AlreadySealed? && replies.claim.value.output == r.value))
    || (after == before + [Lineage.Sealed(turnIndex, None, r.Ok?)] && (r.Ok? ==> r.value == RejectedOutput(operationId)))
    || (exists x: Expectation, e: Effect ::
          && after == before + [Lineage.Sealed(turnIndex, Some(e), r.Ok?)]
          && x.intent == operationId && IsAcceptedEffect(digest, grant, x, current, e)
          && (r.Ok? ==> r.value == EffectOutput(e)))
  }

  /** The binding's run grows by the effect the call returns, and by nothing else. */
  ghost predicate IsAcceptedStep(operationId: Digest, before: seq<Accepted>, after: seq<Accepted>, replies: ToolReplies,
                                 r: Result<ToolOutput>)
  {
    || (after == before &&
        (r.Ok? ==> r.value.RejectedOutput? || (replies.claim.Replied? && replies.claim.value.AlreadySealed?)))
    || (exists a: Accepted ::
          after == before + [a] && a.expectation.intent == operationId && r == Ok(EffectOutput(a.effect)))
  }

  /** A seal request is acknowledged at once, or found by reconciliation, or repeated. */
  predicate IsSealAcknowledged(replies: ToolReplies) {
    replies.seal.answered || (replies.ledgerAnswersReconcile && (replies.seal.landed || replies.reseal.answered))
  }

  predicate IsSealRecorded(replies: ToolReplies) {
    replies.seal.landed || (replies.ledgerAnswersReconcile && replies.reseal.landed)
  }

  /** A seal's authority is the preflight's receipt and the effect's own, all distinct. */
  predicate IsSealable(preflight: Digest, e: Effect) {
    preflight !in e.authorityReceipts
  }

  /** A seal is accepted with at most 32 authority receipts, one of them the preflight's. */
  predicate IsSealAcceptable(e: Effect, replies: ToolReplies) {
    1 + |e.authorityReceipts| <= MAXIMUM_AUTHORITY_RECEIPTS && replies.sessionCheckpoint == e.checkpoint.digest
  }

  /** The bound on an effect leaves no room for the preflight's receipt in its seal: an
      effect with 32 authority receipts is accepted, sealed, and never returned. */
  lemma FullAuthorityIsNeverReturned(digest: CheckpointBase -> Digest, grant: Grant, x: Expectation, current: Checkpoint)
    returns (e: Effect)
    requires IsCheckpoint(digest, grant, current) && current.base.predecessor.None? && x.kind == Some(ReadKind)
    ensures IsAcceptedEffect(digest, grant, x, current, e) && 0 !in e.authorityReceipts
    ensures forall replies :: !IsSealAcceptable(e, replies)
  {
    var receipts := seq(MAXIMUM_AUTHORITY_RECEIPTS, (i: nat) => i + 1);
    var snapshot := current.base.snapshot;
    e := Effect(x.intent, x.dispatch, grant, true, ReadKind, snapshot, snapshot, false, current, [], [], [], receipts, [], 0,
                None, None, None, PublicScan(x.intent, true, 1, 2));
    assert receipts[0] == 1 && receipts[1] == 2;
  }

  /** The effect is sealed, the seal acknowledged and accepted. */
  predicate IsCarriedThrough(preflight: Digest, e: Effect, replies: ToolReplies) {
    IsSealable(preflight, e) && IsSealAcknowledged(replies) && IsSealAcceptable(e, replies)
  }

  /** The call got a claim, fresh or already dispatched. */
  predicate HoldsClaim(replies: ToolReplies) {
    replies.claim.Replied? && (replies.claim.value.AlreadyDispatched? || replies.claim.value.FreshClaim?)
  }

  function PriorOf(replies: ToolReplies): Option<Checkpoint>
    requires HoldsClaim(replies)
  {
    replies.claim.value.prior
  }

  /** The effect a dispatched call goes on to seal: the executed one when it is accepted,
      else the staged one. */
  function Obtained(digest: CheckpointBase -> Digest, grant: Grant, x: Expectation, current: Checkpoint,
                    replies: ToolReplies, executes: bool): (e: Option<Effect>)
    ensures e.Some? ==> IsAcceptedEffect(digest, grant, x, current, e.value)
  {
    if executes && replies.execute.Replied? && IsAcceptedEffect(digest, grant, x, current, replies.execute.value) then
      Some(replies.execute.value)
    else if replies.recover.Replied? && replies.recover.value.StagedEffect? &&
            IsAcceptedEffect(digest, grant, x, current, replies.recover.value.effect) then
      Some(replies.recover.value.effect)
    else None
  }

  /** The effect was made for this very operation and dispatch, by this grant, on what was
      current, and is no more than the preflight announced; only a transaction leaves
      commands and documents behind, and it brings a verification its authority covers. */
  predicate IsOwnEffect(e: Effect, grant: Grant, x: Expectation, current: Checkpoint) {
    && e.intent == x.intent && e.dispatch == x.dispatch && e.grant == grant && e.checkpoint.base.grant == grant
    && e.snapshotBefore == current.base.snapshot && e.checkpoint.base.snapshot == e.snapshotAfter
    && !e.canonicalWriteObserved && e.repairRoundCount <= x.maximumRepairRounds
    && (e.succeeded ==> x.kind == Some(e.kind) && e.publicScan.safe)
    && (e.succeeded && e.kind.ProposalDryRun? ==>
          e.dryRun.Some? && e.dryRun.value.actionId == x.actionId && e.dryRun.value.targetRef == x.targetRef &&
          Proposal in e.artifacts)
    && (e.succeeded && e.kind.ControlledPreview? ==> e.preview.Some?)
    && (e.succeeded && e.kind.RepairTransaction? ==> e.repairRoundCount >= 1)
    && (!e.succeeded || e.kind.ReadKind? ==> e.artifacts == [] && e.dryRun.None? && e.preview.None?)
    && (if IsTransaction(e)
        then && e.commandReceipts != [] && e.transactionReceipts != [] && e.preview.None?
             && e.g3.Some? && e.g3.value.attemptGrants != [] && VerificationPlan in e.artifacts && VerificationClosure in e.artifacts
             && forall d :: d in e.g3.value.attemptGrants ==> d in e.authorityReceipts
        else && e.snapshotAfter == e.snapshotBefore && e.checkpoint.digest == current.digest
             && e.commandReceipts == [] && e.transactionReceipts == [] && e.changedDocuments == [] && e.g3.None?)
    && 1 <= |e.authorityReceipts| <= 32 && e.publicScan.receipt in e.authorityReceipts
  }

  lemma AcceptedIsOwn(digest: CheckpointBase -> Digest, grant: Grant, x: Expectation, current: Checkpoint, e: Effect)
    requires IsAcceptedEffect(digest, grant, x, current, e)
    ensures IsOwnEffect(e, grant, x, current)
  {
  }

  /** The dispatch a call acts under: an earlier one it resumes, or one it marks itself. */
  function DispatchOf(claim: ClaimReply, preflight: Preflight, mark: Reply<DispatchReceipt>): Option<DispatchReceipt> {
    match claim
    case AlreadyDispatched(_, dispatch) => Some(dispatch)
    case FreshClaim(_) => if preflight.ready && mark.Replied? then Some(mark.value) else None
    case _ => None
  }

  /** The call acts under a dispatch in order, of a claim the binding can be restored to. */
  ghost predicate IsUnderDispatch(b: Binding, operationId: Digest, replies: ToolReplies)
    reads b`current
  {
    && replies.preflight.Replied? && HoldsClaim(replies) && b.CanRestore(PriorOf(replies))
    && var d := DispatchOf(replies.claim.value, replies.preflight.value, replies.mark);
       d.Some? && d.value.operationId == operationId && d.value.priorCheckpoint == b.current.digest
  }

  /** The ledger does not know what became of the operation, or it was dispatched and,
      without an acceptable execution, the session has no trace of it. */
  ghost predicate IsUnknown(b: Binding, operationId: Digest, maximumRepairRounds: nat, replies: ToolReplies)
    reads b`current
  {
    && replies.preflight.Replied?
    && (|| replies.claim == Replied(UnknownOperation)
        || (&& IsUnderDispatch(b, operationId, replies) && replies.recover == Replied(NoTrace)
            && var d := DispatchOf(replies.claim.value, replies.preflight.value, replies.mark).value;
               var x := ExpectationOf(operationId, d, replies.preflight.value, maximumRepairRounds);
               Obtained(b.digest, b.grant, x, b.current, replies, replies.claim.value.FreshClaim?).None?))
  }

  // ---------------------------------------------------------------------------
  // What a claim restores
  // ---------------------------------------------------------------------------

  /** A claim without a checkpoint lets a binding go on exactly while nothing changed. */
  lemma UnstampedClaimsStopAtTheFirstChange(b: Binding)
    requires b.Valid() && IsInjective(b.digest)
    ensures b.CanRestore(None) <==> forall k: nat :: k < |b.accepted| ==> !ChangeAt(b.accepted, k)
  {
    NoCheckpointOfABindingReturns(b, 0, |b.accepted|);
    assert b.accepted[..|b.accepted|] == b.accepted && b.accepted[..0] == [];
  }

  /** A claim that carries the ledger's checkpoint lets a binding go on exactly when it is
      there: one left behind by a lost seal makes no further seal. */
  lemma StampedClaimsKeepUp(b: Binding)
    requires b.Valid() && IsInjective(b.digest)
    ensures b.CanRestore(Some(Lineage.LedgerHead(b.initial, b.history))) <==>
            b.current == Lineage.LedgerHead(b.initial, b.history)
  {
    var head := Lineage.LedgerHead(b.initial, b.history);
    RunPrefix(b.digest, b.grant, b.initial, b.accepted, |b.accepted|);
    assert b.accepted[..|b.accepted|] == b.accepted;
    hide Lineage.IsHistory, Lineage.Current, Lineage.LedgerHead, IsRun, CurrentAfter;
    assert b.digest(head.base) == b.digest(b.current.base) ==> head.base == b.current.base;
  }

  /** So under such claims every history a binding makes is restored, and its lineage is
      settled by its last event. */
  lemma ToolStepKeepsRestored(initial: Checkpoint, digest: CheckpointBase -> Digest, grant: Grant, operationId: Digest,
                              turnIndex: nat, before: seq<Lineage.Event>, after: seq<Lineage.Event>, replies: ToolReplies,
                              r: Result<ToolOutput>)
    requires Lineage.IsRestored(initial, before)
    requires IsToolStep(digest, grant, operationId, turnIndex, Lineage.Current(initial, before), before, after, replies, r)
    requires after != before ==> Lineage.Current(initial, before) == Lineage.LedgerHead(initial, before)
    ensures Lineage.IsRestored(initial, after)
  {
    hide IsAcceptedEffect, Lineage.Current, Lineage.LedgerHead;
    if after != before {
      assert after[..|before|] == before && |after| == |before| + 1;
      assert forall i :: 0 <= i < |before| ==> after[..i] == before[..i] && after[i] == before[i];
    }
  }

  // ---------------------------------------------------------------------------
  // What a cleanup promises
  // ---------------------------------------------------------------------------

  /** The dispatch the cleanup acts under, when the claim and the mark are in order. */
  function CleanupDispatchOf(intent: CleanupIntent, env: CleanupReplies): Option<CleanupDispatch> {
    if env.claim.Threw? then None
    else
      match env.claim.value
      case CleanupSealed(_) => None
      case CleanupDispatched(claimId, dispatch) =>
        if dispatch == CleanupDispatch(claimId, intent) then Some(dispatch) else None
      case CleanupClaimed(claimId) =>
        if env.mark == Replied(CleanupDispatch(claimId, intent)) then Some(env.mark.value) else None
  }

  predicate IsSealReply(reply: Reply<CleanupSeal>, intent: CleanupIntent, dispatch: CleanupDispatch) {
    reply.Replied? && IsCleanupSeal(reply.value, intent, dispatch)
  }

  predicate Destroys(intent: CleanupIntent, dispatch: CleanupDispatch, env: CleanupReplies) {
    env.destroy.Replied? && IsCleanup(env.destroy.value, intent, dispatch)
  }

  /** A cleanup succeeds when its intent was sealed before, when a receipt is at hand and
      one of two seal replies is in order, or when a failed destruction is reconciled. */
  predicate CleanupSucceeds(intent: CleanupIntent, cached: Option<CleanupReceipt>, env: CleanupReplies) {
    || (env.claim.Replied? && env.claim.value.CleanupSealed? &&
        IsCleanupSeal(env.claim.value.seal, intent, env.claim.value.seal.dispatch))
    || var dispatch := CleanupDispatchOf(intent, env);
       dispatch.Some? &&
       if cached.Some? || Destroys(intent, dispatch.value, env)
       then IsSealReply(env.seal, intent, dispatch.value) || IsSealReply(env.afterSealLost, intent, dispatch.value)
       else IsSealReply(env.afterDestroyFailed, intent, dispatch.value)
  }

  /** The ledger seals the very receipt it is given. */
  predicate RecordsWhatItIsGiven(env: CleanupReplies, receipt: CleanupReceipt) {
    && (env.seal.Replied? ==> env.seal.value.receipt == receipt)
    && (env.afterSealLost.Replied? ==> env.afterSealLost.value.receipt == receipt)
  }

  /** The receipt a binding keeps after a cleanup for `intent`: the first one in order. */
  function KeptAfter(intent: CleanupIntent, kept: Option<CleanupReceipt>, env: CleanupReplies): Option<CleanupReceipt> {
    var dispatch := CleanupDispatchOf(intent, env);
    if kept.None? && dispatch.Some? && Destroys(intent, dispatch.value, env) then Some(env.destroy.value) else kept
  }

  datatype Retry = Retry(intent: CleanupIntent, env: CleanupReplies)

  function KeptAfterAll(kept: Option<CleanupReceipt>, retries: seq<Retry>): Option<CleanupReceipt> {
    if retries == [] then kept
    else
      var last := retries[|retries| - 1];
      KeptAfter(last.intent, KeptAfterAll(kept, retries[..|retries| - 1]), last.env)
  }

  /** A retry for another reason or at another checkpoint than the kept receipt's, whose
      ledger records what it is given and has no seal of its own. */
  predicate IsForAnotherIntent(kept: CleanupReceipt, retry: Retry) {
    && retry.intent != kept.intent && RecordsWhatItIsGiven(retry.env, kept)
    && (retry.env.claim.Replied? ==> !retry.env.claim.value.CleanupSealed?)
  }

  lemma StaleReceiptNeverSeals(kept: CleanupReceipt, retry: Retry)
    requires IsForAnotherIntent(kept, retry)
    ensures !CleanupSucceeds(retry.intent, Some(kept), retry.env) && KeptAfter(retry.intent, Some(kept), retry.env) == Some(kept)
  {
  }

  /** A receipt kept from a cleanup whose seal was lost belongs to that cleanup's intent, and
      stays: no number of retries for other intents ever succeeds. */
  lemma {:induction false} LostSealBlocksOtherIntents(kept: CleanupReceipt, retries: seq<Retry>)
    requires forall retry :: retry in retries ==> IsForAnotherIntent(kept, retry)
    ensures KeptAfterAll(Some(kept), retries) == Some(kept)
    ensures forall i :: 0 <= i < |retries| ==>
              !CleanupSucceeds(retries[i].intent, KeptAfterAll(Some(kept), retries[..i]), retries[i].env)
    decreases |retries|
  {
    hide CleanupSucceeds, IsForAnotherIntent, KeptAfter;
    if retries != [] {
      var before, last := retries[..|retries| - 1], retries[|retries| - 1];
      LostSealBlocksOtherIntents(kept, before);
      assert last in retries;
      StaleReceiptNeverSeals(kept, last);
      assert forall i :: 0 <= i < |before| ==> before[..i] == retries[..i];
    }
  }

  /** With a ledger that answers and records, the retry succeeds exactly when the kept
      receipt is for this very intent and dispatch. */
  lemma RetrySucceedsExactly(intent: CleanupIntent, cached: CleanupReceipt, claimId: string, env: CleanupReplies)
    requires env.claim == Replied(CleanupDispatched(claimId, CleanupDispatch(claimId, intent)))
    requires env.seal == Replied(CleanupSeal(intent, CleanupDispatch(claimId, intent), cached))
    requires RecordsWhatItIsGiven(env, cached)
    ensures CleanupSucceeds(intent, Some(cached), env) <==> IsCleanup(cached, intent, CleanupDispatch(claimId, intent))
  {
  }

  /** The receipt came in a seal the ledger replied with. */
  predicate IsSealedReceipt(env: CleanupReplies, intent: CleanupIntent, receipt: CleanupReceipt) {
    || (env.claim.Replied? && env.claim.value.CleanupSealed? && env.claim.value.seal.receipt == receipt &&
        IsCleanupSeal(env.claim.value.seal, intent, receipt.dispatch))
    || (IsSealReply(env.seal, intent, receipt.dispatch) && env.seal.value.receipt == receipt)
    || (IsSealReply(env.afterSealLost, intent, receipt.dispatch) && env.afterSealLost.value.receipt == receipt)
    || (IsSealReply(env.afterDestroyFailed, intent, receipt.dispatch) && env.afterDestroyFailed.value.receipt == receipt)
  }

  /** What a cleanup is for: nothing of the attempt is left behind. */
  predicate IsCleanedUp(receipt: CleanupReceipt, grant: Grant, reason: Reason) {
    && receipt.intent.grant == grant && receipt.intent.reason == reason && receipt.dispatch.intent == receipt.intent
    && receipt.sourceReferencesRevoked && receipt.sandboxDestroyed && receipt.residualReferences == 0
  }

  // ---------------------------------------------------------------------------
  // The runtime
  // ---------------------------------------------------------------------------

  class Runtime {
    var bindings: map<string, Binding>

    constructor ()
      ensures bindings == map[]
    {
      bindings := map[];
    }

    function CleanupIntentOf(b: Binding, reason: Reason): CleanupIntent
      reads b`current
    {
      CleanupIntent(b.grant, b.sessionId, b.current.digest, reason)
    }

    /** `#destroyBinding`: a binding leaves the map only after a validated cleanup seal,
        and every failure leaves it bound. */
    method DestroyBinding(attemptId: string, b: Binding, reason: Reason, env: CleanupReplies)
      returns (r: Result<CleanupReceipt>)
      requires attemptId in bindings && bindings[attemptId] == b
      modifies this, b`cleanupReceipt
      ensures r.Ok? <==> CleanupSucceeds(CleanupIntentOf(b, reason), old(b.cleanupReceipt), env)
      ensures r.Ok? ==> bindings == old(bindings) - {attemptId}
      ensures r.Ok? ==> IsSealedReceipt(env, CleanupIntentOf(b, reason), r.value) && IsCleanedUp(r.value, b.grant, reason)
      ensures r.Err? ==> r == Err(CleanupFailed) && bindings == old(bindings)
      ensures b.cleanupReceipt == KeptAfter(CleanupIntentOf(b, reason), old(b.cleanupReceipt), env)
    {
      var intent := CleanupIntentOf(b, reason);
      if env.claim.Threw? {
        return Err(CleanupFailed);
      }
      var dispatch;
      match env.claim.value {
        case CleanupSealed(seal) =>
          if !IsCleanupSeal(seal, intent, seal.dispatch) {
            return Err(CleanupFailed);
          }
          bindings := bindings - {attemptId};
          return Ok(seal.receipt);
        case CleanupDispatched(claimId, d) =>
          dispatch := d;
          if d != CleanupDispatch(claimId, intent) {
            return Err(CleanupFailed);
          }
        case CleanupClaimed(claimId) =>
          if env.mark.Threw? || env.mark.value != CleanupDispatch(claimId, intent) {
            return Err(CleanupFailed);
          }
          dispatch := env.mark.value;
      }
      if b.cleanupReceipt.None? {
        if env.destroy.Threw? || !IsCleanup(env.destroy.value, intent, dispatch) {
          if !IsSealReply(env.afterDestroyFailed, intent, dispatch) {
            return Err(CleanupFailed);
          }
          bindings := bindings - {attemptId};
          return Ok(env.afterDestroyFailed.value.receipt);
        }
        b.cleanupReceipt := Some(env.destroy.value);
      }
      var seal;
      if IsSealReply(env.seal, intent, dispatch) {
        seal := env.seal.value;
      } else if IsSealReply(env.afterSealLost, intent, dispatch) {
        seal := env.afterSealLost.value;
      } else {
        return Err(CleanupFailed);
      }
      bindings := bindings - {attemptId};
      return Ok(seal.receipt);
    }

    /** `#unknownOperation`: the binding is destroyed before the operation is reported. */
    method UnknownOperation(attemptId: string, b: Binding, env: CleanupReplies) returns (r: Result<ToolOutput>)
      requires attemptId in bindings && bindings[attemptId] == b
      modifies this, b`cleanupReceipt
      ensures var intent := CleanupIntentOf(b, Failed);
              var cleaned := CleanupSucceeds(intent, old(b.cleanupReceipt), env);
              && r == Err(if cleaned then OperationUnknown else CleanupFailed)
              && bindings == (if cleaned then old(bindings) - {attemptId} else old(bindings))
              && b.cleanupReceipt == KeptAfter(intent, old(b.cleanupReceipt), env)
    {
      hide CleanupSucceeds, KeptAfter, IsSealedReceipt;
      var cleanup := DestroyBinding(attemptId, b, Failed, env);
      return Err(if cleanup.Ok? then OperationUnknown else CleanupFailed);
    }

    /** `#acceptSeal` on the dispatch path: the session must already be at the seal's
        checkpoint, and the binding follows. */
    method AcceptSeal(b: Binding, e: Effect, replies: ToolReplies) returns (r: Result<ToolOutput>)
      modifies b`current
      ensures r == if IsSealAcceptable(e, replies) then Ok(EffectOutput(e)) else Err(PersistenceInvalid)
      ensures b.current == if r.Ok? then e.checkpoint else old(b.current)
    {
      if 1 + |e.authorityReceipts| > MAXIMUM_AUTHORITY_RECEIPTS {
        return Err(PersistenceInvalid);
      }
      if replies.sessionCheckpoint != e.checkpoint.digest {
        return Err(PersistenceInvalid);
      }
      b.current := e.checkpoint;
      return Ok(EffectOutput(e));
    }

    /** `#sealStagedEffect`: seal, and on a lost reply reconcile and seal once more. */
    method SealStagedEffect(b: Binding, turnIndex: nat, preflight: Digest, x: Expectation, e: Effect, replies: ToolReplies)
      returns (r: Result<ToolOutput>)
      requires b.Valid() && IsHonestLedger(replies) && IsAcceptedEffect(b.digest, b.grant, x, b.current, e)
      modifies b`current, b`history, b`accepted, b`pending
      ensures b.Valid()
      ensures b.accepted == old(b.accepted) + if r.Ok? then [Accepted(x, e)] else []
      ensures r.Ok? <==> IsSealable(preflight, e) && IsSealAcknowledged(replies) && IsSealAcceptable(e, replies)
      ensures r.Ok? ==> r.value == EffectOutput(e) && b.current == e.checkpoint
      ensures r.Err? ==>
              r.failure == if !IsSealable(preflight, e) then OwnerReceiptInvalid
                           else if !replies.seal.answered && !replies.ledgerAnswersReconcile then OwnerError
                           else PersistenceInvalid
      ensures b.history == old(b.history) +
                if IsSealable(preflight, e) && IsSealRecorded(replies) then [Lineage.Sealed(turnIndex, Some(e), r.Ok?)] else []
    {
      assert e.snapshotBefore == b.current.base.snapshot && e.checkpoint.base.snapshot == e.snapshotAfter;
      RunGrows(b.digest, b.grant, b.initial, b.accepted, Accepted(x, e));
      hide Lineage.IsHistory, Lineage.Current, Lineage.LedgerHead, IsRun, CurrentAfter, IsAcceptedEffect, IsSealedRun;
      if preflight in e.authorityReceipts {
        return Err(OwnerReceiptInvalid);
      }
      if replies.seal.answered {
        r := AcceptSeal(b, e, replies);
      } else if !replies.ledgerAnswersReconcile {
        r := Err(OwnerError);
      } else if replies.seal.landed {
        r := AcceptSeal(b, e, replies);
      } else if replies.reseal.answered {
        r := AcceptSeal(b, e, replies);
      } else {
        r := Err(PersistenceInvalid);
      }
      if IsSealRecorded(replies) {
        Lineage.HistoryGrows(b.initial, b.history, Lineage.Sealed(turnIndex, Some(e), r.Ok?));
        SealedRunGrows(b.history, b.accepted, b.pending, turnIndex, Accepted(x, e), r.Ok?);
        b.history := b.history + [Lineage.Sealed(turnIndex, Some(e), r.Ok?)];
        b.pending := if r.Ok? then None else Some(Accepted(x, e));
      }
      if r.Ok? {
        b.accepted := b.accepted + [Accepted(x, e)];
      }
    }

    /** `#recoverStagedEffect`: ask the session for the staged effect, never repeat it. */
    method RecoverStagedEffect(attemptId: string, b: Binding, turnIndex: nat, preflight: Digest, x: Expectation,
                               replies: ToolReplies, cleanup: CleanupReplies)
      returns (r: Result<ToolOutput>)
      requires attemptId in bindings && bindings[attemptId] == b && b.Valid() && IsHonestLedger(replies)
      modifies this, b
      ensures b.Valid()
      ensures IsToolStep(b.digest, b.grant, x.intent, turnIndex, old(b.current), old(b.history), b.history, replies, r)
      ensures IsAcceptedStep(x.intent, old(b.accepted), b.accepted, replies, r)
      ensures var e := Obtained(b.digest, b.grant, x, old(b.current), replies, false);
              && (r.Ok? <==> e.Some? && IsCarriedThrough(preflight, e.value, replies))
              && (r.Ok? ==> r.value == EffectOutput(e.value) && b.current == e.value.checkpoint)
              && (e.Some? && r.Err? ==>
                    r.failure == if !IsSealable(preflight, e.value) then OwnerReceiptInvalid
                                 else if !replies.seal.answered && !replies.ledgerAnswersReconcile then OwnerError
                                 else PersistenceInvalid)
              && b.history == old(b.history) +
                   if e.Some? && IsSealable(preflight, e.value) && IsSealRecorded(replies)
                   then [Lineage.Sealed(turnIndex, e, r.Ok?)] else []
      ensures replies.recover.Threw? ==> r == Err(OwnerError)
      ensures replies.recover.Replied? && replies.recover.value.StagedEffect? &&
              !IsAcceptedEffect(b.digest, b.grant, x, old(b.current), replies.recover.value.effect) ==>
              r == Err(OwnerReceiptInvalid)
      ensures var intent := old(CleanupIntentOf(b, Failed));
              var unknown := replies.recover == Replied(NoTrace);
              var cleaned := CleanupSucceeds(intent, old(b.cleanupReceipt), cleanup);
              && (unknown ==> r == Err(if cleaned then OperationUnknown else CleanupFailed))
              && bindings == (if unknown && cleaned then old(bindings) - {attemptId} else old(bindings))
              && b.cleanupReceipt == (if unknown then KeptAfter(intent, old(b.cleanupReceipt), cleanup)
                                      else old(b.cleanupReceipt))
    {
      hide IsAcceptedEffect, Lineage.IsHistory, Lineage.Current, Lineage.LedgerHead, IsRun, CurrentAfter, IsSealedRun,
        CleanupSucceeds, KeptAfter;
      if replies.recover.Threw? {
        return Err(OwnerError);
      }
      if replies.recover.value.NoTrace? {
        r := UnknownOperation(attemptId, b, cleanup);
        return;
      }
      var e := replies.recover.value.effect;
      if !IsAcceptedEffect(b.digest, b.grant, x, b.current, e) {
        return Err(OwnerReceiptInvalid);
      }
      r := SealStagedEffect(b, turnIndex, preflight, x, e, replies);
    }

    /** What `executeTool` does once it holds a dispatch: execute, if the dispatch is its
        own, and recover what was staged when that fails. */
    method ExecuteDispatched(attemptId: string, b: Binding, turnIndex: nat, preflight: Digest, x: Expectation,
                             replies: ToolReplies, cleanup: CleanupReplies, executes: bool)
      returns (r: Result<ToolOutput>)
      requires attemptId in bindings && bindings[attemptId] == b && b.Valid() && IsHonestLedger(replies)
      modifies this, b
      ensures b.Valid()
      ensures IsToolStep(b.digest, b.grant, x.intent, turnIndex, old(b.current), old(b.history), b.history, replies, r)
      ensures IsAcceptedStep(x.intent, old(b.accepted), b.accepted, replies, r)
      ensures var e := Obtained(b.digest, b.grant, x, old(b.current), replies, executes);
              && (r.Ok? <==> e.Some? && IsCarriedThrough(preflight, e.value, replies))
              && (r.Ok? ==> r.value == EffectOutput(e.value) && IsOwnEffect(e.value, b.grant, x, old(b.current)) &&
                            b.current == e.value.checkpoint)
              && (e.Some? && r.Err? ==>
                    r.failure == if !IsSealable(preflight, e.value) then OwnerReceiptInvalid
                                 else if !replies.seal.answered && !replies.ledgerAnswersReconcile then OwnerError
                                 else PersistenceInvalid)
              && (e.None? && replies.recover.Threw? ==> r == Err(OwnerError))
              && (e.None? && replies.recover.Replied? && replies.recover.value.StagedEffect? ==>
                    r == Err(OwnerReceiptInvalid))
              && b.history == old(b.history) +
                   if e.Some? && IsSealable(preflight, e.value) && IsSealRecorded(replies)
                   then [Lineage.Sealed(turnIndex, e, r.Ok?)] else []
      ensures var intent := old(CleanupIntentOf(b, Failed));
              var unknown := replies.recover == Replied(NoTrace) &&
                             Obtained(b.digest, b.grant, x, old(b.current), replies, executes).None?;
              var cleaned := CleanupSucceeds(intent, old(b.cleanupReceipt), cleanup);
              && (unknown ==> r == Err(if cleaned then OperationUnknown else CleanupFailed))
              && bindings == (if unknown && cleaned then old(bindings) - {attemptId} else old(bindings))
              && b.cleanupReceipt == (if unknown then KeptAfter(intent, old(b.cleanupReceipt), cleanup)
                                      else old(b.cleanupReceipt))
    {
      hide IsAcceptedEffect, Lineage.IsHistory, Lineage.Current, Lineage.LedgerHead, IsRun, CurrentAfter, IsSealedRun,
        CleanupSucceeds, KeptAfter, IsSealable, IsSealAcceptable, IsOwnEffect;
      ghost var e := Obtained(b.digest, b.grant, x, b.current, replies, executes);
      if e.Some? {
        AcceptedIsOwn(b.digest, b.grant, x, b.current, e.value);
      }
      if executes && replies.execute.Replied? && IsAcceptedEffect(b.digest, b.grant, x, b.current, replies.execute.value) {
        r := SealStagedEffect(b, turnIndex, preflight, x, replies.execute.value, replies);
      } else {
        r := RecoverStagedEffect(attemptId, b, turnIndex, preflight, x, replies, cleanup);
      }
    }

    /** `executeTool`, after `#binding`: a call advances the binding only when it dispatched,
        and answers a replayed intent with what was sealed for it. */
    method ExecuteTool(attemptId: string, b: Binding, operationId: Digest, turnIndex: nat, maximumRepairRounds: nat,
                       replies: ToolReplies, cleanup: CleanupReplies)
      returns (r: Result<ToolOutput>)
      requires attemptId in bindings && bindings[attemptId] == b && b.Valid() && IsHonestLedger(replies)
      modifies this, b
      ensures b.Valid()
      ensures IsToolStep(b.digest, b.grant, operationId, turnIndex, old(b.current), old(b.history), b.history, replies, r)
      ensures IsAcceptedStep(operationId, old(b.accepted), b.accepted, replies, r)
      ensures b.history != old(b.history) ==> HoldsClaim(replies) && old(b.CanRestore(PriorOf(replies)))
      ensures replies.preflight.Threw? || replies.claim.Threw? ==> r == Err(OwnerError)
      ensures replies.preflight.Replied? && replies.claim == Replied(Denied) ==> r == Err(AuthorityDenied)
      ensures replies.preflight.Replied? && replies.claim.Replied? && replies.claim.value.AlreadySealed? ==>
              && b.current == old(b.current) && b.history == old(b.history)
              && r == if replies.claim.value.checkpoint.digest == old(b.current).digest ||
                         (replies.claim.value.output.EffectOutput? && replies.claim.value.output.effect.succeeded)
                      then Ok(replies.claim.value.output) else Err(PersistenceInvalid)
      ensures replies.preflight.Replied? && HoldsClaim(replies) && !old(b.CanRestore(PriorOf(replies))) ==>
              r == Err(PersistenceInvalid)
      ensures replies.preflight.Replied? && replies.claim.Replied? && replies.claim.value.FreshClaim? ==>
              !replies.preflight.value.ready && old(b.CanRestore(replies.claim.value.prior)) ==>
              && r == (if replies.rejection.answered then Ok(RejectedOutput(operationId)) else Err(OwnerError))
              && b.history == old(b.history) +
                   if replies.rejection.landed then [Lineage.Sealed(turnIndex, None, r.Ok?)] else []
      ensures replies.preflight.Replied? && replies.claim.Replied? && replies.claim.value.FreshClaim? ==>
              replies.preflight.value.ready && old(b.CanRestore(replies.claim.value.prior)) && replies.mark.Threw? ==>
              r == Err(OwnerError) && b.history == old(b.history)
      ensures replies.preflight.Replied? && HoldsClaim(replies) && old(b.CanRestore(PriorOf(replies))) ==>
              var d := DispatchOf(replies.claim.value, replies.preflight.value, replies.mark);
              d.Some? && (d.value.operationId != operationId || d.value.priorCheckpoint != old(b.current).digest) ==>
              r == Err(PersistenceInvalid) && b.history == old(b.history)
      ensures old(IsUnderDispatch(b, operationId, replies)) ==>
              var d := DispatchOf(replies.claim.value, replies.preflight.value, replies.mark).value;
              var preflight := replies.preflight.value;
              var x := ExpectationOf(operationId, d, preflight, maximumRepairRounds);
              var e := Obtained(b.digest, b.grant, x, old(b.current), replies, replies.claim.value.FreshClaim?);
              && (r.Ok? <==> e.Some? && IsCarriedThrough(preflight.digest, e.value, replies))
              && (r.Ok? ==> r.value == EffectOutput(e.value) && IsOwnEffect(e.value, b.grant, x, old(b.current)) &&
                            b.current == e.value.checkpoint)
              && (e.Some? && r.Err? ==>
                    r.failure == if !IsSealable(preflight.digest, e.value) then OwnerReceiptInvalid
                                 else if !replies.seal.answered && !replies.ledgerAnswersReconcile then OwnerError
                                 else PersistenceInvalid)
              && (e.None? && replies.recover.Threw? ==> r == Err(OwnerError))
              && (e.None? && replies.recover.Replied? && replies.recover.value.StagedEffect? ==>
                    r == Err(OwnerReceiptInvalid))
              && b.history == old(b.history) +
                   if e.Some? && IsSealable(preflight.digest, e.value) && IsSealRecorded(replies)
                   then [Lineage.Sealed(turnIndex, e, r.Ok?)] else []
      ensures var unknown :=
                old(IsUnknown(b, operationId, maximumRepairRounds, replies));
              var intent := old(CleanupIntentOf(b, Failed));
              var cleaned := CleanupSucceeds(intent, old(b.cleanupReceipt), cleanup);
              && (unknown ==> r == Err(if cleaned then OperationUnknown else CleanupFailed))
              && bindings == (if unknown && cleaned then old(bindings) - {attemptId} else old(bindings))
              && b.cleanupReceipt == (if unknown then KeptAfter(intent, old(b.cleanupReceipt), cleanup)
                                      else old(b.cleanupReceipt))
    {
      hide IsAcceptedEffect, Lineage.IsHistory, Lineage.Current, Lineage.LedgerHead, IsRun, CurrentAfter, IsSealedRun,
        CleanupSucceeds, KeptAfter, IsSealRecorded, IsSealAcknowledged, IsSealable, IsSealAcceptable, IsOwnEffect;
      if replies.preflight.Threw? || replies.claim.Threw? {
        return Err(OwnerError);
      }
      var preflight := replies.preflight.value;
      match replies.claim.value {
        case Denied => return Err(AuthorityDenied);
        case UnknownOperation =>
          r := UnknownOperation(attemptId, b, cleanup);
        case AlreadySealed(output, checkpoint) =>
          if checkpoint.digest != b.current.digest && IsRejected(output) {
            return Err(PersistenceInvalid);
          }
          return Ok(output);
        case AlreadyDispatched(prior, dispatch) =>
          if !b.CanRestore(prior) || !IsDispatch(dispatch, operationId, b.current) {
            return Err(PersistenceInvalid);
          }
          var x := ExpectationOf(operationId, dispatch, preflight, maximumRepairRounds);
          r := ExecuteDispatched(attemptId, b, turnIndex, preflight.digest, x, replies, cleanup, false);
        case FreshClaim(prior) =>
          if !b.CanRestore(prior) {
            return Err(PersistenceInvalid);
          }
          if !preflight.ready {
            r := SealRejection(b, operationId, turnIndex, replies);
            return;
          }
          if replies.mark.Threw? {
            return Err(OwnerError);
          }
          if !IsDispatch(replies.mark.value, operationId, b.current) {
            return Err(PersistenceInvalid);
          }
          var x := ExpectationOf(operationId, replies.mark.value, preflight, maximumRepairRounds);
          r := ExecuteDispatched(attemptId, b, turnIndex, preflight.digest, x, replies, cleanup, true);
      }
    }

    /** A rejected preflight is sealed with the current checkpoint and moves nothing. */
    method SealRejection(b: Binding, operationId: Digest, turnIndex: nat, replies: ToolReplies)
      returns (r: Result<ToolOutput>)
      requires b.Valid() && IsHonestLedger(replies)
      modifies b`history, b`pending
      ensures b.Valid()
      ensures r == if replies.rejection.answered then Ok(RejectedOutput(operationId)) else Err(OwnerError)
      ensures b.history == old(b.history) +
                if replies.rejection.landed then [Lineage.Sealed(turnIndex, None, r.Ok?)] else []
    {
      hide Lineage.IsHistory, Lineage.Current, Lineage.LedgerHead, IsRun, CurrentAfter, IsAcceptedEffect, IsSealedRun;
      r := if replies.rejection.answered then Ok(RejectedOutput(operationId)) else Err(OwnerError);
      if replies.rejection.landed {
        Lineage.HistoryGrows(b.initial, b.history, Lineage.Sealed(turnIndex, None, r.Ok?));
        SealedRunStays(b.history, b.accepted, b.pending, Lineage.Sealed(turnIndex, None, r.Ok?));
        b.history := b.history + [Lineage.Sealed(turnIndex, None, r.Ok?)];
        b.pending := None;
      }
    }

    // -------------------------------------------------------------------------
    // The final assessment
    // -------------------------------------------------------------------------

    /** The part of `assessFinal` whose failure is kept until the cleanup is done. */
    method Assess(b: Binding, input: FinalInput, env: FinalReplies) returns (a: Result<Assessment>)
      ensures a.Ok? <==> IsAssessable(b.initial.base.snapshot, b.current, input, env)
      ensures a.Ok? ==>
                var authority := env.authority.value;
                && IsConserved(env.seals.value, a.value)
                && a.value.repairRoundCount == authority.repairRoundCount == input.submission.repairRoundCount
                && a.value.repairRoundCount == Total(SealedRepairs, env.seals.value)
                && (a.value.passed <==> authority.proposalPassed && authority.verification.passed)
                && authority.verification.passed == input.submission.verdictPassed
                && authority.finalSnapshot == b.current.base.snapshot && authority.finalCheckpoint == b.current.digest
                && authority.plan == input.submission.plan && authority.closure == input.submission.closure
                && authority.publicScan.safe && authority.publicScan.intent == input.submission.assessmentIntent
                && (authority.preview.Some? ==> input.requiresPreview)
                && (a.value.passed && input.requiresPreview ==> authority.preview.Some?)
      ensures a.Err? ==> FailsWith(input, env, a.failure)
    {
      hide IsFinalAuthority, SortBy, Total, IsWellReceipted, IsResolved;
      if env.seals.Threw? {
        return Err(OwnerError);
      }
      var seals := env.seals.value;
      if SortBy(Digests, ReceiptsOf(seals)) != SortBy(Digests, input.toolReceipts) {
        return Err(PersistenceInvalid);
      }
      var resolved: seq<Artifact> := [];
      while |resolved| < |input.artifacts|
        invariant |resolved| <= |input.artifacts|
        invariant AllResolved(input.artifacts, env.resolve, |resolved|)
        invariant resolved == ResolvedOf(env.resolve, |resolved|)
      {
        var i := |resolved|;
        var reply := env.resolve(i);
        if reply.Threw? {
          return Err(OwnerError);
        }
        if !IsSameArtifact(reply.value, input.artifacts[i]) {
          return Err(OwnerReceiptInvalid);
        }
        resolved := resolved + [reply.value];
      }
      if SortBy(input.artifactKey, ArtifactsOf(seals)) != SortBy(input.artifactKey, resolved) {
        return Err(OwnerReceiptInvalid);
      }
      if env.authority.Threw? {
        return Err(OwnerError);
      }
      var authority := env.authority.value;
      if !IsFinalAuthority(b.initial.base.snapshot, b.current, seals, resolved, input.submission, authority) {
        return Err(OwnerReceiptInvalid);
      }
      if !IsPreviewAsRequired(input.requiresPreview, authority) {
        return Err(OwnerReceiptInvalid);
      }
      if Total(Bytes, resolved) > MAXIMUM_AGGREGATE_ARTIFACT_BYTES {
        return Err(OwnerReceiptInvalid);
      }
      AuthorityIsOfThisState(b.initial.base.snapshot, b.current, seals, resolved, input.submission, authority);
      DurableSubmissionIsConserved(input.artifactKey, seals, input.toolReceipts, resolved,
                                   authority.repairRoundCount, Passes(authority));
      a := Ok(Assessment(|input.toolReceipts|, Total(Commands, input.toolReceipts),
                         Total(Transactions, input.toolReceipts), |resolved|, Total(Bytes, resolved),
                         authority.repairRoundCount, Passes(authority)));
    }

    /** `assessFinal`, after `#binding`: whatever the assessment, the binding is destroyed
        before the result is given; only a failed cleanup leaves the attempt bound. */
    method AssessFinal(attemptId: string, b: Binding, input: FinalInput, env: FinalReplies, cleanup: CleanupReplies)
      returns (r: Result<(Assessment, CleanupReceipt)>)
      requires attemptId in bindings && bindings[attemptId] == b
      modifies this, b`cleanupReceipt
      ensures var assessable := IsAssessable(b.initial.base.snapshot, b.current, input, env);
              var passed := assessable && env.authority.value.proposalPassed && env.authority.value.verification.passed;
              var reason := if passed then Completed else Failed;
              var cleaned := CleanupSucceeds(CleanupIntentOf(b, reason), old(b.cleanupReceipt), cleanup);
              && (r.Ok? <==> assessable && cleaned)
              && (r.Ok? ==> IsSealedReceipt(cleanup, CleanupIntentOf(b, reason), r.value.1))
              && (r.Ok? ==> r.value.0.passed == passed && IsCleanedUp(r.value.1, b.grant, reason))
              && bindings == if cleaned then old(bindings) - {attemptId} else old(bindings)
      ensures attemptId in bindings <==> r == Err(CleanupFailed)
      ensures r.Err? && attemptId !in bindings ==> FailsWith(input, env, r.failure)
      ensures r.Ok? ==> IsConserved(env.seals.value, r.value.0)
    {
      hide IsAssessable, CleanupSucceeds, IsConserved, IsSealedReceipt;
      var assessment := Assess(b, input, env);
      var reason := if assessment.Ok? && assessment.value.passed then Completed else Failed;
      var receipt := DestroyBinding(attemptId, b, reason, cleanup);
      if receipt.Err? {
        return Err(CleanupFailed);
      }
      if assessment.Err? {
        return Err(assessment.failure);
      }
      return Ok((assessment.value, receipt.value));
    }

    // -------------------------------------------------------------------------
    // Sessions without a binding
    // -------------------------------------------------------------------------

    /** `#destroyOrphan`: as `#destroyBinding`, without a binding or a kept receipt. */
    method DestroyOrphan(orphan: Orphan, env: CleanupReplies) returns (r: Result<CleanupReceipt>)
      ensures r.Ok? <==> CleanupSucceeds(OrphanIntent(orphan), None, env)
      ensures r.Ok? ==> IsSealedReceipt(env, OrphanIntent(orphan), r.value) && IsCleanedUp(r.value, orphan.grant, Orphaned)
    {
      var intent := OrphanIntent(orphan);
      if env.claim.Threw? {
        return Err(OwnerError);
      }
      var dispatch;
      match env.claim.value {
        case CleanupSealed(seal) =>
          return if IsCleanupSeal(seal, intent, seal.dispatch) then Ok(seal.receipt) else Err(PersistenceInvalid);
        case CleanupDispatched(claimId, d) =>
          dispatch := d;
          if d != CleanupDispatch(claimId, intent) {
            return Err(PersistenceInvalid);
          }
        case CleanupClaimed(claimId) =>
          if env.mark.Threw? || env.mark.value != CleanupDispatch(claimId, intent) {
            return Err(PersistenceInvalid);
          }
          dispatch := env.mark.value;
      }
      if env.destroy.Threw? || !IsCleanup(env.destroy.value, intent, dispatch) {
        return if IsSealReply(env.afterDestroyFailed, intent, dispatch)
               then Ok(env.afterDestroyFailed.value.receipt) else Err(PersistenceInvalid);
      }
      if IsSealReply(env.seal, intent, dispatch) {
        return Ok(env.seal.value.receipt);
      }
      return if IsSealReply(env.afterSealLost, intent, dispatch)
             then Ok(env.afterSealLost.value.receipt) else Err(PersistenceInvalid);
    }

    /** `discardAttempt`: a bound attempt is destroyed, an unbound one swept when exactly
        one orphan is its. */
    method DiscardAttempt(attemptId: string, orphans: Reply<seq<Orphan>>, env: CleanupReplies)
      returns (r: Result<Option<CleanupReceipt>>)
      modifies this, bindings.Values
      ensures attemptId in old(bindings) ==>
                && (r.Ok? <==> attemptId !in bindings) && (r.Ok? ==> r.value.Some?)
                && (r.Err? ==> r == Err(CleanupFailed))
      ensures attemptId !in old(bindings) ==>
                (r.Ok? <==> && orphans.Replied?
                            && var own := OrphansOf(attemptId, orphans.value);
                               own == [] || (|own| == 1 && CleanupSucceeds(OrphanIntent(own[0]), None, env)))
      ensures bindings == if r.Ok? then old(bindings) - {attemptId} else old(bindings)
      ensures r.Ok? && r.value.Some? ==>
              if attemptId in old(bindings)
              then IsSealedReceipt(env, old(CleanupIntentOf(bindings[attemptId], Discarded)), r.value.value)
              else orphans.Replied? && exists o ::
                && o in orphans.value && o.grant.attemptId == attemptId
                && IsSealedReceipt(env, OrphanIntent(o), r.value.value)
      ensures r.Ok? && r.value.None? ==>
              orphans.Replied? && forall o :: o in orphans.value ==> o.grant.attemptId != attemptId
    {
      hide IsSealedReceipt, CleanupSucceeds;
      if attemptId in bindings {
        var receipt := DestroyBinding(attemptId, bindings[attemptId], Discarded, env);
        return if receipt.Ok? then Ok(Some(receipt.value)) else Err(receipt.failure);
      }
      if orphans.Threw? {
        return Err(OwnerError);
      }
      var matching := OrphansOf(attemptId, orphans.value);
      if |matching| > 1 {
        return Err(PersistenceInvalid);
      }
      if matching == [] {
        return Ok(None);
      }
      var receipt := DestroyOrphan(matching[0], env);
      assert matching[0] in matching;
      return if receipt.Ok? then Ok(Some(receipt.value)) else Err(receipt.failure);
    }
  }

  datatype Orphan = Orphan(grant: Grant, sessionId: string, current: Checkpoint)

  function OrphanIntent(o: Orphan): CleanupIntent {
    CleanupIntent(o.grant, o.sessionId, o.current.digest, Orphaned)
  }

  function OrphansOf(attemptId: string, orphans: seq<Orphan>): (r: seq<Orphan>)
    ensures forall o :: o in r <==> o in orphans && o.grant.attemptId == attemptId
  {
    if orphans == [] then []
    else
      assert orphans == [orphans[0]] + orphans[1..];
      (if orphans[0].grant.attemptId == attemptId then [orphans[0]] else []) + OrphansOf(attemptId, orphans[1..])
  }

  // ---------------------------------------------------------------------------
  // What a final assessment is given
  // ---------------------------------------------------------------------------

  const MAXIMUM_AGGREGATE_ARTIFACT_BYTES: nat := 8388608

  datatype FinalInput = FinalInput(
    toolReceipts: seq<ToolReceipt>,
    artifacts: seq<Artifact>,
    artifactKey: Artifact -> nat,
    submission: Submission,
    requiresPreview: bool)

  datatype FinalReplies = FinalReplies(
    seals: Reply<seq<StoredSeal>>,
    resolve: nat -> Reply<Artifact>,
    authority: Reply<FinalAuthority>)

  /** The persistence receipt is the session's to give. */
  predicate IsSameArtifact(resolved: Artifact, submitted: Artifact) {
    resolved == submitted.(persistence := resolved.persistence)
  }

  predicate AllResolved(artifacts: seq<Artifact>, resolve: nat -> Reply<Artifact>, n: nat)
    requires n <= |artifacts|
  {
    forall i: nat :: i < n ==> resolve(i).Replied? && IsSameArtifact(resolve(i).value, artifacts[i])
  }

  function ResolvedOf(resolve: nat -> Reply<Artifact>, n: nat): seq<Artifact>
    requires forall i: nat :: i < n ==> resolve(i).Replied?
  {
    seq(n, i requires 0 <= i < n => resolve(i).value)
  }

  predicate Passes(authority: FinalAuthority) {
    authority.proposalPassed && authority.verification.passed
  }

  predicate IsPreviewAsRequired(required: bool, authority: FinalAuthority) {
    (!required ==> authority.preview.None?) && (Passes(authority) && required ==> authority.preview.Some?)
  }

  /** The first thing out of order decides how an assessment fails. */
  ghost predicate FailsWith(input: FinalInput, env: FinalReplies, failure: Failure) {
    if env.seals.Threw? then failure == OwnerError
    else if SortBy(Digests, ReceiptsOf(env.seals.value)) != SortBy(Digests, input.toolReceipts) then
      failure == PersistenceInvalid
    else if AllResolved(input.artifacts, env.resolve, |input.artifacts|) then
      var resolved := ResolvedOf(env.resolve, |input.artifacts|);
      failure == if SortBy(input.artifactKey, ArtifactsOf(env.seals.value)) == SortBy(input.artifactKey, resolved) &&
                    env.authority.Threw?
                 then OwnerError else OwnerReceiptInvalid
    else
      exists i :: 0 <= i < |input.artifacts| && AllResolved(input.artifacts, env.resolve, i) &&
                  if env.resolve(i).Threw? then failure == OwnerError
                  else !IsSameArtifact(env.resolve(i).value, input.artifacts[i]) && failure == OwnerReceiptInvalid
  }

  /** An authority that is accepted speaks of the checkpoint reached and of what was submitted. */
  lemma AuthorityIsOfThisState(base: Digest, current: Checkpoint, seals: seq<StoredSeal>, resolved: seq<Artifact>,
                               submission: Submission, authority: FinalAuthority)
    requires IsFinalAuthority(base, current, seals, resolved, submission, authority)
    ensures authority.finalSnapshot == current.base.snapshot && authority.finalCheckpoint == current.digest
    ensures authority.repairRoundCount == submission.repairRoundCount == Total(SealedRepairs, seals)
    ensures authority.verification.passed == submission.verdictPassed
    ensures authority.plan == submission.plan && authority.closure == submission.closure
    ensures authority.publicScan.safe && authority.publicScan.intent == submission.assessmentIntent
  {
    RepairsAreSealed(seals);
  }

  /** What it takes to pass: everything listed, resolved, compared and signed off. */
  ghost predicate IsAssessable(base: Digest, current: Checkpoint, input: FinalInput, env: FinalReplies) {
    && env.seals.Replied? && env.authority.Replied?
    && AllResolved(input.artifacts, env.resolve, |input.artifacts|)
    && var resolved := ResolvedOf(env.resolve, |input.artifacts|);
    && IsSubmissionDurable(input.artifactKey, env.seals.value, input.toolReceipts, resolved)
    && IsFinalAuthority(base, current, env.seals.value, resolved, input.submission, env.authority.value)
    && IsPreviewAsRequired(input.requiresPreview, env.authority.value)
    && Total(Bytes, resolved) <= MAXIMUM_AGGREGATE_ARTIFACT_BYTES
  }

  // ---------------------------------------------------------------------------
  // What a passing assessment tells of the run
  // ---------------------------------------------------------------------------

  /** An effect of this kind was accepted before the first snapshot change. */
  predicate CameBeforeChanges(run: seq<Accepted>, kind: EffectKind) {
    exists i :: 0 <= i < |run| && run[i].effect.kind == kind && forall j: nat :: j < |run| && ChangeAt(run, j) ==> i < j
  }

  /** The seals as the ledger lists them, in an order that keeps each turn's own order. */
  ghost predicate IsListingOf(seals: seq<StoredSeal>, history: seq<Lineage.Event>) {
    forall turn :: Lineage.OfTurn(ListingOf(seals), turn) == Lineage.OfTurn(Lineage.SealsOf(history), turn)
  }

  /** Sorted by turn, listed seals give back the effects of the binding's run. */
  lemma ListedEffectsAreTheRun(b: Binding, seals: seq<StoredSeal>)
    requires b.Valid() && Lineage.AllAcknowledged(b.history)
    requires IsListingOf(seals, b.history) && Lineage.IsSortedByTurn(Lineage.SealsOf(b.history))
    ensures Lineage.EffectsOf(Lineage.StableSort(ListingOf(seals))) == EffectsOfRun(b.accepted)
  {
    hide Lineage.IsSortedByTurn, Lineage.IsHistory, IsRun, ListingOf;
    var listed := ListingOf(seals);
    Lineage.StableSortIsStable(listed);
    Lineage.SortedByTurnIsDetermined(Lineage.StableSort(listed), Lineage.SealsOf(b.history));
    Lineage.SealsHaveTheEffects(b.history);
  }

  /** Whatever the order the attempt worked in, an authority that passes over its listed and
      acknowledged seals shows a proposal dry run, and with a preview the preview, accepted
      before the first transaction. */
  lemma AssessedEffectsCameFirst(b: Binding, seals: seq<StoredSeal>, resolved: seq<Artifact>, submission: Submission,
                                 authority: FinalAuthority)
    requires b.Valid() && IsInjective(b.digest)
    requires IsFinalAuthority(b.initial.base.snapshot, b.current, seals, resolved, submission, authority)
    requires Lineage.AllAcknowledged(b.history)
    requires IsListingOf(seals, b.history) && Lineage.IsSortedByTurn(Lineage.SealsOf(b.history))
    requires forall a :: a in b.accepted ==> a.expectation.kind != Some(RejectedKind)
    ensures CameBeforeChanges(b.accepted, ProposalDryRun)
    ensures authority.preview.Some? ==> CameBeforeChanges(b.accepted, ControlledPreview)
  {
    ListedEffectsAreTheRun(b, seals);
    hide Lineage.IsSortedByTurn, IsListingOf, IsRun, Lineage.StableSort, Lineage.Fold;
    var effects := EffectsOfRun(b.accepted);
    KindCameFirst(b, FirstOfKind(effects, ProposalDryRun).value);
    if authority.preview.Some? {
      KindCameFirst(b, FirstOfKind(effects, ControlledPreview).value);
    }
  }

  lemma KindCameFirst(b: Binding, e: Effect)
    requires b.Valid() && IsInjective(b.digest) && e in EffectsOfRun(b.accepted)
    requires e.kind.ProposalDryRun? || e.kind.ControlledPreview?
    requires forall a :: a in b.accepted ==> a.expectation.kind != Some(RejectedKind)
    ensures CameBeforeChanges(b.accepted, e.kind)
  {
    hide IsRun, IsInjective, ChangeAt;
    var i :| 0 <= i < |b.accepted| && EffectsOfRun(b.accepted)[i] == e;
    assert b.accepted[i] in b.accepted;
    forall j: nat | j < |b.accepted| && ChangeAt(b.accepted, j) ensures i < j {
      PreservingEffectsComeFirst(b.digest, b.grant, b.initial, b.accepted, i, j);
    }
  }
}
