/** What the final assessment compares and counts: tool receipts and artifacts submitted by
    the attempt against those its durable seals hold. */
module FinalReceipts {
  import opened Wrappers
  import opened Checkpoints
  import Lineage

  datatype Artifact = Artifact(kind: ArtifactKind, ref: string, digest: Digest, byteLength: nat, persistence: Digest)

  datatype ToolReceipt = ToolReceipt(
    receiptDigest: Digest,
    turnIndex: nat,
    artifacts: seq<Artifact>,
    commandReceipts: seq<Digest>,
    transactionReceipts: seq<Digest>)

  datatype StoredSeal = StoredSeal(receipt: ToolReceipt, effect: Option<Effect>)

  // ---------------------------------------------------------------------------
  // Sorting and counting
  // ---------------------------------------------------------------------------

  function InsertBy<T>(key: T -> nat, x: T, s: seq<T>): seq<T> {
    if s == [] || key(x) <= key(s[0]) then [x] + s else [s[0]] + InsertBy(key, x, s[1..])
  }

  function SortBy<T>(key: T -> nat, s: seq<T>): seq<T> {
    if s == [] then [] else InsertBy(key, s[0], SortBy(key, s[1..]))
  }

  lemma {:induction false} InsertKeepsAll<T>(key: T -> nat, x: T, s: seq<T>)
    ensures multiset(InsertBy(key, x, s)) == multiset(s) + multiset{x}
  {
    if s != [] && key(x) > key(s[0]) {
      InsertKeepsAll(key, x, s[1..]);
      assert s == [s[0]] + s[1..];
    }
  }

  lemma {:induction false} SortKeepsAll<T>(key: T -> nat, s: seq<T>)
    ensures multiset(SortBy(key, s)) == multiset(s)
  {
    if s != [] {
      SortKeepsAll(key, s[1..]);
      InsertKeepsAll(key, s[0], SortBy(key, s[1..]));
      assert s == [s[0]] + s[1..];
    }
  }

  function Total<T>(amount: T -> nat, s: seq<T>): nat {
    if s == [] then 0 else amount(s[0]) + Total(amount, s[1..])
  }

  lemma {:induction false} TotalOfConcatenation<T>(amount: T -> nat, s: seq<T>, t: seq<T>)
    ensures Total(amount, s + t) == Total(amount, s) + Total(amount, t)
  {
    if s == [] {
      assert s + t == t;
    } else {
      assert (s + t)[1..] == s[1..] + t;
      TotalOfConcatenation(amount, s[1..], t);
    }
  }

  function Without<T>(s: seq<T>, i: nat): seq<T>
    requires i < |s|
  {
    s[..i] + s[i + 1..]
  }

  lemma TotalOfCons<T>(amount: T -> nat, x: T, s: seq<T>)
    ensures Total(amount, [x] + s) == amount(x) + Total(amount, s)
  {
    assert ([x] + s)[1..] == s;
  }

  lemma WithoutOne<T>(amount: T -> nat, s: seq<T>, i: nat)
    requires i < |s|
    ensures multiset(s) == multiset(Without(s, i)) + multiset{s[i]}
    ensures Total(amount, s) == Total(amount, Without(s, i)) + amount(s[i])
  {
    hide Total;
    var before, x, after := s[..i], s[i], s[i + 1..];
    assert s == before + ([x] + after);
    TotalOfConcatenation(amount, before, [x] + after);
    TotalOfCons(amount, x, after);
    TotalOfConcatenation(amount, before, after);
    assert multiset([x] + after) == multiset{x} + multiset(after);
  }

  /** A total does not depend on the order. */
  lemma {:induction false} TotalIsOrderFree<T>(amount: T -> nat, s: seq<T>, t: seq<T>)
    requires multiset(s) == multiset(t)
    ensures Total(amount, s) == Total(amount, t)
    decreases |s|
  {
    assert |s| == |multiset(s)| == |multiset(t)| == |t|;
    if s != [] {
      assert s[0] in multiset(t);
      var i :| 0 <= i < |t| && t[i] == s[0];
      WithoutOne(amount, s, 0);
      WithoutOne(amount, t, i);
      hide Total;
      CancelOne(multiset(Without(s, 0)), multiset(Without(t, i)), s[0]);
      TotalIsOrderFree(amount, Without(s, 0), Without(t, i));
    }
  }

  lemma CancelOne<T>(a: multiset<T>, b: multiset<T>, x: T)
    requires a + multiset{x} == b + multiset{x}
    ensures a == b
  {
    assert a == a + multiset{x} - multiset{x};
    assert b == b + multiset{x} - multiset{x};
  }

  /** Comparing two lists after sorting them by a key forces equal totals of anything. */
  lemma SortedComparisonConserves<T>(key: T -> nat, amount: T -> nat, s: seq<T>, t: seq<T>)
    requires SortBy(key, s) == SortBy(key, t)
    ensures multiset(s) == multiset(t) && |s| == |t|
    ensures Total(amount, s) == Total(amount, t)
  {
    SortKeepsAll(key, s);
    SortKeepsAll(key, t);
    assert |s| == |multiset(s)| == |multiset(t)| == |t|;
    TotalIsOrderFree(amount, s, t);
  }

  // ---------------------------------------------------------------------------
  // Seals
  // ---------------------------------------------------------------------------

  function ReceiptsOf(seals: seq<StoredSeal>): seq<ToolReceipt> {
    seq(|seals|, i requires 0 <= i < |seals| => seals[i].receipt)
  }

  function ArtifactsOf(seals: seq<StoredSeal>): seq<Artifact> {
    if seals == [] then [] else seals[0].receipt.artifacts + ArtifactsOf(seals[1..])
  }

  function ListingOf(seals: seq<StoredSeal>): seq<Lineage.Event> {
    seq(|seals|, i requires 0 <= i < |seals| => Lineage.Sealed(seals[i].receipt.turnIndex, seals[i].effect, true))
  }

  function Digests(r: ToolReceipt): nat { r.receiptDigest }
  function Commands(r: ToolReceipt): nat { |r.commandReceipts| }
  function Transactions(r: ToolReceipt): nat { |r.transactionReceipts| }
  function Bytes(a: Artifact): nat { a.byteLength }
  function SealedCommands(s: StoredSeal): nat { |s.receipt.commandReceipts| }
  function SealedTransactions(s: StoredSeal): nat { |s.receipt.transactionReceipts| }
  function SealedArtifacts(s: StoredSeal): nat { |s.receipt.artifacts| }
  function SealedBytes(s: StoredSeal): nat { Total(Bytes, s.receipt.artifacts) }

  lemma {:induction false} ReceiptTotals(seals: seq<StoredSeal>)
    ensures Total(Commands, ReceiptsOf(seals)) == Total(SealedCommands, seals)
    ensures Total(Transactions, ReceiptsOf(seals)) == Total(SealedTransactions, seals)
  {
    if seals != [] {
      ReceiptTotals(seals[1..]);
      assert ReceiptsOf(seals)[1..] == ReceiptsOf(seals[1..]);
    }
  }

  lemma {:induction false} ArtifactTotals(seals: seq<StoredSeal>)
    ensures |ArtifactsOf(seals)| == Total(SealedArtifacts, seals)
    ensures Total(Bytes, ArtifactsOf(seals)) == Total(SealedBytes, seals)
  {
    if seals != [] {
      ArtifactTotals(seals[1..]);
      TotalOfConcatenation(Bytes, seals[0].receipt.artifacts, ArtifactsOf(seals[1..]));
    }
  }

  // ---------------------------------------------------------------------------
  // The final authority
  // ---------------------------------------------------------------------------

  /** The reference and digest of a submitted plan or closure. */
  datatype ArtifactClaim = ArtifactClaim(ref: string, digest: Digest)

  datatype FinalAuthority = FinalAuthority(
    finalSnapshot: Digest,
    finalCheckpoint: Digest,
    proposalPassed: bool,
    proposalReceipt: Digest,
    verification: G3Verification,
    plan: ArtifactClaim,
    closure: ArtifactClaim,
    repairRoundCount: nat,
    preview: Option<Digest>,
    authorityReceipts: seq<Digest>,
    publicScan: PublicScan)

  /** What the submission says of its plan and closure, and the intent of the assessment. */
  datatype Submission = Submission(
    plan: ArtifactClaim,
    closure: ArtifactClaim,
    verdictPassed: bool,
    repairRoundCount: nat,
    assessmentIntent: Digest)

  function Repairs(e: Effect): nat {
    if e.kind.RepairTransaction? then 1 else 0
  }

  predicate IsResolved(resolved: seq<Artifact>, kind: ArtifactKind, claim: ArtifactClaim) {
    exists a :: a in resolved && a.kind == kind && a.ref == claim.ref && a.digest == claim.digest
  }

  /** The authority's receipts, sorted and few, cover its scan and its verification grants. */
  predicate IsWellReceipted(authority: FinalAuthority, assessmentIntent: Digest) {
    && IsStrictlyIncreasing(authority.authorityReceipts)
    && 1 <= |authority.authorityReceipts| <= MAXIMUM_AUTHORITY_RECEIPTS
    && authority.publicScan.intent == assessmentIntent && authority.publicScan.safe
    && authority.publicScan.receipt in authority.authorityReceipts
    && authority.publicScan.fingerprint in authority.authorityReceipts
    && IsStrictlyIncreasing(authority.verification.attemptGrants) && authority.verification.attemptGrants != []
    && forall d :: d in authority.verification.attemptGrants ==> d in authority.authorityReceipts
  }

  /** `verifyFinalAuthority`. */
  predicate IsFinalAuthority(base: Digest, current: Checkpoint, seals: seq<StoredSeal>, resolved: seq<Artifact>,
                             submission: Submission, authority: FinalAuthority)
  {
    var effects := Lineage.EffectsOf(Lineage.StableSort(ListingOf(seals)));
    && authority.finalSnapshot == current.base.snapshot
    && authority.finalCheckpoint == current.digest
    && Lineage.Fold(base, effects) == Some(authority.finalSnapshot)
    && FirstOfKind(effects, ProposalDryRun).Some?
    && FirstOfKind(effects, ProposalDryRun).value.dryRun.Some?
    && FirstOfKind(effects, ProposalDryRun).value.dryRun.value.receipt == authority.proposalReceipt
    && LastVerification(effects) == Some(authority.verification)
    && authority.repairRoundCount == Total(Repairs, effects) == submission.repairRoundCount
    && authority.plan == submission.plan && authority.closure == submission.closure
    && authority.verification.passed == submission.verdictPassed
    && IsResolved(resolved, VerificationPlan, authority.plan)
    && IsResolved(resolved, VerificationClosure, authority.closure)
    && (authority.preview.Some? ==>
          && FirstOfKind(effects, ControlledPreview).Some?
          && FirstOfKind(effects, ControlledPreview).value.preview == authority.preview)
    && IsWellReceipted(authority, submission.assessmentIntent)
  }

  /** The first effect of a kind is the one the authority is compared with. */
  function FirstOfKind(effects: seq<Effect>, kind: EffectKind): (first: Option<Effect>)
    ensures first.Some? ==> first.value in effects && first.value.kind == kind
    ensures first.Some? ==>
            exists i :: 0 <= i < |effects| && effects[i] == first.value && forall j :: 0 <= j < i ==> effects[j].kind != kind
    ensures first.None? ==> forall e :: e in effects ==> e.kind != kind
  {
    if effects == [] then None
    else if effects[0].kind == kind then Some(effects[0])
    else
      assert forall j :: 0 < j < |effects| ==> effects[j] == effects[1..][j - 1];
      FirstOfKind(effects[1..], kind)
  }

  /** The last verification is the one that counts. */
  function LastVerification(effects: seq<Effect>): (last: Option<G3Verification>)
    ensures last.Some? ==>
            exists i :: 0 <= i < |effects| && effects[i].g3 == last && forall j :: i < j < |effects| ==> effects[j].g3.None?
    ensures last.None? ==> forall e :: e in effects ==> e.g3.None?
  {
    if effects == [] then None
    else if effects[|effects| - 1].g3.Some? then effects[|effects| - 1].g3
    else
      assert forall j :: 0 <= j < |effects| - 1 ==> effects[j] == effects[..|effects| - 1][j];
      LastVerification(effects[..|effects| - 1])
  }

  // ---------------------------------------------------------------------------
  // Repairs
  // ---------------------------------------------------------------------------

  /** One for a seal whose effect is a repair. */
  function SealedRepairs(s: StoredSeal): nat {
    if s.effect.Some? && s.effect.value.kind.RepairTransaction? then 1 else 0
  }

  function EventRepairs(event: Lineage.Event): nat {
    if event.Sealed? && event.effect.Some? then Repairs(event.effect.value) else 0
  }

  lemma {:induction false} RepairsOfEffects(events: seq<Lineage.Event>)
    ensures Total(Repairs, Lineage.EffectsOf(events)) == Total(EventRepairs, events)
    decreases |events|
  {
    if events != [] {
      var before, last := events[..|events| - 1], events[|events| - 1];
      RepairsOfEffects(before);
      assert events == before + [last];
      TotalOfConcatenation(EventRepairs, before, [last]);
      TotalOfCons(EventRepairs, last, []);
      assert [last] + [] == [last];
      if last.Sealed? && last.effect.Some? {
        TotalOfConcatenation(Repairs, Lineage.EffectsOf(before), [last.effect.value]);
        TotalOfCons(Repairs, last.effect.value, []);
        assert [last.effect.value] + [] == [last.effect.value];
      } else {
        assert Lineage.EffectsOf(before) + [] == Lineage.EffectsOf(before);
      }
    }
  }

  lemma {:induction false} InsertKeepsEvents(event: Lineage.Event, s: seq<Lineage.Event>)
    ensures multiset(Lineage.Insert(event, s)) == multiset(s) + multiset{event}
    decreases |s|
  {
    if s != [] && Lineage.TurnOf(event) > Lineage.TurnOf(s[0]) {
      InsertKeepsEvents(event, s[1..]);
      assert s == [s[0]] + s[1..];
    }
  }

  lemma {:induction false} StableSortKeepsEvents(s: seq<Lineage.Event>)
    ensures multiset(Lineage.StableSort(s)) == multiset(s)
    decreases |s|
  {
    if s != [] {
      StableSortKeepsEvents(s[1..]);
      InsertKeepsEvents(s[0], Lineage.StableSort(s[1..]));
      assert s == [s[0]] + s[1..];
    }
  }

  lemma {:induction false} RepairsOfListing(seals: seq<StoredSeal>)
    ensures Total(EventRepairs, ListingOf(seals)) == Total(SealedRepairs, seals)
    decreases |seals|
  {
    if seals != [] {
      RepairsOfListing(seals[1..]);
      assert ListingOf(seals)[1..] == ListingOf(seals[1..]);
    }
  }

  /** The repair rounds the authority must agree with are the repairs among all the seals,
      in whatever order they are listed. */
  lemma RepairsAreSealed(seals: seq<StoredSeal>)
    ensures Total(Repairs, Lineage.EffectsOf(Lineage.StableSort(ListingOf(seals)))) == Total(SealedRepairs, seals)
  {
    hide Total, Lineage.EffectsOf, ListingOf, Lineage.StableSort;
    var listed := ListingOf(seals);
    RepairsOfEffects(Lineage.StableSort(listed));
    StableSortKeepsEvents(listed);
    TotalIsOrderFree(EventRepairs, Lineage.StableSort(listed), listed);
    RepairsOfListing(seals);
  }

  /** What the assessment counted. */
  datatype Assessment = Assessment(
    toolCallCount: nat,
    commandCount: nat,
    transactionCount: nat,
    artifactCount: nat,
    artifactBytes: nat,
    repairRoundCount: nat,
    passed: bool)

  /** Every count is the total over the durable seals. */
  predicate IsConserved(seals: seq<StoredSeal>, a: Assessment) {
    && a.toolCallCount == |seals|
    && a.commandCount == Total(SealedCommands, seals)
    && a.transactionCount == Total(SealedTransactions, seals)
    && a.artifactCount == Total(SealedArtifacts, seals)
    && a.artifactBytes == Total(SealedBytes, seals)
  }

  /** What is compared with the seals of an attempt: the submitted tool receipts and the
      artifacts the session resolved. */
  predicate IsSubmissionDurable(artifactKey: Artifact -> nat, seals: seq<StoredSeal>, submitted: seq<ToolReceipt>,
                                resolved: seq<Artifact>)
  {
    && SortBy(Digests, ReceiptsOf(seals)) == SortBy(Digests, submitted)
    && SortBy(artifactKey, ArtifactsOf(seals)) == SortBy(artifactKey, resolved)
  }

  lemma DurableSubmissionIsConserved(artifactKey: Artifact -> nat, seals: seq<StoredSeal>, submitted: seq<ToolReceipt>,
                                     resolved: seq<Artifact>, repairRoundCount: nat, passed: bool)
    requires IsSubmissionDurable(artifactKey, seals, submitted, resolved)
    ensures IsConserved(seals, Assessment(|submitted|, Total(Commands, submitted), Total(Transactions, submitted),
                                          |resolved|, Total(Bytes, resolved), repairRoundCount, passed))
  {
    hide Total, SortBy;
    SortedComparisonConserves(Digests, Commands, ReceiptsOf(seals), submitted);
    SortedComparisonConserves(Digests, Transactions, ReceiptsOf(seals), submitted);
    SortedComparisonConserves(artifactKey, Bytes, ArtifactsOf(seals), resolved);
    ReceiptTotals(seals);
    ArtifactTotals(seals);
  }
}
