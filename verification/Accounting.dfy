/** The accounting of a dispatched turn: what the producer builds from a transport receipt
    and frozen pricing, and what the attempt executor accepts.  A digest is the term of
    what it digests, so that equal digests mean equal contents. */
module Accounting {
  import opened Wrappers

  datatype Protocol = OpenAiResponses | AnthropicMessages | GeminiInteractions

  datatype Status = Completed | InfrastructureError | OtherStatus(code: nat)

  datatype Confidence = Unknown | Estimated | Reported

  /** Usage by unit and cost by currency: a vector is normalised by being a map. */
  datatype UsageAmount = UsageAmount(logical: Option<nat>, billable: Option<nat>, confidence: Confidence, source: Option<Digest>)

  type Usage = map<string, UsageAmount>

  datatype CostValue = CostValue(amount: Option<nat>, confidence: Confidence)

  datatype Cost = Cost(value: CostValue, source: Option<Digest>)

  type Costs = map<string, Cost>

  /** What an accounting's sources answer to: a provider request, or the failed transport. */
  datatype SourceAuthority =
    SourceAuthority(providerRequestId: Option<string>, failureReceipt: Option<Digest>)

  datatype SourceKind = ReportedUsage | ReportedCost | CostCalculation | PricingSnapshot

  datatype SourceBase = SourceBase(
    receiptId: Digest,
    planDigest: Digest,
    repositoryCommit: string,
    kind: SourceKind,
    providerConfigurationId: string,
    modelLineage: Digest,
    authority: SourceAuthority,
    sourceUri: Option<string>,
    content: Digest,
    pricingSnapshot: Option<Snapshot>,
    inputUsage: Option<Digest>,
    outputCost: Option<Digest>,
    observedAt: int)

  datatype SourceReceipt = SourceReceipt(base: SourceBase, receiptDigest: Digest)

  datatype Snapshot = Snapshot(providerConfigurationId: string, digest: Digest)

  datatype AccountingTerms = AccountingTerms(
    descriptor: Digest,
    turnIndex: nat,
    invocationId: string,
    request: Digest,
    response: Digest,
    status: Status,
    isPriced: bool,
    usage: Digest,
    costs: Digest,
    sources: seq<Digest>,
    transport: Digest,
    modelIdentity: Digest,
    authority: SourceAuthority,
    failureUri: Option<string>,
    responseHeaders: Digest)

  datatype Digest =
    | Given(id: nat)
    | OfUsage(usage: Usage)
    | OfCostValues(values: map<string, CostValue>)
    | OfReportedUsage(transport: Digest, providerRequestId: Option<string>, reported: Digest)
    | OfReportedCost(transport: Digest, outputCost: Digest)
    | OfCostCalculation(providerConfigurationId: string, modelLineage: Digest, authority: SourceAuthority,
                        snapshot: Digest, inputUsage: Digest, outputCost: Digest)
    | OfModelIdentity(protocol: Protocol, transport: Digest, frozenModelId: string, frozenVersion: Option<string>,
                      resolvedModelId: Option<string>, resolvedModelVersion: Option<string>)
    | OfMissingHeaders(transport: Digest)
    | OfReceiptId(kind: SourceKind, of: seq<Digest>, invocationId: string)
    | OfSource(source: SourceBase)
    | OfAccounting(terms: AccountingTerms)

  const FAILURE_SOURCE_URI := "transport-receipt:agent-evaluation-attempt"

  // ---------------------------------------------------------------------------
  // Inputs
  // ---------------------------------------------------------------------------

  datatype Outcome = TransportCompleted | TransportFailed | PostDispatchUnknown

  datatype Transport = Transport(
    digest: Digest,
    intent: Digest,
    protocol: Protocol,
    providerConfigurationId: string,
    invocationId: string,
    request: Digest,
    dispatched: bool,
    outcome: Outcome,
    httpStatus: Option<int>,
    providerRequestId: Option<string>,
    providerResponseId: Option<string>,
    resolvedModelId: Option<string>,
    resolvedModelVersion: Option<string>,
    responseHeaders: Option<Digest>,
    responseBody: Option<Digest>,
    responseBytes: nat,
    hasErrorCategory: bool,
    startedAt: int,
    completedAt: int)

  datatype Input = Input(
    planDigest: Digest,
    repositoryCommit: string,
    descriptor: Digest,
    turnIndex: nat,
    protocol: Protocol,
    invocationId: string,
    request: Digest,
    response: Digest,
    status: Status,
    reportedUsage: Usage,
    transport: Transport,
    startedAt: int,
    completedAt: int)

  /** The frozen target and model of the attempt. */
  datatype Context = Context(
    protocol: Protocol,
    providerConfigurationId: string,
    modelLineage: Digest,
    modelId: string,
    immutableVersion: Option<string>)

  datatype Pricing = Pricing(
    providerConfigurationId: string,
    modelId: string,
    immutableModelVersion: string,
    snapshot: Snapshot,
    sourceUri: string,
    observedAt: int,
    authorityDigest: Digest)

  /** `assertInputBinding`, on the fields of this model. */
  predicate IsBoundInput(input: Input, context: Context, pricing: Pricing) {
    var transport := input.transport;
    && context.protocol == input.protocol == transport.protocol
    && context.providerConfigurationId == pricing.providerConfigurationId == transport.providerConfigurationId
    && context.modelId == pricing.modelId && context.immutableVersion == Some(pricing.immutableModelVersion)
    && pricing.snapshot.providerConfigurationId == pricing.providerConfigurationId
    && transport.invocationId == input.invocationId && transport.request == input.request
    && transport.startedAt >= input.startedAt && transport.completedAt <= input.completedAt
  }

  predicate IsBlank(s: string) {
    forall i :: 0 <= i < |s| ==> s[i] == ' '
  }

  /** A pricing authority's source address, as the frozen configuration admits it. */
  predicate IsFrozenPricing(pricing: Pricing) {
    !IsBlank(pricing.sourceUri) && |pricing.sourceUri| <= 2048
  }

  // ---------------------------------------------------------------------------
  // The accounting
  // ---------------------------------------------------------------------------

  datatype Account = Account(
    usage: Usage,
    statusOverride: Option<Status>,
    isPriced: bool,
    costs: Costs,
    usageSource: SourceReceipt,
    costSource: SourceReceipt,
    pricingSource: Option<SourceReceipt>,
    authority: SourceAuthority,
    failureUri: Option<string>,
    transport: Digest,
    resolvedModelId: Option<string>,
    resolvedModelVersion: Option<string>,
    modelIdentity: Digest,
    responseHeaders: Digest,
    digest: Digest)

  /** A field spread only when it is truthy: the empty string is dropped. */
  function Truthy(field: Option<string>): Option<string> {
    if field == Some("") then None else field
  }

  function WithUsageSource(usage: Usage, source: Digest): Usage {
    map unit | unit in usage :: usage[unit].(source := Some(source))
  }

  function WithCostSource(costs: Costs, source: Digest): Costs {
    map currency | currency in costs :: costs[currency].(source := Some(source))
  }

  function ValuesOf(costs: Costs): map<string, CostValue> {
    map currency | currency in costs :: costs[currency].value
  }

  function Sealed(base: SourceBase): SourceReceipt {
    SourceReceipt(base, OfSource(base))
  }

  function ReceiptId(kind: SourceKind, input: Input): Digest {
    OfReceiptId(kind, [input.descriptor, input.request], input.invocationId)
  }

  function OnlyTruthy(authority: SourceAuthority): SourceAuthority {
    authority.(providerRequestId := Truthy(authority.providerRequestId))
  }

  /** `digestAgentEvaluationCostCalculationSource`. */
  function CostCalculationDigest(providerConfigurationId: string, modelLineage: Digest, authority: SourceAuthority,
                                 snapshot: Digest, inputUsage: Digest, outputCost: Digest): Digest {
    OfCostCalculation(providerConfigurationId, modelLineage, OnlyTruthy(authority), snapshot, inputUsage, outputCost)
  }

  /** `digestAgentEvaluationResolvedModelIdentity`. */
  function ModelIdentityDigest(protocol: Protocol, transport: Digest, modelId: string, version: Option<string>,
                               resolvedModelId: Option<string>, resolvedModelVersion: Option<string>): Digest {
    OfModelIdentity(protocol, transport, modelId, Truthy(version), Truthy(resolvedModelId), Truthy(resolvedModelVersion))
  }

  function HeadersOf(t: Transport): Digest {
    if t.responseHeaders.Some? then t.responseHeaders.value else OfMissingHeaders(t.digest)
  }

  predicate ModelMatches(protocol: Protocol, t: Transport, modelId: string, version: string) {
    && t.resolvedModelId == Some(modelId)
    && (t.resolvedModelVersion.None? || t.resolvedModelVersion == Some(version))
    && (protocol.GeminiInteractions? ==> t.resolvedModelVersion == Some(version))
  }

  predicate IsBillable(usage: Usage) {
    usage != map[] && forall unit :: unit in usage ==>
      !usage[unit].confidence.Unknown? && (usage[unit].billable.Some? || usage[unit].logical.Some?)
  }

  /** `canPrice`. */
  predicate CanPrice(input: Input, pricing: Pricing) {
    && input.transport.dispatched && input.transport.providerRequestId.Some?
    && ModelMatches(input.protocol, input.transport, pricing.modelId, pricing.immutableModelVersion)
    && IsBillable(input.reportedUsage)
  }

  predicate IsPriceable(costs: Costs) {
    costs != map[] && forall c :: c in costs ==> costs[c].value.amount.Some? && !costs[c].value.confidence.Unknown?
  }

  function IdentityOf(input: Input, pricing: Pricing): Digest {
    ModelIdentityDigest(input.protocol, input.transport.digest, pricing.modelId, Some(pricing.immutableModelVersion),
                        input.transport.resolvedModelId, input.transport.resolvedModelVersion)
  }

  function SourceOf(input: Input, context: Context, pricing: Pricing, kind: SourceKind, authority: SourceAuthority,
                    sourceUri: Option<string>, content: Digest): SourceBase {
    SourceBase(ReceiptId(kind, input), input.planDigest, input.repositoryCommit, kind, pricing.providerConfigurationId,
               context.modelLineage, authority, sourceUri, content, None, None, None, input.completedAt)
  }

  function PricingReceipt(input: Input, context: Context, pricing: Pricing): SourceReceipt {
    Sealed(SourceBase(OfReceiptId(PricingSnapshot, [input.planDigest, context.modelLineage, pricing.authorityDigest,
                                                    pricing.snapshot.digest], pricing.providerConfigurationId),
                      input.planDigest, input.repositoryCommit, PricingSnapshot, pricing.providerConfigurationId,
                      context.modelLineage, SourceAuthority(None, None), Some(pricing.sourceUri),
                      pricing.snapshot.digest, Some(pricing.snapshot), None, None, pricing.observedAt))
  }

  /** `digestAgentEvaluationAttemptAccounting`: a request id that is there replaces the
      failure's receipt and address. */
  function AccountingDigest(input: Input, status: Status, isPriced: bool, usage: Usage, costs: Costs, sources: seq<Digest>,
                            modelIdentity: Digest, authority: SourceAuthority, failureUri: Option<string>, headers: Digest): Digest {
    var byRequest := Truthy(authority.providerRequestId).Some?;
    OfAccounting(AccountingTerms(input.descriptor, input.turnIndex, input.invocationId, input.request, input.response,
                                 status, isPriced, OfUsage(usage), OfCostValues(ValuesOf(costs)), sources,
                                 input.transport.digest, modelIdentity,
                                 if byRequest then SourceAuthority(authority.providerRequestId, None)
                                 else SourceAuthority(None, authority.failureReceipt),
                                 if byRequest then None else failureUri, headers))
  }

  /** `buildPricedAccounting`; `None` when the usage turns out not to be priceable. */
  function Priced(input: Input, context: Context, pricing: Pricing, price: (Usage, Snapshot) -> Costs): Option<Account>
    requires input.transport.dispatched && input.transport.providerRequestId.Some?
  {
    var t := input.transport;
    var authority := SourceAuthority(t.providerRequestId, None);
    var usageContent := OfReportedUsage(t.digest, t.providerRequestId, OfUsage(input.reportedUsage));
    var usage := WithUsageSource(input.reportedUsage, usageContent);
    var calculated := price(usage, pricing.snapshot);
    if !IsPriceable(calculated) then None
    else
      var outputCost := OfCostValues(ValuesOf(calculated));
      var costContent := CostCalculationDigest(pricing.providerConfigurationId, context.modelLineage, authority,
                                               pricing.snapshot.digest, OfUsage(usage), outputCost);
      var costs := WithCostSource(calculated, costContent);
      var usageSource := Sealed(SourceOf(input, context, pricing, ReportedUsage, authority, None, usageContent).(
                                  inputUsage := Some(OfUsage(usage))));
      var costSource := Sealed(SourceOf(input, context, pricing, CostCalculation, authority, None, costContent).(
                                 pricingSnapshot := Some(pricing.snapshot), inputUsage := Some(OfUsage(usage)),
                                 outputCost := Some(outputCost)));
      var pricingSource := PricingReceipt(input, context, pricing);
      var sources := [usageSource.receiptDigest, costSource.receiptDigest, pricingSource.receiptDigest];
      Some(Account(usage, None, true, costs, usageSource, costSource, Some(pricingSource), authority, None, t.digest,
                   Truthy(t.resolvedModelId), Truthy(t.resolvedModelVersion), IdentityOf(input, pricing), HeadersOf(t),
                   AccountingDigest(input, input.status, true, usage, costs, sources, IdentityOf(input, pricing), authority,
                                    None, HeadersOf(t))))
  }

  /** `buildUnpricedAccounting`. */
  function Unpriced(input: Input, context: Context, pricing: Pricing): Account {
    var t := input.transport;
    var override := if input.status.Completed? then Some(InfrastructureError) else None;
    var effective := if override.Some? then override.value else input.status;
    var hasProvider := Truthy(t.providerRequestId).Some?;
    var authority := if hasProvider then SourceAuthority(t.providerRequestId, None) else SourceAuthority(None, Some(t.digest));
    var failureUri := if hasProvider then None else Some(FAILURE_SOURCE_URI);
    var usage: Usage := map[];
    var costs: Costs := map[];
    var usageContent := OfReportedUsage(t.digest, None, OfUsage(input.reportedUsage));
    var costContent := OfReportedCost(t.digest, OfCostValues(map[]));
    var usageSource := Sealed(SourceOf(input, context, pricing, ReportedUsage, authority, failureUri, usageContent).(
                                inputUsage := Some(OfUsage(usage))));
    var costSource := Sealed(SourceOf(input, context, pricing, ReportedCost, authority, failureUri, costContent).(
                               outputCost := Some(OfCostValues(map[]))));
    var sources := [usageSource.receiptDigest, costSource.receiptDigest];
    Account(usage, override, false, costs, usageSource, costSource, None, authority, failureUri, t.digest,
            Truthy(t.resolvedModelId), Truthy(t.resolvedModelVersion), IdentityOf(input, pricing), HeadersOf(t),
            AccountingDigest(input, effective, false, usage, costs, sources, IdentityOf(input, pricing), authority,
                             failureUri, HeadersOf(t)))
  }

  /** The production factory on a dispatched turn. */
  function Produce(input: Input, context: Context, pricing: Pricing, price: (Usage, Snapshot) -> Costs): Option<Account>
    requires input.transport.dispatched
  {
    if CanPrice(input, pricing) then Priced(input, context, pricing, price)
    else Some(Unpriced(input, context, pricing))
  }

  // ---------------------------------------------------------------------------
  // The executor's validator
  // ---------------------------------------------------------------------------

  predicate IsUsageAuthoritative(usage: Usage) {
    usage != map[] && forall u :: u in usage ==> !usage[u].confidence.Unknown? && usage[u].source.Some?
  }

  predicate AreCostsAuthoritative(costs: Costs) {
    costs != map[] && forall c :: c in costs ==>
      costs[c].value.amount.Some? && !costs[c].value.confidence.Unknown? && costs[c].source.Some?
  }

  predicate IsDispositionValid(a: Account, effective: Status) {
    if a.isPriced then a.authority.providerRequestId.Some? && IsUsageAuthoritative(a.usage) && AreCostsAuthoritative(a.costs)
    else
      && !effective.Completed?
      && (a.authority.providerRequestId.Some? || a.authority.failureReceipt.Some?)
      && (a.usage == map[] || IsUsageAuthoritative(a.usage)) && a.costs == map[]
  }

  /** The shape rules of a source receipt; `isIdentity` is the control-identity check. */
  predicate IsSourceReceipt(isIdentity: string -> bool, r: SourceReceipt) {
    var b := r.base;
    var hasRequest, hasFailure := b.authority.providerRequestId.Some?, b.authority.failureReceipt.Some?;
    && r.receiptDigest == OfSource(b)
    && (hasRequest ==> isIdentity(b.authority.providerRequestId.value))
    && (b.sourceUri.Some? ==> !IsBlank(b.sourceUri.value) && |b.sourceUri.value| <= 2048)
    && match b.kind
       case ReportedUsage =>
         && hasRequest != hasFailure && (hasFailure ==> b.sourceUri.Some?)
         && b.inputUsage.Some? && b.pricingSnapshot.None? && b.outputCost.None?
       case ReportedCost =>
         && hasRequest != hasFailure && (hasFailure ==> b.sourceUri.Some?)
         && b.outputCost.Some? && b.pricingSnapshot.None? && b.inputUsage.None?
       case PricingSnapshot =>
         && b.pricingSnapshot.Some? && b.sourceUri.Some?
         && b.content == b.pricingSnapshot.value.digest
         && b.providerConfigurationId == b.pricingSnapshot.value.providerConfigurationId
         && !hasRequest && !hasFailure && b.inputUsage.None? && b.outputCost.None?
       case CostCalculation =>
         && b.pricingSnapshot.Some? && b.inputUsage.Some? && b.outputCost.Some?
         && b.providerConfigurationId == b.pricingSnapshot.value.providerConfigurationId
         && hasRequest != hasFailure && (hasFailure ==> b.sourceUri.Some?)
         && b.content == CostCalculationDigest(b.providerConfigurationId, b.modelLineage, b.authority,
                                               b.pricingSnapshot.value.digest, b.inputUsage.value, b.outputCost.value)
  }

  predicate IsSourceBound(a: Account, context: Context, r: SourceReceipt) {
    && r.base.providerConfigurationId == context.providerConfigurationId
    && r.base.modelLineage == context.modelLineage
    && r.base.authority == a.authority
    && r.base.sourceUri == if a.authority.providerRequestId.Some? then None else a.failureUri
  }

  function SourcesOf(a: Account): seq<SourceReceipt> {
    [a.usageSource, a.costSource] + if a.pricingSource.Some? then [a.pricingSource.value] else []
  }

  function DigestsOf(sources: seq<SourceReceipt>): seq<Digest> {
    seq(|sources|, i requires 0 <= i < |sources| => sources[i].receiptDigest)
  }

  predicate IsModelBound(input: Input, context: Context, a: Account, effective: Status) {
    var t := input.transport;
    && a.resolvedModelId == t.resolvedModelId && a.resolvedModelVersion == t.resolvedModelVersion
    && a.modelIdentity == ModelIdentityDigest(context.protocol, t.digest, context.modelId, context.immutableVersion,
                                              a.resolvedModelId, a.resolvedModelVersion)
    && (effective.Completed? ==>
          && a.isPriced && a.resolvedModelId == Some(context.modelId)
          && (a.resolvedModelVersion.None? || a.resolvedModelVersion == context.immutableVersion)
          && (context.protocol.GeminiInteractions? ==> a.resolvedModelVersion == context.immutableVersion))
  }

  predicate IsAuthorityBound(input: Input, a: Account) {
    && a.transport == input.transport.digest && input.transport.dispatched
    && a.authority.providerRequestId == input.transport.providerRequestId
    && (a.failureUri.Some? ==> 0 < |a.failureUri.value| <= 2048)
    && (a.authority.providerRequestId.Some? != (a.authority.failureReceipt.Some? && a.failureUri.Some?))
    && (a.authority.failureReceipt.Some? && a.failureUri.Some? ==> a.authority.failureReceipt == Some(input.transport.digest))
  }

  predicate AreValuesBound(a: Account) {
    && a.usageSource.base.kind.ReportedUsage? && a.usageSource.base.inputUsage == Some(OfUsage(a.usage))
    && (forall u :: u in a.usage ==> a.usage[u].source == Some(a.usageSource.base.content))
    && (a.costSource.base.kind.ReportedCost? || a.costSource.base.kind.CostCalculation?)
    && (!a.isPriced ==> a.costSource.base.kind.ReportedCost?)
    && a.costSource.base.outputCost == Some(OfCostValues(ValuesOf(a.costs)))
    && (forall c :: c in a.costs ==> a.costs[c].source == Some(a.costSource.base.content))
  }

  predicate IsPricingBound(context: Context, a: Account) {
    if !a.costSource.base.kind.CostCalculation? then a.pricingSource.None?
    else
      && a.pricingSource.Some? && a.pricingSource.value.base.kind.PricingSnapshot?
      && a.costSource.base.pricingSnapshot.Some?
      && a.costSource.base.inputUsage == Some(OfUsage(a.usage))
      && a.costSource.base.content ==
         CostCalculationDigest(context.providerConfigurationId, context.modelLineage,
                               if Truthy(a.authority.providerRequestId).Some?
                               then SourceAuthority(a.authority.providerRequestId, None)
                               else SourceAuthority(None, a.authority.failureReceipt),
                               a.costSource.base.pricingSnapshot.value.digest, OfUsage(a.usage),
                               OfCostValues(ValuesOf(a.costs)))
      && a.pricingSource.value.base.content == a.costSource.base.pricingSnapshot.value.digest
  }

  function EffectiveStatus(input: Input, a: Account): Status {
    if a.statusOverride.Some? then a.statusOverride.value else input.status
  }

  function ExpectedDigest(input: Input, a: Account): Digest {
    AccountingDigest(input, EffectiveStatus(input, a), a.isPriced, a.usage, a.costs, DigestsOf(SourcesOf(a)),
                     a.modelIdentity, a.authority, a.failureUri, a.responseHeaders)
  }

  /** `assertSourceReceiptCanonical`. */
  predicate IsPlanned(isIdentity: string -> bool, input: Input, r: SourceReceipt) {
    IsSourceReceipt(isIdentity, r) && r.base.planDigest == input.planDigest && r.base.repositoryCommit == input.repositoryCommit
  }

  /** `accountingBinding` accepts. */
  predicate IsAccepted(isIdentity: string -> bool, input: Input, context: Context, a: Account) {
    var effective := EffectiveStatus(input, a);
    && IsDispositionValid(a, effective)
    && (a.statusOverride.Some? ==> input.status.Completed? && a.statusOverride.value.InfrastructureError?)
    && IsModelBound(input, context, a, effective)
    && IsAuthorityBound(input, a)
    && (forall r :: r in SourcesOf(a) ==> IsPlanned(isIdentity, input, r))
    && IsSourceBound(a, context, a.usageSource) && IsSourceBound(a, context, a.costSource)
    && AreValuesBound(a)
    && IsPricingBound(context, a)
    && (forall i, j :: 0 <= i < j < |SourcesOf(a)| ==> SourcesOf(a)[i].receiptDigest != SourcesOf(a)[j].receiptDigest)
    && a.digest == ExpectedDigest(input, a)
  }

  // ---------------------------------------------------------------------------
  // Agreement
  // ---------------------------------------------------------------------------

  /** What a caller can check of the transport before accounting: no field that is there
      is empty, and the request id is a control identity. */
  predicate IsCleanTransport(isIdentity: string -> bool, t: Transport) {
    && t.resolvedModelId != Some("") && t.resolvedModelVersion != Some("")
    && (t.providerRequestId.Some? ==> isIdentity(t.providerRequestId.value))
  }

  lemma SourcedValues(usage: Usage, costs: Costs, source: Digest)
    ensures ValuesOf(WithCostSource(costs, source)) == ValuesOf(costs)
    ensures IsPriceable(costs) ==> AreCostsAuthoritative(WithCostSource(costs, source))
    ensures IsBillable(usage) ==> IsUsageAuthoritative(WithUsageSource(usage, source))
  {
    assert WithCostSource(costs, source).Keys == costs.Keys;
    assert WithUsageSource(usage, source).Keys == usage.Keys;
    if IsPriceable(costs) {
      var c :| c in costs;
      assert c in WithCostSource(costs, source);
    }
    if IsBillable(usage) {
      var u :| u in usage;
      assert u in WithUsageSource(usage, source);
    }
  }

  /** A bound and clean input that the producer prices. */
  predicate IsCleanPriced(isIdentity: string -> bool, input: Input, context: Context, pricing: Pricing,
                          price: (Usage, Snapshot) -> Costs)
  {
    && !isIdentity("") && IsBoundInput(input, context, pricing) && IsFrozenPricing(pricing)
    && CanPrice(input, pricing) && Priced(input, context, pricing, price).Some?
    && IsCleanTransport(isIdentity, input.transport)
  }

  lemma PricedValues(isIdentity: string -> bool, input: Input, context: Context, pricing: Pricing,
                     price: (Usage, Snapshot) -> Costs)
    requires IsCleanPriced(isIdentity, input, context, pricing, price)
    ensures var a := Priced(input, context, pricing, price).value;
            IsDispositionValid(a, input.status) && AreValuesBound(a) && a.statusOverride.None?
  {
    var a := Priced(input, context, pricing, price).value;
    var calculated := price(a.usage, pricing.snapshot);
    SourcedValues(input.reportedUsage, calculated, a.costSource.base.content);
    SourcedValues(input.reportedUsage, calculated, a.usageSource.base.content);
    hide IsBlank, IsBillable, IsPriceable, AreCostsAuthoritative, IsUsageAuthoritative, ValuesOf;
  }

  lemma PricedModel(isIdentity: string -> bool, input: Input, context: Context, pricing: Pricing,
                    price: (Usage, Snapshot) -> Costs)
    requires IsCleanPriced(isIdentity, input, context, pricing, price)
    ensures var a := Priced(input, context, pricing, price).value;
            IsModelBound(input, context, a, input.status) && IsAuthorityBound(input, a)
  {
    hide IsBlank, IsBillable, IsPriceable, ValuesOf, WithUsageSource, WithCostSource;
  }

  lemma PricedReceipts(isIdentity: string -> bool, input: Input, context: Context, pricing: Pricing,
                       price: (Usage, Snapshot) -> Costs)
    requires IsCleanPriced(isIdentity, input, context, pricing, price)
    ensures var a := Priced(input, context, pricing, price).value;
            && IsPlanned(isIdentity, input, a.usageSource) && IsPlanned(isIdentity, input, a.costSource)
            && a.pricingSource.Some? && IsPlanned(isIdentity, input, a.pricingSource.value)
  {
    hide IsBlank, IsBillable, IsPriceable, ValuesOf, WithUsageSource, WithCostSource, ReceiptId, AccountingDigest,
      IdentityOf, HeadersOf, ModelMatches;
  }

  lemma PricedSources(isIdentity: string -> bool, input: Input, context: Context, pricing: Pricing,
                      price: (Usage, Snapshot) -> Costs)
    requires IsCleanPriced(isIdentity, input, context, pricing, price)
    ensures var a := Priced(input, context, pricing, price).value;
            && (forall r :: r in SourcesOf(a) ==> IsPlanned(isIdentity, input, r))
            && IsSourceBound(a, context, a.usageSource) && IsSourceBound(a, context, a.costSource)
  {
    PricedReceipts(isIdentity, input, context, pricing, price);
    hide IsBlank, IsBillable, IsPriceable, ValuesOf, WithUsageSource, WithCostSource, ReceiptId, AccountingDigest,
      IdentityOf, HeadersOf, ModelMatches, IsPlanned;
    var a := Priced(input, context, pricing, price).value;
    assert SourcesOf(a) == [a.usageSource, a.costSource, a.pricingSource.value];
  }

  lemma PricedPricing(isIdentity: string -> bool, input: Input, context: Context, pricing: Pricing,
                      price: (Usage, Snapshot) -> Costs)
    requires IsCleanPriced(isIdentity, input, context, pricing, price)
    ensures var a := Priced(input, context, pricing, price).value;
            IsPricingBound(context, a)
  {
    var a := Priced(input, context, pricing, price).value;
    SourcedValues(input.reportedUsage, price(a.usage, pricing.snapshot), a.costSource.base.content);
    hide IsBlank, IsBillable, IsPriceable, AreCostsAuthoritative, IsUsageAuthoritative, ValuesOf, WithUsageSource,
      WithCostSource;
  }

  lemma PricedListing(isIdentity: string -> bool, input: Input, context: Context, pricing: Pricing,
                      price: (Usage, Snapshot) -> Costs)
    requires IsCleanPriced(isIdentity, input, context, pricing, price)
    ensures var a := Priced(input, context, pricing, price).value;
            && a.pricingSource.Some?
            && SourcesOf(a) == [a.usageSource, a.costSource, a.pricingSource.value]
            && DigestsOf(SourcesOf(a)) ==
               [a.usageSource.receiptDigest, a.costSource.receiptDigest, a.pricingSource.value.receiptDigest]
  {
    hide IsBlank, IsBillable, IsPriceable, ValuesOf, WithUsageSource, WithCostSource, AccountingDigest, CostCalculationDigest,
      IdentityOf, HeadersOf, ModelMatches, IsBoundInput, IsCleanTransport;
    var a := Priced(input, context, pricing, price).value;
    assert SourcesOf(a) == [a.usageSource, a.costSource, a.pricingSource.value];
  }

  lemma PricedDistinct(isIdentity: string -> bool, input: Input, context: Context, pricing: Pricing,
                       price: (Usage, Snapshot) -> Costs)
    requires IsCleanPriced(isIdentity, input, context, pricing, price)
    ensures var a := Priced(input, context, pricing, price).value;
            forall i, j :: 0 <= i < j < |SourcesOf(a)| ==> SourcesOf(a)[i].receiptDigest != SourcesOf(a)[j].receiptDigest
  {
    hide IsBlank, IsBillable, IsPriceable, ValuesOf, WithUsageSource, WithCostSource, AccountingDigest, CostCalculationDigest,
      IdentityOf, HeadersOf, ModelMatches, IsBoundInput, IsCleanTransport;
    PricedListing(isIdentity, input, context, pricing, price);
    var a := Priced(input, context, pricing, price).value;
    assert a.usageSource.base.kind.ReportedUsage? && a.costSource.base.kind.CostCalculation? &&
           a.pricingSource.value.base.kind.PricingSnapshot?;
    hide SourcesOf;
  }

  lemma PricedDigest(isIdentity: string -> bool, input: Input, context: Context, pricing: Pricing,
                     price: (Usage, Snapshot) -> Costs)
    requires IsCleanPriced(isIdentity, input, context, pricing, price)
    ensures var a := Priced(input, context, pricing, price).value; a.digest == ExpectedDigest(input, a)
  {
    PricedListing(isIdentity, input, context, pricing, price);
    hide IsBlank, IsBillable, IsPriceable, ValuesOf, WithUsageSource, WithCostSource, AccountingDigest, CostCalculationDigest,
      IdentityOf, HeadersOf, ModelMatches, IsBoundInput, IsCleanTransport, SourcesOf, DigestsOf;
  }

  lemma PricedIsAccepted(isIdentity: string -> bool, input: Input, context: Context, pricing: Pricing,
                         price: (Usage, Snapshot) -> Costs)
    requires IsCleanPriced(isIdentity, input, context, pricing, price)
    ensures IsAccepted(isIdentity, input, context, Priced(input, context, pricing, price).value)
  {
    hide IsCleanTransport, IsFrozenPricing, IsDispositionValid, IsModelBound, IsAuthorityBound, AreValuesBound, IsPricingBound,
      IsPlanned, IsSourceBound, ExpectedDigest, SourcesOf;
    PricedValues(isIdentity, input, context, pricing, price);
    PricedModel(isIdentity, input, context, pricing, price);
    PricedSources(isIdentity, input, context, pricing, price);
    PricedPricing(isIdentity, input, context, pricing, price);
    PricedDistinct(isIdentity, input, context, pricing, price);
    PricedDigest(isIdentity, input, context, pricing, price);
  }

  lemma UnpricedIsAccepted(isIdentity: string -> bool, input: Input, context: Context, pricing: Pricing)
    requires !isIdentity("") && IsBoundInput(input, context, pricing)
    requires input.transport.dispatched && IsCleanTransport(isIdentity, input.transport)
    ensures IsAccepted(isIdentity, input, context, Unpriced(input, context, pricing))
  {
    var a := Unpriced(input, context, pricing);
    assert SourcesOf(a) == [a.usageSource, a.costSource];
    assert DigestsOf(SourcesOf(a)) == [a.usageSource.receiptDigest, a.costSource.receiptDigest];
    assert FAILURE_SOURCE_URI[0] == 't';
    assert ValuesOf(map[]) == map[];
  }

  /** Whatever the producer builds, an unclean transport makes the validator refuse it. */
  lemma UncleanIsRefused(isIdentity: string -> bool, input: Input, context: Context, pricing: Pricing, a: Account)
    requires !isIdentity("") && a.usageSource.base.authority == a.authority
    requires a.resolvedModelId == Truthy(input.transport.resolvedModelId)
    requires a.resolvedModelVersion == Truthy(input.transport.resolvedModelVersion)
    requires IsAccepted(isIdentity, input, context, a)
    ensures IsCleanTransport(isIdentity, input.transport)
  {
    assert a.usageSource in SourcesOf(a);
    hide AreValuesBound, IsPricingBound, ExpectedDigest, IsDispositionValid, IsSourceBound;
  }

  /** For every bound input, what the producer returns is accepted exactly when the
      transport is clean. */
  lemma ProducerMeetsValidatorExactly(isIdentity: string -> bool, input: Input, context: Context, pricing: Pricing,
                                      price: (Usage, Snapshot) -> Costs)
    requires !isIdentity("") && IsBoundInput(input, context, pricing) && IsFrozenPricing(pricing)
    requires input.transport.dispatched && Produce(input, context, pricing, price).Some?
    ensures IsAccepted(isIdentity, input, context, Produce(input, context, pricing, price).value) <==>
            IsCleanTransport(isIdentity, input.transport)
  {
    var a := Produce(input, context, pricing, price).value;
    if IsCleanTransport(isIdentity, input.transport) {
      if CanPrice(input, pricing) {
        PricedIsAccepted(isIdentity, input, context, pricing, price);
      } else {
        UnpricedIsAccepted(isIdentity, input, context, pricing);
      }
    }
    if IsAccepted(isIdentity, input, context, a) {
      hide IsAccepted;
      UncleanIsRefused(isIdentity, input, context, pricing, a);
    }
  }

  /** A completed turn stays completed exactly when it can be priced, and is otherwise an
      infrastructure error; any other status is left alone. */
  lemma CompletedStaysExactly(input: Input, context: Context, pricing: Pricing, price: (Usage, Snapshot) -> Costs)
    requires input.transport.dispatched && Produce(input, context, pricing, price).Some?
    ensures var a := Produce(input, context, pricing, price).value;
            && (a.isPriced <==> CanPrice(input, pricing))
            && EffectiveStatus(input, a) ==
               if input.status.Completed? && !CanPrice(input, pricing) then InfrastructureError else input.status
  {
  }

  // ---------------------------------------------------------------------------
  // What is accounted
  // ---------------------------------------------------------------------------

  /** Whether a turn is to be priced: the provider answered it under an id, with the frozen
      model, and reported usage every unit of which has an amount and a known confidence. */
  predicate IsToBePriced(input: Input, pricing: Pricing) {
    var t, usage := input.transport, input.reportedUsage;
    && t.dispatched && t.providerRequestId.Some?
    && t.resolvedModelId == Some(pricing.modelId)
    && (t.resolvedModelVersion == Some(pricing.immutableModelVersion) ||
        (t.resolvedModelVersion.None? && !input.protocol.GeminiInteractions?))
    && usage != map[]
    && forall unit :: unit in usage ==>
         !usage[unit].confidence.Unknown? && !(usage[unit].logical.None? && usage[unit].billable.None?)
  }

  /** The reported usage, unit by unit and amount by amount, each with this source. */
  predicate IsReportedWith(usage: Usage, reported: Usage, source: Digest) {
    && usage.Keys == reported.Keys
    && forall unit :: unit in usage ==>
         && usage[unit].logical == reported[unit].logical && usage[unit].billable == reported[unit].billable
         && usage[unit].confidence == reported[unit].confidence && usage[unit].source == Some(source)
  }

  /** These costs, currency by currency, each with this source. */
  predicate AreCostsWith(costs: Costs, calculated: Costs, source: Digest) {
    && costs.Keys == calculated.Keys
    && forall currency :: currency in costs ==>
         costs[currency].value == calculated[currency].value && costs[currency].source == Some(source)
  }

  /** Every currency has an amount of known confidence, and there is one. */
  predicate IsFullyPriced(costs: Costs) {
    && costs != map[]
    && forall currency :: currency in costs ==>
         costs[currency].value.amount != None && costs[currency].value.confidence != Unknown
  }

  lemma OnlyOneSourced(usage: Usage, other: Usage, reported: Usage, source: Digest)
    requires IsReportedWith(usage, reported, source) && IsReportedWith(other, reported, source)
    ensures usage == other
  {
    assert forall unit :: unit in usage ==> usage[unit] == other[unit];
  }

  lemma SourcedIsReported(reported: Usage, source: Digest)
    ensures IsReportedWith(WithUsageSource(reported, source), reported, source)
  {
  }

  lemma SourcedAreCosts(calculated: Costs, source: Digest)
    ensures AreCostsWith(WithCostSource(calculated, source), calculated, source)
  {
  }

  lemma ToBePricedIsPriced(input: Input, pricing: Pricing)
    ensures IsToBePriced(input, pricing) <==> CanPrice(input, pricing)
  {
  }

  /** The digest of the headers received, or of their absence. */
  lemma HeadersAre(t: Transport)
    ensures HeadersOf(t) == if t.responseHeaders.Some? then t.responseHeaders.value else OfMissingHeaders(t.digest)
  {
  }

  lemma FullyPricedIsPriceable(costs: Costs)
    ensures IsFullyPriced(costs) <==> IsPriceable(costs)
  {
  }

  /** A priced account is of the reported usage and of what the pricing makes of it, each
      value bearing the content of its source; there is one exactly when the price of that
      usage is known in full. */
  lemma PricedExactly(input: Input, context: Context, pricing: Pricing, price: (Usage, Snapshot) -> Costs, usage: Usage)
    requires IsToBePriced(input, pricing)
    requires var t := input.transport;
             IsReportedWith(usage, input.reportedUsage,
                            OfReportedUsage(t.digest, t.providerRequestId, OfUsage(input.reportedUsage)))
    ensures Produce(input, context, pricing, price).Some? <==> IsFullyPriced(price(usage, pricing.snapshot))
    ensures Produce(input, context, pricing, price).Some? ==>
            var a, t := Produce(input, context, pricing, price).value, input.transport;
            && a.isPriced && a.statusOverride.None? && a.usage == usage
            && a.usageSource.base.content == OfReportedUsage(t.digest, t.providerRequestId, OfUsage(input.reportedUsage))
            && IsReportedWith(a.usage, input.reportedUsage, a.usageSource.base.content)
            && AreCostsWith(a.costs, price(a.usage, pricing.snapshot), a.costSource.base.content)
            && a.costSource.base.kind.CostCalculation? && a.costSource.base.pricingSnapshot == Some(pricing.snapshot)
            && a.pricingSource == Some(PricingReceipt(input, context, pricing))
            && a.usageSource.base.observedAt == a.costSource.base.observedAt == input.completedAt
            && a.responseHeaders == (if t.responseHeaders.Some? then t.responseHeaders.value else OfMissingHeaders(t.digest))
  {
    var t := input.transport;
    var content := OfReportedUsage(t.digest, t.providerRequestId, OfUsage(input.reportedUsage));
    var sourced := WithUsageSource(input.reportedUsage, content);
    SourcedIsReported(input.reportedUsage, content);
    OnlyOneSourced(usage, sourced, input.reportedUsage, content);
    ToBePricedIsPriced(input, pricing);
    FullyPricedIsPriceable(price(usage, pricing.snapshot));
    HeadersAre(t);
    assert t.dispatched && t.providerRequestId.Some?;
    hide IsReportedWith, AreCostsWith, WithUsageSource, WithCostSource, ValuesOf, IsToBePriced, CanPrice, IsFullyPriced,
      IsPriceable, AccountingDigest, CostCalculationDigest, IdentityOf, HeadersOf, PricingReceipt, ReceiptId;
    if Produce(input, context, pricing, price).Some? {
      var a := Produce(input, context, pricing, price).value;
      SourcedAreCosts(price(usage, pricing.snapshot), a.costSource.base.content);
    }
  }

  /** Any other dispatched turn is accounted without usage or costs, and a completed one
      among them is an infrastructure error. */
  lemma UnpricedExactly(input: Input, context: Context, pricing: Pricing, price: (Usage, Snapshot) -> Costs)
    requires input.transport.dispatched && !IsToBePriced(input, pricing)
    ensures Produce(input, context, pricing, price).Some?
    ensures var a := Produce(input, context, pricing, price).value;
            && !a.isPriced && a.usage == map[] && a.costs == map[] && a.pricingSource.None?
            && a.statusOverride == (if input.status.Completed? then Some(InfrastructureError) else None)
            && a.usageSource.base.observedAt == a.costSource.base.observedAt == input.completedAt
            && a.responseHeaders == (if input.transport.responseHeaders.Some? then input.transport.responseHeaders.value
                                     else OfMissingHeaders(input.transport.digest))
  {
    ToBePricedIsPriced(input, pricing);
    HeadersAre(input.transport);
    hide IsToBePriced, CanPrice, AccountingDigest, IdentityOf, HeadersOf, ReceiptId;
  }

  // ---------------------------------------------------------------------------
  // The gate before the accounting
  // ---------------------------------------------------------------------------

  predicate IsAlphanumeric(c: char) {
    'A' <= c <= 'Z' || 'a' <= c <= 'z' || '0' <= c <= '9'
  }

  predicate IsIdentityText(s: string) {
    && 1 <= |s| <= 256 && IsAlphanumeric(s[0])
    && forall i :: 0 <= i < |s| ==> IsAlphanumeric(s[i]) || s[i] in "._:@/-"
  }

  /** `isAgentControlIdentity`: identity text that does not look like a credential. */
  function ControlIdentity(isCredential: string -> bool): string -> bool {
    (s: string) => IsIdentityText(s) && !isCredential(s)
  }

  predicate IsIdentityIfThere(isIdentity: string -> bool, field: Option<string>) {
    field.Some? ==> isIdentity(field.value)
  }

  predicate HasResponse(t: Transport) {
    || t.httpStatus.Some? || t.responseHeaders.Some? || t.responseBody.Some? || t.providerRequestId.Some?
    || t.providerResponseId.Some? || t.resolvedModelId.Some? || t.resolvedModelVersion.Some?
  }

  /** `isAgentEvaluationTransportReceipt`. */
  predicate IsTransportReceipt(isIdentity: string -> bool, t: Transport) {
    && isIdentity(t.providerConfigurationId) && isIdentity(t.invocationId)
    && t.startedAt <= t.completedAt
    && (t.httpStatus.Some? ==> 100 <= t.httpStatus.value <= 599)
    && IsIdentityIfThere(isIdentity, t.providerRequestId) && IsIdentityIfThere(isIdentity, t.providerResponseId)
    && IsIdentityIfThere(isIdentity, t.resolvedModelId) && IsIdentityIfThere(isIdentity, t.resolvedModelVersion)
    && (t.outcome.TransportCompleted? ==>
          && t.dispatched && t.httpStatus.Some? && 200 <= t.httpStatus.value <= 299
          && t.responseHeaders.Some? && t.responseBody.Some? && t.providerRequestId.Some?)
    && (t.hasErrorCategory <==> !t.outcome.TransportCompleted?)
    && (t.outcome.PostDispatchUnknown? ==> t.dispatched)
    && (!t.dispatched ==> t.outcome.TransportFailed? && !HasResponse(t) && t.responseBytes == 0)
  }

  /** What the dispatch of a call was intended for. */
  datatype DispatchIntent = DispatchIntent(
    digest: Digest,
    planDigest: Digest,
    repositoryCommit: string,
    descriptor: Digest,
    turnIndex: nat,
    protocol: Protocol,
    providerConfigurationId: string,
    modelLineage: Digest,
    invocationId: string,
    request: Digest)

  /** Where a completed response is kept. */
  datatype Spool = Spool(
    planDigest: Digest,
    repositoryCommit: string,
    descriptor: Digest,
    turnIndex: nat,
    invocationId: string,
    intent: Digest,
    transport: Digest,
    responseBody: Digest,
    response: Digest)

  datatype ClosedTransport = ClosedTransport(
    descriptor: Digest,
    turnIndex: nat,
    intent: DispatchIntent,
    transport: Transport,
    spool: Option<Spool>)

  /** The call the executor is about to account for. */
  datatype Invocation = Invocation(
    planDigest: Digest,
    repositoryCommit: string,
    descriptor: Digest,
    turnIndex: nat,
    invocationId: string,
    request: Digest)

  predicate IsSpoolBound(spool: Spool, turn: ClosedTransport, call: Invocation, response: Digest) {
    && spool.planDigest == call.planDigest && spool.repositoryCommit == call.repositoryCommit
    && spool.descriptor == call.descriptor && spool.turnIndex == call.turnIndex && spool.invocationId == call.invocationId
    && spool.intent == turn.intent.digest && spool.transport == turn.transport.digest
    && Some(spool.responseBody) == turn.transport.responseBody
    && spool.response == response
  }

  /** `assertClosedTransportTurn`: the closed turn is this call's, its receipt is one, and a
      response is kept exactly for a completed transport. */
  predicate IsAdmitted(isIdentity: string -> bool, turn: ClosedTransport, call: Invocation, context: Context, response: Digest) {
    var intent, t := turn.intent, turn.transport;
    && turn.descriptor == call.descriptor && turn.turnIndex == call.turnIndex
    && IsTransportReceipt(isIdentity, t)
    && intent.planDigest == call.planDigest && intent.repositoryCommit == call.repositoryCommit
    && intent.descriptor == call.descriptor && intent.turnIndex == call.turnIndex
    && intent.protocol == context.protocol && intent.providerConfigurationId == context.providerConfigurationId
    && intent.modelLineage == context.modelLineage
    && intent.invocationId == call.invocationId && intent.request == call.request
    && t.protocol == intent.protocol && t.providerConfigurationId == intent.providerConfigurationId
    && t.invocationId == intent.invocationId && t.intent == intent.digest && t.request == intent.request
    && (turn.spool.Some? <==> t.outcome.TransportCompleted?)
    && (turn.spool.Some? ==> IsSpoolBound(turn.spool.value, turn, call, response))
  }

  /** What the executor hands to the accounting.  A replayed turn starts when its transport
      did, a live one when the executor's clock said. */
  function AccountingInput(turn: ClosedTransport, call: Invocation, context: Context, response: Digest, status: Status,
                           reportedUsage: Usage, startedAt: int): Input
  {
    Input(call.planDigest, call.repositoryCommit, call.descriptor, call.turnIndex, context.protocol, call.invocationId,
          call.request, response, status, reportedUsage, turn.transport, startedAt, turn.transport.completedAt)
  }

  /** The frozen pricing is for the attempt's provider and model. */
  predicate IsPricingOf(context: Context, pricing: Pricing) {
    && context.providerConfigurationId == pricing.providerConfigurationId
    && context.modelId == pricing.modelId && context.immutableVersion == Some(pricing.immutableModelVersion)
    && pricing.snapshot.providerConfigurationId == pricing.providerConfigurationId
  }

  lemma AdmittedIsClean(isCredential: string -> bool, turn: ClosedTransport, call: Invocation, context: Context, response: Digest)
    requires IsAdmitted(ControlIdentity(isCredential), turn, call, context, response)
    ensures IsCleanTransport(ControlIdentity(isCredential), turn.transport) && !ControlIdentity(isCredential)("")
  {
    var t := turn.transport;
    assert !IsIdentityText("");
    assert ControlIdentity(isCredential)("") == (IsIdentityText("") && !isCredential(""));
    assert IsTransportReceipt(ControlIdentity(isCredential), t);
    assert IsIdentityIfThere(ControlIdentity(isCredential), t.resolvedModelId);
    assert IsIdentityIfThere(ControlIdentity(isCredential), t.resolvedModelVersion);
  }

  /** Of an admitted turn, the producer's input check is left with the pricing and the clock. */
  lemma AdmittedIsBoundExactly(isIdentity: string -> bool, turn: ClosedTransport, call: Invocation, context: Context,
                               pricing: Pricing, response: Digest, status: Status, reportedUsage: Usage, startedAt: int)
    requires IsAdmitted(isIdentity, turn, call, context, response)
    ensures IsBoundInput(AccountingInput(turn, call, context, response, status, reportedUsage, startedAt), context, pricing) <==>
            IsPricingOf(context, pricing) && startedAt <= turn.transport.startedAt
  {
  }

  /** For every closed, dispatched turn the executor admits, live or replayed, what the
      producer returns is accepted by the executor's own binding check. */
  lemma AdmittedTurnIsAccounted(isCredential: string -> bool, turn: ClosedTransport, call: Invocation, context: Context,
                                pricing: Pricing, price: (Usage, Snapshot) -> Costs, response: Digest, status: Status,
                                reportedUsage: Usage, startedAt: int)
    requires IsAdmitted(ControlIdentity(isCredential), turn, call, context, response) && turn.transport.dispatched
    requires IsPricingOf(context, pricing) && IsFrozenPricing(pricing) && startedAt <= turn.transport.startedAt
    requires Produce(AccountingInput(turn, call, context, response, status, reportedUsage, startedAt), context, pricing, price).Some?
    ensures var input := AccountingInput(turn, call, context, response, status, reportedUsage, startedAt);
            IsAccepted(ControlIdentity(isCredential), input, context, Produce(input, context, pricing, price).value)
  {
    hide IsAccepted, Produce, IsCleanTransport, IsAdmitted, IsBoundInput, ControlIdentity;
    var isIdentity := ControlIdentity(isCredential);
    var input := AccountingInput(turn, call, context, response, status, reportedUsage, startedAt);
    AdmittedIsClean(isCredential, turn, call, context, response);
    AdmittedIsBoundExactly(isIdentity, turn, call, context, pricing, response, status, reportedUsage, startedAt);
    ProducerMeetsValidatorExactly(isIdentity, input, context, pricing, price);
  }

  function NonEmpty(s: string): bool { s != "" }

  /** Taken alone, producer and validator disagree on an empty model id; a receipt with one
      does not pass the gate before them. */
  lemma EmptyModelIdStopsAtTheGate()
    ensures var t := Transport(Given(0), Given(8), OpenAiResponses, "provider", "call", Given(1), true, TransportCompleted,
                               Some(200), Some("request"), None, Some(""), None, Some(Given(9)), Some(Given(10)), 1, false, 0, 1);
            var input := Input(Given(2), "commit", Given(3), 0, OpenAiResponses, "call", Given(1), Given(4), Completed, map[], t, 0, 1);
            var context := Context(OpenAiResponses, "provider", Given(5), "model", Some("v1"));
            var pricing := Pricing("provider", "model", "v1", Snapshot("provider", Given(6)), "uri", 0, Given(7));
            && IsBoundInput(input, context, pricing)
            && !IsAccepted(NonEmpty, input, context, Unpriced(input, context, pricing))
            && !IsTransportReceipt(NonEmpty, t)
  {
  }
}
