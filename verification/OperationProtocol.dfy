/** The durable operation protocol of one intent, as a state machine over its atomic
    requests: claim, dispatch mark, sandbox effect, seal.  Any number of callers run it;
    each may crash between requests, and every reply may be lost after its request took
    effect.  The ledger is one register, the sandbox session one dispatch-keyed stage. */
module OperationProtocol {
  import opened Wrappers

  type Caller = nat
  type Effect = nat

  datatype Output = Rejected | Completed(effect: Effect)

  datatype Register = Unclaimed | Claimed | Dispatched | Sealed(output: Output) | Unknown

  /** Where a caller of `executeTool` stands. */
  datatype Phase =
    | Claiming
    | HoldingClaim
    | SealingRejection
    | Marking
    | ReadyToExecute
    | Executing
    | Recovering
    | Sealing(effect: Effect)
    | Reconciling(effect: Effect)
    | Resealing(effect: Effect)

  /** What the caller sees of a request: its reply, or an error.  A request whose reply is
      lost took effect; a late one has not yet, and may at any time, or never. */
  datatype Delivery = Answered | LostReply | Late

  /** A ledger request on its way after its caller gave up or crashed. */
  datatype LedgerRequest = LateClaim | LateMark | LateRejection | LateSeal(effect: Effect)

  datatype Event =
    | Start(caller: Caller)
    | Claim(caller: Caller, delivery: Delivery)
    | Deny(caller: Caller)
    | Preflight(caller: Caller, accepted: bool)
    | SealRejected(caller: Caller, delivery: Delivery)
    | MarkDispatched(caller: Caller, delivery: Delivery)
    | Execute(caller: Caller)
    | ExecuteReply(caller: Caller, delivery: Delivery)
    | ReconcileSession(caller: Caller, delivery: Delivery)
    | SealAtomic(caller: Caller, delivery: Delivery)
    | ReconcileLedger(caller: Caller, delivery: Delivery)
    | Crash(caller: Caller)
    | Perform(effect: Effect, staged: bool)
    | DropRequest
    | Land(request: LedgerRequest)
    | GiveUp

  /** `requests` execute requests were ever sent, `pending` of them are still on their
      way and `performed` took effect.  A late ledger request stays in `late` and may land
      more than once. */
  datatype State = State(
    register: Register,
    stage: Option<Effect>,
    requests: nat,
    pending: nat,
    performed: nat,
    late: set<LedgerRequest>,
    callers: map<Caller, Phase>,
    returned: set<Output>)

  const INITIAL := State(Unclaimed, None, 0, 0, 0, {}, map[], {})

  /** What keeps two callers from executing: callers of one attempt run one at a time, or
      the ledger acknowledges a dispatch mark to one caller only. */
  datatype Policy = Policy(exclusiveCallers: bool, dispatchOnce: bool)

  predicate IsGuarded(policy: Policy) {
    policy.exclusiveCallers || policy.dispatchOnce
  }

  // ---------------------------------------------------------------------------
  // The ledger
  // ---------------------------------------------------------------------------

  function ClaimedRegister(r: Register): Register {
    if r.Unclaimed? then Claimed else r
  }

  predicate AcknowledgesMark(policy: Policy, r: Register) {
    r.Claimed? || (r.Dispatched? && !policy.dispatchOnce)
  }

  function MarkedRegister(r: Register): Register {
    if r.Claimed? then Dispatched else r
  }

  function RejectedRegister(r: Register): Register {
    if r.Claimed? then Sealed(Rejected) else r
  }

  function SealedRegister(r: Register, e: Effect): Register {
    if r.Dispatched? then Sealed(Completed(e)) else r
  }

  function Landed(r: Register, request: LedgerRequest): Register {
    match request
    case LateClaim => ClaimedRegister(r)
    case LateMark => MarkedRegister(r)
    case LateRejection => RejectedRegister(r)
    case LateSeal(e) => SealedRegister(r, e)
  }

  /** The state after a ledger request is sent: applied now, or late. */
  function Sent(s: State, request: LedgerRequest, delivery: Delivery): State {
    if delivery.Late? then s.(late := s.late + {request}) else s.(register := Landed(s.register, request))
  }

  // ---------------------------------------------------------------------------
  // The callers
  // ---------------------------------------------------------------------------

  predicate IsAt(s: State, caller: Caller, phase: Phase) {
    caller in s.callers && s.callers[caller] == phase
  }

  function Moved(s: State, caller: Caller, phase: Phase): State {
    s.(callers := s.callers[caller := phase])
  }

  /** The caller stops with an error. */
  function Failed(s: State, caller: Caller): State {
    s.(callers := s.callers - {caller})
  }

  /** The caller validates a seal it was given and returns its output. */
  function Accepted(s: State, caller: Caller, output: Output): State {
    s.(callers := s.callers - {caller}, returned := s.returned + {output})
  }

  function AfterClaim(s: State, caller: Caller): State {
    match s.register
    case Sealed(output) => Accepted(s, caller, output)
    case Dispatched => Moved(s, caller, Recovering)
    case Claimed => Moved(s, caller, HoldingClaim)
    case _ => Failed(s, caller)
  }

  function Apply(policy: Policy, s: State, event: Event): Option<State> {
    match event
    case Start(caller) =>
      if caller in s.callers || (policy.exclusiveCallers && s.callers != map[]) then None
      else Some(Moved(s, caller, Claiming))
    case Claim(caller, delivery) =>
      if !IsAt(s, caller, Claiming) then None
      else
        var after := Sent(s, LateClaim, delivery);
        Some(if delivery.Answered? then AfterClaim(after, caller) else Failed(after, caller))
    case Deny(caller) =>
      if !IsAt(s, caller, Claiming) then None else Some(Failed(s, caller))
    case Preflight(caller, accepted) =>
      if !IsAt(s, caller, HoldingClaim) then None
      else Some(Moved(s, caller, if accepted then Marking else SealingRejection))
    case SealRejected(caller, delivery) =>
      if !IsAt(s, caller, SealingRejection) then None
      else
        var after := Sent(s, LateRejection, delivery);
        Some(if delivery.Answered? && s.register.Claimed? then Accepted(after, caller, Rejected)
             else Failed(after, caller))
    case MarkDispatched(caller, delivery) =>
      if !IsAt(s, caller, Marking) then None
      else
        var after := Sent(s, LateMark, delivery);
        Some(if delivery.Answered? && AcknowledgesMark(policy, s.register) then Moved(after, caller, ReadyToExecute)
             else Failed(after, caller))
    case Execute(caller) =>
      if !IsAt(s, caller, ReadyToExecute) then None
      else Some(Moved(s.(requests := s.requests + 1, pending := s.pending + 1), caller, Executing))
    case ExecuteReply(caller, delivery) =>
      if !IsAt(s, caller, Executing) then None
      else Some(Moved(s, caller, if delivery.Answered? && s.stage.Some? then Sealing(s.stage.value) else Recovering))
    case ReconcileSession(caller, delivery) =>
      if !IsAt(s, caller, Recovering) then None
      else Some(if delivery.Answered? && s.stage.Some? then Moved(s, caller, Sealing(s.stage.value))
                else Failed(s, caller))
    case SealAtomic(caller, delivery) =>
      if caller !in s.callers then None
      else
        (match s.callers[caller]
         case Sealing(e) => Some(AfterSeal(s, caller, e, delivery, Reconciling(e)))
         case Resealing(e) => Some(AfterReseal(s, caller, e, delivery))
         case _ => None)
    case ReconcileLedger(caller, delivery) =>
      if caller !in s.callers || !s.callers[caller].Reconciling? then None
      else Some(
        if !delivery.Answered? then Failed(s, caller)
        else if s.register.Sealed? then Accepted(s, caller, s.register.output)
        else Moved(s, caller, Resealing(s.callers[caller].effect)))
    case Crash(caller) =>
      if caller !in s.callers then None else Some(Failed(s, caller))
    case Perform(effect, staged) =>
      if s.pending == 0 then None
      else Some(s.(pending := s.pending - 1, performed := s.performed + 1,
                   stage := if staged then Some(effect) else s.stage))
    case DropRequest =>
      if s.pending == 0 then None else Some(s.(pending := s.pending - 1))
    case Land(request) =>
      if request !in s.late then None else Some(s.(register := Landed(s.register, request)))
    case GiveUp =>
      if !s.register.Dispatched? then None else Some(s.(register := Unknown))
  }

  /** A first seal whose reply is lost, or which the ledger refuses, goes to reconciliation. */
  function AfterSeal(s: State, caller: Caller, e: Effect, delivery: Delivery, onError: Phase): State {
    var after := Sent(s, LateSeal(e), delivery);
    if delivery.Answered? && after.register.Sealed? then Accepted(after, caller, after.register.output)
    else Moved(after, caller, onError)
  }

  function AfterReseal(s: State, caller: Caller, e: Effect, delivery: Delivery): State {
    var after := Sent(s, LateSeal(e), delivery);
    if delivery.Answered? && after.register.Sealed? then Accepted(after, caller, after.register.output)
    else Failed(after, caller)
  }

  function Reached(policy: Policy, events: seq<Event>): Option<State>
  {
    if events == [] then Some(INITIAL)
    else
      var before := Reached(policy, events[..|events| - 1]);
      if before.None? then None else Apply(policy, before.value, events[|events| - 1])
  }

  // ---------------------------------------------------------------------------
  // Invariants
  // ---------------------------------------------------------------------------

  predicate IsDispatchedOrLater(r: Register) {
    r.Dispatched? || r.Unknown? || (r.Sealed? && r.output.Completed?)
  }

  /** Counts, the stage, and what they have to do with the register. */
  predicate EffectInvariant(s: State) {
    && s.performed + s.pending <= s.requests <= 1
    && (s.stage.Some? ==> s.performed == 1)
    && (s.requests > 0 ==> IsDispatchedOrLater(s.register))
    && (s.register.Sealed? && s.register.output.Completed? ==> s.stage == Some(s.register.output.effect))
    && forall o :: o in s.returned ==> s.register == Sealed(o)
  }

  /** A late seal carries the staged effect. */
  predicate LateInvariant(s: State) {
    forall r :: r in s.late && r.LateSeal? ==> s.stage == Some(r.effect)
  }

  predicate CarriesStage(s: State, phase: Phase) {
    phase.Sealing? || phase.Reconciling? || phase.Resealing? ==> s.stage == Some(phase.effect)
  }

  /** The permit to execute: one caller at most holds it, before any request was sent. */
  predicate PermitInvariant(s: State) {
    && (forall c :: c in s.callers && s.callers[c].ReadyToExecute? ==>
          s.requests == 0 && (s.register.Dispatched? || s.register.Unknown?))
    && (forall c, d :: c in s.callers && d in s.callers && s.callers[c].ReadyToExecute? && s.callers[d].ReadyToExecute? ==>
          c == d)
  }

  predicate IsBeforeMark(phase: Phase) {
    phase.HoldingClaim? || phase.Marking? || phase.SealingRejection?
  }

  predicate ExclusiveInvariant(policy: Policy, s: State) {
    policy.exclusiveCallers ==>
      && (forall c, d :: c in s.callers && d in s.callers ==> c == d)
      && (forall c :: c in s.callers && IsBeforeMark(s.callers[c]) ==> s.requests == 0)
  }

  predicate Invariant(policy: Policy, s: State) {
    && EffectInvariant(s)
    && PermitInvariant(s)
    && LateInvariant(s)
    && ExclusiveInvariant(policy, s)
    && forall c :: c in s.callers ==> CarriesStage(s, s.callers[c])
  }

  lemma StepKeepsInvariant(policy: Policy, s: State, event: Event)
    requires IsGuarded(policy) && Invariant(policy, s) && Apply(policy, s, event).Some?
    ensures Invariant(policy, Apply(policy, s, event).value)
  {
    hide Apply;
    StepKeepsExclusion(policy, s, event);
    StepKeepsPermit(policy, s, event);
    StepKeepsEffects(policy, s, event);
    StepKeepsStage(policy, s, event);
    StepKeepsLate(policy, s, event);
  }

  lemma StepKeepsExclusion(policy: Policy, s: State, event: Event)
    requires EffectInvariant(s) && ExclusiveInvariant(policy, s) && Apply(policy, s, event).Some?
    ensures ExclusiveInvariant(policy, Apply(policy, s, event).value)
  {
  }

  /** A mark is acknowledged only while nobody holds the permit and nothing was sent. */
  lemma MarkKeepsPermit(policy: Policy, s: State, event: Event)
    requires IsGuarded(policy) && Invariant(policy, s) && Apply(policy, s, event).Some?
    requires event.MarkDispatched?
    ensures PermitInvariant(Apply(policy, s, event).value)
  {
  }

  /** Whoever seals carries a staged effect, so a request was sent and no permit is out. */
  lemma SealKeepsPermit(policy: Policy, s: State, event: Event)
    requires IsGuarded(policy) && Invariant(policy, s) && Apply(policy, s, event).Some?
    requires event.SealAtomic? || event.Land?
    ensures PermitInvariant(Apply(policy, s, event).value)
  {
  }

  /** Up to the mark, and in reconciliation, no permit is given. */
  lemma ReadsKeepPermit(policy: Policy, s: State, event: Event)
    requires IsGuarded(policy) && Invariant(policy, s) && Apply(policy, s, event).Some?
    requires event.Start? || event.Claim? || event.Deny? || event.Preflight? ||
              event.SealRejected? || event.ReconcileLedger?
    ensures PermitInvariant(Apply(policy, s, event).value)
  {
  }

  /** The permit is spent by the one request it allows. */
  lemma SandboxKeepsPermit(policy: Policy, s: State, event: Event)
    requires IsGuarded(policy) && Invariant(policy, s) && Apply(policy, s, event).Some?
    requires event.Execute? || event.ExecuteReply? || event.ReconcileSession? ||
             event.Crash? || event.Perform? || event.DropRequest? || event.GiveUp?
    ensures PermitInvariant(Apply(policy, s, event).value)
  {
  }

  lemma StepKeepsPermit(policy: Policy, s: State, event: Event)
    requires IsGuarded(policy) && Invariant(policy, s) && Apply(policy, s, event).Some?
    ensures PermitInvariant(Apply(policy, s, event).value)
  {
    hide Apply, Invariant, PermitInvariant;
    if event.MarkDispatched? {
      MarkKeepsPermit(policy, s, event);
    } else if event.SealAtomic? || event.Land? {
      SealKeepsPermit(policy, s, event);
    } else if event.Start? || event.Claim? || event.Deny? || event.Preflight? || event.SealRejected? || event.ReconcileLedger? {
      ReadsKeepPermit(policy, s, event);
    } else {
      SandboxKeepsPermit(policy, s, event);
    }
  }

  /** Claims, marks and rejections touch the register before any request was sent. */
  lemma LedgerKeepsEffects(policy: Policy, s: State, event: Event)
    requires IsGuarded(policy) && Invariant(policy, s) && Apply(policy, s, event).Some?
    requires event.Claim? || event.SealRejected? || event.MarkDispatched? || event.Land?
    ensures EffectInvariant(Apply(policy, s, event).value)
  {
  }

  /** A seal is made of the staged effect, and its output is all that is returned. */
  lemma SealKeepsEffects(policy: Policy, s: State, event: Event)
    requires IsGuarded(policy) && Invariant(policy, s) && Apply(policy, s, event).Some?
    requires event.SealAtomic? || event.ReconcileLedger?
    ensures EffectInvariant(Apply(policy, s, event).value)
  {
  }

  /** The other steps return nothing, and count what they send and perform. */
  lemma OthersKeepEffects(policy: Policy, s: State, event: Event)
    requires IsGuarded(policy) && Invariant(policy, s) && Apply(policy, s, event).Some?
    requires !(event.Claim? || event.SealRejected? || event.MarkDispatched? || event.Land?)
    requires !event.SealAtomic? && !event.ReconcileLedger?
    ensures EffectInvariant(Apply(policy, s, event).value)
  {
  }

  lemma StepKeepsEffects(policy: Policy, s: State, event: Event)
    requires IsGuarded(policy) && Invariant(policy, s) && Apply(policy, s, event).Some?
    ensures EffectInvariant(Apply(policy, s, event).value)
  {
    hide Apply, Invariant, EffectInvariant;
    if event.Claim? || event.SealRejected? || event.MarkDispatched? || event.Land? {
      LedgerKeepsEffects(policy, s, event);
    } else if event.SealAtomic? || event.ReconcileLedger? {
      SealKeepsEffects(policy, s, event);
    } else {
      OthersKeepEffects(policy, s, event);
    }
  }

  lemma StepKeepsStage(policy: Policy, s: State, event: Event)
    requires EffectInvariant(s) && Apply(policy, s, event).Some?
    requires forall c :: c in s.callers ==> CarriesStage(s, s.callers[c])
    ensures var t := Apply(policy, s, event).value;
            forall c :: c in t.callers ==> CarriesStage(t, t.callers[c])
  {
  }

  lemma StepKeepsLate(policy: Policy, s: State, event: Event)
    requires EffectInvariant(s) && LateInvariant(s) && Apply(policy, s, event).Some?
    requires forall c :: c in s.callers ==> CarriesStage(s, s.callers[c])
    ensures LateInvariant(Apply(policy, s, event).value)
  {
  }

  lemma {:induction false} RunsKeepInvariant(policy: Policy, events: seq<Event>)
    requires IsGuarded(policy) && Reached(policy, events).Some?
    ensures Invariant(policy, Reached(policy, events).value)
  {
    hide Invariant, Apply;
    if events == [] {
      InitialInvariant(policy);
    } else {
      var before := events[..|events| - 1];
      RunsKeepInvariant(policy, before);
      StepKeepsInvariant(policy, Reached(policy, before).value, events[|events| - 1]);
    }
  }

  lemma InitialInvariant(policy: Policy)
    ensures Invariant(policy, INITIAL)
  {
  }

  // ---------------------------------------------------------------------------
  // Main results
  // ---------------------------------------------------------------------------

  /** In every run the sandbox effect takes place at most once, never before the intent is
      durably dispatched, and whatever any caller ever returned is the one seal's output. */
  lemma AtMostOnce(policy: Policy, events: seq<Event>)
    requires IsGuarded(policy) && Reached(policy, events).Some?
    ensures var s := Reached(policy, events).value;
            && s.performed <= s.requests <= 1
            && (s.requests > 0 ==> IsDispatchedOrLater(s.register))
            && (forall o :: o in s.returned ==> s.register == Sealed(o))
            && (forall e: Effect :: Completed(e) in s.returned ==> s.performed == 1 && s.stage == Some(e))
            && (Rejected in s.returned ==> s.requests == 0)
  {
    hide Apply, Reached;
    RunsKeepInvariant(policy, events);
  }

  lemma {:induction false} PrefixIsReached(policy: Policy, events: seq<Event>, n: nat)
    requires n <= |events| && Reached(policy, events).Some?
    ensures Reached(policy, events[..n]).Some?
    decreases |events|
  {
    hide Apply;
    if n < |events| {
      var before := events[..|events| - 1];
      PrefixIsReached(policy, before, n);
      assert before[..n] == events[..n];
    } else {
      assert events[..n] == events;
    }
  }

  lemma StepKeepsSeal(policy: Policy, s: State, event: Event)
    requires Apply(policy, s, event).Some?
    ensures s.register.Sealed? ==> Apply(policy, s, event).value.register == s.register
    ensures s.returned <= Apply(policy, s, event).value.returned
  {
  }

  /** Once sealed, an intent keeps that seal in every continuation of the run, whatever
      the policy, and nothing returned is ever taken back. */
  lemma {:induction false} SealsAreForever(policy: Policy, events: seq<Event>, n: nat)
    requires n <= |events| && Reached(policy, events).Some?
    ensures Reached(policy, events[..n]).Some?
    ensures var early, late := Reached(policy, events[..n]).value, Reached(policy, events).value;
            && (early.register.Sealed? ==> late.register == early.register)
            && early.returned <= late.returned
    decreases |events|
  {
    hide Apply;
    PrefixIsReached(policy, events, n);
    if n < |events| {
      var before := events[..|events| - 1];
      SealsAreForever(policy, before, n);
      assert before[..n] == events[..n];
      StepKeepsSeal(policy, Reached(policy, before).value, events[|events| - 1]);
    } else {
      assert events[..n] == events;
    }
  }

  /** An execute request is sent, and takes effect, only in a state whose ledger already
      records the dispatch. */
  lemma ExecutesOnlyWhenDispatched(policy: Policy, events: seq<Event>, event: Event)
    requires IsGuarded(policy) && Reached(policy, events + [event]).Some?
    ensures Reached(policy, events).Some?
    ensures var before, after := Reached(policy, events).value, Reached(policy, events + [event]).value;
            after.requests > before.requests || after.performed > before.performed ==>
              IsDispatchedOrLater(before.register)
  {
    assert (events + [event])[..|events|] == events;
    RunsKeepInvariant(policy, events);
  }

  function Then(policy: Policy, s: Option<State>, event: Event): Option<State> {
    if s.None? then None else Apply(policy, s.value, event)
  }

  /** After any crashes and lost replies, one undisturbed retry returns the staged effect,
      or the seal's output, without executing again. */
  lemma RetryReturnsTheEffect(policy: Policy, events: seq<Event>, caller: Caller)
    requires IsGuarded(policy) && Reached(policy, events).Some?
    requires var s := Reached(policy, events).value;
             s.callers == map[] && (s.register.Sealed? || (s.register.Dispatched? && s.stage.Some?))
    ensures var s := Reached(policy, events).value;
            var claimed := Then(policy, Then(policy, Some(s), Start(caller)), Claim(caller, Answered));
            var sealed :=
              if s.register.Sealed? then claimed
              else Then(policy, Then(policy, claimed, ReconcileSession(caller, Answered)), SealAtomic(caller, Answered));
            && sealed.Some? && sealed.value.callers == map[] && sealed.value.register.Sealed?
            && sealed.value.register.output in sealed.value.returned
            && (s.stage.Some? ==> sealed.value.register.output == Completed(s.stage.value))
            && sealed.value.requests == s.requests && sealed.value.performed == s.performed
  {
    RunsKeepInvariant(policy, events);
    var s := Reached(policy, events).value;
    hide Reached;
    assert (map[caller := Claiming] - {caller}) == map[];
    assert map[] + map[caller := Claiming] == map[caller := Claiming];
  }

  // ---------------------------------------------------------------------------
  // The guard is needed
  // ---------------------------------------------------------------------------

  const TWO_CALLERS: seq<Event> := [
    Start(0), Start(1), Claim(0, Answered), Claim(1, Answered), Preflight(0, true), Preflight(1, true),
    MarkDispatched(0, Answered), MarkDispatched(1, Answered), Execute(0), Execute(1),
    Perform(7, true), Perform(8, true)]

  /** Two callers at once, and a ledger that acknowledges the same mark twice, perform the
      effect twice. */
  lemma UnguardedExecutesTwice()
    ensures var s := Reached(Policy(false, false), TWO_CALLERS);
            s.Some? && s.value.performed == 2
  {
    var policy, events := Policy(false, false), TWO_CALLERS;
    hide Reached;
    var s := INITIAL;
    EmptyRun(policy, events);
    var i := 0;
    while i < |events|
      invariant 0 <= i <= |events|
      invariant Reached(policy, events[..i]) == Some(s)
      invariant s == Snapshot(i)
    {
      assert events[..i + 1][..i] == events[..i];
      OneMore(policy, events[..i + 1]);
      s := Apply(policy, s, events[i]).value;
      i := i + 1;
    }
    assert events[..|events|] == events;
  }

  lemma EmptyRun(policy: Policy, events: seq<Event>)
    ensures Reached(policy, events[..0]) == Some(INITIAL)
  {
  }

  lemma OneMore(policy: Policy, events: seq<Event>)
    requires events != []
    ensures var before := Reached(policy, events[..|events| - 1]);
            Reached(policy, events) == if before.None? then None else Apply(policy, before.value, events[|events| - 1])
  {
  }

  /** The state of the two-caller run after `i` steps. */
  function Snapshot(i: nat): State {
    var ready := map[0 := ReadyToExecute, 1 := ReadyToExecute];
    if i == 0 then INITIAL
    else if i == 1 then INITIAL.(callers := map[0 := Claiming])
    else if i == 2 then INITIAL.(callers := map[0 := Claiming, 1 := Claiming])
    else if i == 3 then State(Claimed, None, 0, 0, 0, {}, map[0 := HoldingClaim, 1 := Claiming], {})
    else if i == 4 then State(Claimed, None, 0, 0, 0, {}, map[0 := HoldingClaim, 1 := HoldingClaim], {})
    else if i == 5 then State(Claimed, None, 0, 0, 0, {}, map[0 := Marking, 1 := HoldingClaim], {})
    else if i == 6 then State(Claimed, None, 0, 0, 0, {}, map[0 := Marking, 1 := Marking], {})
    else if i == 7 then State(Dispatched, None, 0, 0, 0, {}, map[0 := ReadyToExecute, 1 := Marking], {})
    else if i == 8 then State(Dispatched, None, 0, 0, 0, {}, ready, {})
    else if i == 9 then State(Dispatched, None, 1, 1, 0, {}, ready[0 := Executing], {})
    else
      var executing := map[0 := Executing, 1 := Executing];
      if i == 10 then State(Dispatched, None, 2, 2, 0, {}, executing, {})
      else if i == 11 then State(Dispatched, Some(7), 2, 1, 1, {}, executing, {})
      else State(Dispatched, Some(8), 2, 0, 2, {}, executing, {})
  }

  /** The effect takes place at most once in every run exactly when the policy guards it. */
  lemma AtMostOnceExactly(policy: Policy)
    ensures (forall events :: Reached(policy, events).Some? ==> Reached(policy, events).value.performed <= 1) <==>
            IsGuarded(policy)
  {
    hide Reached, Apply;
    if IsGuarded(policy) {
      forall events | Reached(policy, events).Some?
        ensures Reached(policy, events).value.performed <= 1
      {
        AtMostOnce(policy, events);
      }
    } else {
      assert policy == Policy(false, false);
      UnguardedExecutesTwice();
    }
  }
}
