/** The operation protocol read off its runs: in which order a caller sends its requests,
    what the ledger holds, and what an undisturbed call returns.  Everything is said of the
    list of events alone. */
module OperationTraces {
  import opened OperationProtocol
  import opened Wrappers

  // ---------------------------------------------------------------------------
  // The order of one caller's requests
  // ---------------------------------------------------------------------------

  predicate IsBy(event: Event, caller: Caller) {
    !event.Perform? && !event.DropRequest? && !event.Land? && !event.GiveUp? && event.caller == caller
  }

  /** What a caller did right before. */
  predicate MayFollow(before: Event, event: Event) {
    match event
    case Claim(_, _) => before.Start?
    case Deny(_) => before.Start?
    case Preflight(_, _) => before.Claim? && before.delivery.Answered?
    case SealRejected(_, _) => before.Preflight? && !before.accepted
    case MarkDispatched(_, _) => before.Preflight? && before.accepted
    case Execute(_) => before.MarkDispatched? && before.delivery.Answered?
    case ExecuteReply(_, _) => before.Execute?
    case ReconcileSession(_, _) =>
      before.ExecuteReply? || (before.Claim? && before.delivery.Answered?)
    case SealAtomic(_, _) =>
      (before.ExecuteReply? || before.ReconcileSession? || before.ReconcileLedger?) && before.delivery.Answered?
    case ReconcileLedger(_, _) => before.SealAtomic?
    case Crash(_) =>
      !before.Deny? && !before.Crash? && !before.SealRejected? &&
      (before.Claim? || before.MarkDispatched? || before.ReconcileSession? || before.ReconcileLedger? ==>
         before.delivery.Answered?)
    case _ => true
  }

  /** Where the caller's latest event is. */
  ghost function Latest(events: seq<Event>, caller: Caller): (at: Option<nat>)
    ensures at.Some? ==>
              && at.value < |events| && IsBy(events[at.value], caller)
              && forall k :: at.value < k < |events| ==> !IsBy(events[k], caller)
    ensures at.None? ==> forall k :: 0 <= k < |events| ==> !IsBy(events[k], caller)
  {
    if events == [] then None
    else if IsBy(events[|events| - 1], caller) then Some(|events| - 1)
    else Latest(events[..|events| - 1], caller)
  }

  /** What a caller has just done when it stands at this phase. */
  predicate StandsAfter(phase: Phase, event: Event) {
    match phase
    case Claiming => event.Start?
    case HoldingClaim => event.Claim? && event.delivery.Answered?
    case SealingRejection => event.Preflight? && !event.accepted
    case Marking => event.Preflight? && event.accepted
    case ReadyToExecute => event.MarkDispatched? && event.delivery.Answered?
    case Executing => event.Execute?
    case Recovering => event.ExecuteReply? || (event.Claim? && event.delivery.Answered?)
    case Sealing(_) => (event.ExecuteReply? || event.ReconcileSession?) && event.delivery.Answered?
    case Reconciling(_) => event.SealAtomic?
    case Resealing(_) => event.ReconcileLedger? && event.delivery.Answered?
  }

  ghost predicate InOrder(events: seq<Event>, s: State) {
    forall c :: c in s.callers ==>
      Latest(events, c).Some? && StandsAfter(s.callers[c], events[Latest(events, c).value])
  }

  /** A step is its own caller's next, and leaves the other callers where they are. */
  lemma StepMovesItsCaller(policy: Policy, s: State, event: Event)
    requires Apply(policy, s, event).Some?
    ensures var t := Apply(policy, s, event).value;
            forall c :: c in t.callers ==>
              if IsBy(event, c) then StandsAfter(t.callers[c], event) else c in s.callers && t.callers[c] == s.callers[c]
  {
  }

  lemma StepFollows(policy: Policy, s: State, event: Event, before: Event)
    requires Apply(policy, s, event).Some? && !event.Start?
    ensures forall c :: IsBy(event, c) ==>
              c in s.callers && (StandsAfter(s.callers[c], before) ==> MayFollow(before, event))
  {
  }

  lemma {:induction false} RunsAreInOrder(policy: Policy, events: seq<Event>)
    requires Reached(policy, events).Some?
    ensures InOrder(events, Reached(policy, events).value)
  {
    hide Apply, StandsAfter;
    if events != [] {
      var before, event := events[..|events| - 1], events[|events| - 1];
      var s, t := Reached(policy, before).value, Reached(policy, events).value;
      RunsAreInOrder(policy, before);
      StepMovesItsCaller(policy, s, event);
      forall c | c in t.callers
        ensures Latest(events, c).Some? && StandsAfter(t.callers[c], events[Latest(events, c).value])
      {
        assert events[..|events| - 1] == before;
      }
    }
  }

  /** Every request of a caller comes right after the one the protocol puts before it. */
  lemma RequestsComeInOrder(policy: Policy, events: seq<Event>, i: nat, caller: Caller)
    requires i < |events| && Reached(policy, events).Some?
    requires IsBy(events[i], caller) && !events[i].Start?
    ensures var before := Latest(events[..i], caller);
            before.Some? && MayFollow(events[before.value], events[i])
  {
    hide Apply, MayFollow, StandsAfter;
    PrefixIsReached(policy, events, i);
    PrefixIsReached(policy, events, i + 1);
    assert events[..i + 1][..i] == events[..i];
    RunsAreInOrder(policy, events[..i]);
    var s := Reached(policy, events[..i]).value;
    OneMore(policy, events[..i + 1]);
    assert caller in s.callers by {
      StepFollows(policy, s, events[i], events[i]);
    }
    StepFollows(policy, s, events[i], events[Latest(events[..i], caller).value]);
  }

  /** An execute request is sent only by a caller whose arguments the preflight accepted in
      this very call, and whose dispatch mark was then acknowledged. */
  lemma ExecutesOnlyWhenAccepted(policy: Policy, events: seq<Event>, i: nat, caller: Caller)
    requires i < |events| && Reached(policy, events).Some? && events[i] == Execute(caller)
    ensures exists p, m ::
              && 0 <= p < m < i
              && events[p] == Preflight(caller, true) && events[m] == MarkDispatched(caller, Answered)
              && forall k :: p < k < i && k != m ==> !IsBy(events[k], caller)
  {
    hide Apply, Reached;
    RequestsComeInOrder(policy, events, i, caller);
    var m := Latest(events[..i], caller).value;
    RequestsComeInOrder(policy, events, m, caller);
    assert events[..i][..m] == events[..m];
    var p := Latest(events[..m], caller).value;
    assert events[p] == Preflight(caller, true) && events[m] == MarkDispatched(caller, Answered);
    forall k | p < k < i && k != m
      ensures !IsBy(events[k], caller)
    {
      assert if k < m then events[..m][k] == events[k] else events[..i][k] == events[k];
    }
  }

  /** A rejection is sealed only by a caller whose arguments the preflight has just rejected. */
  lemma RejectsOnlyWhenRejected(policy: Policy, events: seq<Event>, i: nat, caller: Caller)
    requires i < |events| && Reached(policy, events).Some? && events[i].SealRejected? && events[i].caller == caller
    ensures exists p ::
              && 0 <= p < i && events[p] == Preflight(caller, false)
              && forall k :: p < k < i ==> !IsBy(events[k], caller)
  {
    hide Apply, Reached;
    RequestsComeInOrder(policy, events, i, caller);
    var p := Latest(events[..i], caller).value;
    assert events[p] == Preflight(caller, false);
    forall k | p < k < i
      ensures !IsBy(events[k], caller)
    {
      assert events[..i][k] == events[k];
    }
  }

  // ---------------------------------------------------------------------------
  // What the run sent, performed and left on its way
  // ---------------------------------------------------------------------------

  function Executes(events: seq<Event>): nat {
    if events == [] then 0
    else Executes(events[..|events| - 1]) + if events[|events| - 1].Execute? then 1 else 0
  }

  function Performs(events: seq<Event>): nat {
    if events == [] then 0
    else Performs(events[..|events| - 1]) + if events[|events| - 1].Perform? then 1 else 0
  }

  function Drops(events: seq<Event>): nat {
    if events == [] then 0
    else Drops(events[..|events| - 1]) + if events[|events| - 1].DropRequest? then 1 else 0
  }

  lemma StepCounts(policy: Policy, s: State, event: Event)
    requires Apply(policy, s, event).Some?
    ensures var t := Apply(policy, s, event).value;
            && t.requests == s.requests + (if event.Execute? then 1 else 0)
            && t.performed == s.performed + (if event.Perform? then 1 else 0)
            && t.pending == s.pending + (if event.Execute? then 1 else 0)
                            - (if event.Perform? || event.DropRequest? then 1 else 0)
            && t.stage == if event.Perform? && event.staged then Some(event.effect) else s.stage
  {
  }

  /** The counts are the run's own, whoever calls and whatever the policy: each execute
      request takes effect, is dropped, or is still on its way. */
  lemma {:induction false} CountsAreTheRuns(policy: Policy, events: seq<Event>)
    requires Reached(policy, events).Some?
    ensures var s := Reached(policy, events).value;
            && s.requests == Executes(events) && s.performed == Performs(events)
            && s.requests == s.performed + s.pending + Drops(events)
  {
    hide Apply;
    if events != [] {
      var before := events[..|events| - 1];
      CountsAreTheRuns(policy, before);
      StepCounts(policy, Reached(policy, before).value, events[|events| - 1]);
    }
  }

  lemma {:induction false} AnExecuteIsThere(events: seq<Event>)
    requires Executes(events) > 0
    ensures exists i, c :: 0 <= i < |events| && events[i] == Execute(c)
  {
    if events[|events| - 1].Execute? {
      assert events[|events| - 1] == Execute(events[|events| - 1].caller);
    } else {
      var before := events[..|events| - 1];
      AnExecuteIsThere(before);
      var i, c :| 0 <= i < |before| && before[i] == Execute(c);
      assert events[i] == Execute(c);
    }
  }

  /** Nothing is sent to the sandbox unless the preflight accepted some call's arguments. */
  lemma NothingRunsUnaccepted(policy: Policy, events: seq<Event>)
    requires Reached(policy, events).Some?
    ensures Reached(policy, events).value.requests > 0 ==> exists c :: Preflight(c, true) in events
  {
    hide Apply, Reached;
    CountsAreTheRuns(policy, events);
    if Reached(policy, events).value.requests > 0 {
      AnExecuteIsThere(events);
      var i, c :| 0 <= i < |events| && events[i] == Execute(c);
      ExecutesOnlyWhenAccepted(policy, events, i, c);
    }
  }

  /** The stage holds exactly the effect that was performed with its evidence staged. */
  lemma {:induction false} StageExactly(policy: Policy, events: seq<Event>, e: Effect)
    requires IsGuarded(policy) && Reached(policy, events).Some?
    ensures Reached(policy, events).value.stage == Some(e) <==> Perform(e, true) in events
  {
    hide Apply, Invariant;
    if events != [] {
      var before, event := events[..|events| - 1], events[|events| - 1];
      var s := Reached(policy, before).value;
      StageExactly(policy, before, e);
      assert events == before + [event];
      StepCounts(policy, s, event);
      StageIsPerformed(policy, before);
      StageIsPerformed(policy, events);
    }
  }

  lemma StageIsPerformed(policy: Policy, events: seq<Event>)
    requires IsGuarded(policy) && Reached(policy, events).Some?
    ensures var s := Reached(policy, events).value;
            s.performed <= 1 && (s.stage.Some? ==> s.performed == 1)
  {
    hide Apply, Reached;
    RunsKeepInvariant(policy, events);
  }

  // ---------------------------------------------------------------------------
  // What the ledger holds
  // ---------------------------------------------------------------------------

  predicate BringsClaim(event: Event) {
    (event.Claim? && !event.delivery.Late?) || event == Land(LateClaim)
  }

  predicate BringsMark(event: Event) {
    (event.MarkDispatched? && !event.delivery.Late?) || event == Land(LateMark)
  }

  predicate BringsRejection(event: Event) {
    (event.SealRejected? && !event.delivery.Late?) || event == Land(LateRejection)
  }

  predicate BringsSeal(event: Event) {
    (event.SealAtomic? && !event.delivery.Late?) || (event.Land? && event.request.LateSeal?)
  }

  /** The first mark or rejection the ledger received. */
  ghost function Decision(events: seq<Event>): (at: Option<nat>)
    ensures at.Some? ==>
              && at.value < |events| && (BringsMark(events[at.value]) || BringsRejection(events[at.value]))
              && forall k :: 0 <= k < at.value ==> !BringsMark(events[k]) && !BringsRejection(events[k])
    ensures at.None? ==> forall k :: 0 <= k < |events| ==> !BringsMark(events[k]) && !BringsRejection(events[k])
  {
    if events == [] then None
    else
      var before := Decision(events[..|events| - 1]);
      if before.Some? then before
      else if BringsMark(events[|events| - 1]) || BringsRejection(events[|events| - 1]) then Some(|events| - 1)
      else None
  }

  /** Before the ledger has a claim, callers have nothing to send but claims. */
  predicate NothingBeforeClaim(s: State) {
    s.register.Unclaimed? ==>
      && s.late <= {LateClaim}
      && forall c :: c in s.callers ==> s.callers[c].Claiming?
  }

  ghost predicate HoldsWhatCame(r: Register, events: seq<Event>) {
    && (r.Unclaimed? <==> forall e :: e in events ==> !BringsClaim(e))
    && (r == Sealed(Rejected) <==> Decision(events).Some? && BringsRejection(events[Decision(events).value]))
    && (IsDispatchedOrLater(r) <==> Decision(events).Some? && BringsMark(events[Decision(events).value]))
    && (r.Unknown? <==> GiveUp in events)
    && (r.Sealed? && r.output.Completed? <==> GiveUp !in events && exists e :: e in events && BringsSeal(e))
  }

  /** A seal is sent only for a staged effect, so never to an undispatched register. */
  lemma SealsFindADispatch(policy: Policy, s: State, event: Event)
    requires Invariant(policy, s) && Apply(policy, s, event).Some? && BringsSeal(event)
    ensures IsDispatchedOrLater(s.register)
  {
  }

  lemma StepKeepsNothing(policy: Policy, s: State, event: Event)
    requires Invariant(policy, s) && NothingBeforeClaim(s) && Apply(policy, s, event).Some?
    ensures NothingBeforeClaim(Apply(policy, s, event).value)
  {
  }

  /** How one event changes the register, by what it brings. */
  predicate Brought(r: Register, event: Event, t: Register) {
    match r
    case Unclaimed =>
      && t == (if BringsClaim(event) then Claimed else r)
      && !BringsMark(event) && !BringsRejection(event) && !BringsSeal(event) && !event.GiveUp?
    case Claimed =>
      && t == (if BringsMark(event) then Dispatched else if BringsRejection(event) then Sealed(Rejected) else r)
      && !BringsSeal(event) && !event.GiveUp?
    case Dispatched =>
      if event.GiveUp? then t == Unknown
      else if BringsSeal(event) then t.Sealed? && t.output.Completed?
      else t == r
    case Sealed(output) => t == r && !event.GiveUp? && (BringsSeal(event) ==> output.Completed?)
    case Unknown => t == r && !event.GiveUp?
  }

  lemma StepBrings(policy: Policy, s: State, event: Event)
    requires Invariant(policy, s) && NothingBeforeClaim(s) && Apply(policy, s, event).Some?
    ensures Brought(s.register, event, Apply(policy, s, event).value.register)
  {
    if BringsSeal(event) {
      SealsFindADispatch(policy, s, event);
    }
  }

  lemma DecisionGrows(before: seq<Event>, event: Event)
    ensures var all := before + [event];
            Decision(all) ==
              if Decision(before).Some? then Decision(before)
              else if BringsMark(event) || BringsRejection(event) then Some(|before|) else None
  {
    hide BringsMark, BringsRejection;
    assert (before + [event])[..|before|] == before;
  }

  lemma OneEvent(event: Event)
    ensures !(BringsMark(event) && BringsRejection(event))
    ensures event.GiveUp? ==> !BringsSeal(event)
  {
  }

  lemma HoldingGrows(before: seq<Event>, event: Event, r: Register, t: Register)
    requires HoldsWhatCame(r, before) && Brought(r, event, t)
    ensures HoldsWhatCame(t, before + [event])
  {
    hide BringsClaim, BringsMark, BringsRejection, BringsSeal, Decision;
    var all := before + [event];
    DecisionGrows(before, event);
    OneEvent(event);
    assert Decision(before).Some? ==> all[Decision(before).value] == before[Decision(before).value];
    assert all[|before|] == event;
    assert forall e :: e in all <==> e in before || e == event;
    assert (forall e :: e in all ==> !BringsClaim(e)) <==>
           (forall e :: e in before ==> !BringsClaim(e)) && !BringsClaim(event);
    assert (exists e :: e in all && BringsSeal(e)) <==> (exists e :: e in before && BringsSeal(e)) || BringsSeal(event);
  }

  /** What the ledger holds is decided by what reached it, in order: the first mark or
      rejection settles for good whether the operation runs, a seal or the ledger's giving
      up how it ends; what comes later changes nothing. */
  lemma {:induction false} RegisterExactly(policy: Policy, events: seq<Event>)
    requires IsGuarded(policy) && Reached(policy, events).Some?
    ensures HoldsWhatCame(Reached(policy, events).value.register, events)
    ensures NothingBeforeClaim(Reached(policy, events).value)
  {
    hide Apply, Invariant, HoldsWhatCame, Brought, NothingBeforeClaim;
    if events == [] {
      NothingCame(policy);
    } else {
      var before, event := events[..|events| - 1], events[|events| - 1];
      var s := Reached(policy, before).value;
      RegisterExactly(policy, before);
      RunsKeepInvariant(policy, before);
      StepKeepsNothing(policy, s, event);
      StepBrings(policy, s, event);
      HoldingGrows(before, event, s.register, Reached(policy, events).value.register);
      assert events == before + [event];
    }
  }

  lemma NothingCame(policy: Policy)
    ensures HoldsWhatCame(INITIAL.register, []) && NothingBeforeClaim(INITIAL)
  {
  }

  // ---------------------------------------------------------------------------
  // What was left on its way, and what was returned
  // ---------------------------------------------------------------------------

  ghost predicate LeftLate(s: State, events: seq<Event>) {
    && (LateClaim in s.late <==> exists c :: Claim(c, Late) in events)
    && (LateMark in s.late <==> exists c :: MarkDispatched(c, Late) in events)
    && (LateRejection in s.late <==> exists c :: SealRejected(c, Late) in events)
    && ((exists e :: LateSeal(e) in s.late) <==> exists c :: SealAtomic(c, Late) in events)
  }

  /** A late request is left by the event that sent it, and by no other. */
  lemma StepLeaves(policy: Policy, s: State, event: Event)
    requires Apply(policy, s, event).Some?
    ensures var t := Apply(policy, s, event).value;
            && (LateClaim in t.late <==> LateClaim in s.late || (event.Claim? && event.delivery.Late?))
            && (LateMark in t.late <==> LateMark in s.late || (event.MarkDispatched? && event.delivery.Late?))
            && (LateRejection in t.late <==> LateRejection in s.late || (event.SealRejected? && event.delivery.Late?))
            && ((exists e :: LateSeal(e) in t.late) <==>
                  (exists e :: LateSeal(e) in s.late) || (event.SealAtomic? && event.delivery.Late?))
  {
    var t := Apply(policy, s, event).value;
    if event.SealAtomic? && event.delivery.Late? {
      assert LateSeal(s.callers[event.caller].effect) in t.late;
    }
  }

  lemma LeavingGrows(before: seq<Event>, event: Event, s: State, t: State)
    requires LeftLate(s, before)
    requires LateClaim in t.late <==> LateClaim in s.late || (event.Claim? && event.delivery.Late?)
    requires LateMark in t.late <==> LateMark in s.late || (event.MarkDispatched? && event.delivery.Late?)
    requires LateRejection in t.late <==> LateRejection in s.late || (event.SealRejected? && event.delivery.Late?)
    requires (exists e :: LateSeal(e) in t.late) <==>
               (exists e :: LateSeal(e) in s.late) || (event.SealAtomic? && event.delivery.Late?)
    ensures LeftLate(t, before + [event])
  {
    var all := before + [event];
    assert forall e :: e in all <==> e in before || e == event;
    if event.Claim? && event.delivery.Late? {
      assert Claim(event.caller, Late) in all;
    } else if event.MarkDispatched? && event.delivery.Late? {
      assert MarkDispatched(event.caller, Late) in all;
    } else if event.SealRejected? && event.delivery.Late? {
      assert SealRejected(event.caller, Late) in all;
    } else if event.SealAtomic? && event.delivery.Late? {
      assert SealAtomic(event.caller, Late) in all;
    }
  }

  /** Exactly the requests sent late may land later. */
  lemma {:induction false} LateExactly(policy: Policy, events: seq<Event>)
    requires Reached(policy, events).Some?
    ensures LeftLate(Reached(policy, events).value, events)
  {
    hide Apply, LeftLate;
    if events == [] {
      NothingIsLate();
    } else {
      var before, event := events[..|events| - 1], events[|events| - 1];
      LateExactly(policy, before);
      StepLeaves(policy, Reached(policy, before).value, event);
      LeavingGrows(before, event, Reached(policy, before).value, Reached(policy, events).value);
      assert events == before + [event];
    }
  }

  lemma NothingIsLate()
    ensures LeftLate(INITIAL, [])
  {
  }

  /** A rejection that reached the ledger was sent by some caller. */
  lemma RejectionsWereSent(policy: Policy, events: seq<Event>, i: nat)
    requires i < |events| && Reached(policy, events).Some? && BringsRejection(events[i])
    ensures exists c, d :: SealRejected(c, d) in events
  {
    hide Apply, Reached;
    if events[i].SealRejected? {
      assert events[i] == SealRejected(events[i].caller, events[i].delivery);
    } else {
      PrefixIsReached(policy, events, i);
      PrefixIsReached(policy, events, i + 1);
      assert events[..i + 1][..i] == events[..i];
      OneMore(policy, events[..i + 1]);
      LandsLate(policy, Reached(policy, events[..i]).value, events[i]);
      LateExactly(policy, events[..i]);
      var c :| SealRejected(c, Late) in events[..i];
      assert SealRejected(c, Late) in events;
    }
  }

  lemma LandsLate(policy: Policy, s: State, event: Event)
    requires Apply(policy, s, event).Some? && event.Land?
    ensures event.request in s.late
  {
  }

  /** A rejection is returned, or sealed, only if the preflight rejected some call. */
  lemma NothingIsRejectedUnlessRefused(policy: Policy, events: seq<Event>)
    requires IsGuarded(policy) && Reached(policy, events).Some?
    ensures var s := Reached(policy, events).value;
            s.register == Sealed(Rejected) || Rejected in s.returned || LateRejection in s.late ==>
              exists c :: Preflight(c, false) in events
  {
    hide Apply, Reached;
    var s := Reached(policy, events).value;
    if s.register == Sealed(Rejected) || Rejected in s.returned || LateRejection in s.late {
      AtMostOnce(policy, events);
      RegisterExactly(policy, events);
      LateExactly(policy, events);
      if LateRejection !in s.late {
        RejectionsWereSent(policy, events, Decision(events).value);
      }
      var c, d :| SealRejected(c, d) in events;
      var i :| 0 <= i < |events| && events[i] == SealRejected(c, d);
      RejectsOnlyWhenRejected(policy, events, i, c);
    }
  }

  /** The event is a reply that tells its caller what the seal holds. */
  ghost predicate TellsSeal(events: seq<Event>, i: nat)
    requires i < |events|
  {
    || ((events[i].Claim? || events[i].SealAtomic? || events[i].ReconcileLedger?) && events[i].delivery.Answered?)
    || (events[i].SealRejected? && events[i].delivery.Answered? && Decision(events) == Some(i))
  }

  ghost predicate WasTold(policy: Policy, events: seq<Event>, i: nat, o: Output)
    requires i < |events|
  {
    var after := Reached(policy, events[..i + 1]);
    TellsSeal(events, i) && after.Some? && after.value.register == Sealed(o)
  }

  lemma StepReturns(policy: Policy, s: State, event: Event)
    requires Invariant(policy, s) && NothingBeforeClaim(s) && Apply(policy, s, event).Some?
    ensures var t := Apply(policy, s, event).value;
            && (event.SealRejected? ==> !s.register.Unclaimed?)
            && t.returned == s.returned +
                 if t.register.Sealed? &&
                    (((event.Claim? || event.SealAtomic? || event.ReconcileLedger?) && event.delivery.Answered?) ||
                     (event.SealRejected? && event.delivery.Answered? && s.register.Claimed?))
                 then {t.register.output} else {}
  {
  }

  /** A call returns exactly when a reply reaches it that tells what the intent was sealed
      with, and it returns that. */
  lemma {:induction false} ReturnedExactly(policy: Policy, events: seq<Event>, o: Output)
    requires IsGuarded(policy) && Reached(policy, events).Some?
    ensures o in Reached(policy, events).value.returned <==>
            exists i :: 0 <= i < |events| && WasTold(policy, events, i, o)
  {
    hide Apply, Invariant, WasTold, NothingBeforeClaim;
    if events != [] {
      var before, event := events[..|events| - 1], events[|events| - 1];
      var s, t := Reached(policy, before).value, Reached(policy, events).value;
      ReturnedExactly(policy, before, o);
      RunsKeepInvariant(policy, before);
      RegisterExactly(policy, before);
      StepReturns(policy, s, event);
      LastIsTold(policy, events, o);
      forall i | 0 <= i < |before|
        ensures WasTold(policy, before, i, o) <==> WasTold(policy, events, i, o)
      {
        EarlierIsTold(policy, events, i, o);
      }
    }
  }

  lemma EarlierIsTold(policy: Policy, events: seq<Event>, i: nat, o: Output)
    requires i < |events| - 1
    ensures WasTold(policy, events[..|events| - 1], i, o) <==> WasTold(policy, events, i, o)
  {
    hide Apply, Reached, BringsMark, BringsRejection, Decision;
    var before, event := events[..|events| - 1], events[|events| - 1];
    assert before + [event] == events;
    DecisionGrows(before, event);
    assert before[..i + 1] == events[..i + 1];
  }

  lemma LastIsTold(policy: Policy, events: seq<Event>, o: Output)
    requires events != [] && Reached(policy, events).Some?
    requires IsGuarded(policy)
    ensures var before, event := events[..|events| - 1], events[|events| - 1];
            && Reached(policy, before).Some?
            && (WasTold(policy, events, |events| - 1, o) <==>
                  && Reached(policy, events).value.register == Sealed(o)
                  && (((event.Claim? || event.SealAtomic? || event.ReconcileLedger?) && event.delivery.Answered?) ||
                      (event.SealRejected? && event.delivery.Answered? && Reached(policy, before).value.register.Claimed?)))
  {
    hide Apply, Invariant, Decision;
    var before, event := events[..|events| - 1], events[|events| - 1];
    var s := Reached(policy, before).value;
    assert before + [event] == events;
    assert events[..|events|] == events;
    DecisionGrows(before, event);
    RegisterExactly(policy, before);
    RunsKeepInvariant(policy, before);
    StepReturns(policy, s, event);
  }

  predicate HasDelivery(event: Event) {
    event.Claim? || event.SealRejected? || event.MarkDispatched? || event.ExecuteReply? || event.ReconcileSession? ||
    event.SealAtomic? || event.ReconcileLedger?
  }

  /** What a caller may do next at this phase, its reply coming as told. */
  function NextOf(phase: Phase, caller: Caller, delivery: Delivery): Event {
    match phase
    case Claiming => Claim(caller, delivery)
    case HoldingClaim => Preflight(caller, true)
    case SealingRejection => SealRejected(caller, delivery)
    case Marking => MarkDispatched(caller, delivery)
    case ReadyToExecute => Execute(caller)
    case Executing => ExecuteReply(caller, delivery)
    case Recovering => ReconcileSession(caller, delivery)
    case Reconciling(_) => ReconcileLedger(caller, delivery)
    case _ => SealAtomic(caller, delivery)
  }

  lemma OneEventMore(policy: Policy, events: seq<Event>, event: Event)
    requires Reached(policy, events).Some?
    ensures Reached(policy, events + [event]) == Apply(policy, Reached(policy, events).value, event)
  {
    hide Apply;
    assert (events + [event])[..|events|] == events;
    OneMore(policy, events + [event]);
  }

  /** A caller may crash at any point, which changes nothing else, or send its next
      request with any fate of the reply. */
  lemma CallersMayFail(policy: Policy, events: seq<Event>, caller: Caller, delivery: Delivery)
    requires Reached(policy, events).Some? && caller in Reached(policy, events).value.callers
    ensures var s := Reached(policy, events).value;
            Reached(policy, events + [Crash(caller)]) == Some(s.(callers := s.callers - {caller}))
    ensures exists e ::
              && IsBy(e, caller) && !e.Crash? && (HasDelivery(e) ==> e.delivery == delivery)
              && Reached(policy, events + [e]).Some?
  {
    hide Reached;
    var s := Reached(policy, events).value;
    OneEventMore(policy, events, Crash(caller));
    var e := NextOf(s.callers[caller], caller, delivery);
    OneEventMore(policy, events, e);
    assert IsBy(e, caller) && Reached(policy, events + [e]).Some?;
  }

  /** What is on its way may take effect, with its evidence or without, or be dropped, a
      late request may land, and the ledger may give up a dispatched intent. */
  lemma AnythingMayHappen(policy: Policy, events: seq<Event>, event: Event)
    requires Reached(policy, events).Some?
    ensures var s := Reached(policy, events).value;
            || ((event.Perform? || event.DropRequest?) && s.pending > 0)
            || (event.GiveUp? && s.register.Dispatched?)
            || (event.Land? && event.request in s.late) ==>
              Reached(policy, events + [event]).Some?
  {
    hide Reached;
    OneEventMore(policy, events, event);
  }

  // ---------------------------------------------------------------------------
  // An undisturbed call
  // ---------------------------------------------------------------------------

  function Run(policy: Policy, s: Option<State>, script: seq<Event>): Option<State>
    decreases |script|
  {
    if script == [] then s else Run(policy, Then(policy, s, script[0]), script[1..])
  }

  lemma {:induction false} RunContinues(policy: Policy, events: seq<Event>, script: seq<Event>)
    ensures Reached(policy, events + script) == Run(policy, Reached(policy, events), script)
    decreases |script|
  {
    hide Apply;
    if script == [] {
      assert events + script == events;
    } else {
      assert events + script == (events + [script[0]]) + script[1..];
      assert (events + [script[0]])[..|events|] == events;
      RunContinues(policy, events + [script[0]], script[1..]);
    }
  }

  lemma {:induction false} RunInTwo(policy: Policy, s: Option<State>, a: seq<Event>, b: seq<Event>)
    ensures Run(policy, s, a + b) == Run(policy, Run(policy, s, a), b)
    decreases |a|
  {
    hide Then;
    if a == [] {
      assert a + b == b;
    } else {
      assert (a + b)[1..] == a[1..] + b;
      RunInTwo(policy, Then(policy, s, a[0]), a[1..], b);
    }
  }

  /** A first seal answered, applied with its reply lost, or late, and what the source does
      about it. */
  function Closing(caller: Caller, seal: Delivery): seq<Event> {
    match seal
    case Answered => [SealAtomic(caller, Answered)]
    case LostReply => [SealAtomic(caller, LostReply), ReconcileLedger(caller, Answered)]
    case Late => [SealAtomic(caller, Late), ReconcileLedger(caller, Answered), SealAtomic(caller, Answered)]
  }

  function Opening(caller: Caller): seq<Event> {
    [Start(caller), Claim(caller, Answered)]
  }

  function Execution(caller: Caller, effect: Effect, reply: Delivery): seq<Event> {
    [Preflight(caller, true), MarkDispatched(caller, Answered), Execute(caller), Perform(effect, true),
     ExecuteReply(caller, reply)] + if reply.Answered? then [] else [ReconcileSession(caller, Answered)]
  }

  /** What one caller does, alone, when its preflight gives this verdict, its execution
      this effect, and the replies of the execution and of the first seal come like this. */
  function Undisturbed(s: State, caller: Caller, accepted: bool, effect: Effect, reply: Delivery, seal: Delivery)
    : seq<Event>
  {
    Opening(caller) +
    (match s.register
     case Sealed(_) => []
     case Unknown => []
     case Dispatched =>
       [ReconcileSession(caller, Answered)] + if s.stage.Some? then Closing(caller, seal) else []
     case _ =>
       if accepted then Execution(caller, effect, reply) + Closing(caller, seal)
       else [Preflight(caller, false), SealRejected(caller, Answered)])
  }

  /** What an undisturbed call must return: the seal, else the staged effect, else what its
      own preflight and execution give.  A dispatch without a staged effect, and an intent
      the ledger gave up, return nothing. */
  function Due(s: State, accepted: bool, effect: Effect): Option<Output> {
    if s.register.Sealed? then Some(s.register.output)
    else if s.register.Unknown? || (s.register.Dispatched? && s.stage.None?) then None
    else if s.register.Dispatched? then Some(Completed(s.stage.value))
    else if accepted then Some(Completed(effect)) else Some(Rejected)
  }

  predicate RunsNow(s: State, accepted: bool) {
    (s.register.Unclaimed? || s.register.Claimed?) && accepted
  }

  function Alone(s: State, caller: Caller, phase: Phase): State {
    s.(callers := map[caller := phase])
  }

  lemma OneCaller(caller: Caller, p: Phase, q: Phase)
    ensures map[caller := p][caller := q] == map[caller := q]
    ensures map[caller := p] - {caller} == map[]
  {
  }

  lemma Opens(policy: Policy, s: State, caller: Caller)
    requires s.callers == map[]
    ensures Run(policy, Some(s), Opening(caller)) == Some(
              match s.register
              case Sealed(output) => s.(returned := s.returned + {output})
              case Unknown => s
              case Dispatched => Alone(s, caller, Recovering)
              case _ => Alone(s.(register := Claimed), caller, HoldingClaim))
  {
    hide Run;
    var started := Alone(s, caller, Claiming);
    OneCaller(caller, Claiming, HoldingClaim);
    OneCaller(caller, Claiming, Recovering);
    assert Then(policy, Some(s), Start(caller)) == Some(started);
    RunsTwo(policy, Some(s), Start(caller), Claim(caller, Answered));
  }

  lemma RunsOne(policy: Policy, s: Option<State>, a: Event)
    ensures Run(policy, s, [a]) == Then(policy, s, a)
  {
    hide Then;
    assert [a][1..] == [];
  }

  lemma RunsTwo(policy: Policy, s: Option<State>, a: Event, b: Event)
    ensures Run(policy, s, [a, b]) == Then(policy, Then(policy, s, a), b)
  {
    hide Then;
    assert [a, b][1..] == [b];
    RunsOne(policy, Then(policy, s, a), b);
  }

  lemma RunsThree(policy: Policy, s: Option<State>, a: Event, b: Event, c: Event)
    ensures Run(policy, s, [a, b, c]) == Then(policy, Then(policy, Then(policy, s, a), b), c)
  {
    hide Then;
    assert [a, b, c][1..] == [b, c];
    RunsTwo(policy, Then(policy, s, a), b, c);
  }

  lemma Rejects(policy: Policy, s: State, caller: Caller)
    requires s.register.Claimed?
    ensures Run(policy, Some(Alone(s, caller, HoldingClaim)), [Preflight(caller, false), SealRejected(caller, Answered)])
              == Some(s.(register := Sealed(Rejected), callers := map[], returned := s.returned + {Rejected}))
  {
    hide Run;
    OneCaller(caller, HoldingClaim, SealingRejection);
    OneCaller(caller, SealingRejection, SealingRejection);
    RunsTwo(policy, Some(Alone(s, caller, HoldingClaim)), Preflight(caller, false), SealRejected(caller, Answered));
  }

  lemma Dispatches(policy: Policy, s: State, caller: Caller)
    requires s.register.Claimed?
    ensures Run(policy, Some(Alone(s, caller, HoldingClaim)),
                [Preflight(caller, true), MarkDispatched(caller, Answered), Execute(caller)])
              == Some(Alone(s.(register := Dispatched, requests := s.requests + 1, pending := s.pending + 1),
                            caller, Executing))
  {
    hide Run;
    OneCaller(caller, HoldingClaim, Marking);
    OneCaller(caller, Marking, ReadyToExecute);
    OneCaller(caller, ReadyToExecute, Executing);
    RunsThree(policy, Some(Alone(s, caller, HoldingClaim)),
              Preflight(caller, true), MarkDispatched(caller, Answered), Execute(caller));
  }

  lemma Stages(policy: Policy, s: State, caller: Caller, effect: Effect, reply: Delivery)
    requires s.pending > 0
    ensures Run(policy, Some(Alone(s, caller, Executing)),
                [Perform(effect, true), ExecuteReply(caller, reply)] +
                if reply.Answered? then [] else [ReconcileSession(caller, Answered)])
              == Some(Alone(s.(pending := s.pending - 1, performed := s.performed + 1, stage := Some(effect)),
                            caller, Sealing(effect)))
  {
    hide Run;
    var start := Some(Alone(s, caller, Executing));
    OneCaller(caller, Executing, Recovering);
    OneCaller(caller, Executing, Sealing(effect));
    OneCaller(caller, Recovering, Sealing(effect));
    if reply.Answered? {
      assert [Perform(effect, true), ExecuteReply(caller, reply)] + [] == [Perform(effect, true), ExecuteReply(caller, reply)];
      RunsTwo(policy, start, Perform(effect, true), ExecuteReply(caller, reply));
    } else {
      assert [Perform(effect, true), ExecuteReply(caller, reply)] + [ReconcileSession(caller, Answered)] ==
             [Perform(effect, true), ExecuteReply(caller, reply), ReconcileSession(caller, Answered)];
      RunsThree(policy, start, Perform(effect, true), ExecuteReply(caller, reply), ReconcileSession(caller, Answered));
    }
  }

  lemma Closes(policy: Policy, s: State, caller: Caller, effect: Effect, seal: Delivery)
    requires s.register.Dispatched?
    ensures Run(policy, Some(Alone(s, caller, Sealing(effect))), Closing(caller, seal)) ==
              Some(s.(register := Sealed(Completed(effect)), callers := map[],
                      late := if seal.Late? then s.late + {LateSeal(effect)} else s.late,
                      returned := s.returned + {Completed(effect)}))
  {
    hide Run;
    var start := Some(Alone(s, caller, Sealing(effect)));
    OneCaller(caller, Sealing(effect), Reconciling(effect));
    OneCaller(caller, Reconciling(effect), Resealing(effect));
    OneCaller(caller, Resealing(effect), Resealing(effect));
    if seal.Answered? {
      RunsOne(policy, start, SealAtomic(caller, Answered));
    } else if seal.LostReply? {
      RunsTwo(policy, start, SealAtomic(caller, LostReply), ReconcileLedger(caller, Answered));
    } else {
      RunsThree(policy, start, SealAtomic(caller, Late), ReconcileLedger(caller, Answered), SealAtomic(caller, Answered));
    }
  }

  /** From any state a guarded run can leave behind, one undisturbed call returns what is
      due, seals the intent with it, and executes only if nothing was dispatched before and
      its arguments were accepted. */
  lemma UndisturbedCallExactly(policy: Policy, events: seq<Event>, caller: Caller, accepted: bool, effect: Effect,
                               reply: Delivery, seal: Delivery)
    requires Reached(policy, events).Some? && Reached(policy, events).value.callers == map[]
    ensures var s := Reached(policy, events).value;
            var after := Reached(policy, events + Undisturbed(s, caller, accepted, effect, reply, seal));
            var due := Due(s, accepted, effect);
            && after.Some? && after.value.callers == map[]
            && after.value.returned == s.returned + (if due.Some? then {due.value} else {})
            && after.value.register == (if due.Some? then Sealed(due.value) else s.register)
            && after.value.requests == s.requests + (if RunsNow(s, accepted) then 1 else 0)
            && after.value.performed == s.performed + (if RunsNow(s, accepted) then 1 else 0)
            && after.value.stage == (if RunsNow(s, accepted) then Some(effect) else s.stage)
  {
    hide Apply, Reached, Run, Closing, Opening, Execution;
    var s := Reached(policy, events).value;
    var script := Undisturbed(s, caller, accepted, effect, reply, seal);
    var rest := script[|Opening(caller)|..];
    assert script == Opening(caller) + rest;
    RunContinues(policy, events, script);
    RunInTwo(policy, Some(s), Opening(caller), rest);
    Opens(policy, s, caller);
    if s.register.Sealed? || s.register.Unknown? {
      assert rest == [];
      RunsNothing(policy, Run(policy, Some(s), Opening(caller)));
    } else if s.register.Dispatched? {
      Resumes(policy, s, caller, seal);
    } else {
      Begins(policy, s.(register := Claimed), caller, accepted, effect, reply, seal);
    }
  }

  lemma RunsNothing(policy: Policy, s: Option<State>)
    ensures Run(policy, s, []) == s
  {
  }

  lemma Resumes(policy: Policy, s: State, caller: Caller, seal: Delivery)
    requires s.register.Dispatched? && s.callers == map[]
    ensures Run(policy, Some(Alone(s, caller, Recovering)),
                [ReconcileSession(caller, Answered)] + if s.stage.Some? then Closing(caller, seal) else []) ==
              Some(if s.stage.None? then s
                   else s.(register := Sealed(Completed(s.stage.value)),
                           late := if seal.Late? then s.late + {LateSeal(s.stage.value)} else s.late,
                           returned := s.returned + {Completed(s.stage.value)}))
  {
    hide Run, Closing;
    var start, first := Some(Alone(s, caller, Recovering)), [ReconcileSession(caller, Answered)];
    RunsOne(policy, start, ReconcileSession(caller, Answered));
    OneCaller(caller, Recovering, Recovering);
    if s.stage.Some? {
      OneCaller(caller, Recovering, Sealing(s.stage.value));
      RunInTwo(policy, start, first, Closing(caller, seal));
      Closes(policy, s, caller, s.stage.value, seal);
    } else {
      assert first + [] == first;
    }
  }

  lemma Begins(policy: Policy, s: State, caller: Caller, accepted: bool, effect: Effect, reply: Delivery, seal: Delivery)
    requires s.register.Claimed? && s.callers == map[]
    ensures Run(policy, Some(Alone(s, caller, HoldingClaim)),
                if accepted then Execution(caller, effect, reply) + Closing(caller, seal)
                else [Preflight(caller, false), SealRejected(caller, Answered)]) ==
              Some(if accepted
                   then s.(register := Sealed(Completed(effect)), requests := s.requests + 1,
                           performed := s.performed + 1, stage := Some(effect),
                           late := if seal.Late? then s.late + {LateSeal(effect)} else s.late,
                           returned := s.returned + {Completed(effect)})
                   else s.(register := Sealed(Rejected), returned := s.returned + {Rejected}))
  {
    hide Apply, Run, Closing;
    var start := Some(Alone(s, caller, HoldingClaim));
    if accepted {
      var dispatching := [Preflight(caller, true), MarkDispatched(caller, Answered), Execute(caller)];
      var staging := [Perform(effect, true), ExecuteReply(caller, reply)] +
                     if reply.Answered? then [] else [ReconcileSession(caller, Answered)];
      assert Execution(caller, effect, reply) == dispatching + staging;
      RunInTwo(policy, start, dispatching + staging, Closing(caller, seal));
      RunInTwo(policy, start, dispatching, staging);
      Dispatches(policy, s, caller);
      var sent := s.(register := Dispatched, requests := s.requests + 1, pending := s.pending + 1);
      Stages(policy, sent, caller, effect, reply);
      Closes(policy, sent.(pending := s.pending, performed := s.performed + 1, stage := Some(effect)), caller, effect, seal);
    } else {
      Rejects(policy, s, caller);
    }
  }
}
