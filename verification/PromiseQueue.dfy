/** The per-attempt promise queue: each call waits for the tail it found in the map, leaves
    its own tail there, and takes it away at its end if it is still there.  A step is what
    runs between two awaits. */
module PromiseQueue {
  import opened Wrappers

  datatype Phase = Waiting | Running | Done(failed: bool)

  /** A call's tail settles when its own barrier is released and, before that, the tail
      of `previous`, if it found one. */
  datatype Call = Call(attemptId: string, previous: Option<nat>, phase: Phase)

  /** Calls are numbered in order of arrival; `queues` holds the number of the call whose
      tail is in the map. */
  datatype State = State(calls: seq<Call>, queues: map<string, nat>)

  const INITIAL := State([], map[])

  datatype Event = Enter(attemptId: string) | Start(call: nat) | Finish(call: nat, failed: bool)

  predicate IsTailSettled(calls: seq<Call>, c: nat)
    decreases c
  {
    && c < |calls| && calls[c].phase.Done?
    && (calls[c].previous.Some? ==> calls[c].previous.value < c && IsTailSettled(calls, calls[c].previous.value))
  }

  predicate CanStart(s: State, c: nat) {
    && c < |s.calls| && s.calls[c].phase.Waiting?
    && (s.calls[c].previous.Some? ==> IsTailSettled(s.calls, s.calls[c].previous.value))
  }

  function Apply(s: State, event: Event): Option<State> {
    match event
    case Enter(attemptId) =>
      var previous := if attemptId in s.queues then Some(s.queues[attemptId]) else None;
      Some(State(s.calls + [Call(attemptId, previous, Waiting)], s.queues[attemptId := |s.calls|]))
    case Start(c) =>
      if !CanStart(s, c) then None else Some(s.(calls := s.calls[c := s.calls[c].(phase := Running)]))
    case Finish(c, failed) =>
      if c >= |s.calls| || !s.calls[c].phase.Running? then None
      else
        var id := s.calls[c].attemptId;
        Some(State(s.calls[c := s.calls[c].(phase := Done(failed))],
                   if id in s.queues && s.queues[id] == c then s.queues - {id} else s.queues))
  }

  function Reached(events: seq<Event>): Option<State> {
    if events == [] then Some(INITIAL)
    else
      var before := Reached(events[..|events| - 1]);
      if before.None? then None else Apply(before.value, events[|events| - 1])
  }

  // ---------------------------------------------------------------------------
  // Invariant
  // ---------------------------------------------------------------------------

  /** Every earlier call for the same attempt has ended. */
  predicate AllEarlierDone(calls: seq<Call>, c: nat)
    requires c < |calls|
  {
    forall d :: 0 <= d < c && calls[d].attemptId == calls[c].attemptId ==> calls[d].phase.Done?
  }

  predicate IsLastOf(calls: seq<Call>, id: string, c: nat) {
    && c < |calls| && calls[c].attemptId == id
    && forall d :: c < d < |calls| ==> calls[d].attemptId != id
  }

  /** `previous` is the call just before, or nothing if all before it had ended. */
  predicate IsLinked(calls: seq<Call>, c: nat)
    requires c < |calls|
  {
    match calls[c].previous
    case None => AllEarlierDone(calls, c)
    case Some(p) => p < c && calls[p].attemptId == calls[c].attemptId &&
                    forall d :: p < d < c ==> calls[d].attemptId != calls[c].attemptId
  }

  predicate CallsAreOrderly(calls: seq<Call>) {
    && (forall c: nat :: c < |calls| ==> IsLinked(calls, c))
    && (forall c: nat :: c < |calls| && !calls[c].phase.Waiting? ==> AllEarlierDone(calls, c))
  }

  /** The map holds the last call of exactly the attempts that have an unfinished one. */
  predicate MapIsExact(s: State) {
    && (forall id :: id in s.queues ==> IsLastOf(s.calls, id, s.queues[id]) && !s.calls[s.queues[id]].phase.Done?)
    && (forall c: nat :: c < |s.calls| && !s.calls[c].phase.Done? ==> s.calls[c].attemptId in s.queues)
  }

  predicate Invariant(s: State) {
    CallsAreOrderly(s.calls) && MapIsExact(s)
  }

  /** The tail a call waits for settles exactly when every earlier call has ended, whether
      it failed or not. */
  lemma {:induction false} TailSettlesExactly(calls: seq<Call>, c: nat)
    requires CallsAreOrderly(calls) && c < |calls|
    ensures IsTailSettled(calls, c) <==> calls[c].phase.Done? && AllEarlierDone(calls, c)
    decreases c
  {
    assert IsLinked(calls, c);
    if calls[c].previous.Some? {
      var p := calls[c].previous.value;
      TailSettlesExactly(calls, p);
    }
  }

  lemma StartsExactlyInTurn(s: State, c: nat)
    requires Invariant(s) && c < |s.calls|
    ensures CanStart(s, c) <==> s.calls[c].phase.Waiting? && AllEarlierDone(s.calls, c)
  {
    hide IsTailSettled;
    assert IsLinked(s.calls, c);
    if s.calls[c].previous.Some? {
      TailSettlesExactly(s.calls, s.calls[c].previous.value);
    }
  }

  lemma EnterKeepsInvariant(s: State, id: string)
    requires Invariant(s)
    ensures Invariant(Apply(s, Enter(id)).value)
  {
    var t := Apply(s, Enter(id)).value;
    forall c: nat | c < |t.calls| ensures IsLinked(t.calls, c) {
      if c < |s.calls| {
        assert IsLinked(s.calls, c);
      }
    }
  }

  lemma PhaseKeepsLinks(calls: seq<Call>, c: nat, phase: Phase)
    requires CallsAreOrderly(calls) && c < |calls| && AllEarlierDone(calls, c)
    requires !calls[c].phase.Done?
    ensures CallsAreOrderly(calls[c := calls[c].(phase := phase)])
  {
    var after := calls[c := calls[c].(phase := phase)];
    forall d: nat | d < |after| ensures IsLinked(after, d) {
      assert IsLinked(calls, d);
    }
  }

  lemma FinishKeepsMap(s: State, c: nat, failed: bool)
    requires Invariant(s) && c < |s.calls| && s.calls[c].phase.Running?
    ensures MapIsExact(Apply(s, Finish(c, failed)).value)
  {
    var id := s.calls[c].attemptId;
    var t := Apply(s, Finish(c, failed)).value;
    var last := s.queues[id];
    assert IsLastOf(s.calls, id, last);
    if last == c {
      assert AllEarlierDone(s.calls, c);
    }
    forall d: nat | d < |t.calls| && !t.calls[d].phase.Done? ensures t.calls[d].attemptId in t.queues {
      assert !s.calls[d].phase.Done?;
    }
  }

  lemma StepKeepsInvariant(s: State, event: Event)
    requires Invariant(s) && Apply(s, event).Some?
    ensures Invariant(Apply(s, event).value)
  {
    match event
    case Enter(id) => EnterKeepsInvariant(s, id);
    case Start(c) =>
      StartsExactlyInTurn(s, c);
      PhaseKeepsLinks(s.calls, c, Running);
    case Finish(c, failed) =>
      PhaseKeepsLinks(s.calls, c, Done(failed));
      FinishKeepsMap(s, c, failed);
  }

  lemma {:induction false} RunsKeepInvariant(events: seq<Event>)
    requires Reached(events).Some?
    ensures Invariant(Reached(events).value)
  {
    hide Invariant, Apply;
    if events == [] {
      assert Invariant(INITIAL) by { InitialInvariant(); }
    } else {
      RunsKeepInvariant(events[..|events| - 1]);
      StepKeepsInvariant(Reached(events[..|events| - 1]).value, events[|events| - 1]);
    }
  }

  lemma InitialInvariant()
    ensures Invariant(INITIAL)
  {
  }

  // ---------------------------------------------------------------------------
  // Main results
  // ---------------------------------------------------------------------------

  /** Under every interleaving: calls of one attempt run one at a time and in order of
      arrival, and a waiting call may start exactly when all before it have ended. */
  lemma ExclusiveInArrivalOrder(events: seq<Event>)
    requires Reached(events).Some?
    ensures var s := Reached(events).value;
            && (forall c: nat :: c < |s.calls| && !s.calls[c].phase.Waiting? ==> AllEarlierDone(s.calls, c))
            && (forall c: nat :: c < |s.calls| ==>
                  (CanStart(s, c) <==> s.calls[c].phase.Waiting? && AllEarlierDone(s.calls, c)))
  {
    hide Reached, CanStart;
    RunsKeepInvariant(events);
    var s := Reached(events).value;
    forall c: nat | c < |s.calls|
      ensures CanStart(s, c) <==> s.calls[c].phase.Waiting? && AllEarlierDone(s.calls, c)
    {
      StartsExactlyInTurn(s, c);
    }
  }

  /** The map has an entry for an attempt exactly while a call for it runs or waits. */
  lemma EntriesAreExact(events: seq<Event>, id: string)
    requires Reached(events).Some?
    ensures var s := Reached(events).value;
            id in s.queues <==> exists c :: 0 <= c < |s.calls| && s.calls[c].attemptId == id && !s.calls[c].phase.Done?
  {
    hide Reached, Apply;
    RunsKeepInvariant(events);
    var s := Reached(events).value;
    if id in s.queues {
      assert IsLastOf(s.calls, id, s.queues[id]);
    }
  }
}
