/** The base-to-final snapshot lineage of an attempt: which histories of seals pass the
    check of the final authority. */
module Lineage {
  import opened Wrappers
  import opened Checkpoints

  // ---------------------------------------------------------------------------
  // Histories
  // ---------------------------------------------------------------------------

  /** What the ledger durably recorded for an attempt, in order: seals, of effects or of
      rejections, and reattachments of the session after a restart.  A seal is acknowledged
      when the call that made it accepted it; else the binding's checkpoint stays behind. */
  datatype Event =
    | Sealed(turnIndex: nat, effect: Option<Effect>, acknowledged: bool)
    | Reattached

  /** The binding's current checkpoint.  A reattached session carries the ledger's. */
  function Current(initial: Checkpoint, history: seq<Event>): Checkpoint
    decreases |history|, 1
  {
    if history == [] then initial
    else
      var before := history[..|history| - 1];
      match history[|history| - 1]
      case Sealed(_, effect, acknowledged) =>
        if effect.Some? && acknowledged then effect.value.checkpoint else Current(initial, before)
      case Reattached => LedgerHead(initial, before)
  }

  /** The checkpoint of the last seal; a rejection is sealed with the current one. */
  function LedgerHead(initial: Checkpoint, history: seq<Event>): Checkpoint
    decreases |history|, 0
  {
    if history == [] then initial
    else
      var before := history[..|history| - 1];
      match history[|history| - 1]
      case Sealed(_, effect, _) =>
        if effect.Some? then effect.value.checkpoint else Current(initial, before)
      case Reattached => LedgerHead(initial, before)
  }

  /** Every sealed effect was validated against the checkpoint current at the time. */
  predicate IsHistory(initial: Checkpoint, history: seq<Event>) {
    forall i :: 0 <= i < |history| && history[i].Sealed? && history[i].effect.Some? ==>
      && history[i].effect.value.snapshotBefore == Current(initial, history[..i]).base.snapshot
      && history[i].effect.value.checkpoint.base.snapshot == history[i].effect.value.snapshotAfter
  }

  lemma HistoryGrows(initial: Checkpoint, history: seq<Event>, event: Event)
    requires IsHistory(initial, history)
    requires event.Sealed? && event.effect.Some? ==>
               && event.effect.value.snapshotBefore == Current(initial, history).base.snapshot
               && event.effect.value.checkpoint.base.snapshot == event.effect.value.snapshotAfter
    ensures IsHistory(initial, history + [event])
    ensures Current(initial, history + [event]) ==
            match event
            case Sealed(_, effect, acknowledged) =>
              if effect.Some? && acknowledged then effect.value.checkpoint else Current(initial, history)
            case Reattached => LedgerHead(initial, history)
    ensures LedgerHead(initial, history + [event]) ==
            match event
            case Sealed(_, effect, _) =>
              if effect.Some? then effect.value.checkpoint else Current(initial, history)
            case Reattached => LedgerHead(initial, history)
  {
    var grown := history + [event];
    assert grown[..|history|] == history;
    assert forall i :: 0 <= i < |history| ==> grown[..i] == history[..i];
  }

  function EffectsOf(history: seq<Event>): seq<Effect> {
    if history == [] then []
    else
      var last := history[|history| - 1];
      EffectsOf(history[..|history| - 1]) + if last.Sealed? && last.effect.Some? then [last.effect.value] else []
  }

  predicate AllAcknowledged(history: seq<Event>) {
    forall i :: 0 <= i < |history| && history[i].Sealed? ==> history[i].acknowledged
  }

  lemma EffectsGrow(history: seq<Event>, event: Event)
    ensures EffectsOf(history + [event]) ==
            if event.Sealed? && event.effect.Some? then EffectsOf(history) + [event.effect.value] else EffectsOf(history)
    ensures AllAcknowledged(history + [event]) <==> AllAcknowledged(history) && (event.Sealed? ==> event.acknowledged)
  {
    var grown := history + [event];
    assert grown[..|history|] == history && grown[|history|] == event;
    assert forall i :: 0 <= i < |history| ==> grown[i] == history[i];
  }

  /** The fold over the effects: the snapshot they lead to, unless one does not start
      where the last one ended. */
  function Fold(base: Digest, effects: seq<Effect>): Option<Digest> {
    if effects == [] then Some(base)
    else
      var before := Fold(base, effects[..|effects| - 1]);
      var last := effects[|effects| - 1];
      if before == Some(last.snapshotBefore) then Some(last.snapshotAfter) else None
  }

  /** The source's loop, from the front. */
  method FoldLineage(base: Digest, effects: seq<Effect>) returns (end: Option<Digest>)
    ensures end == Fold(base, effects)
  {
    var lineage := base;
    var i := 0;
    while i < |effects|
      invariant 0 <= i <= |effects|
      invariant Fold(base, effects[..i]) == Some(lineage)
    {
      assert effects[..i + 1][..i] == effects[..i];
      if effects[i].snapshotBefore != lineage {
        BrokenStaysBroken(base, effects, i + 1);
        return None;
      }
      lineage := effects[i].snapshotAfter;
      i := i + 1;
    }
    assert effects[..|effects|] == effects;
    return Some(lineage);
  }

  lemma {:induction false} BrokenStaysBroken(base: Digest, effects: seq<Effect>, n: nat)
    requires n <= |effects| && Fold(base, effects[..n]).None?
    ensures Fold(base, effects).None?
    decreases |effects|
  {
    if n == |effects| {
      assert effects[..n] == effects;
    } else {
      var shorter := effects[..|effects| - 1];
      assert shorter[..n] == effects[..n];
      BrokenStaysBroken(base, shorter, n);
    }
  }

  // ---------------------------------------------------------------------------
  // Which histories agree with the binding
  // ---------------------------------------------------------------------------

  /** A seal whose snapshot change the binding never learned of. */
  predicate IsLostChange(event: Event) {
    && event.Sealed? && event.effect.Some? && !event.acknowledged
    && event.effect.value.snapshotAfter != event.effect.value.snapshotBefore
  }

  /** Every lost change is followed at once by a reattachment. */
  predicate LostChangesAreReattached(history: seq<Event>) {
    forall i :: 0 <= i < |history| && IsLostChange(history[i]) ==> i + 1 < |history| && history[i + 1].Reattached?
  }

  /** As above, the end of the history excepted. */
  predicate ReattachedBeforeTheEnd(history: seq<Event>) {
    forall i :: 0 <= i < |history| - 1 && IsLostChange(history[i]) ==> history[i + 1].Reattached?
  }

  predicate Agrees(initial: Checkpoint, history: seq<Event>) {
    Fold(initial.base.snapshot, EffectsOf(history)) == Some(Current(initial, history).base.snapshot)
  }

  predicate AgreesWithLedger(initial: Checkpoint, history: seq<Event>) {
    Fold(initial.base.snapshot, EffectsOf(history)) == Some(LedgerHead(initial, history).base.snapshot)
  }

  lemma HistoryPrefix(initial: Checkpoint, history: seq<Event>)
    requires IsHistory(initial, history) && history != []
    ensures IsHistory(initial, history[..|history| - 1])
  {
    var before := history[..|history| - 1];
    assert forall i :: 0 <= i < |before| ==> before[..i] == history[..i];
  }

  lemma ConditionPrefix(history: seq<Event>)
    requires history != []
    ensures var before, last := history[..|history| - 1], history[|history| - 1];
            && (last.Sealed? ==> (ReattachedBeforeTheEnd(history) <==> LostChangesAreReattached(before)))
            && (last.Reattached? ==> (ReattachedBeforeTheEnd(history) <==> ReattachedBeforeTheEnd(before)))
            && (LostChangesAreReattached(history) <==> ReattachedBeforeTheEnd(history) && !IsLostChange(last))
  {
    var n := |history| - 1;
    var before := history[..n];
    assert forall i :: 0 <= i < n ==> before[i] == history[i];
    if n > 0 {
      assert before[n - 1] == history[n - 1];
    }
    hide IsLostChange;
    assert history[n].Sealed? && ReattachedBeforeTheEnd(history) ==> LostChangesAreReattached(before) by {
      if history[n].Sealed? && ReattachedBeforeTheEnd(history) {
        forall i | 0 <= i < |before| && IsLostChange(before[i]) ensures i + 1 < |before| && before[i + 1].Reattached? {
          assert IsLostChange(history[i]) && history[i + 1].Reattached?;
        }
      }
    }
    assert LostChangesAreReattached(before) ==> ReattachedBeforeTheEnd(history);
    assert ReattachedBeforeTheEnd(history) ==> ReattachedBeforeTheEnd(before);
  }

  lemma OneMoreEffect(initial: Checkpoint, history: seq<Event>)
    requires history != [] && history[|history| - 1].Sealed? && history[|history| - 1].effect.Some?
    ensures var effect := history[|history| - 1].effect.value;
            var before := Fold(initial.base.snapshot, EffectsOf(history[..|history| - 1]));
            Fold(initial.base.snapshot, EffectsOf(history)) ==
            if before == Some(effect.snapshotBefore) then Some(effect.snapshotAfter) else None
  {
    var shorter := EffectsOf(history[..|history| - 1]);
    var effect := history[|history| - 1].effect.value;
    assert (shorter + [effect])[..|shorter|] == shorter;
  }

  lemma NoMoreEffects(history: seq<Event>)
    requires history != [] && !(history[|history| - 1].Sealed? && history[|history| - 1].effect.Some?)
    ensures EffectsOf(history) == EffectsOf(history[..|history| - 1])
  {
  }

  /** The effects of an attempt's seals lead from its base snapshot to the binding's
      current one exactly when every unacknowledged change was followed at once by a
      reattachment; the ledger's own head is allowed one more. */
  lemma {:induction false} LineageExactly(initial: Checkpoint, history: seq<Event>)
    requires IsHistory(initial, history)
    ensures Agrees(initial, history) <==> LostChangesAreReattached(history)
    ensures AgreesWithLedger(initial, history) <==> ReattachedBeforeTheEnd(history)
    decreases |history|
  {
    hide LostChangesAreReattached, ReattachedBeforeTheEnd, Fold, EffectsOf;
    if history == [] {
      EmptyHistory(initial);
    } else {
      HistoryPrefix(initial, history);
      LineageExactly(initial, history[..|history| - 1]);
      ConditionPrefix(history);
      var last := history[|history| - 1];
      if last.Sealed? && last.effect.Some? {
        OneMoreEffect(initial, history);
      } else {
        NoMoreEffects(history);
      }
    }
  }

  lemma EmptyHistory(initial: Checkpoint)
    ensures Agrees(initial, []) && AgreesWithLedger(initial, [])
    ensures LostChangesAreReattached([]) && ReattachedBeforeTheEnd([])
  {
  }

  /** Every seal was made at the ledger's own head, as a claim that carries the head's
      checkpoint demands before anything is sealed. */
  predicate IsRestored(initial: Checkpoint, history: seq<Event>) {
    forall i :: 0 <= i < |history| && history[i].Sealed? ==>
      Current(initial, history[..i]) == LedgerHead(initial, history[..i])
  }

  /** A binding left behind by a lost change makes no further seal. */
  lemma RestoredIsReattached(initial: Checkpoint, history: seq<Event>)
    requires IsHistory(initial, history) && IsRestored(initial, history)
    ensures ReattachedBeforeTheEnd(history)
  {
    forall i | 0 <= i < |history| - 1 && IsLostChange(history[i]) ensures history[i + 1].Reattached? {
      assert history[..i + 1][..i] == history[..i];
      assert Current(initial, history[..i + 1]) == Current(initial, history[..i]);
      assert LedgerHead(initial, history[..i + 1]) == history[i].effect.value.checkpoint;
    }
  }

  /** With claims that carry the ledger's checkpoint, the ledger's own lineage never breaks,
      and the binding's agrees exactly unless the last event is a lost change. */
  lemma RestoredLineageExactly(initial: Checkpoint, history: seq<Event>)
    requires IsHistory(initial, history) && IsRestored(initial, history)
    ensures AgreesWithLedger(initial, history)
    ensures Agrees(initial, history) <==> history == [] || !IsLostChange(history[|history| - 1])
  {
    hide Agrees, AgreesWithLedger, IsHistory, IsRestored, IsLostChange;
    RestoredIsReattached(initial, history);
    LineageExactly(initial, history);
    if history != [] {
      ConditionPrefix(history);
    } else {
      EmptyHistory(initial);
    }
  }

  /** One unacknowledged change: the seals lead where the binding is not. */
  lemma OneLostChangeDisagrees(initial: Checkpoint, lost: Effect)
    requires lost.snapshotBefore == initial.base.snapshot && lost.snapshotAfter != lost.snapshotBefore
    requires lost.checkpoint.base.snapshot == lost.snapshotAfter
    ensures var history := [Sealed(0, Some(lost), false)];
            && IsHistory(initial, history) && IsRestored(initial, history)
            && Fold(initial.base.snapshot, EffectsOf(history)) == Some(lost.snapshotAfter)
            && Current(initial, history) == initial && !Agrees(initial, history)
  {
    var history := [Sealed(0, Some(lost), false)];
    assert history[..0] == [];
    assert EffectsOf(history) == [lost];
    assert [lost][..0] == [];
  }

  /** A second change sealed on top of it, by a binding still at the initial checkpoint:
      the lineage itself breaks, in the ledger's eyes too. */
  lemma SealAfterLostChangeBreaks(initial: Checkpoint, lost: Effect, next: Effect)
    requires lost.snapshotBefore == initial.base.snapshot && lost.snapshotAfter != lost.snapshotBefore
    requires lost.checkpoint.base.snapshot == lost.snapshotAfter
    requires next.snapshotBefore == initial.base.snapshot && next.checkpoint.base.snapshot == next.snapshotAfter
    ensures var history := [Sealed(0, Some(lost), false), Sealed(1, Some(next), true)];
            && IsHistory(initial, history) && !IsRestored(initial, history)
            && Fold(initial.base.snapshot, EffectsOf(history)).None?
            && !Agrees(initial, history) && !AgreesWithLedger(initial, history)
  {
    var first, second := [Sealed(0, Some(lost), false)], Sealed(1, Some(next), true);
    var history := first + [second];
    OneLostChangeDisagrees(initial, lost);
    HistoryGrows(initial, first, second);
    LostHeadIsAhead(initial, lost);
    assert history[..1] == first && history[1] == second;
    OneMoreEffect(initial, history);
    hide IsHistory, Current, LedgerHead, Fold, EffectsOf, Agrees;
    assert history == [Sealed(0, Some(lost), false), Sealed(1, Some(next), true)];
    assert history[1].Sealed? && Current(initial, history[..1]) != LedgerHead(initial, history[..1]);
    DisagreesWhenBroken(initial, history);
  }

  lemma LostHeadIsAhead(initial: Checkpoint, lost: Effect)
    requires lost.checkpoint.base.snapshot != initial.base.snapshot
    ensures var history := [Sealed(0, Some(lost), false)];
            Current(initial, history) == initial && LedgerHead(initial, history) == lost.checkpoint
  {
    assert [Sealed(0, Some(lost), false)][..0] == [];
  }

  lemma DisagreesWhenBroken(initial: Checkpoint, history: seq<Event>)
    requires Fold(initial.base.snapshot, EffectsOf(history)).None?
    ensures !Agrees(initial, history) && !AgreesWithLedger(initial, history)
  {
    hide Fold, EffectsOf;
  }

  // ---------------------------------------------------------------------------
  // The stable sort by turn
  // ---------------------------------------------------------------------------

  predicate IsSortedByTurn(s: seq<Event>) {
    forall i, j :: 0 <= i < j < |s| ==> TurnOf(s[i]) <= TurnOf(s[j])
  }

  function TurnOf(event: Event): nat {
    if event.Sealed? then event.turnIndex else 0
  }

  /** The events of one turn, in order. */
  function OfTurn(s: seq<Event>, turn: nat): seq<Event> {
    if s == [] then [] else (if TurnOf(s[0]) == turn then [s[0]] else []) + OfTurn(s[1..], turn)
  }

  /** Inserts an event before every later turn's and before its own turn's. */
  function Insert(event: Event, s: seq<Event>): seq<Event> {
    if s == [] || TurnOf(event) <= TurnOf(s[0]) then [event] + s else [s[0]] + Insert(event, s[1..])
  }

  function StableSort(s: seq<Event>): seq<Event> {
    if s == [] then [] else Insert(s[0], StableSort(s[1..]))
  }

  lemma {:induction false} InsertSorts(event: Event, s: seq<Event>)
    requires IsSortedByTurn(s)
    ensures IsSortedByTurn(Insert(event, s))
    ensures Insert(event, s) != []
    ensures TurnOf(Insert(event, s)[0]) == TurnOf(event) ||
            (s != [] && TurnOf(Insert(event, s)[0]) == TurnOf(s[0]) && TurnOf(s[0]) < TurnOf(event))
    decreases |s|
  {
    if s != [] && TurnOf(event) > TurnOf(s[0]) {
      InsertSorts(event, s[1..]);
      var rest := Insert(event, s[1..]);
      assert forall j :: 0 <= j < |rest| ==> TurnOf(rest[0]) <= TurnOf(rest[j]);
      assert s[1..] != [] ==> TurnOf(s[1..][0]) == TurnOf(s[1]);
    }
  }

  function OwnTurn(event: Event, turn: nat): seq<Event> {
    if TurnOf(event) == turn then [event] else []
  }

  lemma OfTurnOfCons(event: Event, s: seq<Event>, turn: nat)
    ensures OfTurn([event] + s, turn) == OwnTurn(event, turn) + OfTurn(s, turn)
  {
    assert ([event] + s)[1..] == s;
  }

  lemma OfTurnOfHead(s: seq<Event>, turn: nat)
    requires s != []
    ensures OfTurn(s, turn) == OwnTurn(s[0], turn) + OfTurn(s[1..], turn)
  {
  }

  lemma InsertUnfolds(event: Event, s: seq<Event>)
    ensures Insert(event, s) ==
            if s == [] || TurnOf(event) <= TurnOf(s[0]) then [event] + s else [s[0]] + Insert(event, s[1..])
  {
  }

  /** Passing an event of an earlier turn changes no turn's own order. */
  lemma TurnsCommute(event: Event, first: Event, rest: seq<Event>, turn: nat)
    requires TurnOf(event) > TurnOf(first)
    ensures OwnTurn(first, turn) + (OwnTurn(event, turn) + rest) == OwnTurn(event, turn) + (OwnTurn(first, turn) + rest)
  {
  }

  lemma {:induction false} InsertKeepsTurns(event: Event, s: seq<Event>, turn: nat)
    ensures OfTurn(Insert(event, s), turn) == OwnTurn(event, turn) + OfTurn(s, turn)
    decreases |s|
  {
    hide OfTurn, Insert, OwnTurn;
    InsertUnfolds(event, s);
    OfTurnOfCons(event, s, turn);
    if s != [] && TurnOf(event) > TurnOf(s[0]) {
      InsertKeepsTurns(event, s[1..], turn);
      OfTurnOfCons(s[0], Insert(event, s[1..]), turn);
      OfTurnOfHead(s, turn);
      TurnsCommute(event, s[0], OfTurn(s[1..], turn), turn);
    }
  }

  lemma {:induction false} StableSortIsStable(s: seq<Event>)
    ensures IsSortedByTurn(StableSort(s))
    ensures forall turn :: OfTurn(StableSort(s), turn) == OfTurn(s, turn)
    decreases |s|
  {
    if s != [] {
      hide OfTurn, OwnTurn, Insert, IsSortedByTurn;
      StableSortIsStable(s[1..]);
      InsertSorts(s[0], StableSort(s[1..]));
      forall turn ensures OfTurn(StableSort(s), turn) == OfTurn(s, turn) {
        InsertKeepsTurns(s[0], StableSort(s[1..]), turn);
        OfTurnOfHead(s, turn);
      }
    }
  }

  lemma HeadTurnIsPresent(s: seq<Event>)
    requires s != []
    ensures var own := OfTurn(s, TurnOf(s[0])); own != [] && own[0] == s[0]
  {
  }

  lemma {:induction false} HeadTurnIsLeast(s: seq<Event>, turn: nat)
    requires IsSortedByTurn(s) && OfTurn(s, turn) != []
    ensures s != [] && TurnOf(s[0]) <= turn
    decreases |s|
  {
    if TurnOf(s[0]) != turn {
      HeadTurnIsLeast(s[1..], turn);
    }
  }

  lemma HeadsAgree(s: seq<Event>, t: seq<Event>)
    requires IsSortedByTurn(s) && IsSortedByTurn(t)
    requires forall turn :: OfTurn(s, turn) == OfTurn(t, turn)
    ensures s == [] <==> t == []
    ensures s != [] ==> s[0] == t[0]
  {
    EmptyHasNoTurns();
    hide OfTurn, TurnOf;
    if s != [] { HeadTurnIsPresent(s); HeadTurnIsLeast(t, TurnOf(s[0])); }
    if t != [] { HeadTurnIsPresent(t); HeadTurnIsLeast(s, TurnOf(t[0])); }
  }

  lemma EmptyHasNoTurns()
    ensures forall turn :: OfTurn([], turn) == []
  {
  }

  /** Two lists sorted by turn that agree turn by turn are equal. */
  lemma {:induction false} SortedByTurnIsDetermined(s: seq<Event>, t: seq<Event>)
    requires IsSortedByTurn(s) && IsSortedByTurn(t)
    requires forall turn :: OfTurn(s, turn) == OfTurn(t, turn)
    ensures s == t
    decreases |s| + |t|
  {
    HeadsAgree(s, t);
    if s != [] {
      hide OfTurn, TurnOf;
      forall turn ensures OfTurn(s[1..], turn) == OfTurn(t[1..], turn) {
        TailOfTurn(s, turn);
        TailOfTurn(t, turn);
      }
      SortedByTurnIsDetermined(s[1..], t[1..]);
      assert s == [s[0]] + s[1..] && t == [t[0]] + t[1..];
    }
  }

  lemma TailOfTurn(s: seq<Event>, turn: nat)
    requires s != []
    ensures OfTurn(s[1..], turn) == if TurnOf(s[0]) == turn then OfTurn(s, turn)[1..] else OfTurn(s, turn)
  {
  }

  // ---------------------------------------------------------------------------
  // The check of the final authority
  // ---------------------------------------------------------------------------

  function SealsOf(history: seq<Event>): seq<Event> {
    if history == [] then []
    else
      var last := history[|history| - 1];
      SealsOf(history[..|history| - 1]) + if last.Sealed? then [last] else []
  }

  lemma {:induction false} SealsHaveTheEffects(history: seq<Event>)
    ensures EffectsOf(SealsOf(history)) == EffectsOf(history)
    decreases |history|
  {
    if history != [] {
      var before := history[..|history| - 1];
      SealsHaveTheEffects(before);
      assert !history[|history| - 1].Sealed? ==> SealsOf(history) == SealsOf(before);
      if history[|history| - 1].Sealed? {
        assert SealsOf(history)[..|SealsOf(history)| - 1] == SealsOf(before);
      }
    }
  }

  /** The seals as the ledger lists them, in an order that keeps each turn's own order,
      sort to the order they were made in when turns never go back; the lineage they give
      then agrees with the binding exactly as `LineageExactly` says. */
  lemma ListedSealsPassExactly(initial: Checkpoint, history: seq<Event>, listed: seq<Event>)
    requires IsHistory(initial, history) && IsSortedByTurn(SealsOf(history))
    requires forall turn :: OfTurn(listed, turn) == OfTurn(SealsOf(history), turn)
    ensures Fold(initial.base.snapshot, EffectsOf(StableSort(listed))) == Some(Current(initial, history).base.snapshot) <==>
            LostChangesAreReattached(history)
  {
    hide Fold, Current, IsHistory, LostChangesAreReattached, IsSortedByTurn;
    StableSortIsStable(listed);
    SortedByTurnIsDetermined(StableSort(listed), SealsOf(history));
    SealsHaveTheEffects(history);
    LineageExactly(initial, history);
  }
}
