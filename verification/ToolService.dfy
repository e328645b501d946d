/** The controlled tools of an attempt as its turns meet them: a ledger of sealed calls and
    a sandbox that answers a call by the current checkpoint.  A call is answered by its seal
    when its operation id is there, else performed and sealed. */
module ToolService {
  import opened Wrappers
  import opened Checkpoints
  import opened WorkspaceRuntime
  import Lineage

  /** A preflight rejection is sealed without an effect. */
  datatype Answer = Rejection | Effected(accepted: Accepted)

  /** What is fixed for an attempt.  `owner` is what preflight and sandbox make of a call at
      a checkpoint, if they answer at all. */
  datatype Workspace = Workspace(
    digest: CheckpointBase -> Digest,
    idDigest: IntentIdentity -> Digest,
    grant: Grant,
    template: IntentIdentity,
    initial: Checkpoint,
    owner: (Checkpoint, ToolCall) -> Option<Answer>)

  datatype Entry = Entry(call: ToolCall, answer: Answer)

  /** The calls sealed so far, in order, every seal acknowledged. */
  type Log = seq<Entry>

  function OperationOf(ws: Workspace, current: Checkpoint, call: ToolCall): Digest {
    OperationIntent(ws.idDigest, ws.template, current, call).operationId
  }

  /** An answer is an effect accepted for its operation at the checkpoint it was asked at. */
  predicate IsAnswer(ws: Workspace, current: Checkpoint, call: ToolCall, answer: Answer) {
    answer.Effected? ==>
      && answer.accepted.expectation.intent == OperationOf(ws, current, call)
      && IsAcceptedEffect(ws.digest, ws.grant, answer.accepted.expectation, current, answer.accepted.effect)
  }

  ghost predicate IsWorkspace(ws: Workspace) {
    && IsInjective(ws.digest) && IsInjective(ws.idDigest)
    && IsCheckpoint(ws.digest, ws.grant, ws.initial) && ws.initial.base.predecessor.None?
    && forall current, call ::
         ws.owner(current, call).Some? ==> IsAnswer(ws, current, call, ws.owner(current, call).value)
  }

  // ---------------------------------------------------------------------------
  // The log
  // ---------------------------------------------------------------------------

  function RunOf(log: Log): seq<Accepted> {
    if log == [] then []
    else
      var last := log[|log| - 1].answer;
      RunOf(log[..|log| - 1]) + if last.Effected? then [last.accepted] else []
  }

  function Head(ws: Workspace, log: Log): Checkpoint {
    CurrentAfter(ws.initial, RunOf(log))
  }

  /** Every entry is what the owner answered at the head of its time. */
  predicate IsLog(ws: Workspace, log: Log) {
    forall i :: 0 <= i < |log| ==> ws.owner(Head(ws, log[..i]), log[i].call) == Some(log[i].answer)
  }

  predicate IsChange(entry: Entry) {
    entry.answer.Effected? && entry.answer.accepted.effect.snapshotAfter != entry.answer.accepted.effect.snapshotBefore
  }

  predicate ChangesNothingFrom(log: Log, i: nat) {
    forall j :: i <= j < |log| ==> !IsChange(log[j])
  }

  lemma LogPrefix(ws: Workspace, log: Log, n: nat)
    requires IsLog(ws, log) && n <= |log|
    ensures IsLog(ws, log[..n])
  {
    assert forall i :: 0 <= i < n ==> log[..n][..i] == log[..i];
  }

  lemma OneMoreEntry(log: Log, entry: Entry)
    ensures RunOf(log + [entry]) == RunOf(log) + if entry.answer.Effected? then [entry.answer.accepted] else []
  {
    assert (log + [entry])[..|log|] == log;
  }

  lemma LastWasAnswered(ws: Workspace, log: Log)
    requires IsWorkspace(ws) && IsLog(ws, log) && log != []
    ensures IsAnswer(ws, Head(ws, log[..|log| - 1]), log[|log| - 1].call, log[|log| - 1].answer)
  {
    hide IsAnswer, Head;
  }

  lemma EmptyRun(ws: Workspace)
    requires IsWorkspace(ws)
    ensures IsRun(ws.digest, ws.grant, ws.initial, RunOf([])) && RunOf([]) == []
  {
  }

  /** The effects of a log are a run of accepted effects. */
  lemma {:induction false} LogIsRun(ws: Workspace, log: Log)
    requires IsWorkspace(ws) && IsLog(ws, log)
    ensures IsRun(ws.digest, ws.grant, ws.initial, RunOf(log))
    ensures IsCheckpoint(ws.digest, ws.grant, Head(ws, log))
    decreases |log|
  {
    hide IsAcceptedEffect, IsWorkspace, IsLog, IsRun, IsCheckpoint;
    EmptyRun(ws);
    if log != [] {
      var n := |log| - 1;
      LogPrefix(ws, log, n);
      LogIsRun(ws, log[..n]);
      LastWasAnswered(ws, log);
      if log[n].answer.Effected? {
        RunGrows(ws.digest, ws.grant, ws.initial, RunOf(log[..n]), log[n].answer.accepted);
      } else {
        assert RunOf(log) == RunOf(log[..n]);
      }
    }
    HeadIsCheckpoint(ws, RunOf(log));
  }

  lemma HeadIsCheckpoint(ws: Workspace, run: seq<Accepted>)
    requires IsRun(ws.digest, ws.grant, ws.initial, run)
    ensures IsCheckpoint(ws.digest, ws.grant, CurrentAfter(ws.initial, run))
  {
    RunPrefix(ws.digest, ws.grant, ws.initial, run, |run|);
    assert run[..|run|] == run;
  }

  /** The checkpoint an answer leads to: its effect's, or the one it was asked at. */
  function Led(current: Checkpoint, answer: Answer): Checkpoint {
    if answer.Effected? then answer.accepted.effect.checkpoint else current
  }

  lemma HeadAfter(ws: Workspace, log: Log, entry: Entry)
    requires IsWorkspace(ws) && IsLog(ws, log)
    ensures Head(ws, log + [entry]) == Led(Head(ws, log), entry.answer)
  {
    OneMoreEntry(log, entry);
  }

  lemma LogGrows(ws: Workspace, log: Log, entry: Entry)
    requires IsLog(ws, log) && ws.owner(Head(ws, log), entry.call) == Some(entry.answer)
    ensures IsLog(ws, log + [entry])
  {
    hide Head;
    assert forall i :: 0 <= i < |log| ==> (log + [entry])[..i] == log[..i];
    assert (log + [entry])[..|log|] == log;
  }

  /** An answer that changes nothing leads nowhere else. */
  lemma UnchangedStays(ws: Workspace, current: Checkpoint, entry: Entry)
    requires IsWorkspace(ws) && IsCheckpoint(ws.digest, ws.grant, current)
    requires IsAnswer(ws, current, entry.call, entry.answer) && !IsChange(entry)
    ensures Led(current, entry.answer) == current
  {
    if entry.answer.Effected? {
      var a := entry.answer.accepted;
      PreservingNeedsNoPredecessor(ws.digest, ws.grant, a.expectation, current, a.effect);
    }
  }

  /** The head is back where it was before entry `i` exactly when nothing changed since. */
  lemma {:induction false} HeadReturnsExactly(ws: Workspace, log: Log, i: nat)
    requires IsWorkspace(ws) && IsLog(ws, log) && i <= |log|
    ensures Head(ws, log[..i]).digest == Head(ws, log).digest <==> ChangesNothingFrom(log, i)
    ensures ChangesNothingFrom(log, i) ==> Head(ws, log[..i]) == Head(ws, log)
    decreases |log|
  {
    hide IsAcceptedEffect, Head, IsWorkspace, IsLog;
    if i == |log| {
      assert log[..i] == log;
    } else {
      var n := |log| - 1;
      var before, last := log[..n], log[n];
      assert log == before + [last] && before[..i] == log[..i];
      LogPrefix(ws, log, n);
      LastWasAnswered(ws, log);
      HeadAfter(ws, before, last);
      if IsChange(last) {
        ChangeLeavesAll(ws, log, i);
      } else {
        LogIsRun(ws, before);
        UnchangedStays(ws, Head(ws, before), last);
        HeadReturnsExactly(ws, before, i);
        assert ChangesNothingFrom(log, i) <==> ChangesNothingFrom(before, i);
      }
    }
  }

  lemma ChangeLeavesAll(ws: Workspace, log: Log, i: nat)
    requires IsWorkspace(ws) && IsLog(ws, log) && i < |log| && IsChange(log[|log| - 1])
    ensures Head(ws, log[..i]).digest != Head(ws, log).digest
  {
    hide IsAcceptedEffect, IsLog, IsWorkspace;
    var n := |log| - 1;
    LogIsRun(ws, log);
    var run := RunOf(log);
    PrefixOfRun(log, n);
    PrefixOfRun(log, i);
    assert log == log[..n] + [log[n]];
    OneMoreEntry(log[..n], log[n]);
    LongerRun(log, i, n);
    WorkspaceIsInjective(ws);
    ChangesDiffer(ws.digest, ws.grant, ws.initial, run, |RunOf(log[..i])|, |run|);
    assert run[..|run|] == run;
  }

  lemma WorkspaceIsInjective(ws: Workspace)
    requires IsWorkspace(ws)
    ensures IsInjective(ws.digest)
  {
  }

  lemma {:induction false} PrefixOfRun(log: Log, i: nat)
    requires i <= |log|
    ensures |RunOf(log[..i])| <= |RunOf(log)|
    ensures RunOf(log[..i]) == RunOf(log)[..|RunOf(log[..i])|]
    decreases |log|
  {
    if i == |log| {
      assert log[..i] == log;
    } else {
      var before := log[..|log| - 1];
      assert before[..i] == log[..i];
      PrefixOfRun(before, i);
    }
  }

  lemma LongerRun(log: Log, i: nat, n: nat)
    requires i <= n <= |log|
    ensures |RunOf(log[..i])| <= |RunOf(log[..n])|
  {
    assert log[..n][..i] == log[..i];
    PrefixOfRun(log[..n], i);
  }

  // ---------------------------------------------------------------------------
  // Answering a call
  // ---------------------------------------------------------------------------

  function OperationAt(ws: Workspace, log: Log, i: nat): Digest
    requires i < |log|
  {
    OperationOf(ws, Head(ws, log[..i]), log[i].call)
  }

  /** The first of the first `n` seals with this operation id. */
  function FindSeal(ws: Workspace, log: Log, operation: Digest, n: nat): (found: Option<nat>)
    requires n <= |log|
    ensures found.Some? ==> found.value < n && OperationAt(ws, log, found.value) == operation
    ensures found.None? ==> forall i: nat :: i < n ==> OperationAt(ws, log, i) != operation
  {
    if n == 0 then None
    else
      var earlier := FindSeal(ws, log, operation, n - 1);
      if earlier.Some? then earlier
      else if OperationAt(ws, log, n - 1) == operation then Some(n - 1) else None
  }

  function SealOf(ws: Workspace, log: Log, call: ToolCall): Option<nat> {
    FindSeal(ws, log, OperationOf(ws, Head(ws, log), call), |log|)
  }

  /** A sealed operation is answered by its seal and leaves the log alone; any other is put
      to the owner and sealed. */
  function Ask(ws: Workspace, log: Log, call: ToolCall): (Option<Answer>, Log) {
    var found := SealOf(ws, log, call);
    if found.Some? then (Some(log[found.value].answer), log)
    else
      var answer := ws.owner(Head(ws, log), call);
      (answer, if answer.Some? then log + [Entry(call, answer.value)] else log)
  }

  lemma SameOperation(ws: Workspace, a: Checkpoint, b: Checkpoint, first: ToolCall, second: ToolCall)
    requires IsInjective(ws.idDigest)
    ensures OperationOf(ws, a, first) == OperationOf(ws, b, second) <==> a.digest == b.digest && first == second
  {
    var x := OperationIntent(ws.idDigest, ws.template, a, first).identity;
    var y := OperationIntent(ws.idDigest, ws.template, b, second).identity;
    assert ws.idDigest(x) == ws.idDigest(y) ==> x == y;
  }

  /** A seal for a call asked now is one of that very call, with nothing changed since. */
  lemma SealIsCurrent(ws: Workspace, log: Log, call: ToolCall, i: nat)
    requires IsWorkspace(ws) && IsLog(ws, log) && i < |log|
    ensures OperationAt(ws, log, i) == OperationOf(ws, Head(ws, log), call) <==>
            log[i].call == call && ChangesNothingFrom(log, i)
    ensures ChangesNothingFrom(log, i) ==> Head(ws, log[..i]) == Head(ws, log)
  {
    SameOperation(ws, Head(ws, log[..i]), Head(ws, log), log[i].call, call);
    hide IsWorkspace, IsLog, Head, OperationOf;
    HeadReturnsExactly(ws, log, i);
  }

  predicate AreDistinct(log: Log) {
    forall i, j :: 0 <= i < j < |log| ==> log[i].call != log[j].call
  }

  /** A call made again is answered by its own seal if and only if no snapshot change was
      sealed from that call on; otherwise its operation is new, and goes to the owner. */
  lemma ReplayedCallExactly(ws: Workspace, log: Log, i: nat)
    requires IsWorkspace(ws) && IsLog(ws, log) && AreDistinct(log) && i < |log|
    ensures SealOf(ws, log, log[i].call) == (if ChangesNothingFrom(log, i) then Some(i) else None)
    ensures ChangesNothingFrom(log, i) ==> Ask(ws, log, log[i].call) == (Some(log[i].answer), log)
    ensures !ChangesNothingFrom(log, i) ==>
              Ask(ws, log, log[i].call).0 == ws.owner(Head(ws, log), log[i].call) && Head(ws, log) != Head(ws, log[..i])
  {
    hide IsWorkspace, IsLog, Head, OperationAt, OperationOf;
    var call := log[i].call;
    forall j: nat | j < |log|
      ensures OperationAt(ws, log, j) == OperationOf(ws, Head(ws, log), call) <==> j == i && ChangesNothingFrom(log, i)
    {
      SealIsCurrent(ws, log, call, j);
    }
    var found := FindSeal(ws, log, OperationOf(ws, Head(ws, log), call), |log|);
    assert SealOf(ws, log, call) == found;
    if found.Some? {
      assert found.value == i;
    } else {
      assert OperationAt(ws, log, i) != OperationOf(ws, Head(ws, log), call);
    }
    HeadReturnsExactly(ws, log, i);
  }

  /** What a caller sees of a service, its answer and the checkpoint after it, depends on
      the head alone: sealed answers are those the owner would give. */
  lemma AskIsTheOwners(ws: Workspace, log: Log, call: ToolCall)
    requires IsWorkspace(ws) && IsLog(ws, log)
    ensures var (answer, after) := Ask(ws, log, call);
            && IsLog(ws, after)
            && answer == ws.owner(Head(ws, log), call)
            && Head(ws, after) == (if answer.Some? then Led(Head(ws, log), answer.value) else Head(ws, log))
  {
    hide IsAcceptedEffect, Head, OperationOf, IsAnswer;
    var found := SealOf(ws, log, call);
    if found.Some? {
      var i := found.value;
      SealIsCurrent(ws, log, call, i);
      assert ws.owner(Head(ws, log[..i]), log[i].call) == Some(log[i].answer);
      LogIsRun(ws, log);
      assert IsAnswer(ws, Head(ws, log), call, log[i].answer);
      UnchangedStays(ws, Head(ws, log), log[i]);
    } else if ws.owner(Head(ws, log), call).Some? {
      var entry := Entry(call, ws.owner(Head(ws, log), call).value);
      LogGrows(ws, log, entry);
      HeadAfter(ws, log, entry);
    }
  }

  // ---------------------------------------------------------------------------
  // Asking a whole list again
  // ---------------------------------------------------------------------------

  /** Asks the calls in order, until one is not answered. */
  function AskAll(ws: Workspace, log: Log, calls: seq<ToolCall>): (Option<seq<Answer>>, Log)
    decreases |calls|
  {
    if calls == [] then (Some([]), log)
    else
      var n := |calls| - 1;
      var (before, middle) := AskAll(ws, log, calls[..n]);
      if before.None? then (None, middle)
      else
        var (answer, after) := Ask(ws, middle, calls[n]);
        (if answer.None? then None else Some(before.value + [answer.value]), after)
  }

  predicate AreDistinctCalls(calls: seq<ToolCall>) {
    forall i, j :: 0 <= i < j < |calls| ==> calls[i] != calls[j]
  }

  predicate Records(log: Log, calls: seq<ToolCall>, answers: seq<Answer>) {
    |log| == |calls| == |answers| && forall i :: 0 <= i < |log| ==> log[i] == Entry(calls[i], answers[i])
  }

  lemma NewCallIsFresh(ws: Workspace, log: Log, call: ToolCall)
    requires IsWorkspace(ws) && IsLog(ws, log) && forall i :: 0 <= i < |log| ==> log[i].call != call
    ensures SealOf(ws, log, call).None?
  {
    hide IsWorkspace, IsLog, Head, OperationOf, OperationAt;
    var found := SealOf(ws, log, call);
    if found.Some? {
      SealIsCurrent(ws, log, call, found.value);
    }
  }

  /** Distinct calls asked for the first time are sealed one by one. */
  lemma {:induction false} AskedOnce(ws: Workspace, calls: seq<ToolCall>)
    requires IsWorkspace(ws) && AreDistinctCalls(calls) && AskAll(ws, [], calls).0.Some?
    ensures var (answers, log) := AskAll(ws, [], calls); Records(log, calls, answers.value) && IsLog(ws, log)
    decreases |calls|
  {
    hide IsWorkspace, IsLog, Head, SealOf;
    if calls == [] {
      EmptyLog(ws);
    } else {
      var n := |calls| - 1;
      AskedOnce(ws, calls[..n]);
      var log := AskAll(ws, [], calls[..n]).1;
      assert forall i :: 0 <= i < |log| ==> log[i].call == calls[i];
      NewCallIsFresh(ws, log, calls[n]);
      AskIsTheOwners(ws, log, calls[n]);
    }
  }

  lemma EmptyLog(ws: Workspace)
    ensures IsLog(ws, []) && Head(ws, []) == ws.initial
  {
  }

  lemma {:induction false} AskAllPrefix(ws: Workspace, log: Log, calls: seq<ToolCall>, n: nat)
    requires n <= |calls|
    ensures AskAll(ws, log, calls[..n]).0.None? ==> AskAll(ws, log, calls).0.None?
    ensures |AskAll(ws, log, calls[..n]).1| <= |AskAll(ws, log, calls).1|
    decreases |calls|
  {
    hide SealOf, Head;
    if n == |calls| {
      assert calls[..n] == calls;
    } else {
      var shorter := calls[..|calls| - 1];
      assert shorter[..n] == calls[..n];
      AskAllPrefix(ws, log, shorter, n);
    }
  }

  lemma {:induction false} UnchangedAnswersAll(ws: Workspace, log: Log, calls: seq<ToolCall>, answers: seq<Answer>, n: nat)
    requires IsWorkspace(ws) && IsLog(ws, log) && Records(log, calls, answers) && AreDistinct(log)
    requires ChangesNothingFrom(log, 0) && n <= |calls|
    ensures AskAll(ws, log, calls[..n]) == (Some(answers[..n]), log)
    decreases n
  {
    hide IsWorkspace, IsLog, Ask;
    if n > 0 {
      UnchangedAnswersAll(ws, log, calls, answers, n - 1);
      ReplayedCallExactly(ws, log, n - 1);
      assert calls[..n][..n - 1] == calls[..n - 1];
      assert answers[..n] == answers[..n - 1] + [answers[n - 1]];
    }
  }

  /** The calls of an attempt asked once more from the start, as a replay of its turns does,
      get their own answers back and seal nothing new if and only if none of them changed the
      snapshot. */
  lemma ReplayIsSilentExactly(ws: Workspace, calls: seq<ToolCall>)
    requires IsWorkspace(ws) && AreDistinctCalls(calls) && AskAll(ws, [], calls).0.Some?
    ensures var (answers, log) := AskAll(ws, [], calls);
            AskAll(ws, log, calls) == (answers, log) <==> ChangesNothingFrom(log, 0)
  {
    hide IsWorkspace, IsLog, Ask;
    AskedOnce(ws, calls);
    var (answers, log) := AskAll(ws, [], calls);
    assert forall i :: 0 <= i < |log| ==> log[i].call == calls[i];
    if ChangesNothingFrom(log, 0) {
      UnchangedAnswersAll(ws, log, calls, answers.value, |calls|);
      assert calls[..|calls|] == calls && answers.value[..|calls|] == answers.value;
    } else {
      FirstCallIsNew(ws, log, calls);
      AskAllPrefix(ws, log, calls, 1);
    }
  }

  lemma FirstCallIsNew(ws: Workspace, log: Log, calls: seq<ToolCall>)
    requires IsWorkspace(ws) && IsLog(ws, log) && AreDistinct(log) && !ChangesNothingFrom(log, 0)
    requires calls != [] && log[0].call == calls[0]
    ensures AskAll(ws, log, calls[..1]).0.None? || |AskAll(ws, log, calls[..1]).1| == |log| + 1
  {
    hide IsWorkspace, IsLog, Head, SealOf;
    ReplayedCallExactly(ws, log, 0);
    assert calls[..1][..0] == [];
    assert AskAll(ws, log, []) == (Some([]), log);
  }

  // ---------------------------------------------------------------------------
  // The runtime behind the service
  // ---------------------------------------------------------------------------

  function OutputOf(operation: Digest, answer: Answer): ToolOutput {
    match answer
    case Rejection => RejectedOutput(operation)
    case Effected(a) => EffectOutput(a.effect)
  }

  /** The preflight of a call, by what the owner makes of it. */
  function PreflightOf(receipt: Digest, answer: Answer): Preflight {
    match answer
    case Rejection => Preflight(receipt, false, None, None, None)
    case Effected(a) => Preflight(receipt, true, a.expectation.kind, a.expectation.actionId, a.expectation.targetRef)
  }

  const DONE: SealRequest := SealRequest(true, true)

  /** A ledger and a session that lose nothing. */
  function FaithfulReplies(ws: Workspace, log: Log, call: ToolCall, receipt: Digest): ToolReplies
    requires Ask(ws, log, call).0.Some?
  {
    var head := Head(ws, log);
    var operation := OperationOf(ws, head, call);
    var answer := Ask(ws, log, call).0.value;
    var claim :=
      if SealOf(ws, log, call).Some? then AlreadySealed(OutputOf(operation, answer), Led(head, answer))
      else FreshClaim(Some(head));
    var dispatch := DispatchReceipt(operation, head.digest, if answer.Effected? then answer.accepted.expectation.dispatch else 0);
    ToolReplies(Replied(PreflightOf(receipt, answer)), Replied(claim), Replied(dispatch),
                if answer.Effected? then Replied(answer.accepted.effect) else Threw, Threw, DONE, true, DONE, DONE,
                Led(head, answer).digest)
  }

  /** A seal of this answer can be accepted: its authority is distinct and at most 32. */
  predicate IsSealableAnswer(receipt: Digest, answer: Answer) {
    answer.Effected? ==>
      && receipt !in answer.accepted.effect.authorityReceipts
      && |answer.accepted.effect.authorityReceipts| < MAXIMUM_AUTHORITY_RECEIPTS
  }

  lemma SealedReply(ws: Workspace, log: Log, call: ToolCall, receipt: Digest)
    requires IsWorkspace(ws) && IsLog(ws, log) && Ask(ws, log, call).0.Some? && SealOf(ws, log, call).Some?
    ensures var answer := Ask(ws, log, call).0.value;
            && FaithfulReplies(ws, log, call, receipt).claim ==
                 Replied(AlreadySealed(OutputOf(OperationOf(ws, Head(ws, log), call), answer), Led(Head(ws, log), answer)))
            && Led(Head(ws, log), answer) == Head(ws, log)
  {
    hide IsWorkspace, IsLog, Head, SealOf, OperationOf;
    AskIsTheOwners(ws, log, call);
  }

  /** The replies to a fresh call whose preflight is ready carry the owner's effect through. */
  lemma FreshEffectReply(ws: Workspace, log: Log, call: ToolCall, receipt: Digest, maximumRepairRounds: nat)
    requires IsWorkspace(ws) && IsLog(ws, log) && Ask(ws, log, call).0.Some? && SealOf(ws, log, call).None?
    requires var answer := Ask(ws, log, call).0.value;
             && answer.Effected? && IsSealableAnswer(receipt, answer)
             && answer.accepted.expectation.maximumRepairRounds == maximumRepairRounds
    ensures var head, replies := Head(ws, log), FaithfulReplies(ws, log, call, receipt);
            var a, operation := Ask(ws, log, call).0.value.accepted, OperationOf(ws, head, call);
            var d := DispatchOf(replies.claim.value, replies.preflight.value, replies.mark);
            && replies.claim == Replied(FreshClaim(Some(head)))
            && d.Some? && IsDispatch(d.value, operation, head)
            && ExpectationOf(operation, d.value, replies.preflight.value, maximumRepairRounds) == a.expectation
            && Obtained(ws.digest, ws.grant, a.expectation, head, replies, true) == Some(a.effect)
            && IsCarriedThrough(receipt, a.effect, replies)
  {
    AskIsTheOwners(ws, log, call);
    var head, answer := Head(ws, log), Ask(ws, log, call).0.value;
    OwnersAnswer(ws, head, call);
    hide IsWorkspace, IsLog, Head, SealOf, OperationOf, IsAcceptedEffect;
  }

  lemma OwnersAnswer(ws: Workspace, current: Checkpoint, call: ToolCall)
    requires IsWorkspace(ws) && ws.owner(current, call).Some?
    ensures IsAnswer(ws, current, call, ws.owner(current, call).value)
  {
    hide IsAnswer;
  }

  /** `executeTool` before a faithful ledger and session is the service: it returns the
      service's answer, and its binding stays at the service's head. */
  method AskRuntime(runtime: Runtime, attemptId: string, b: Binding, ghost ws: Workspace, ghost log: Log, call: ToolCall,
                    operation: Digest, receipt: Digest, maximumRepairRounds: nat, replies: ToolReplies,
                    cleanup: CleanupReplies)
    returns (r: Result<ToolOutput>)
    requires attemptId in runtime.bindings && runtime.bindings[attemptId] == b && b.Valid()
    requires IsWorkspace(ws) && IsLog(ws, log) && b.digest == ws.digest && b.grant == ws.grant && b.current == Head(ws, log)
    requires operation == OperationOf(ws, b.current, call)
    requires Ask(ws, log, call).0.Some? && replies == FaithfulReplies(ws, log, call, receipt)
    requires IsSealableAnswer(receipt, Ask(ws, log, call).0.value)
    requires var answer := Ask(ws, log, call).0.value;
             answer.Effected? ==> answer.accepted.expectation.maximumRepairRounds == maximumRepairRounds
    modifies runtime, b
    ensures b.Valid() && runtime.bindings == old(runtime.bindings)
    ensures var (answer, after) := Ask(ws, log, call);
            && r == Ok(OutputOf(operation, answer.value))
            && b.current == Head(ws, after)
  {
    ghost var answer := Ask(ws, log, call).0.value;
    AskIsTheOwners(ws, log, call);
    LogIsRun(ws, log);
    if SealOf(ws, log, call).Some? {
      SealedReply(ws, log, call, receipt);
    } else if answer.Effected? {
      FreshEffectReply(ws, log, call, receipt, maximumRepairRounds);
    }
    hide IsWorkspace, IsLog, Head, Ask, SealOf, OperationOf, IsAcceptedEffect, IsToolStep, Obtained, IsCarriedThrough, IsRun,
      Lineage.IsHistory, Lineage.Current, Lineage.LedgerHead;
    r := runtime.ExecuteTool(attemptId, b, operation, call.turnIndex, maximumRepairRounds, replies, cleanup);
  }
}
