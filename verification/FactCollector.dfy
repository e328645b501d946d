/** The streaming collector of provider runtime facts, against a predicate on the whole
    stream. */
module FactCollector {
  import opened Wrappers

  const MAXIMUM_EVENTS: nat := 10000
  const MAXIMUM_EVENT_BYTES: nat := 1048576
  const MAXIMUM_AGGREGATE_EVENT_BYTES: nat := 67108864
  const MAXIMUM_OUTPUT_BYTES: nat := 16777216
  const MAXIMUM_TOOL_CALLS: nat := 128
  const MAXIMUM_TOOL_ARGUMENT_BYTES: nat := 1048576
  const MAXIMUM_AGGREGATE_TOOL_ARGUMENT_BYTES: nat := 4194304
  const MAXIMUM_OPTIONAL_FACT_KINDS: nat := 2
  const SYNTHETIC_BYTES: nat := 38

  datatype EventType =
    | OutputDelta | ToolCall | UsageReport
    | Completed | Failed | Refusal | SafetyBlock | Truncation | Cancelled | TimedOut | Partial

  predicate IsTerminal(t: EventType) {
    !t.OutputDelta? && !t.ToolCall? && !t.UsageReport?
  }

  /** `isBound`: the payload matches its digest and holds no canary.  `isIntact`: the event
      matches its own digest.  `argumentBytes` is zero except for a tool call. */
  datatype Event = Event(
    eventId: string,
    invocationId: string,
    sequence: int,
    kind: EventType,
    occurredAt: int,
    payloadBytes: nat,
    argumentBytes: nat,
    isBound: bool,
    isIntact: bool)

  type Usage = nat

  datatype Fact =
    | EventFact(event: Event)
    | OptionalFact(kind: nat, bytes: nat)
    | UsageFact(usage: Usage, isCanonical: bool)

  /** The facts the adapter yields, and whether it then throws. */
  datatype Stream = Stream(facts: seq<Fact>, throws: bool)

  // ---------------------------------------------------------------------------
  // Whole-stream measures
  // ---------------------------------------------------------------------------

  function EventsOf(facts: seq<Fact>): seq<Event> {
    if facts == [] then []
    else
      var last := facts[|facts| - 1];
      EventsOf(facts[..|facts| - 1]) + if last.EventFact? then [last.event] else []
  }

  function KindsOf(facts: seq<Fact>): seq<nat> {
    if facts == [] then []
    else
      var last := facts[|facts| - 1];
      KindsOf(facts[..|facts| - 1]) + if last.OptionalFact? then [last.kind] else []
  }

  function BytesOf(fact: Fact): nat {
    match fact
    case EventFact(event) => event.payloadBytes
    case OptionalFact(_, bytes) => bytes
    case UsageFact(_, _) => 0
  }

  function TotalBytes(facts: seq<Fact>): nat {
    if facts == [] then 0 else TotalBytes(facts[..|facts| - 1]) + BytesOf(facts[|facts| - 1])
  }

  function OutputBytes(events: seq<Event>): nat {
    if events == [] then 0
    else
      var last := events[|events| - 1];
      OutputBytes(events[..|events| - 1]) + if last.kind.OutputDelta? then last.payloadBytes else 0
  }

  function ToolCalls(events: seq<Event>): nat {
    if events == [] then 0
    else ToolCalls(events[..|events| - 1]) + if events[|events| - 1].kind.ToolCall? then 1 else 0
  }

  function ArgumentBytes(events: seq<Event>): nat {
    if events == [] then 0
    else
      var last := events[|events| - 1];
      ArgumentBytes(events[..|events| - 1]) + if last.kind.ToolCall? then last.argumentBytes else 0
  }

  // ---------------------------------------------------------------------------
  // The whole-stream predicate
  // ---------------------------------------------------------------------------

  predicate AreEventsInBounds(events: seq<Event>) {
    && |events| <= MAXIMUM_EVENTS
    && (forall i :: 0 <= i < |events| ==> events[i].isBound && events[i].payloadBytes <= MAXIMUM_EVENT_BYTES)
    && (forall i :: 0 <= i < |events| && events[i].kind.ToolCall? ==>
          events[i].argumentBytes <= MAXIMUM_TOOL_ARGUMENT_BYTES)
    && (forall i :: 0 <= i < |events| - 1 ==> !IsTerminal(events[i].kind))
    && OutputBytes(events) <= MAXIMUM_OUTPUT_BYTES
    && ToolCalls(events) <= MAXIMUM_TOOL_CALLS
    && ArgumentBytes(events) <= MAXIMUM_AGGREGATE_TOOL_ARGUMENT_BYTES
  }

  predicate AreKindsFew(kinds: seq<nat>) {
    |kinds| <= MAXIMUM_OPTIONAL_FACT_KINDS && forall i, j :: 0 <= i < j < |kinds| ==> kinds[i] != kinds[j]
  }

  /** A usage vector may only be the last fact, and must be canonical. */
  predicate IsUsageLast(facts: seq<Fact>) {
    forall i :: 0 <= i < |facts| && facts[i].UsageFact? ==> i == |facts| - 1 && facts[i].isCanonical
  }

  /** Every bound and every order rule, of the facts seen so far. */
  predicate IsInBounds(facts: seq<Fact>) {
    && IsUsageLast(facts)
    && AreKindsFew(KindsOf(facts))
    && TotalBytes(facts) <= MAXIMUM_AGGREGATE_EVENT_BYTES
    && AreEventsInBounds(EventsOf(facts))
  }

  predicate IsBlank(s: string) {
    forall i :: 0 <= i < |s| ==> s[i] == ' ' || s[i] == '\t' || s[i] == '\n' || s[i] == '\r'
  }

  /** `validateAgentProviderEventSequence` reports nothing. */
  predicate IsSequence(invocationId: string, events: seq<Event>) {
    && (forall i :: 0 <= i < |events| ==>
          && events[i].invocationId == invocationId && events[i].sequence == i
          && events[i].isIntact && !IsBlank(events[i].eventId))
    && (forall i, j :: 0 <= i < j < |events| ==>
          events[i].eventId != events[j].eventId && events[i].occurredAt <= events[j].occurredAt)
    && events != [] && IsTerminal(events[|events| - 1].kind)
    && (forall i :: 0 <= i < |events| - 1 ==> !IsTerminal(events[i].kind))
  }

  predicate IsAdmissible(invocationId: string, stream: Stream) {
    && !stream.throws
    && stream.facts != [] && stream.facts[|stream.facts| - 1].UsageFact?
    && EventsOf(stream.facts) != []
    && IsInBounds(stream.facts)
    && IsSequence(invocationId, EventsOf(stream.facts))
  }

  // ---------------------------------------------------------------------------
  // One more fact
  // ---------------------------------------------------------------------------

  lemma OneMore(facts: seq<Fact>, fact: Fact)
    ensures EventsOf(facts + [fact]) == if fact.EventFact? then EventsOf(facts) + [fact.event] else EventsOf(facts)
    ensures KindsOf(facts + [fact]) == if fact.OptionalFact? then KindsOf(facts) + [fact.kind] else KindsOf(facts)
    ensures TotalBytes(facts + [fact]) == TotalBytes(facts) + BytesOf(fact)
  {
    assert (facts + [fact])[..|facts|] == facts;
  }

  lemma OneMoreEvent(events: seq<Event>, event: Event)
    ensures OutputBytes(events + [event]) == OutputBytes(events) + if event.kind.OutputDelta? then event.payloadBytes else 0
    ensures ToolCalls(events + [event]) == ToolCalls(events) + if event.kind.ToolCall? then 1 else 0
    ensures ArgumentBytes(events + [event]) == ArgumentBytes(events) + if event.kind.ToolCall? then event.argumentBytes else 0
  {
    assert (events + [event])[..|events|] == events;
  }

  /** What the checks on one event decide. */
  lemma EventStep(events: seq<Event>, event: Event)
    ensures AreEventsInBounds(events + [event]) <==>
            && AreEventsInBounds(events)
            && (events != [] ==> !IsTerminal(events[|events| - 1].kind))
            && event.isBound && |events| < MAXIMUM_EVENTS && event.payloadBytes <= MAXIMUM_EVENT_BYTES
            && (event.kind.OutputDelta? ==> OutputBytes(events) + event.payloadBytes <= MAXIMUM_OUTPUT_BYTES)
            && (event.kind.ToolCall? ==>
                  && ToolCalls(events) < MAXIMUM_TOOL_CALLS
                  && event.argumentBytes <= MAXIMUM_TOOL_ARGUMENT_BYTES
                  && ArgumentBytes(events) + event.argumentBytes <= MAXIMUM_AGGREGATE_TOOL_ARGUMENT_BYTES)
  {
    OneMoreEvent(events, event);
    hide OutputBytes, ToolCalls, ArgumentBytes, IsTerminal;
    var all := events + [event];
    assert all[|events|] == event;
    assert forall i :: 0 <= i < |events| ==> all[i] == events[i];
    if events != [] {
      assert all[|events| - 1] == events[|events| - 1];
    }
  }

  /** What the checks on one fact decide, given the facts before it. */
  lemma FactStep(facts: seq<Fact>, fact: Fact)
    ensures IsInBounds(facts + [fact]) <==>
            && IsInBounds(facts)
            && (forall i :: 0 <= i < |facts| ==> !facts[i].UsageFact?)
            && TotalBytes(facts) + BytesOf(fact) <= MAXIMUM_AGGREGATE_EVENT_BYTES
            && match fact
               case EventFact(event) => AreEventsInBounds(EventsOf(facts) + [event])
               case OptionalFact(kind, _) => kind !in KindsOf(facts) && |KindsOf(facts)| < MAXIMUM_OPTIONAL_FACT_KINDS
               case UsageFact(_, isCanonical) => isCanonical
  {
    hide EventsOf, KindsOf, TotalBytes, AreEventsInBounds, AreKindsFew, IsUsageLast, OutputBytes, ToolCalls, ArgumentBytes;
    OneMore(facts, fact);
    UsageStep(facts, fact);
    if fact.OptionalFact? {
      KindStep(KindsOf(facts), fact.kind);
    } else {
      assert KindsOf(facts) + [] == KindsOf(facts);
    }
    if fact.EventFact? {
      EventStep(EventsOf(facts), fact.event);
    } else {
      assert EventsOf(facts) + [] == EventsOf(facts);
    }
  }

  lemma KindStep(kinds: seq<nat>, kind: nat)
    ensures AreKindsFew(kinds + [kind]) <==>
            AreKindsFew(kinds) && kind !in kinds && |kinds| < MAXIMUM_OPTIONAL_FACT_KINDS
  {
    var all := kinds + [kind];
    assert forall i :: 0 <= i < |kinds| ==> all[i] == kinds[i];
    assert all[|kinds|] == kind;
  }

  lemma UsageStep(facts: seq<Fact>, fact: Fact)
    ensures IsUsageLast(facts + [fact]) <==>
            (forall i :: 0 <= i < |facts| ==> !facts[i].UsageFact?) && (fact.UsageFact? ==> fact.isCanonical)
    ensures IsUsageLast(facts + [fact]) ==> IsUsageLast(facts)
  {
    var all := facts + [fact];
    assert forall i :: 0 <= i < |facts| ==> all[i] == facts[i];
    assert all[|facts|] == fact;
  }

  lemma {:induction false} PrefixInBounds(facts: seq<Fact>, n: nat)
    requires n <= |facts| && IsInBounds(facts)
    ensures IsInBounds(facts[..n])
    decreases |facts|
  {
    hide IsInBounds;
    if n == |facts| {
      assert facts[..n] == facts;
    } else {
      var shorter := facts[..|facts| - 1];
      assert facts == shorter + [facts[|facts| - 1]];
      FactStep(shorter, facts[|facts| - 1]);
      PrefixInBounds(shorter, n);
      assert shorter[..n] == facts[..n];
    }
  }

  // ---------------------------------------------------------------------------
  // The collector
  // ---------------------------------------------------------------------------

  datatype Attempt = Attempt(
    events: seq<Event>,
    usage: Option<Usage>,
    rejected: bool,
    artifactBytes: nat)

  function SyntheticEvent(invocationId: string, now: int): Event {
    Event(invocationId + ".sanitized-terminal", invocationId, 0, Failed, now, SYNTHETIC_BYTES, 0, true, true)
  }

  /** The one-event attempt in place of a rejected stream; its usage is unknown. */
  function Rejected(invocationId: string, now: int): Attempt {
    Attempt([SyntheticEvent(invocationId, now)], None, true, SYNTHETIC_BYTES)
  }

  /** One more event: what the collector checks of it, given its counters. */
  lemma EventDecides(facts: seq<Fact>, event: Event)
    requires IsInBounds(facts) && forall i :: 0 <= i < |facts| ==> !facts[i].UsageFact?
    ensures var events := EventsOf(facts);
            IsInBounds(facts + [EventFact(event)]) <==>
            && TotalBytes(facts) + event.payloadBytes <= MAXIMUM_AGGREGATE_EVENT_BYTES
            && event.isBound && (events == [] || !IsTerminal(events[|events| - 1].kind))
            && |events| < MAXIMUM_EVENTS && event.payloadBytes <= MAXIMUM_EVENT_BYTES
            && (event.kind.OutputDelta? ==> OutputBytes(events) + event.payloadBytes <= MAXIMUM_OUTPUT_BYTES)
            && (event.kind.ToolCall? ==>
                  && ToolCalls(events) < MAXIMUM_TOOL_CALLS
                  && event.argumentBytes <= MAXIMUM_TOOL_ARGUMENT_BYTES
                  && ArgumentBytes(events) + event.argumentBytes <= MAXIMUM_AGGREGATE_TOOL_ARGUMENT_BYTES)
  {
    FactStep(facts, EventFact(event));
    EventStep(EventsOf(facts), event);
    InBoundsHasEventsInBounds(facts);
    hide IsInBounds, EventsOf, TotalBytes, OutputBytes, ToolCalls, ArgumentBytes, AreEventsInBounds, IsTerminal, KindsOf;
  }

  /** The set holds the listed kinds, each listed once. */
  ghost predicate HasKinds(kinds: set<nat>, listed: seq<nat>) {
    (forall k :: k in kinds <==> k in listed) && |kinds| == |listed|
  }

  lemma NoKinds()
    ensures HasKinds({}, [])
  {
  }

  lemma KindsGrow(kinds: set<nat>, listed: seq<nat>, kind: nat)
    requires HasKinds(kinds, listed)
    ensures (kind in kinds <==> kind in listed) && |kinds| == |listed|
    ensures kind !in kinds ==> HasKinds(kinds + {kind}, listed + [kind])
  {
  }

  /** The counters of one event, and whether they are still within their bounds. */
  method CountEvent(ghost events: seq<Event>, event: Event, outputBytes: nat, toolCalls: nat, argumentBytes: nat)
    returns (fits: bool, output: nat, calls: nat, arguments: nat)
    requires outputBytes == OutputBytes(events) && toolCalls == ToolCalls(events) && argumentBytes == ArgumentBytes(events)
    ensures output == OutputBytes(events + [event])
    ensures calls == ToolCalls(events + [event]) && arguments == ArgumentBytes(events + [event])
    ensures fits <==>
            && (event.kind.OutputDelta? ==> OutputBytes(events) + event.payloadBytes <= MAXIMUM_OUTPUT_BYTES)
            && (event.kind.ToolCall? ==>
                  && ToolCalls(events) < MAXIMUM_TOOL_CALLS
                  && event.argumentBytes <= MAXIMUM_TOOL_ARGUMENT_BYTES
                  && ArgumentBytes(events) + event.argumentBytes <= MAXIMUM_AGGREGATE_TOOL_ARGUMENT_BYTES)
  {
    OneMoreEvent(events, event);
    hide OutputBytes, ToolCalls, ArgumentBytes;
    fits, output, calls, arguments := true, outputBytes, toolCalls, argumentBytes;
    if event.kind.OutputDelta? {
      output := output + event.payloadBytes;
      fits := output <= MAXIMUM_OUTPUT_BYTES;
    }
    if event.kind.ToolCall? {
      calls := calls + 1;
      arguments := arguments + event.argumentBytes;
      fits := fits && calls <= MAXIMUM_TOOL_CALLS && event.argumentBytes <= MAXIMUM_TOOL_ARGUMENT_BYTES &&
              arguments <= MAXIMUM_AGGREGATE_TOOL_ARGUMENT_BYTES;
    }
  }

  /** `collectAgentEvaluationRuntimeFacts`: one pass over the facts with running counters
      accepts exactly the admissible streams, and its byte count is the exact total. */
  method Collect(invocationId: string, stream: Stream, now: int) returns (r: Attempt)
    ensures IsAdmissible(invocationId, stream) ==>
              r == Attempt(EventsOf(stream.facts), Some(stream.facts[|stream.facts| - 1].usage), false, TotalBytes(stream.facts))
    ensures !IsAdmissible(invocationId, stream) ==> r == Rejected(invocationId, now)
    ensures r.rejected ==>
            && r.usage.None? && |r.events| == 1 && r.artifactBytes == 38
            && r.events[0] == Event(invocationId + ".sanitized-terminal", invocationId, 0, Failed, now, 38, 0, true, true)
    ensures !r.rejected ==> stream.facts != [] && !stream.throws && r.usage.Some? && r.artifactBytes <= 67108864
    ensures r.events != [] && forall i :: 0 <= i < |r.events| ==>
              && r.events[i].invocationId == invocationId && r.events[i].sequence == i
              && (r.events[i].kind in {EventType.OutputDelta, EventType.ToolCall, EventType.UsageReport} <==> i < |r.events| - 1)
  {
    hide EventsOf, KindsOf, TotalBytes, OutputBytes, ToolCalls, ArgumentBytes, IsInBounds, IsSequence, AreEventsInBounds,
      IsTerminal, AreKindsFew, IsUsageLast, HasKinds;
    var facts := stream.facts;
    var events: seq<Event>, kinds: set<nat> := [], {};
    var usage: Option<Usage> := None;
    var aggregateBytes, outputBytes, aggregateToolArgumentBytes, toolCalls := 0, 0, 0, 0;
    NothingIsInBounds();
    assert facts[..0] == [] && HasKinds({}, []) by {
      NoKinds();
    }
    for i := 0 to |facts|
      invariant IsInBounds(facts[..i])
      invariant events == EventsOf(facts[..i])
      invariant aggregateBytes == TotalBytes(facts[..i])
      invariant outputBytes == OutputBytes(events) && toolCalls == ToolCalls(events)
      invariant aggregateToolArgumentBytes == ArgumentBytes(events)
      invariant HasKinds(kinds, KindsOf(facts[..i]))
      invariant usage.None? ==> forall j :: 0 <= j < i ==> !facts[j].UsageFact?
      invariant usage.Some? ==> i > 0 && facts[i - 1].UsageFact? && facts[i - 1].usage == usage.value
    {
      var fact := facts[i];
      assert facts[..i + 1] == facts[..i] + [fact];
      OneMore(facts[..i], fact);
      if usage.Some? {
        assert facts[..i][i - 1].UsageFact?;
        FactStep(facts[..i], fact);
        RefusedPrefixRefuses(invocationId, stream, i + 1);
        return Rejected(invocationId, now);
      }
      var accepted := aggregateBytes + BytesOf(fact) <= MAXIMUM_AGGREGATE_EVENT_BYTES;
      match fact {
        case UsageFact(_, isCanonical) =>
          FactStep(facts[..i], fact);
          accepted := accepted && isCanonical;
        case OptionalFact(kind, _) =>
          FactStep(facts[..i], fact);
          KindsGrow(kinds, KindsOf(facts[..i]), kind);
          accepted := accepted && kind !in kinds && |kinds| < MAXIMUM_OPTIONAL_FACT_KINDS;
          kinds := kinds + {kind};
        case EventFact(event) =>
          EventDecides(facts[..i], event);
          accepted := accepted && event.isBound && (events == [] || !IsTerminal(events[|events| - 1].kind)) &&
                      |events| < MAXIMUM_EVENTS && event.payloadBytes <= MAXIMUM_EVENT_BYTES;
          var fits;
          fits, outputBytes, toolCalls, aggregateToolArgumentBytes :=
            CountEvent(events, event, outputBytes, toolCalls, aggregateToolArgumentBytes);
          accepted := accepted && fits;
          events := events + [event];
      }
      if !accepted {
        RefusedPrefixRefuses(invocationId, stream, i + 1);
        return Rejected(invocationId, now);
      }
      aggregateBytes := aggregateBytes + BytesOf(fact);
      if fact.UsageFact? {
        usage := Some(fact.usage);
      }
    }
    assert facts[..|facts|] == facts;
    if stream.throws || usage.None? || events == [] || !IsSequence(invocationId, events) {
      return Rejected(invocationId, now);
    }
    SequenceEndsOnce(invocationId, events);
    AdmissibleIsCapped(invocationId, stream);
    return Attempt(events, usage, false, aggregateBytes);
  }

  /** A sequence is numbered, of one invocation, and ends with its one terminal event. */
  lemma SequenceEndsOnce(invocationId: string, events: seq<Event>)
    requires IsSequence(invocationId, events)
    ensures events != [] && forall i :: 0 <= i < |events| ==>
              && events[i].invocationId == invocationId && events[i].sequence == i
              && (events[i].kind in {EventType.OutputDelta, EventType.ToolCall, EventType.UsageReport} <==> i < |events| - 1)
  {
  }

  /** The bytes `Collect` returns with. */
  function CollectedBytes(invocationId: string, stream: Stream): nat {
    if IsAdmissible(invocationId, stream) then TotalBytes(stream.facts) else SYNTHETIC_BYTES
  }

  ghost predicate IsCollected(bytes: nat) {
    exists invocationId, stream :: bytes == CollectedBytes(invocationId, stream)
  }

  /** An optional fact of the given size, a terminal event without payload, and usage. */
  function SizedStream(bytes: nat): Stream {
    Stream([OptionalFact(0, bytes), EventFact(Event("event", "call", 0, Completed, 0, 0, 0, true, true)), UsageFact(0, true)], false)
  }

  lemma SizedStreamIsInBounds(bytes: nat)
    requires bytes <= MAXIMUM_AGGREGATE_EVENT_BYTES
    ensures var facts := SizedStream(bytes).facts;
            IsInBounds(facts) && EventsOf(facts) == [facts[1].event] && TotalBytes(facts) == bytes
  {
    hide IsInBounds, EventsOf, KindsOf, TotalBytes, AreEventsInBounds, OutputBytes, ToolCalls, ArgumentBytes;
    var facts := SizedStream(bytes).facts;
    NothingIsInBounds();
    assert [] + [facts[0]] == [facts[0]] && [facts[0]] + [facts[1]] == [facts[0], facts[1]];
    assert [facts[0], facts[1]] + [facts[2]] == facts;
    FactStep([], facts[0]);
    OneMore([], facts[0]);
    EventDecides([facts[0]], facts[1].event);
    OneMore([facts[0]], facts[1]);
    FactStep([facts[0], facts[1]], facts[2]);
    OneMore([facts[0], facts[1]], facts[2]);
  }

  lemma SizedStreamIsAdmissible(bytes: nat)
    requires bytes <= MAXIMUM_AGGREGATE_EVENT_BYTES
    ensures IsAdmissible("call", SizedStream(bytes)) && TotalBytes(SizedStream(bytes).facts) == bytes
  {
    SizedStreamIsInBounds(bytes);
    hide IsInBounds, EventsOf, TotalBytes;
    assert SizedStream(bytes).facts[1].event.eventId[0] == 'e';
  }

  /** What a collected attempt, admitted or rejected, can bring: any number of bytes up to
      the aggregate cap, and no more. */
  lemma CollectedExactly(bytes: nat)
    ensures IsCollected(bytes) <==> bytes <= MAXIMUM_AGGREGATE_EVENT_BYTES
  {
    forall invocationId, stream | IsAdmissible(invocationId, stream)
      ensures TotalBytes(stream.facts) <= MAXIMUM_AGGREGATE_EVENT_BYTES
    {
      AdmissibleIsCapped(invocationId, stream);
    }
    hide IsAdmissible;
    if bytes <= MAXIMUM_AGGREGATE_EVENT_BYTES {
      SizedStreamIsAdmissible(bytes);
      assert bytes == CollectedBytes("call", SizedStream(bytes));
    }
  }

  lemma AdmissibleIsCapped(invocationId: string, stream: Stream)
    requires IsAdmissible(invocationId, stream)
    ensures TotalBytes(stream.facts) <= MAXIMUM_AGGREGATE_EVENT_BYTES
  {
  }

  lemma NothingIsInBounds()
    ensures IsInBounds([]) && EventsOf([]) == [] && KindsOf([]) == [] && TotalBytes([]) == 0
    ensures OutputBytes([]) == 0 && ToolCalls([]) == 0 && ArgumentBytes([]) == 0
  {
  }

  lemma InBoundsHasEventsInBounds(facts: seq<Fact>)
    requires IsInBounds(facts)
    ensures AreEventsInBounds(EventsOf(facts))
  {
  }

  lemma RefusedPrefixRefuses(invocationId: string, stream: Stream, n: nat)
    requires n <= |stream.facts| && !IsInBounds(stream.facts[..n])
    ensures !IsAdmissible(invocationId, stream)
  {
    hide IsInBounds;
    if IsInBounds(stream.facts) {
      PrefixInBounds(stream.facts, n);
    }
  }
}
