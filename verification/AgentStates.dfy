/**
  The state the terminal view shows for each agent: trace records and runtime events are folded into one record
  per agent.
*/
module AgentStates {
  import opened MemorySizes
  import opened Sequences
  import opened Text
  import opened TraceRecords
  import opened Wrappers

  datatype RuntimeEvent = RuntimeEvent(agent: Option<string>, kind: Option<string>, ts: Option<string>, payload: Payload)

  datatype Shown = Pending | Failed | Blocked | Active | Complete | Review

  datatype AgentState = AgentState(shown: Shown, lastEvent: Option<string>, lastTs: Option<string>,
                                   activity: Option<string>, failed: bool)

  const INITIAL := AgentState(Pending, None, None, None, false)

  // ---- One event ----

  const RUNTIME_PREFIX := "runtime.process."

  predicate IsFailureType(eventType: string) {
    eventType == "error" || EndsWith(eventType, ".failed")
  }

  predicate IsBlockedType(eventType: string) {
    Contains(eventType, "blocked")
  }

  /** The event types the code names in full. */
  datatype NamedType = ProcessStarted | ProcessAttributed | ChildDiscovered | AgentStarted
                     | ProcessTerminated | AgentCompleted | AgentFinished

  function TypeText(t: NamedType): string {
    match t
    case ProcessStarted => RUNTIME_PREFIX + "started"
    case ProcessAttributed => RUNTIME_PREFIX + "attributed"
    case ChildDiscovered => RUNTIME_PREFIX + "child_discovered"
    case AgentStarted => "agent.started"
    case ProcessTerminated => RUNTIME_PREFIX + "terminated"
    case AgentCompleted => "agent.completed"
    case AgentFinished => "agent.finished"
  }

  predicate IsActiveType(eventType: string) {
    eventType == TypeText(ProcessStarted) || eventType == TypeText(ProcessAttributed)
    || eventType == TypeText(ChildDiscovered) || eventType == TypeText(AgentStarted)
  }

  predicate IsCompleteType(eventType: string) {
    eventType == TypeText(ProcessTerminated) || eventType == TypeText(AgentCompleted) || eventType == TypeText(AgentFinished)
  }

  predicate IsReviewType(eventType: string) {
    Contains(eventType, "review_required") || Contains(eventType, "review")
  }

  /** What an event type says on its own; `None` for a type that leaves the shown state alone. */
  function Says(eventType: string): Option<Shown> {
    if IsFailureType(eventType) then Some(Failed)
    else if IsBlockedType(eventType) then Some(Blocked)
    else if IsActiveType(eventType) then Some(Active)
    else if IsCompleteType(eventType) then Some(Complete)
    else if IsReviewType(eventType) then Some(Review)
    else None
  }

  function IntText(n: int): string {
    if n < 0 then "-" + Decimal(-n) else Decimal(n)
  }

  lemma IntTextIs(n: int)
    ensures var digits := if n < 0 then IntText(n)[1..] else IntText(n);
            && (n < 0 ==> IntText(n) == "-" + digits)
            && IsDigits(digits) && DigitsValue(digits) == if n < 0 then -n else n
  {
    DecimalRoundTrip(if n < 0 then -n else n);
  }

  function JoinWords(words: seq<string>): string {
    if words == [] then "" else if |words| == 1 then words[0] else words[0] + " " + JoinWords(words[1..])
  }

  function Named(name: string, value: Option<string>): seq<string> {
    match value
    case None => []
    case Some(v) => [name + v]
  }

  function IntValue(n: Option<int>): Option<string> {
    match n
    case None => None
    case Some(i) => Some(IntText(i))
  }

  /** `runtime_activity`. */
  function RuntimeActivity(payload: Option<Payload>): Option<string> {
    match payload
    case None => None
    case Some(p) =>
      var parts := Named("pid=", IntValue(p.rootPid)) + Named("pgid=", IntValue(p.processGroupId)) + Named("memory=", p.memoryGroupId);
      if parts == [] then None else Some(JoinWords(parts))
  }

  /** `str::trim_start_matches`: the prefix is taken off as often as it occurs. */
  function TrimStartMatches(s: string, prefix: string): string
    requires prefix != ""
    decreases |s|
  {
    if prefix <= s then TrimStartMatches(s[|prefix|..], prefix) else s
  }

  function ActivityAfter(eventType: string, payload: Option<Payload>): Option<string> {
    match RuntimeActivity(payload)
    case Some(activity) => Some(activity)
    case None => Some(TrimStartMatches(eventType, RUNTIME_PREFIX))
  }

  /** One event of one agent. */
  datatype Event = Event(eventType: string, ts: Option<string>, payload: Option<Payload>)

  function ShownAfter(shown: Shown, failed: bool, says: Option<Shown>): Shown {
    if says == Some(Failed) then Failed
    else if says == Some(Blocked) then Blocked
    else if failed then Failed
    else if says.Some? then says.value
    else shown
  }

  function Applied(s: AgentState, e: Event): AgentState {
    AgentState(ShownAfter(s.shown, s.failed, Says(e.eventType)), Some(e.eventType), if e.ts.Some? then e.ts else s.lastTs,
               ActivityAfter(e.eventType, e.payload), s.failed || Says(e.eventType) == Some(Failed))
  }

  /** `apply_agent_event`. */
  method ApplyAgentEvent(was: AgentState, eventType: string, ts: Option<string>, payload: Option<Payload>)
    returns (state: AgentState)
    ensures state == Applied(was, Event(eventType, ts, payload))
  {
    state := was.(lastEvent := Some(eventType));
    if ts.Some? {
      state := state.(lastTs := ts);
    }
    var says := Says(eventType);
    if says == Some(Failed) {
      state := state.(failed := true, shown := Failed);
    } else if says == Some(Blocked) {
      state := state.(shown := Blocked);
    } else if state.failed {
      state := state.(shown := Failed);
    } else if says.Some? {
      state := state.(shown := says.value);
    }
    var activity := RuntimeActivity(payload);
    if activity.None? {
      activity := Some(TrimStartMatches(eventType, RUNTIME_PREFIX));
    }
    state := state.(activity := activity);
  }

  // ---- What the types say ----

  lemma NamedTypesAre()
    ensures TypeText(ProcessStarted) == "runtime.process.started"
    ensures TypeText(ProcessAttributed) == "runtime.process.attributed"
    ensures TypeText(ChildDiscovered) == "runtime.process.child_discovered"
    ensures TypeText(AgentStarted) == "agent.started"
    ensures TypeText(ProcessTerminated) == "runtime.process.terminated"
    ensures TypeText(AgentCompleted) == "agent.completed"
    ensures TypeText(AgentFinished) == "agent.finished"
  {
  }

  lemma NamedTypeHasNone(t: NamedType, c: char)
    requires c == 'k' || c == 'w'
    ensures c !in TypeText(t)
  {
    PrefixHasNone(c);
    match t
    case ProcessStarted => assert c !in "started";
    case ProcessAttributed => assert c !in "attributed";
    case ChildDiscovered => assert c !in "child_discovered";
    case AgentStarted => assert c !in "agent.started";
    case ProcessTerminated => assert c !in "terminated";
    case AgentCompleted => assert c !in "agent.completed";
    case AgentFinished => assert c !in "agent.finished";
  }

  lemma PrefixHasNone(c: char)
    requires c == 'k' || c == 'w'
    ensures c !in RUNTIME_PREFIX
  {
  }

  lemma NamedTypeEnds(t: NamedType)
    ensures |TypeText(t)| > 7 && TypeText(t)[|TypeText(t)| - 7] != '.'
  {
  }

  lemma ActiveIsNotComplete(eventType: string)
    ensures !(IsActiveType(eventType) && IsCompleteType(eventType))
  {
    assert TypeText(ProcessAttributed)[16] == 'a' && TypeText(ProcessTerminated)[16] == 't';
  }

  lemma ContainsItsCharacters(s: string, needle: string, c: char)
    requires Contains(s, needle) && c in needle
    ensures c in s
  {
    var i := Find(s, needle).value;
    var k :| 0 <= k < |needle| && needle[k] == c;
    assert s[i..i + |needle|][k] == s[i + k];
  }

  /** A type without `k` and `w` that does not end in `.failed` is none of those found by a part of their text. */
  lemma WordsInTypes(eventType: string)
    ensures IsBlockedType(eventType) ==> 'k' in eventType
    ensures IsReviewType(eventType) ==> 'w' in eventType
    ensures IsReviewType(eventType) <==> Contains(eventType, "review")
  {
    var blocked, review, required := "blocked", "review", "review_required";
    assert blocked[4] == 'k' && review[5] == 'w' && review <= required;
    if Contains(eventType, blocked) {
      ContainsItsCharacters(eventType, blocked, 'k');
    }
    if Contains(eventType, required) {
      ContainsPrefix(eventType, required, review);
    }
    if Contains(eventType, review) {
      ContainsItsCharacters(eventType, review, 'w');
    }
  }

  lemma NamedTypeStandsAlone(t: NamedType)
    ensures !IsFailureType(TypeText(t)) && !IsBlockedType(TypeText(t)) && !IsReviewType(TypeText(t))
  {
    NamedTypeHasNone(t, 'k');
    NamedTypeHasNone(t, 'w');
    NamedTypeEnds(t);
    WordsInTypes(TypeText(t));
    assert |"error"| == 5 && |".failed"| == 7;
  }

  /**
    The order of the tests matters only between failures, blocked and review types: the seven types named in full
    are none of these.  A test for `review_required` beside the one for `review` adds nothing.
  */
  lemma SaysIff(eventType: string)
    ensures Says(eventType) == Some(Failed) <==> eventType == "error" || EndsWith(eventType, ".failed")
    ensures Says(eventType) == Some(Blocked) <==>
              Contains(eventType, "blocked") && eventType != "error" && !EndsWith(eventType, ".failed")
    ensures Says(eventType) == Some(Active) <==>
              || eventType == "runtime.process.started" || eventType == "runtime.process.attributed"
              || eventType == "runtime.process.child_discovered" || eventType == "agent.started"
    ensures Says(eventType) == Some(Complete) <==>
              eventType == "runtime.process.terminated" || eventType == "agent.completed" || eventType == "agent.finished"
    ensures Says(eventType) == Some(Review) <==>
              Contains(eventType, "review") && !Contains(eventType, "blocked") && eventType != "error" && !EndsWith(eventType, ".failed")
  {
    NamedTypesAre();
    WordsInTypes(eventType);
    ActiveIsNotComplete(eventType);
    forall t | eventType == TypeText(t)
      ensures !IsFailureType(eventType) && !IsBlockedType(eventType) && !IsReviewType(eventType)
    {
      NamedTypeStandsAlone(t);
    }
  }

  function Copies(prefix: string, n: nat): string {
    if n == 0 then "" else prefix + Copies(prefix, n - 1)
  }

  /** A trimmed text does not begin with the prefix, and only copies of the prefix were taken off. */
  lemma {:induction false} TrimStartMatchesIs(s: string, prefix: string) returns (n: nat)
    requires prefix != ""
    ensures !(prefix <= TrimStartMatches(s, prefix))
    ensures s == Copies(prefix, n) + TrimStartMatches(s, prefix)
    decreases |s|
  {
    n := 0;
    if prefix <= s {
      var rest := s[|prefix|..];
      n := TrimStartMatchesIs(rest, prefix);
      Reassociate(prefix, Copies(prefix, n), TrimStartMatches(rest, prefix));
      assert s == prefix + rest;
      n := n + 1;
    }
  }

  lemma TrimOnce(prefix: string, rest: string)
    requires prefix != "" && !(prefix <= rest)
    ensures TrimStartMatches(prefix + rest, prefix) == rest
  {
    assert (prefix + rest)[|prefix|..] == rest;
  }

  lemma JoinFew(a: string, b: string, c: string)
    ensures JoinWords([a]) == a && JoinWords([a, b]) == a + " " + b && JoinWords([a, b, c]) == a + " " + (b + " " + c)
  {
    assert [a, b][1..] == [b] && [a, b, c][1..] == [b, c] && [b, c][1..] == [c];
    assert JoinWords([a]) == a && JoinWords([b]) == b && JoinWords([c]) == c;
    assert JoinWords([b, c]) == b + " " + c;
  }

  /**
    An event that names a process shows its ids and memory group, in this order; one that names none shows its type
    without the prefix.
  */
  lemma ActivityIs(eventType: string, p: Payload, pid: string, pgid: string, memory: string)
    requires pid == "pid=" + (if p.rootPid.Some? then IntText(p.rootPid.value) else "")
    requires pgid == "pgid=" + (if p.processGroupId.Some? then IntText(p.processGroupId.value) else "")
    requires memory == "memory=" + (if p.memoryGroupId.Some? then p.memoryGroupId.value else "")
    ensures ActivityAfter(eventType, Some(p)) == Some(
              match (p.rootPid.Some?, p.processGroupId.Some?, p.memoryGroupId.Some?)
              case (true, true, true) => pid + " " + (pgid + " " + memory)
              case (true, true, false) => pid + " " + pgid
              case (true, false, true) => pid + " " + memory
              case (true, false, false) => pid
              case (false, true, true) => pgid + " " + memory
              case (false, true, false) => pgid
              case (false, false, true) => memory
              case (false, false, false) => TrimStartMatches(eventType, "runtime.process."))
  {
    var words := Named("pid=", IntValue(p.rootPid)) + Named("pgid=", IntValue(p.processGroupId)) + Named("memory=", p.memoryGroupId);
    JoinFew(pid, pgid, memory);
    JoinFew(pid, memory, "");
    JoinFew(pgid, memory, "");
    assert words == match (p.rootPid.Some?, p.processGroupId.Some?, p.memoryGroupId.Some?)
                    case (true, true, true) => [pid, pgid, memory]
                    case (true, true, false) => [pid, pgid]
                    case (true, false, true) => [pid, memory]
                    case (true, false, false) => [pid]
                    case (false, true, true) => [pgid, memory]
                    case (false, true, false) => [pgid]
                    case (false, false, true) => [memory]
                    case (false, false, false) => [];
  }

  /** A runtime event that names no process shows its bare kind. */
  lemma RuntimeEventShowsKind(kind: string)
    requires !(RUNTIME_PREFIX <= kind)
    ensures ActivityAfter(RuntimeType(Some(kind)), Some(Payload(None, None, None, None))) == Some(kind)
  {
    TrimOnce(RUNTIME_PREFIX, kind);
  }

  // ---- All events ----

  datatype AgentEvent = AgentEvent(agent: Option<string>, event: Event)

  function OfTrace(r: TraceRecord): AgentEvent {
    AgentEvent(r.agent, Event(r.eventType, r.ts, r.payload))
  }

  function RuntimeType(kind: Option<string>): string {
    match kind
    case Some(k) => RUNTIME_PREFIX + k
    case None => RUNTIME_PREFIX + "observed"
  }

  function OfRuntime(r: RuntimeEvent): AgentEvent {
    AgentEvent(r.agent, Event(RuntimeType(r.kind), r.ts, Some(r.payload)))
  }

  function StateOf(states: map<string, AgentState>, agent: string): AgentState {
    if agent in states then states[agent] else INITIAL
  }

  function Update(states: map<string, AgentState>, e: AgentEvent): map<string, AgentState> {
    match e.agent
    case None => states
    case Some(agent) => states[agent := Applied(StateOf(states, agent), e.event)]
  }

  function Derived(events: seq<AgentEvent>): map<string, AgentState> {
    if events == [] then map[] else Update(Derived(events[..|events| - 1]), events[|events| - 1])
  }

  function AllEvents(trace: seq<TraceRecord>, runtime: seq<RuntimeEvent>): seq<AgentEvent> {
    seq(|trace|, i requires 0 <= i < |trace| => OfTrace(trace[i]))
    + seq(|runtime|, i requires 0 <= i < |runtime| => OfRuntime(runtime[i]))
  }

  /** The trace comes first, and each event keeps its agent, type, time and payload. */
  lemma AllEventsAre(trace: seq<TraceRecord>, runtime: seq<RuntimeEvent>)
    ensures var events := AllEvents(trace, runtime);
            && |events| == |trace| + |runtime|
            && (forall i :: 0 <= i < |trace| ==>
                  events[i] == AgentEvent(trace[i].agent, Event(trace[i].eventType, trace[i].ts, trace[i].payload)))
            && forall i :: 0 <= i < |runtime| ==>
                 var e := events[|trace| + i];
                 && e.agent == runtime[i].agent && e.event.ts == runtime[i].ts && e.event.payload == Some(runtime[i].payload)
                 && e.event.eventType == "runtime.process." + if runtime[i].kind.Some? then runtime[i].kind.value else "observed"
  {
  }

  lemma DerivedNext(events: seq<AgentEvent>, i: nat, e: AgentEvent)
    requires i < |events| && events[i] == e
    ensures Derived(events[..i + 1]) == Update(Derived(events[..i]), e)
  {
    assert events[..i + 1][..i] == events[..i];
  }

  /** The body of either loop: the state of the agent, or a default one, takes the event. */
  method ApplyToEntry(states: map<string, AgentState>, e: AgentEvent) returns (updated: map<string, AgentState>)
    ensures updated == Update(states, e)
  {
    if e.agent.None? {
      return states;
    }
    var state := ApplyAgentEvent(StateOf(states, e.agent.value), e.event.eventType, e.event.ts, e.event.payload);
    updated := states[e.agent.value := state];
  }

  /** The loop over the runtime events, after `from` trace records. */
  method ApplyRuntimeEvents(runtime: seq<RuntimeEvent>, before: map<string, AgentState>, ghost events: seq<AgentEvent>,
                            ghost from: nat) returns (states: map<string, AgentState>)
    requires |events| == from + |runtime| && before == Derived(events[..from])
    requires forall i :: 0 <= i < |runtime| ==> events[from + i] == OfRuntime(runtime[i])
    ensures states == Derived(events)
  {
    states := before;
    ghost var k := from;
    for i := 0 to |runtime|
      invariant k == from + i && states == Derived(events[..k])
    {
      DerivedNext(events, k, OfRuntime(runtime[i]));
      states := ApplyToEntry(states, OfRuntime(runtime[i]));
      k := k + 1;
    }
    assert events[..k] == events;
  }

  /** `derive_agent_states`. */
  method DeriveAgentStates(trace: seq<TraceRecord>, runtime: seq<RuntimeEvent>) returns (states: map<string, AgentState>)
    ensures states == Derived(AllEvents(trace, runtime))
  {
    ghost var events := AllEvents(trace, runtime);
    states := map[];
    for i := 0 to |trace|
      invariant states == Derived(events[..i])
    {
      DerivedNext(events, i, OfTrace(trace[i]));
      states := ApplyToEntry(states, OfTrace(trace[i]));
    }
    states := ApplyRuntimeEvents(runtime, states, events, |trace|);
  }

  // ---- The closed form ----

  /** The events of one agent, in order. */
  function OwnEvents(events: seq<AgentEvent>, agent: string): seq<Event> {
    if events == [] then []
    else
      var last := events[|events| - 1];
      OwnEvents(events[..|events| - 1], agent) + if last.agent == Some(agent) then [last.event] else []
  }

  function Folded(own: seq<Event>): AgentState {
    if own == [] then INITIAL else Applied(Folded(own[..|own| - 1]), own[|own| - 1])
  }

  /** An agent's state depends on its own events alone. */
  lemma {:induction false} StatesAreProjections(events: seq<AgentEvent>, agent: string)
    ensures agent in Derived(events) <==> OwnEvents(events, agent) != []
    ensures StateOf(Derived(events), agent) == Folded(OwnEvents(events, agent))
  {
    if events != [] {
      var before, last := events[..|events| - 1], events[|events| - 1];
      StatesAreProjections(before, agent);
      if last.agent == Some(agent) {
        var own := OwnEvents(before, agent);
        assert (own + [last.event])[..|own|] == own;
      } else {
        assert OwnEvents(events, agent) == OwnEvents(before, agent);
      }
    }
  }

  /** What each event says on its own, and the times they carry. */
  function Sayings(own: seq<Event>): seq<Option<Shown>> {
    seq(|own|, i requires 0 <= i < |own| => Says(own[i].eventType))
  }

  function EventTimes(own: seq<Event>): seq<Option<string>> {
    seq(|own|, i requires 0 <= i < |own| => own[i].ts)
  }

  /** The shown state by fixed priority: failed, unless blocked came last; else what was said last; else pending. */
  function ShownFor(said: seq<Option<Shown>>): Shown {
    if Some(Failed) in said then if said[|said| - 1] == Some(Blocked) then Blocked else Failed
    else
      match LastPresent(said)
      case Some(shown) => shown
      case None => Pending
  }

  /**
    A failure wins over everything but a blocked event that comes last; without one the last event that says
    something decides, and without any the agent is pending.
  */
  lemma ShownForIs(said: seq<Option<Shown>>)
    ensures (forall i :: 0 <= i < |said| ==> said[i] == None) ==> ShownFor(said) == Pending
    ensures forall i :: 0 <= i < |said| && said[i] == Some(Failed) ==>
              ShownFor(said) == if said[|said| - 1] == Some(Blocked) then Blocked else Failed
    ensures (forall i :: 0 <= i < |said| ==> said[i] != Some(Failed)) ==>
              forall i: nat :: IsLastPresent(said, i) ==> Some(ShownFor(said)) == said[i]
  {
    LastPresentIs(said);
  }

  lemma LastSaid(said: seq<Option<Shown>>, says: Option<Shown>)
    ensures said + [says] != [] && (said + [says])[|said + [says]| - 1] == says
    ensures forall x :: x in said + [says] <==> x in said || x == says
  {
  }

  lemma ShownNext(said: seq<Option<Shown>>, says: Option<Shown>)
    ensures ShownFor(said + [says]) == ShownAfter(ShownFor(said), Some(Failed) in said, says)
    ensures Some(Failed) in said + [says] <==> Some(Failed) in said || says == Some(Failed)
  {
    LastSaid(said, says);
    LastPresentNext(said, says);
  }

  lemma LastEvent(own: seq<Event>, e: Event)
    ensures Sayings(own + [e]) == Sayings(own) + [Says(e.eventType)]
    ensures EventTimes(own + [e]) == EventTimes(own) + [e.ts]
  {
  }

  /** What an agent's own events determine of its state. */
  ghost predicate IsClosedForm(own: seq<Event>, s: AgentState) {
    && s.shown == ShownFor(Sayings(own))
    && (s.failed <==> Some(Failed) in Sayings(own))
    && s.lastTs == LastPresent(EventTimes(own))
  }

  lemma AppliedIs(own: seq<Event>, s: AgentState, e: Event)
    requires IsClosedForm(own, s)
    ensures IsClosedForm(own + [e], Applied(s, e))
  {
    LastEvent(own, e);
    ShownNext(Sayings(own), Says(e.eventType));
    LastPresentNext(EventTimes(own), e.ts);
  }

  lemma FoldedLast(own: seq<Event>, e: Event)
    ensures Folded(own + [e]) == Applied(Folded(own), e)
  {
    assert (own + [e])[..|own|] == own;
  }

  lemma {:induction false} FoldedIs(own: seq<Event>)
    ensures IsClosedForm(own, Folded(own))
  {
    if own == [] {
      assert IsClosedForm([], INITIAL);
    } else {
      var init, last := own[..|own| - 1], own[|own| - 1];
      assert init + [last] == own;
      FoldedIs(init);
      FoldedLast(init, last);
      AppliedIs(init, Folded(init), last);
    }
  }

  /**
    After any trace records and runtime events an agent has a state exactly if one of them names it, and that
    state is a closed form of the agent's own events: the flag says whether any was a failure, the shown state
    follows the fixed priority, the time is the last one given, and the activity is that of the last event.
  */
  lemma AgentStateClosedForm(trace: seq<TraceRecord>, runtime: seq<RuntimeEvent>, agent: string)
    ensures var states, own := Derived(AllEvents(trace, runtime)), OwnEvents(AllEvents(trace, runtime), agent);
            && (agent in states <==> own != [])
            && (agent in states ==>
                  && IsClosedForm(own, states[agent])
                  && states[agent].lastEvent == Some(own[|own| - 1].eventType)
                  && states[agent].activity == ActivityAfter(own[|own| - 1].eventType, own[|own| - 1].payload))
  {
    var events := AllEvents(trace, runtime);
    StatesAreProjections(events, agent);
    FoldedIs(OwnEvents(events, agent));
  }
}
