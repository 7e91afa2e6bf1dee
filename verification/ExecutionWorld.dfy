/**
 The timeline shared by all runner instances as one of them sees it: its own statements, and
 between them whatever the others do. Every change is a step of the protocol in
 `ExecutionReservation`.
 */
module ExecutionWorlds {
  import opened Base
  import opened ExecutionReservation

  /** The runner instance a step belongs to, if any. */
  function Actor(act: Action): Option<string> {
    match act
    case Elapse(_) => None
    case LogOther(_) => None
    case Decide(a, _, _) => Some(a)
    case Reserve(a, _) => Some(a)
    case Execute(a, _) => Some(a)
    case Record(a) => Some(a)
    case RecordThrows(a) => Some(a)
    case Crash(a) => Some(a)
  }

  function Own(acts: seq<Action>, a: string): seq<Action> {
    if |acts| == 0 then []
    else Own(acts[..|acts| - 1], a) + if Actor(acts[|acts| - 1]) == Some(a) then [acts[|acts| - 1]] else []
  }

  /** Time passes, events are appended, calls are made; nothing is taken back. */
  predicate Grows(s: State, s': State) {
    s.clock <= s'.clock && s.events <= s'.events && s.calls <= s'.calls
  }

  lemma StepGrows(s: State, act: Action)
    ensures Grows(s, Step(s, act))
  {}

  lemma OtherStepKeepsPhase(s: State, act: Action, a: string)
    requires Actor(act) != Some(a)
    ensures PhaseOf(Step(s, act), a) == PhaseOf(s, a)
  {}

  lemma {:induction false} OthersKeepPhase(s: State, acts: seq<Action>, a: string)
    requires forall act :: act in acts ==> Actor(act) != Some(a)
    ensures PhaseOf(RunFrom(s, acts), a) == PhaseOf(s, a) && Own(acts, a) == [] && Grows(s, RunFrom(s, acts))
  {
    if |acts| > 0 {
      var less, last := acts[..|acts| - 1], acts[|acts| - 1];
      OthersKeepPhase(s, less, a);
      OtherStepKeepsPhase(RunFrom(s, less), last, a);
      StepGrows(RunFrom(s, less), last);
    }
  }

  lemma {:induction false} RunAppend(s: State, x: seq<Action>, y: seq<Action>, a: string)
    ensures RunFrom(s, x + y) == RunFrom(RunFrom(s, x), y) && Own(x + y, a) == Own(x, a) + Own(y, a)
    decreases |y|
  {
    if |y| == 0 {
      assert x + y == x;
    } else {
      assert (x + y)[..|x + y| - 1] == x + y[..|y| - 1];
      RunAppend(s, x, y[..|y| - 1], a);
    }
  }

  class World {
    const timeline: ExecutionEvents
    var state: State
    ghost var trace: seq<Action>

    ghost predicate Valid()
      reads this, timeline
    {
      timeline.events == state.events && state == Run(trace)
    }

    constructor ()
      ensures Valid() && state == INIT && trace == [] && fresh(timeline)
    {
      timeline := new ExecutionEvents();
      state, trace := INIT, [];
    }

    /** Whatever other instances and the clock do while this one waits. */
    method Await(acts: seq<Action>, ghost a: string)
      requires Valid() && forall act :: act in acts ==> Actor(act) != Some(a)
      modifies this, timeline
      ensures Valid() && Grows(old(state), state)
      ensures PhaseOf(state, a) == old(PhaseOf(state, a)) && Own(trace, a) == old(Own(trace, a))
    {
      OthersKeepPhase(state, acts, a);
      RunAppend(INIT, trace, acts, a);
      state := RunFrom(state, acts);
      timeline.events := state.events;
      trace := trace + acts;
    }

    /** Notes that the timeline now is what one protocol step makes of it. */
    method Note(act: Action, ghost a: string)
      requires state == Run(trace) && timeline.events == Step(state, act).events
      modifies this
      ensures Valid() && state == Step(old(state), act) && Grows(old(state), state)
      ensures Own(trace, a) == old(Own(trace, a)) + if Actor(act) == Some(a) then [act] else []
    {
      assert (trace + [act])[..|trace|] == trace;
      StepGrows(state, act);
      state := Step(state, act);
      trace := trace + [act];
    }

    /** Any event that is neither a start nor an execution: a block, or a failure. */
    method LogOther(key: Key, ghost a: string)
      requires Valid()
      modifies this, timeline
      ensures Valid() && Grows(old(state), state) && state.clock == old(state.clock)
      ensures PhaseOf(state, a) == old(PhaseOf(state, a)) && Own(trace, a) == old(Own(trace, a))
    {
      timeline.Append(Event(key, Other, state.clock));
      Note(Action.LogOther(key), a);
    }

    /** The locked transaction for one instance that has decided to execute. */
    method ReserveStart(a: string, key: Key, window: nat, tenantAllows: bool) returns (r: Reservation)
      requires Valid() && PhaseOf(state, a).Idle?
      modifies this, timeline
      ensures Valid() && Grows(old(state), state) && state.clock == old(state.clock)
      ensures Own(trace, a) == old(Own(trace, a)) + [Decide(a, key, window), Reserve(a, tenantAllows)]
      ensures PhaseOf(state, a) == if r.ReservedStart? then Reserved(r.timelineEventId) else Idle
      ensures r.ReservedStart? ==>
                && r.timelineEventId < |state.events|
                && state.events[r.timelineEventId] == Event(key, Started(window), state.clock)
      ensures r.RecentFound? <==> HasRecent(old(state.events), key, old(state.clock) - window)
      ensures r.TenantThrottled? ==> !tenantAllows
    {
      ghost var before := Own(trace, a);
      Note(Decide(a, key, window), a);
      r := timeline.ReserveExecutionStart(key, state.clock, window, tenantAllows);
      Note(Reserve(a, tenantAllows), a);
      assert before + [Decide(a, key, window)] + [Reserve(a, tenantAllows)]
          == before + [Decide(a, key, window), Reserve(a, tenantAllows)];
    }

    /** The call of the action, made for the start this instance has reserved. */
    method Call(a: string, ok: bool)
      requires Valid() && PhaseOf(state, a).Reserved?
      modifies this
      ensures Valid() && Grows(old(state), state) && state.clock == old(state.clock)
      ensures PhaseOf(state, a) == Ran(old(PhaseOf(state, a)).start, ok)
      ensures state.calls == old(state.calls) + [old(PhaseOf(state, a)).start]
      ensures Own(trace, a) == old(Own(trace, a)) + [Execute(a, ok)]
    {
      Note(Execute(a, ok), a);
    }

    /** What came of the call, on the timeline. */
    method RecordOutcome(a: string)
      requires Valid() && PhaseOf(state, a).Ran?
      modifies this, timeline
      ensures Valid() && Grows(old(state), state) && PhaseOf(state, a).Idle?
      ensures Own(trace, a) == old(Own(trace, a)) + [Record(a)]
    {
      RunKeepsInv(trace);
      var p := PhaseOf(state, a);
      timeline.Append(Event(state.events[p.start].key, if p.ok then Executed else Other, state.clock));
      Note(Record(a), a);
    }

    method RecordRejected(a: string)
      requires Valid() && PhaseOf(state, a).Ran?
      modifies this
      ensures Valid() && Grows(old(state), state)
      ensures PhaseOf(state, a) == Ran(old(PhaseOf(state, a)).start, false)
      ensures Own(trace, a) == old(Own(trace, a)) + [RecordThrows(a)]
    {
      Note(RecordThrows(a), a);
    }
  }
}
