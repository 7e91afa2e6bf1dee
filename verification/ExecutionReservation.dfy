/**
 Reserving the start of an automatic execution. Any number of runner instances, in any
 number of overlapping cycles, reserve under one lock per organisation and key, call the
 action, and record what came of it.
 */
module ExecutionReservation {
  import opened Base

  datatype Key = Key(orgId: string, executionKey: string)

  /** EXECUTION_STARTED carries the throttle window of the policy it was decided under. */
  datatype Kind = Started(throttleWindowMs: nat) | Executed | Other

  datatype Event = Event(key: Key, kind: Kind, createdAt: int)

  /** What the reservation query looks for: a start or an executed event of the key inside the window. */
  predicate Recent(e: Event, key: Key, since: int) {
    e.key == key && !e.kind.Other? && since <= e.createdAt
  }

  predicate HasRecent(events: seq<Event>, key: Key, since: int) {
    exists e :: e in events && Recent(e, key, since)
  }

  datatype Phase =
    | Idle
    | Ready(key: Key, throttleWindowMs: nat)
    | Reserved(start: nat)
    | Ran(start: nat, ok: bool)

  /** `calls` lists, for each call of the action, the index of the start it was made for. */
  datatype State = State(clock: int, events: seq<Event>, actors: map<string, Phase>, calls: seq<nat>)

  datatype Action =
    | Elapse(ms: nat)
    | Decide(actor: string, key: Key, throttleWindowMs: nat)
    | Reserve(actor: string, tenantAllows: bool)
    | Execute(actor: string, ok: bool)
    | Record(actor: string)
    // the event of a call that succeeded could not be recorded, so it counts as failed
    | RecordThrows(actor: string)
    | LogOther(key: Key)
    | Crash(actor: string)

  const INIT := State(0, [], map[], [])

  function PhaseOf(s: State, a: string): Phase { if a in s.actors then s.actors[a] else Idle }

  /** The timeline after the locked transaction: one start more, or nothing. */
  function AfterReserve(events: seq<Event>, key: Key, now: int, throttleWindowMs: nat, tenantAllows: bool): seq<Event> {
    if HasRecent(events, key, now - throttleWindowMs) || !tenantAllows then events
    else events + [Event(key, Started(throttleWindowMs), now)]
  }

  function ReserveStep(s: State, a: string, tenantAllows: bool): State
    requires PhaseOf(s, a).Ready?
  {
    var p := PhaseOf(s, a);
    var events := AfterReserve(s.events, p.key, s.clock, p.throttleWindowMs, tenantAllows);
    s.(events := events, actors := s.actors[a := if events == s.events then Idle else Reserved(|s.events|)])
  }

  function Step(s: State, act: Action): State {
    match act
    case Elapse(ms) => s.(clock := s.clock + ms)
    case Decide(a, key, window) => if PhaseOf(s, a).Idle? then s.(actors := s.actors[a := Ready(key, window)]) else s
    case Reserve(a, allows) => if PhaseOf(s, a).Ready? then ReserveStep(s, a, allows) else s
    case Execute(a, ok) =>
      var p := PhaseOf(s, a);
      if p.Reserved? then s.(calls := s.calls + [p.start], actors := s.actors[a := Ran(p.start, ok)]) else s
    case Record(a) =>
      var p := PhaseOf(s, a);
      if !p.Ran? || p.start >= |s.events| then s
      else s.(events := s.events + [Event(s.events[p.start].key, if p.ok then Executed else Other, s.clock)],
              actors := s.actors[a := Idle])
    case RecordThrows(a) =>
      var p := PhaseOf(s, a);
      if p.Ran? then s.(actors := s.actors[a := Ran(p.start, false)]) else s
    case LogOther(key) => s.(events := s.events + [Event(key, Other, s.clock)])
    case Crash(a) => s.(actors := s.actors[a := Idle])
  }

  function RunFrom(s: State, acts: seq<Action>): State {
    if |acts| == 0 then s else Step(RunFrom(s, acts[..|acts| - 1]), acts[|acts| - 1])
  }

  function Run(acts: seq<Action>): State { RunFrom(INIT, acts) }

  /** What the steps of one instance write, from its reservation to the record of its call. */
  lemma EveryStatement(s: State, a: string, tenantAllows: bool, ok: bool, k: Key, w: nat)
    ensures Step(s, LogOther(k)) == s.(events := s.events + [Event(k, Other, s.clock)])
    ensures PhaseOf(s, a).Idle? ==>
              var s' := Step(s, Decide(a, k, w));
              PhaseOf(s', a) == Ready(k, w) && s'.events == s.events && s'.calls == s.calls && s'.clock == s.clock
    ensures PhaseOf(s, a).Ready? ==>
              var p, s' := PhaseOf(s, a), Step(s, Reserve(a, tenantAllows));
              var key, window := p.key, p.throttleWindowMs;
              var found := exists e :: e in s.events && e.key == key && (e.kind.Started? || e.kind.Executed?)
                                       && s.clock - window <= e.createdAt;
              && s'.calls == s.calls && s'.clock == s.clock
              && (if found || !tenantAllows then s'.events == s.events && PhaseOf(s', a).Idle?
                  else
                    && s'.events == s.events + [Event(key, Started(window), s.clock)]
                    && PhaseOf(s', a) == Reserved(|s.events|))
    ensures PhaseOf(s, a).Reserved? ==>
              var start, s' := PhaseOf(s, a).start, Step(s, Execute(a, ok));
              && s'.calls == s.calls + [start] && s'.events == s.events && s'.clock == s.clock
              && PhaseOf(s', a) == Ran(start, ok)
    ensures PhaseOf(s, a).Ran? ==>
              var s' := Step(s, RecordThrows(a));
              && s'.calls == s.calls && s'.events == s.events && s'.clock == s.clock
              && PhaseOf(s', a) == Ran(PhaseOf(s, a).start, false)
    ensures PhaseOf(s, a).Ran? && PhaseOf(s, a).start < |s.events| ==>
              var key, s' := s.events[PhaseOf(s, a).start].key, Step(s, Record(a));
              && s'.calls == s.calls && s'.clock == s.clock && PhaseOf(s', a).Idle?
              && s'.events == s.events + [Event(key, if PhaseOf(s, a).ok then Executed else Other, s.clock)]
  {
    if PhaseOf(s, a).Ready? {
      var p := PhaseOf(s, a);
      FoundExactly(s.events, p.key, s.clock - p.throttleWindowMs);
      assert s.events + [Event(p.key, Started(p.throttleWindowMs), s.clock)] != s.events;
    }
  }

  lemma FoundExactly(events: seq<Event>, key: Key, since: int)
    ensures HasRecent(events, key, since) <==>
            exists e :: e in events && e.key == key && (e.kind.Started? || e.kind.Executed?) && since <= e.createdAt
  {
    if HasRecent(events, key, since) {
      var e :| e in events && Recent(e, key, since);
      assert e in events && e.key == key;
    }
    if e :| e in events && e.key == key && (e.kind.Started? || e.kind.Executed?) && since <= e.createdAt {
      assert Recent(e, key, since);
    }
  }

  // ---------------------------------------------------------------- invariant

  /** A start keeps its window from an earlier start or executed event of its key. */
  predicate Apart(e: Event, later: Event) {
    later.kind.Started? && !e.kind.Other? && e.key == later.key ==>
      later.createdAt - e.createdAt > later.kind.throttleWindowMs
  }

  ghost predicate Spaced(events: seq<Event>) {
    forall i, j :: 0 <= i < j < |events| ==> Apart(events[i], events[j])
  }

  ghost predicate IsStart(s: State, i: nat) { i < |s.events| && s.events[i].kind.Started? }

  ghost predicate ReservationInv(s: State) {
    && Spaced(s.events)
    && (forall i :: 0 <= i < |s.events| ==> s.events[i].createdAt <= s.clock)
    && Distinct(s.calls)
    && (forall c :: c in s.calls ==> IsStart(s, c))
    && (forall a :: a in s.actors && s.actors[a].Reserved? ==>
          IsStart(s, s.actors[a].start) && s.actors[a].start !in s.calls)
    && (forall a :: a in s.actors && s.actors[a].Ran? ==> IsStart(s, s.actors[a].start))
    && (forall a, b :: a in s.actors && b in s.actors && a != b && s.actors[a].Reserved? && s.actors[b].Reserved? ==>
          s.actors[a].start != s.actors[b].start)
  }

  lemma NewStartIsSpaced(events: seq<Event>, key: Key, now: int, window: nat)
    requires Spaced(events) && !HasRecent(events, key, now - window)
    ensures Spaced(events + [Event(key, Started(window), now)])
  {
    assert forall i :: 0 <= i < |events| ==> events[i] in events;
  }

  lemma ReserveKeepsInv(s: State, a: string, allows: bool)
    requires ReservationInv(s) && PhaseOf(s, a).Ready?
    ensures ReservationInv(ReserveStep(s, a, allows))
  {
    var p := PhaseOf(s, a);
    if !HasRecent(s.events, p.key, s.clock - p.throttleWindowMs) {
      NewStartIsSpaced(s.events, p.key, s.clock, p.throttleWindowMs);
    }
  }

  lemma StepKeepsInv(s: State, act: Action)
    requires ReservationInv(s)
    ensures ReservationInv(Step(s, act))
  {
    if act.Reserve? && PhaseOf(s, act.actor).Ready? { ReserveKeepsInv(s, act.actor, act.tenantAllows); }
  }

  lemma {:induction false} RunKeepsInv(acts: seq<Action>)
    ensures ReservationInv(Run(acts))
  {
    if |acts| > 0 {
      RunKeepsInv(acts[..|acts| - 1]);
      StepKeepsInv(Run(acts[..|acts| - 1]), acts[|acts| - 1]);
    }
  }

  // ---------------------------------------------------------------- theorems

  /**
   Any start is separated from every earlier start and every earlier executed event of its key
   by more than its own throttle window.
   */
  lemma StartsAreSpaced(acts: seq<Action>, i: nat, j: nat)
    requires i < j < |Run(acts).events|
    ensures var e, f := Run(acts).events[i], Run(acts).events[j];
            f.kind.Started? && (e.kind.Started? || e.kind.Executed?) && e.key == f.key ==>
              f.createdAt - e.createdAt > f.kind.throttleWindowMs
  {
    RunKeepsInv(acts);
    assert Apart(Run(acts).events[i], Run(acts).events[j]);
  }

  /** The calls made for one key, as positions among all calls. */
  function CallsOf(s: State, key: Key): set<nat> {
    set k: nat | k < |s.calls| && s.calls[k] < |s.events| && s.events[s.calls[k]].key == key :: k
  }

  function StartsOf(s: State, key: Key): set<nat> {
    set i: nat | i < |s.events| && s.events[i].kind.Started? && s.events[i].key == key :: i
  }

  /** Each start leads to at most one call of the action; so a key is never called more often than it was started. */
  lemma NoMoreCallsThanStarts(acts: seq<Action>, key: Key)
    ensures var s := Run(acts);
            && (forall k, l :: 0 <= k < l < |s.calls| ==> s.calls[k] != s.calls[l])
            && (forall k :: 0 <= k < |s.calls| ==> IsStart(s, s.calls[k]))
            && |CallsOf(s, key)| <= |StartsOf(s, key)|
  {
    RunKeepsInv(acts);
    var s := Run(acts);
    var image := set k | k in CallsOf(s, key) :: s.calls[k];
    ImageCount(s.calls, CallsOf(s, key));
    assert forall k :: k in CallsOf(s, key) ==> IsStart(s, s.calls[k]);
    assert image <= StartsOf(s, key);
    SubsetCount(image, StartsOf(s, key));
  }

  lemma {:induction false} ImageCount(calls: seq<nat>, ks: set<nat>)
    requires Distinct(calls) && forall k :: k in ks ==> k < |calls|
    ensures |set k | k in ks :: calls[k]| == |ks|
  {
    if ks != {} {
      var x :| x in ks;
      ImageCount(calls, ks - {x});
      var rest := set k | k in ks - {x} :: calls[k];
      assert calls[x] !in rest;
      assert (set k | k in ks :: calls[k]) == rest + {calls[x]};
    }
  }

  /** Inside one window of a fixed length, at most one execution of a key is started. */
  lemma AtMostOneStartPerWindow(acts: seq<Action>, i: nat, j: nat, window: nat, from: int)
    requires i < |Run(acts).events| && j < |Run(acts).events|
    requires var e, f := Run(acts).events[i], Run(acts).events[j];
             && e.kind == f.kind == Started(window) && e.key == f.key
             && from <= e.createdAt <= from + window && from <= f.createdAt <= from + window
    ensures i == j
  {
    RunKeepsInv(acts);
    var e, f := Run(acts).events[i], Run(acts).events[j];
    assert i < j ==> Apart(e, f);
    assert j < i ==> Apart(f, e);
  }

  // ---------------------------------------------------------------- the code

  datatype Reservation = ReservedStart(timelineEventId: nat) | RecentFound | TenantThrottled

  /** The timeline the runner reads and writes. */
  class ExecutionEvents {
    var events: seq<Event>

    constructor ()
      ensures events == []
    {
      events := [];
    }

    /** hasRecentExecution: a start or an executed event of the key inside the window. */
    method HasRecentExecution(key: Key, since: int) returns (recent: bool)
      ensures recent <==> HasRecent(events, key, since)
      ensures recent <==>
                exists e :: e in events && e.key == key && (e.kind.Started? || e.kind.Executed?) && since <= e.createdAt
    {
      var i := 0;
      while i < |events|
        invariant 0 <= i <= |events|
        invariant forall j :: 0 <= j < i ==> !Recent(events[j], key, since)
      {
        if Recent(events[i], key, since) {
          FoundExactly(events, key, since);
          return true;
        }
        i := i + 1;
      }
      recent := false;
      FoundExactly(events, key, since);
    }

    /** The transaction behind the advisory lock. */
    method ReserveExecutionStart(key: Key, now: int, throttleWindowMs: nat, tenantAllows: bool) returns (r: Reservation)
      modifies this
      ensures events == AfterReserve(old(events), key, now, throttleWindowMs, tenantAllows)
      ensures r.RecentFound? <==> HasRecent(old(events), key, now - throttleWindowMs)
      ensures r.TenantThrottled? <==> !HasRecent(old(events), key, now - throttleWindowMs) && !tenantAllows
      ensures r.RecentFound? <==>
                exists e :: e in old(events) && e.key == key && (e.kind.Started? || e.kind.Executed?)
                            && now - throttleWindowMs <= e.createdAt
      ensures r.ReservedStart? ==>
                && r.timelineEventId == |old(events)|
                && events == old(events) + [Event(key, Started(throttleWindowMs), now)]
      ensures !r.ReservedStart? ==> events == old(events)
    {
      var recent := HasRecentExecution(key, now - throttleWindowMs);
      if recent { return RecentFound; }
      if !tenantAllows { return TenantThrottled; }
      r := ReservedStart(|events|);
      events := events + [Event(key, Started(throttleWindowMs), now)];
    }

    method Append(event: Event)
      modifies this
      ensures events == old(events) + [event]
    {
      events := events + [event];
    }
  }
}
