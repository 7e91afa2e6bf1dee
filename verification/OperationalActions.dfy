/**
 Operational actions: a row is requested, reserved by a conditional update, executed and
 written EXECUTED or FAILED, or canceled, or recovered when it is stuck. The two writes of
 an executor carry no status guard, so they also land after somebody recovered the row.
 */
module OperationalActions {
  import opened Base

  type RowId = string

  datatype Status = REQUESTED | EXECUTING | EXECUTED | FAILED | CANCELED

  datatype LogicalKey = LogicalKey(orgId: string, logicalKey: string)

  datatype Row = Row(key: LogicalKey, status: Status, createdAt: int, updatedAt: int)

  type Table = map<RowId, Row>

  const STUCK_EXECUTING_THRESHOLD_MS := 5 * 60 * 1000

  // ---------------------------------------------------------------- statements

  predicate HasRequested(t: Table, key: LogicalKey) {
    exists id :: id in t && t[id].key == key && t[id].status == REQUESTED
  }

  /** The newest row of a key. */
  predicate IsNewest(t: Table, key: LogicalKey, id: RowId) {
    id in t && t[id].key == key && forall j :: j in t && t[j].key == key ==> t[j].createdAt <= t[id].createdAt
  }

  /** update ... where id: no guard. */
  function SetStatus(t: Table, id: RowId, status: Status, now: int): Table {
    if id in t then t[id := t[id].(status := status, updatedAt := now)] else t
  }

  /** updateMany ... where id and status. */
  function Transition(t: Table, id: RowId, from: Status, to: Status, now: int): Table {
    if id in t && t[id].status == from then SetStatus(t, id, to, now) else t
  }

  predicate Stuck(t: Table, id: RowId, stuckBefore: int) {
    id in t && t[id].status == EXECUTING && t[id].updatedAt < stuckBefore
  }

  // ---------------------------------------------------------------- protocol

  datatype Phase =
    | Idle
    | Requesting(key: LogicalKey)
    | Reserving(id: RowId)
    | Acting(id: RowId)      // reserved; the side effect has not started
    | Acted(id: RowId)       // the side effect is done
    | Logging(id: RowId)     // EXECUTED is written, the timeline not yet
    | Catching(id: RowId)    // something threw after the reservation
    | Canceling(id: RowId)
    | Recovering(id: RowId, stuckBefore: int)

  /** `effects` lists the rows whose side effect was started, in order. */
  datatype State = State(clock: int, rows: Table, actors: map<string, Phase>, effects: seq<RowId>)

  datatype Action =
    | Elapse(ms: nat)
    | RequestFind(actor: string, key: LogicalKey)
    | RequestCreate(actor: string, id: RowId)
    | ExecuteFind(actor: string, key: LogicalKey, id: RowId)
    | Reserve(actor: string)
    | PrecheckFails(actor: string)
    | SideEffect(actor: string, ok: bool)
    | WriteExecuted(actor: string)
    | LogExecuted(actor: string, ok: bool)
    | WriteFailed(actor: string)
    | CancelFind(actor: string, key: LogicalKey, id: RowId)
    | CancelCommit(actor: string)
    | RecoverFind(actor: string, id: RowId)
    | RecoverCommit(actor: string)
    | Crash(actor: string)

  const INIT := State(0, map[], map[], [])

  function PhaseOf(s: State, a: string): Phase { if a in s.actors then s.actors[a] else Idle }

  function Go(s: State, a: string, p: Phase): State { s.(actors := s.actors[a := p]) }

  function Step(s: State, act: Action): State {
    match act
    case Elapse(ms) => s.(clock := s.clock + ms)
    case RequestFind(a, key) => if HasRequested(s.rows, key) then Go(s, a, Idle) else Go(s, a, Requesting(key))
    case RequestCreate(a, id) =>
      var p := PhaseOf(s, a);
      if !p.Requesting? || id in s.rows then s
      else if HasRequested(s.rows, p.key) then Go(s, a, Idle)  // the partial unique index refuses
      else Go(s, a, Idle).(rows := s.rows[id := Row(p.key, REQUESTED, s.clock, s.clock)])
    case ExecuteFind(a, key, id) =>
      if IsNewest(s.rows, key, id) && s.rows[id].status == REQUESTED then Go(s, a, Reserving(id)) else Go(s, a, Idle)
    case Reserve(a) =>
      var p := PhaseOf(s, a);
      if !p.Reserving? then s
      else if p.id in s.rows && s.rows[p.id].status == REQUESTED
      then Go(s, a, Acting(p.id)).(rows := Transition(s.rows, p.id, REQUESTED, EXECUTING, s.clock))
      else Go(s, a, Idle)
    case PrecheckFails(a) => var p := PhaseOf(s, a); if p.Acting? then Go(s, a, Catching(p.id)) else s
    case SideEffect(a, ok) =>
      var p := PhaseOf(s, a);
      if !p.Acting? then s
      else Go(s, a, if ok then Acted(p.id) else Catching(p.id)).(effects := s.effects + [p.id])
    case WriteExecuted(a) =>
      var p := PhaseOf(s, a);
      if !p.Acted? then s else Go(s, a, Logging(p.id)).(rows := SetStatus(s.rows, p.id, EXECUTED, s.clock))
    case LogExecuted(a, ok) =>
      var p := PhaseOf(s, a);
      if !p.Logging? then s else Go(s, a, if ok then Idle else Catching(p.id))
    case WriteFailed(a) =>
      var p := PhaseOf(s, a);
      if !p.Catching? then s else Go(s, a, Idle).(rows := SetStatus(s.rows, p.id, FAILED, s.clock))
    case CancelFind(a, key, id) =>
      if IsNewest(s.rows, key, id) && s.rows[id].status == REQUESTED then Go(s, a, Canceling(id)) else Go(s, a, Idle)
    case CancelCommit(a) =>
      var p := PhaseOf(s, a);
      if !p.Canceling? then s else Go(s, a, Idle).(rows := Transition(s.rows, p.id, REQUESTED, CANCELED, s.clock))
    case RecoverFind(a, id) =>
      var stuckBefore := s.clock - STUCK_EXECUTING_THRESHOLD_MS;
      if Stuck(s.rows, id, stuckBefore) then Go(s, a, Recovering(id, stuckBefore)) else Go(s, a, Idle)
    case RecoverCommit(a) =>
      var p := PhaseOf(s, a);
      if !p.Recovering? then s
      else if Stuck(s.rows, p.id, p.stuckBefore) then Go(s, a, Idle).(rows := SetStatus(s.rows, p.id, FAILED, s.clock))
      else Go(s, a, Idle)
    case Crash(a) => Go(s, a, Idle)
  }

  function RunFrom(s: State, acts: seq<Action>): State {
    if |acts| == 0 then s else Step(RunFrom(s, acts[..|acts| - 1]), acts[|acts| - 1])
  }

  function Run(acts: seq<Action>): State { RunFrom(INIT, acts) }

  // ---------------------------------------------------------------- what each statement does

  /** One row has a new status and time; its key and its age, and every other row, are as before. */
  predicate NowHas(t: Table, t': Table, id: RowId, status: Status, now: int) {
    && id in t && t'.Keys == t.Keys
    && t'[id].status == status && t'[id].updatedAt == now
    && t'[id].key == t[id].key && t'[id].createdAt == t[id].createdAt
    && forall j :: j in t && j != id ==> t'[j] == t[j]
  }

  /** The executor's statements: the guarded reservation, the side effect, and the two writes without a guard. */
  lemma ExecutorStatements(s: State, a: string, ok: bool)
    ensures PhaseOf(s, a).Reserving? ==>
              var id, s' := PhaseOf(s, a).id, Step(s, Reserve(a));
              && s'.effects == s.effects
              && (if id in s.rows && s.rows[id].status == REQUESTED
                  then NowHas(s.rows, s'.rows, id, EXECUTING, s.clock) && PhaseOf(s', a) == Acting(id)
                  else s'.rows == s.rows && PhaseOf(s', a) == Idle)
    ensures PhaseOf(s, a).Acting? ==>
              var id, s', f := PhaseOf(s, a).id, Step(s, SideEffect(a, ok)), Step(s, PrecheckFails(a));
              && s'.rows == f.rows == s.rows && s'.effects == s.effects + [id] && f.effects == s.effects
              && PhaseOf(s', a) == (if ok then Acted(id) else Catching(id)) && PhaseOf(f, a) == Catching(id)
    ensures PhaseOf(s, a).Acted? && PhaseOf(s, a).id in s.rows ==>
              var id, s' := PhaseOf(s, a).id, Step(s, WriteExecuted(a));
              && NowHas(s.rows, s'.rows, id, EXECUTED, s.clock) && s'.effects == s.effects
              && PhaseOf(s', a) == Logging(id)
    ensures PhaseOf(s, a).Logging? ==>
              var s' := Step(s, LogExecuted(a, ok));
              && s'.rows == s.rows && s'.effects == s.effects
              && PhaseOf(s', a) == if ok then Idle else Catching(PhaseOf(s, a).id)
    ensures PhaseOf(s, a).Catching? && PhaseOf(s, a).id in s.rows ==>
              var s' := Step(s, WriteFailed(a));
              && NowHas(s.rows, s'.rows, PhaseOf(s, a).id, FAILED, s.clock) && s'.effects == s.effects
              && PhaseOf(s', a) == Idle
  {}

  /** The other guarded statements: insert, cancel and recover. */
  lemma GuardedStatements(s: State, a: string, id: RowId)
    ensures PhaseOf(s, a).Requesting? && id !in s.rows ==>
              var key, s' := PhaseOf(s, a).key, Step(s, RequestCreate(a, id));
              && PhaseOf(s', a) == Idle && s'.effects == s.effects
              && s'.rows == if exists j :: j in s.rows && s.rows[j].key == key && s.rows[j].status == REQUESTED
                            then s.rows else s.rows[id := Row(key, REQUESTED, s.clock, s.clock)]
    ensures PhaseOf(s, a).Canceling? ==>
              var id, s' := PhaseOf(s, a).id, Step(s, CancelCommit(a));
              && PhaseOf(s', a) == Idle && s'.effects == s.effects
              && (if id in s.rows && s.rows[id].status == REQUESTED
                  then NowHas(s.rows, s'.rows, id, CANCELED, s.clock) else s'.rows == s.rows)
    ensures PhaseOf(s, a).Recovering? ==>
              var id, s' := PhaseOf(s, a).id, Step(s, RecoverCommit(a));
              && PhaseOf(s', a) == Idle && s'.effects == s.effects
              && (if id in s.rows && s.rows[id].status == EXECUTING && s.rows[id].updatedAt < PhaseOf(s, a).stuckBefore
                  then NowHas(s.rows, s'.rows, id, FAILED, s.clock) else s'.rows == s.rows)
  {}

  /** The lookups: what each takes up, and that it changes no row. */
  lemma Lookups(s: State, a: string, key: LogicalKey, id: RowId)
    ensures var s' := Step(s, RequestFind(a, key));
            && s'.rows == s.rows && s'.effects == s.effects
            && PhaseOf(s', a) == if exists j :: j in s.rows && s.rows[j].key == key && s.rows[j].status == REQUESTED
                                 then Idle else Requesting(key)
    ensures var t := s.rows;
            var newest := && id in t && t[id].key == key && t[id].status == REQUESTED
                          && forall j :: j in t && t[j].key == key ==> t[j].createdAt <= t[id].createdAt;
            var e, c := Step(s, ExecuteFind(a, key, id)), Step(s, CancelFind(a, key, id));
            && e.rows == c.rows == s.rows && e.effects == c.effects == s.effects
            && PhaseOf(e, a) == (if newest then Reserving(id) else Idle)
            && PhaseOf(c, a) == (if newest then Canceling(id) else Idle)
    ensures var s' := Step(s, RecoverFind(a, id));
            && s'.rows == s.rows && s'.effects == s.effects
            && PhaseOf(s', a) ==
                 if id in s.rows && s.rows[id].status == EXECUTING && s.rows[id].updatedAt < s.clock - 300_000
                 then Recovering(id, s.clock - 300_000) else Idle
  {}

  // ---------------------------------------------------------------- invariant

  /** The row an actor has reserved and still works on. */
  function Holds(p: Phase): Option<RowId> {
    match p
    case Acting(id) => Some(id)
    case Acted(id) => Some(id)
    case Logging(id) => Some(id)
    case Catching(id) => Some(id)
    case _ => None
  }

  predicate Started(st: Status) { st == EXECUTING || st == EXECUTED || st == FAILED }

  predicate SameRequested(r: Row, q: Row) { r.key == q.key && r.status == q.status == REQUESTED }

  ghost predicate ActionsInv(s: State) {
    && (forall i, j ::
          i in s.rows && j in s.rows && SameRequested(s.rows[i], s.rows[j]) ==> i == j)
    && (forall a :: a in s.actors && Holds(s.actors[a]).Some? ==>
          Holds(s.actors[a]).value in s.rows && Started(s.rows[Holds(s.actors[a]).value].status))
    && (forall a, b :: a in s.actors && b in s.actors && a != b && Holds(s.actors[a]).Some? ==>
          Holds(s.actors[a]) != Holds(s.actors[b]))
    && (forall a :: a in s.actors && s.actors[a].Acting? ==> s.actors[a].id !in s.effects)
    && (forall id :: id in s.effects ==> id in s.rows && Started(s.rows[id].status))
    && Distinct(s.effects)
  }

  lemma StepKeepsInv(s: State, act: Action)
    requires ActionsInv(s)
    ensures ActionsInv(Step(s, act))
  {
    match act {
      case RequestCreate(a, id) => CreateKeepsInv(s, a, id);
      case Reserve(a) => ReserveKeepsInv(s, a);
      case SideEffect(a, ok) => EffectKeepsInv(s, a, ok);
      case WriteExecuted(a) => WriteKeepsInv(s, act, a);
      case WriteFailed(a) => WriteKeepsInv(s, act, a);
      case CancelCommit(a) => CancelKeepsInv(s, a);
      case RecoverCommit(a) => RecoverKeepsInv(s, a);
      case _ => MemoryKeepsInv(s, act);
    }
  }

  predicate TouchesRows(act: Action) {
    act.RequestCreate? || act.Reserve? || act.SideEffect? || act.WriteExecuted? || act.WriteFailed? || act.CancelCommit?
    || act.RecoverCommit?
  }

  /** Everything else only moves the actor itself, and never onto a row it has not reserved. */
  lemma MemoryStep(s: State, act: Action)
    requires !TouchesRows(act) && !act.Elapse?
    ensures var s', a := Step(s, act), act.actor;
            && (s' == Go(s, a, PhaseOf(s', a)) || s' == s)
            && (Holds(PhaseOf(s', a)).None? || Holds(PhaseOf(s', a)) == Holds(PhaseOf(s, a)))
            && (PhaseOf(s', a).Acting? ==> PhaseOf(s, a).Acting?)
  {}

  lemma GoKeepsInv(s: State, a: string, p: Phase)
    requires ActionsInv(s)
    requires Holds(p).None? || Holds(p) == Holds(PhaseOf(s, a))
    requires p.Acting? ==> PhaseOf(s, a).Acting?
    ensures ActionsInv(Go(s, a, p))
  {}

  lemma MemoryKeepsInv(s: State, act: Action)
    requires ActionsInv(s) && !TouchesRows(act)
    ensures ActionsInv(Step(s, act))
  {
    if !act.Elapse? {
      MemoryStep(s, act);
      var s' := Step(s, act);
      if s' != s { GoKeepsInv(s, act.actor, PhaseOf(s', act.actor)); }
    }
  }

  lemma CreateKeepsInv(s: State, a: string, id: RowId)
    requires ActionsInv(s)
    ensures ActionsInv(Step(s, RequestCreate(a, id)))
  {}

  lemma ReserveKeepsInv(s: State, a: string)
    requires ActionsInv(s)
    ensures ActionsInv(Step(s, Reserve(a)))
  {
    if Step(s, Reserve(a)) == s {
    } else if PhaseOf(Step(s, Reserve(a)), a).Acting? {
      NobodyHoldsRequested(s, PhaseOf(s, a).id);
    } else {
      GoKeepsInv(s, a, Idle);
    }
  }

  lemma NobodyHoldsRequested(s: State, id: RowId)
    requires ActionsInv(s) && id in s.rows && s.rows[id].status == REQUESTED
    ensures id !in s.effects && forall b :: b in s.actors ==> Holds(s.actors[b]) != Some(id)
  {}

  lemma EffectKeepsInv(s: State, a: string, ok: bool)
    requires ActionsInv(s)
    ensures ActionsInv(Step(s, SideEffect(a, ok)))
  {}

  /** A write of a terminal status over a row that has started, by whoever holds it. */
  lemma SettledKeepsInv(s: State, a: string, p: Phase, id: RowId, st: Status)
    requires ActionsInv(s) && Holds(PhaseOf(s, a)) == Some(id) && (st == EXECUTED || st == FAILED)
    requires !p.Acting? && (Holds(p).None? || Holds(p) == Some(id))
    ensures ActionsInv(Go(s, a, p).(rows := SetStatus(s.rows, id, st, s.clock)))
  {}

  lemma WriteKeepsInv(s: State, act: Action, a: string)
    requires ActionsInv(s) && (act == WriteExecuted(a) || act == WriteFailed(a))
    ensures ActionsInv(Step(s, act))
  {
    var p := PhaseOf(s, a);
    if act == WriteExecuted(a) && p.Acted? { SettledKeepsInv(s, a, Logging(p.id), p.id, EXECUTED); }
    if act == WriteFailed(a) && p.Catching? { SettledKeepsInv(s, a, Idle, p.id, FAILED); }
  }

  lemma CancelKeepsInv(s: State, a: string)
    requires ActionsInv(s)
    ensures ActionsInv(Step(s, CancelCommit(a)))
  {}

  lemma RecoverKeepsInv(s: State, a: string)
    requires ActionsInv(s)
    ensures ActionsInv(Step(s, RecoverCommit(a)))
  {}

  lemma {:induction false} RunKeepsInv(acts: seq<Action>)
    ensures ActionsInv(Run(acts))
  {
    if |acts| > 0 {
      RunKeepsInv(acts[..|acts| - 1]);
      StepKeepsInv(Run(acts[..|acts| - 1]), acts[|acts| - 1]);
    }
  }

  // ---------------------------------------------------------------- theorems

  /** The partial unique index at work: one REQUESTED row per key. */
  lemma OneRequestedPerKey(acts: seq<Action>, i: RowId, j: RowId)
    requires i in Run(acts).rows && j in Run(acts).rows
    ensures var t := Run(acts).rows;
            t[i].key == t[j].key && t[i].status == REQUESTED && t[j].status == REQUESTED ==> i == j
  {
    RunKeepsInv(acts);
  }

  /** How far a row has come; it only comes further. */
  function Stage(st: Status): nat {
    match st
    case REQUESTED => 0
    case EXECUTING => 1
    case _ => 2
  }

  /** Every way a row changes: what leaves REQUESTED and EXECUTING never returns, what is CANCELED stays. */
  predicate Moves(from: Status, to: Status) {
    || from == to
    || (from == REQUESTED && to in {EXECUTING, CANCELED})
    || (from == EXECUTING && to in {EXECUTED, FAILED})
    || (from == EXECUTED && to == FAILED)
    || (from == FAILED && to == EXECUTED)
  }

  lemma RowsOnlyMove(acts: seq<Action>, act: Action, id: RowId)
    requires id in Run(acts).rows
    ensures var s, s' := Run(acts), Run(acts + [act]);
            id in s'.rows && s'.rows[id].key == s.rows[id].key && Moves(s.rows[id].status, s'.rows[id].status)
  {
    RunKeepsInv(acts);
    OneMore(INIT, acts, act);
    StepOnlyMoves(Run(acts), act, id);
  }

  lemma StepOnlyMoves(s: State, act: Action, id: RowId)
    requires ActionsInv(s) && id in s.rows
    ensures var s' := Step(s, act);
            id in s'.rows && s'.rows[id].key == s.rows[id].key && Moves(s.rows[id].status, s'.rows[id].status)
  {
    match act
    case WriteExecuted(a) => WriteOnlyMoves(s, act, a, id);
    case WriteFailed(a) => WriteOnlyMoves(s, act, a, id);
    case _ =>
  }

  lemma WriteOnlyMoves(s: State, act: Action, a: string, id: RowId)
    requires ActionsInv(s) && id in s.rows && (act == WriteExecuted(a) || act == WriteFailed(a))
    ensures var s' := Step(s, act);
            id in s'.rows && s'.rows[id].key == s.rows[id].key && Moves(s.rows[id].status, s'.rows[id].status)
  {}

  /** Over any continuation of any run: no row returns to an earlier stage, and CANCELED is for good. */
  lemma {:induction false} NoReturn(acts: seq<Action>, more: seq<Action>, id: RowId)
    requires id in Run(acts).rows
    ensures id in Run(acts + more).rows
    ensures var before, after := Run(acts).rows[id].status, Run(acts + more).rows[id].status;
            && Stage(before) <= Stage(after)
            && (before == CANCELED ==> after == CANCELED)
            && (before != REQUESTED && before != CANCELED ==> after != REQUESTED && after != CANCELED)
    decreases |more|
  {
    if |more| == 0 {
      assert acts + more == acts;
    } else {
      var less, last := more[..|more| - 1], more[|more| - 1];
      NoReturn(acts, less, id);
      RowsOnlyMove(acts + less, last, id);
      assert acts + more == acts + less + [last];
    }
  }

  /** The side effect of a row is started at most once, and never for a row that ends up canceled. */
  lemma SideEffectAtMostOnce(acts: seq<Action>)
    ensures var s := Run(acts);
            && (forall k, l :: 0 <= k < l < |s.effects| ==> s.effects[k] != s.effects[l])
            && (forall k :: 0 <= k < |s.effects| ==>
                  && s.effects[k] in s.rows
                  && s.rows[s.effects[k]].status != REQUESTED && s.rows[s.effects[k]].status != CANCELED)
  {
    RunKeepsInv(acts);
  }

  lemma OneMore(s: State, acts: seq<Action>, act: Action)
    ensures RunFrom(s, acts + [act]) == Step(RunFrom(s, acts), act)
  {
    assert (acts + [act])[..|acts|] == acts;
  }

  /** An executor past its reservation turns whatever the row says into EXECUTED, then perhaps into FAILED. */
  lemma UnguardedWrites(s: State, a: string)
    requires PhaseOf(s, a).Acted? && PhaseOf(s, a).id in s.rows
    ensures var id := PhaseOf(s, a).id;
            var s1 := RunFrom(s, [WriteExecuted(a)]);
            var s3 := RunFrom(s, [WriteExecuted(a), LogExecuted(a, false), WriteFailed(a)]);
            id in s1.rows && s1.rows[id].status == EXECUTED && id in s3.rows && s3.rows[id].status == FAILED
  {
    OneMore(s, [], WriteExecuted(a));
    assert [] + [WriteExecuted(a)] == [WriteExecuted(a)];
    OneMore(s, [WriteExecuted(a)], LogExecuted(a, false));
    assert [WriteExecuted(a)] + [LogExecuted(a, false)] == [WriteExecuted(a), LogExecuted(a, false)];
    OneMore(s, [WriteExecuted(a), LogExecuted(a, false)], WriteFailed(a));
    assert [WriteExecuted(a), LogExecuted(a, false)] + [WriteFailed(a)]
        == [WriteExecuted(a), LogExecuted(a, false), WriteFailed(a)];
  }

  // ---------------------------------------------------------------- when a settled row is final

  predicate Settled(st: Status) { st == EXECUTED || st == FAILED }

  /** Whether an actor in this phase may still replace the settled status of the row by the other one. */
  predicate CanFlip(p: Phase, id: RowId, st: Status) {
    if st == EXECUTED then Holds(p) == Some(id) else p == Acting(id) || p == Acted(id)
  }

  ghost predicate Quiet(s: State, id: RowId) {
    && id in s.rows && Settled(s.rows[id].status)
    && forall a :: a in s.actors ==> !CanFlip(s.actors[a], id, s.rows[id].status)
  }

  lemma QuietStep(s: State, act: Action, id: RowId)
    requires Quiet(s, id)
    ensures Quiet(Step(s, act), id) && Step(s, act).rows[id].status == s.rows[id].status
  {}

  lemma {:induction false} QuietForGood(s: State, more: seq<Action>, id: RowId)
    requires Quiet(s, id)
    ensures Quiet(RunFrom(s, more), id) && RunFrom(s, more).rows[id].status == s.rows[id].status
  {
    if more != [] {
      QuietForGood(s, more[..|more| - 1], id);
      QuietStep(RunFrom(s, more[..|more| - 1]), more[|more| - 1], id);
    }
  }

  /** What the actor does next when it replaces the status. */
  function Flip(a: string, p: Phase, st: Status): seq<Action> {
    match p
    case Acting(_) =>
      if st == EXECUTED then [PrecheckFails(a), WriteFailed(a)] else [SideEffect(a, true), WriteExecuted(a)]
    case Acted(_) =>
      if st == EXECUTED then [WriteExecuted(a), LogExecuted(a, false), WriteFailed(a)] else [WriteExecuted(a)]
    case Logging(_) => [LogExecuted(a, false), WriteFailed(a)]
    case _ => [WriteFailed(a)]
  }

  lemma Steps(s: State, x: Action, y: Action, z: Action)
    ensures RunFrom(s, [x]) == Step(s, x)
    ensures RunFrom(s, [x, y]) == Step(Step(s, x), y)
    ensures RunFrom(s, [x, y, z]) == Step(Step(Step(s, x), y), z)
  {
    OneMore(s, [], x);
    assert [] + [x] == [x];
    OneMore(s, [x], y);
    assert [x] + [y] == [x, y];
    OneMore(s, [x, y], z);
    assert [x, y] + [z] == [x, y, z];
  }

  predicate Flipped(s: State, s': State, id: RowId) {
    id in s.rows && id in s'.rows && Settled(s'.rows[id].status) && s'.rows[id].status != s.rows[id].status
  }

  lemma ActingFlips(s: State, a: string, id: RowId)
    requires id in s.rows && Settled(s.rows[id].status) && PhaseOf(s, a) == Acting(id)
    ensures Flipped(s, RunFrom(s, Flip(a, PhaseOf(s, a), s.rows[id].status)), id)
  {
    if s.rows[id].status == EXECUTED {
      Steps(s, PrecheckFails(a), WriteFailed(a), WriteFailed(a));
      var s1 := Step(s, PrecheckFails(a));
      assert PhaseOf(s1, a) == Catching(id) && s1.rows == s.rows;
    } else {
      Steps(s, SideEffect(a, true), WriteExecuted(a), WriteExecuted(a));
      var s1 := Step(s, SideEffect(a, true));
      assert PhaseOf(s1, a) == Acted(id) && s1.rows == s.rows;
    }
  }

  lemma ActedFlips(s: State, a: string, id: RowId)
    requires id in s.rows && Settled(s.rows[id].status) && PhaseOf(s, a) == Acted(id)
    ensures Flipped(s, RunFrom(s, Flip(a, PhaseOf(s, a), s.rows[id].status)), id)
  {
    Steps(s, WriteExecuted(a), LogExecuted(a, false), WriteFailed(a));
  }

  lemma FlipFlips(s: State, a: string, id: RowId)
    requires id in s.rows && Settled(s.rows[id].status) && CanFlip(PhaseOf(s, a), id, s.rows[id].status)
    ensures Flipped(s, RunFrom(s, Flip(a, PhaseOf(s, a), s.rows[id].status)), id)
  {
    match PhaseOf(s, a)
    case Acting(_) => ActingFlips(s, a, id);
    case Acted(_) => ActedFlips(s, a, id);
    case Logging(_) => Steps(s, LogExecuted(a, false), WriteFailed(a), WriteFailed(a));
    case _ => Steps(s, WriteFailed(a), WriteFailed(a), WriteFailed(a));
  }

  predicate SameStatusAfter(acts: seq<Action>, more: seq<Action>, id: RowId)
    requires id in Run(acts).rows
  {
    id in Run(acts + more).rows && Run(acts + more).rows[id].status == Run(acts).rows[id].status
  }

  /**
   A settled row is final exactly when its executor is done with it: nobody is past the
   reservation of an EXECUTED row, and nobody is still before the write of a FAILED one.
   */
  lemma SettledIsFinalExactly(acts: seq<Action>, id: RowId)
    requires id in Run(acts).rows && Settled(Run(acts).rows[id].status)
    ensures (forall more :: SameStatusAfter(acts, more, id)) <==>
              (forall a :: !CanFlip(PhaseOf(Run(acts), a), id, Run(acts).rows[id].status))
  {
    var s := Run(acts);
    if a :| CanFlip(PhaseOf(s, a), id, s.rows[id].status) {
      var more := Flip(a, PhaseOf(s, a), s.rows[id].status);
      FlipFlips(s, a, id);
      Append(INIT, acts, more, a);
      assert !SameStatusAfter(acts, more, id);
    } else {
      assert forall a :: a in s.actors ==> PhaseOf(s, a) == s.actors[a];
      forall more ensures SameStatusAfter(acts, more, id) {
        QuietForGood(s, more, id);
        Append(INIT, acts, more, "");
      }
    }
  }

  // ---------------------------------------------------------------- the code

  function Actor(act: Action): Option<string> {
    if act.Elapse? then None else Some(act.actor)
  }

  function Own(acts: seq<Action>, a: string): seq<Action> {
    if |acts| == 0 then []
    else Own(acts[..|acts| - 1], a) + if Actor(acts[|acts| - 1]) == Some(a) then [acts[|acts| - 1]] else []
  }

  lemma {:induction false} OthersKeepPhase(s: State, acts: seq<Action>, a: string)
    requires forall act :: act in acts ==> Actor(act) != Some(a)
    ensures PhaseOf(RunFrom(s, acts), a) == PhaseOf(s, a) && Own(acts, a) == []
  {
    if |acts| > 0 {
      var less, last := acts[..|acts| - 1], acts[|acts| - 1];
      OthersKeepPhase(s, less, a);
      OtherStepKeepsPhase(RunFrom(s, less), last, a);
    }
  }

  lemma OtherStepKeepsPhase(s: State, act: Action, a: string)
    requires Actor(act) != Some(a)
    ensures PhaseOf(Step(s, act), a) == PhaseOf(s, a)
  {}

  lemma {:induction false} Append(s: State, x: seq<Action>, y: seq<Action>, a: string)
    ensures RunFrom(s, x + y) == RunFrom(RunFrom(s, x), y) && Own(x + y, a) == Own(x, a) + Own(y, a)
    decreases |y|
  {
    if |y| == 0 {
      assert x + y == x;
    } else {
      assert (x + y)[..|x + y| - 1] == x + y[..|y| - 1];
      Append(s, x, y[..|y| - 1], a);
    }
  }

  /** How one call of execute goes, where it is not decided by the table. */
  datatype Luck = PrecheckThrows | EffectThrows | LogThrows | AllWell

  datatype Answer = NotRequested | AlreadyExecuted | LostRace | Executed | Failed

  /** The try block and its catch. */
  function TryActions(a: string, luck: Luck): seq<Action> {
    match luck
    case PrecheckThrows => [PrecheckFails(a), WriteFailed(a)]
    case EffectThrows => [SideEffect(a, false), WriteFailed(a)]
    case LogThrows => [SideEffect(a, true), WriteExecuted(a), LogExecuted(a, false), WriteFailed(a)]
    case AllWell => [SideEffect(a, true), WriteExecuted(a), LogExecuted(a, true)]
  }

  /** What one call of execute does, by what it answers. */
  function ExecuteActions(a: string, key: LogicalKey, id: RowId, luck: Luck, answer: Answer): seq<Action> {
    [ExecuteFind(a, key, id)] +
    match answer {
      case NotRequested => []
      case AlreadyExecuted => []
      case LostRace => [Reserve(a)]
      case _ => [Reserve(a)] + TryActions(a, luck)
    }
  }

  /** Which statements a try makes: the effect unless a check threw first, FAILED unless all went well. */
  lemma StatementsOfATry(a: string, luck: Luck)
    ensures SideEffect(a, true) in TryActions(a, luck) <==> luck == LogThrows || luck == AllWell
    ensures SideEffect(a, false) in TryActions(a, luck) <==> luck == EffectThrows
    ensures PrecheckFails(a) in TryActions(a, luck) <==> luck == PrecheckThrows
    ensures WriteExecuted(a) in TryActions(a, luck) <==> luck == LogThrows || luck == AllWell
    ensures WriteFailed(a) in TryActions(a, luck) <==> luck != AllWell
    ensures luck != AllWell ==> TryActions(a, luck)[|TryActions(a, luck)| - 1] == WriteFailed(a)
  {}

  lemma Regroup(before: seq<Action>, a: Action, b: Action, rest: seq<Action>)
    ensures before + [a] + [b] + rest == before + ([a] + ([b] + rest))
  {}

  datatype RequestReply = Found | Created | Duplicate | RequestRefused

  function RequestActions(a: string, key: LogicalKey, newId: RowId, r: RequestReply): seq<Action> {
    [RequestFind(a, key)] + if r.Found? then [] else [RequestCreate(a, newId)]
  }

  datatype CancelReply = Canceled | AlreadyCanceled | NotCancelable | CancelLost

  function CancelActions(a: string, key: LogicalKey, id: RowId, r: CancelReply): seq<Action> {
    [CancelFind(a, key, id)] + if r.Canceled? || r.CancelLost? then [CancelCommit(a)] else []
  }

  datatype RecoverReply = Recovered | NotStuck | RecoverLost

  function RecoverActions(a: string, id: RowId, r: RecoverReply): seq<Action> {
    [RecoverFind(a, id)] + if r.NotStuck? then [] else [RecoverCommit(a)]
  }

  predicate Creates(act: Action, id: RowId) { act.RequestCreate? && act.id == id }

  /** An id that nobody else hands out stays free. */
  lemma {:induction false} UnusedIdStaysFree(s: State, acts: seq<Action>, id: RowId)
    requires id !in s.rows && forall act :: act in acts ==> !Creates(act, id)
    ensures id !in RunFrom(s, acts).rows
  {
    if acts != [] {
      UnusedIdStaysFree(s, acts[..|acts| - 1], id);
      assert acts[|acts| - 1] in acts;
    }
  }

  lemma JoinTwo(before: seq<Action>, a: Action, b: Action)
    ensures before + [a] + [b] == before + ([a] + [b])
  {}

  lemma JoinOne(before: seq<Action>, a: Action)
    ensures before + [a] == before + ([a] + [])
  {}

  /** The newest row of the key, if it has any. */
  predicate LookedUp(t: Table, key: LogicalKey, id: RowId) {
    (exists j :: j in t && t[j].key == key) ==>
      && id in t && t[id].key == key
      && forall j :: j in t && t[j].key == key ==> t[j].createdAt <= t[id].createdAt
  }

  class OperationalActionsService {
    var rows: Table
    /** Everything around the table, and the schedule that led here. */
    var world: State
    ghost var trace: seq<Action>

    ghost predicate Valid()
      reads this
    {
      rows == world.rows && world == Run(trace)
    }

    constructor ()
      ensures Valid() && trace == []
    {
      rows, world, trace := map[], INIT, [];
    }

    /** ORDER BY createdAt DESC over the rows of a key. */
    method FindExecution(key: LogicalKey) returns (found: Option<RowId>)
      ensures found.Some? ==>
                && found.value in rows && rows[found.value].key == key
                && forall j :: j in rows && rows[j].key == key ==> rows[j].createdAt <= rows[found.value].createdAt
      ensures found.None? ==> forall id :: id in rows ==> rows[id].key != key
    {
      found := None;
      var rest := rows.Keys;
      while rest != {}
        invariant rest <= rows.Keys
        invariant found.Some? ==> found.value in rows && rows[found.value].key == key
        invariant forall id :: id in rows && id !in rest && rows[id].key == key ==>
                    found.Some? && rows[id].createdAt <= rows[found.value].createdAt
        decreases rest
      {
        var id :| id in rest;
        if rows[id].key == key && (found.None? || rows[found.value].createdAt < rows[id].createdAt) {
          found := Some(id);
        }
        rest := rest - {id};
      }
    }

    method UpdateMany(id: RowId, from: Status, to: Status, now: int) returns (count: nat)
      modifies this`rows
      ensures rows == Transition(old(rows), id, from, to, now)
      ensures count == if id in old(rows) && old(rows)[id].status == from then 1 else 0
    {
      count := 0;
      if id in rows && rows[id].status == from {
        rows := rows[id := rows[id].(status := to, updatedAt := now)];
        count := 1;
      }
    }

    /** Whatever others do while this request waits. */
    method Await(acts: seq<Action>, ghost a: string)
      requires Valid() && forall act :: act in acts ==> Actor(act) != Some(a)
      modifies this
      ensures Valid() && PhaseOf(world, a) == old(PhaseOf(world, a)) && Own(trace, a) == old(Own(trace, a))
      ensures world == RunFrom(old(world), acts)
    {
      OthersKeepPhase(world, acts, a);
      Append(INIT, trace, acts, a);
      world := RunFrom(world, acts);
      rows := world.rows;
      trace := trace + acts;
    }

    /** Records that the table now holds what one protocol step makes of it. */
    method Record(act: Action, ghost a: string)
      requires world == Run(trace) && rows == Step(world, act).rows && Actor(act) == Some(a)
      modifies this`world, this`trace
      ensures Valid() && world == Step(old(world), act) && Own(trace, a) == old(Own(trace, a)) + [act]
    {
      assert (trace + [act])[..|trace|] == trace;
      world := Step(world, act);
      trace := trace + [act];
    }

    method FindRequested(key: LogicalKey) returns (found: bool)
      ensures found <==> HasRequested(rows, key)
    {
      found := false;
      var rest := rows.Keys;
      while rest != {}
        invariant rest <= rows.Keys
        invariant found ==> HasRequested(rows, key)
        invariant !found ==>
                    forall id :: id in rows && id !in rest ==> rows[id].key != key || rows[id].status != REQUESTED
        decreases rest
      {
        var id :| id in rest;
        if rows[id].key == key && rows[id].status == REQUESTED { found := true; }
        rest := rest - {id};
      }
    }

    /** The insert; the partial unique index refuses a second REQUESTED row of a key. */
    method Create(id: RowId, key: LogicalKey) returns (created: bool)
      requires id !in rows
      modifies this`rows
      ensures created <==> !HasRequested(old(rows), key)
      ensures rows == if created then old(rows)[id := Row(key, REQUESTED, world.clock, world.clock)] else old(rows)
      ensures HasRequested(rows, key)
    {
      var taken := FindRequested(key);
      if taken { return false; }
      rows := rows[id := Row(key, REQUESTED, world.clock, world.clock)];
      assert rows[id].key == key && rows[id].status == REQUESTED;
      created := true;
    }

    /**
     One call of request: look for a REQUESTED row, insert one, and when the unique index
     refuses the insert look again. Every answer but a refusal comes with a REQUESTED row.
     */
    method Request(a: string, key: LogicalKey, newId: RowId, others: nat -> seq<Action>) returns (r: RequestReply)
      requires Valid() && PhaseOf(world, a).Idle? && newId !in rows
      requires forall k: nat, act :: act in others(k) ==> Actor(act) != Some(a) && !Creates(act, newId)
      modifies this
      ensures Valid() && PhaseOf(world, a).Idle?
      ensures Own(trace, a) == old(Own(trace, a)) + RequestActions(a, key, newId, r)
      ensures r.Found? <==>
                exists j :: j in old(rows) && old(rows)[j].key == key && old(rows)[j].status == REQUESTED
      ensures r.RequestRefused? <==>
                forall j :: j in rows && rows[j].key == key ==> rows[j].status != REQUESTED
      ensures r.Created? ==> newId in rows && rows[newId] == Row(key, REQUESTED, world.clock, world.clock)
    {
      ghost var before := Own(trace, a);
      var found := FindRequested(key);
      Record(RequestFind(a, key), a);
      JoinOne(before, RequestFind(a, key));
      if found { return Found; }
      UnusedIdStaysFree(world, others(0), newId);
      Await(others(0), a);
      var created := Create(newId, key);
      Record(RequestCreate(a, newId), a);
      JoinTwo(before, RequestFind(a, key), RequestCreate(a, newId));
      if created { return Created; }
      Await(others(1), a);
      var again := FindRequested(key);
      r := if again then Duplicate else RequestRefused;
    }

    /** One call of cancel. */
    method Cancel(a: string, key: LogicalKey, others: seq<Action>) returns (r: CancelReply, id: RowId)
      requires Valid() && PhaseOf(world, a).Idle?
      requires forall act :: act in others ==> Actor(act) != Some(a)
      modifies this
      ensures Valid() && PhaseOf(world, a).Idle?
      ensures Own(trace, a) == old(Own(trace, a)) + CancelActions(a, key, id, r)
      ensures LookedUp(old(rows), key, id)
      ensures r.AlreadyCanceled? <==> id in old(rows) && old(rows)[id].key == key && old(rows)[id].status == CANCELED
      ensures r.NotCancelable? <==>
                || (forall j :: j in old(rows) ==> old(rows)[j].key != key)
                || (id in old(rows) && old(rows)[id].status in {EXECUTING, EXECUTED, FAILED})
      ensures r.Canceled? || r.AlreadyCanceled? ==> id in rows && rows[id].status == CANCELED
      ensures r.Canceled? ==> rows[id].updatedAt == world.clock
      ensures r.CancelLost? && id in rows ==> rows[id].status != REQUESTED
    {
      ghost var before := Own(trace, a);
      var found := FindExecution(key);
      id := if found.Some? then found.value else "";
      Record(CancelFind(a, key, id), a);
      JoinOne(before, CancelFind(a, key, id));
      if found.None? { return NotCancelable, id; }
      if rows[id].status == CANCELED { return AlreadyCanceled, id; }
      if rows[id].status != REQUESTED { return NotCancelable, id; }
      Await(others, a);
      var count := UpdateMany(id, REQUESTED, CANCELED, world.clock);
      Record(CancelCommit(a), a);
      JoinTwo(before, CancelFind(a, key, id), CancelCommit(a));
      r := if count == 1 then Canceled else CancelLost;
    }

    /** One call of recoverStuckExecution: both the read and the update ask for five minutes in EXECUTING. */
    method Recover(a: string, id: RowId, others: seq<Action>) returns (r: RecoverReply)
      requires Valid() && PhaseOf(world, a).Idle?
      requires forall act :: act in others ==> Actor(act) != Some(a)
      modifies this
      ensures Valid() && PhaseOf(world, a).Idle?
      ensures Own(trace, a) == old(Own(trace, a)) + RecoverActions(a, id, r)
      ensures r.NotStuck? <==>
                !(&& id in old(rows) && old(rows)[id].status == EXECUTING
                  && old(rows)[id].updatedAt < old(world.clock) - 300_000)
      ensures r.Recovered? ==> id in rows && rows[id].status == FAILED && rows[id].updatedAt == world.clock
      ensures r.RecoverLost? && id in rows ==>
                rows[id].status != EXECUTING || rows[id].updatedAt >= old(world.clock) - 300_000
    {
      ghost var before := Own(trace, a);
      var stuckBefore := world.clock - STUCK_EXECUTING_THRESHOLD_MS;
      var stuck := Stuck(rows, id, stuckBefore);
      Record(RecoverFind(a, id), a);
      JoinOne(before, RecoverFind(a, id));
      if !stuck { return NotStuck; }
      Await(others, a);
      var still := Stuck(rows, id, stuckBefore);
      if still { Write(id, FAILED); }
      Record(RecoverCommit(a), a);
      JoinTwo(before, RecoverFind(a, id), RecoverCommit(a));
      r := if still then Recovered else RecoverLost;
    }

    /**
     One call of execute: find, reserve, act, write, log, with everything after the reservation
     inside the try block. Whatever others do between its statements, its own steps are those of
     the protocol, and an answer of Executed or Failed means that it had reserved the row.
     */
    method Execute(a: string, key: LogicalKey, luck: Luck, others: nat -> seq<Action>)
      returns (answer: Answer, id: RowId)
      requires Valid() && PhaseOf(world, a).Idle?
      requires forall k: nat, act :: act in others(k) ==> Actor(act) != Some(a)
      modifies this
      ensures Valid() && PhaseOf(world, a).Idle?
      ensures Own(trace, a) == old(Own(trace, a)) + ExecuteActions(a, key, id, luck, answer)
      ensures LookedUp(old(rows), key, id)
      ensures answer.AlreadyExecuted? <==>
                id in old(rows) && old(rows)[id].key == key && old(rows)[id].status == EXECUTED
      ensures answer.NotRequested? <==>
                || (forall j :: j in old(rows) ==> old(rows)[j].key != key)
                || (id in old(rows) && old(rows)[id].status in {EXECUTING, FAILED, CANCELED})
      ensures answer.Executed? ==> luck == AllWell
      ensures answer.Failed? ==> luck != AllWell
    {
      ghost var before := Own(trace, a);
      var found := FindExecution(key);
      id := if found.Some? then found.value else "";
      Record(ExecuteFind(a, key, id), a);
      assert before + [ExecuteFind(a, key, id)] == before + ([ExecuteFind(a, key, id)] + []);
      if found.None? { return NotRequested, id; }
      if rows[id].status == EXECUTED { return AlreadyExecuted, id; }
      if rows[id].status != REQUESTED { return NotRequested, id; }
      Await(others(0), a);
      var reserved := UpdateMany(id, REQUESTED, EXECUTING, world.clock);
      Record(Reserve(a), a);
      Regroup(before, ExecuteFind(a, key, id), Reserve(a), []);
      if reserved != 1 { return LostRace, id; }
      answer := TryExecute(a, id, luck, others);
      Regroup(before, ExecuteFind(a, key, id), Reserve(a), TryActions(a, luck));
    }

    /** The try block and its catch. */
    method TryExecute(a: string, id: RowId, luck: Luck, others: nat -> seq<Action>) returns (answer: Answer)
      requires Valid() && PhaseOf(world, a) == Acting(id)
      requires forall k: nat, act :: act in others(k) ==> Actor(act) != Some(a)
      modifies this
      ensures Valid() && PhaseOf(world, a).Idle?
      ensures answer == if luck.AllWell? then Executed else Failed
      ensures Own(trace, a) == old(Own(trace, a)) + TryActions(a, luck)
    {
      ghost var before := Own(trace, a);
      Await(others(1), a);
      if luck.AllWell? || luck.LogThrows? {
        ActAndLog(a, id, luck.AllWell?, others(2), others(3));
        if luck.AllWell? { return Executed; }
      } else if luck.PrecheckThrows? {
        Record(PrecheckFails(a), a);
      } else {
        Record(SideEffect(a, false), a);
      }
      Await(others(4), a);
      ghost var thrown := Own(trace, a);
      Catch(a, id);
      assert luck.LogThrows? ==>
          thrown + [WriteFailed(a)]
          == before + [SideEffect(a, true), WriteExecuted(a), LogExecuted(a, false), WriteFailed(a)];
      assert luck.PrecheckThrows? ==> thrown + [WriteFailed(a)] == before + [PrecheckFails(a), WriteFailed(a)];
      assert luck.EffectThrows? ==> thrown + [WriteFailed(a)] == before + [SideEffect(a, false), WriteFailed(a)];
      answer := Failed;
    }

    /** The try block from the side effect on. */
    method ActAndLog(a: string, id: RowId, logs: bool, others1: seq<Action>, others2: seq<Action>)
      requires Valid() && PhaseOf(world, a) == Acting(id)
      requires forall act :: act in others1 || act in others2 ==> Actor(act) != Some(a)
      modifies this
      ensures Valid() && PhaseOf(world, a) == if logs then Idle else Catching(id)
      ensures Own(trace, a) == old(Own(trace, a)) + [SideEffect(a, true), WriteExecuted(a), LogExecuted(a, logs)]
    {
      ghost var before := Own(trace, a);
      Record(SideEffect(a, true), a);
      Await(others1, a);
      Write(id, EXECUTED);
      Record(WriteExecuted(a), a);
      Await(others2, a);
      Record(LogExecuted(a, logs), a);
      assert before + [SideEffect(a, true)] + [WriteExecuted(a)] + [LogExecuted(a, logs)]
          == before + [SideEffect(a, true), WriteExecuted(a), LogExecuted(a, logs)];
    }

    method Catch(a: string, id: RowId)
      requires Valid() && PhaseOf(world, a) == Catching(id)
      modifies this
      ensures Valid() && PhaseOf(world, a).Idle? && Own(trace, a) == old(Own(trace, a)) + [WriteFailed(a)]
    {
      Write(id, FAILED);
      Record(WriteFailed(a), a);
    }

    method Write(id: RowId, status: Status)
      modifies this`rows
      ensures rows == SetStatus(old(rows), id, status, world.clock)
    {
      if id in rows { rows := rows[id := rows[id].(status := status, updatedAt := world.clock)]; }
    }
  }
}
