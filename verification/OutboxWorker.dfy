/**
 The repository and the worker as the program runs them: statements that update rows in
 place, and a tick that loops over a claimed batch while other workers act between its
 statements. The tick is proved to be nothing but its own steps of the protocol in `Outbox`.
 */
module OutboxWorkers {
  import opened Base
  import opened Outbox

  /** Still being processed, under this worker's lock. */
  predicate HeldBy(t: Table, id: EventId, w: WorkerId) {
    id in t && t[id].status == PROCESSING && t[id].lockedBy == Some(w)
  }

  class OutboxRepository {
    var rows: Table

    constructor (rows: Table)
      ensures this.rows == rows
    {
      this.rows := rows;
    }

    /** The oldest of some rows: the head of ORDER BY createdAt. */
    method Oldest(candidates: set<EventId>) returns (id: EventId)
      requires candidates != {} && candidates <= rows.Keys
      ensures id in candidates
      ensures forall k :: k in candidates ==> rows[id].createdAt <= rows[k].createdAt
    {
      id :| id in candidates;
      var rest := candidates - {id};
      while rest != {}
        invariant id in candidates && rest <= candidates
        invariant forall k :: k in candidates - rest ==> rows[id].createdAt <= rows[k].createdAt
        decreases rest
      {
        var k :| k in rest;
        if rows[k].createdAt < rows[id].createdAt { id := k; }
        rest := rest - {k};
      }
    }

    /** One claim statement: select under SKIP LOCKED, order, limit, update, return. */
    method ClaimBatch(workerId: WorkerId, batchSize: nat, staleBefore: int, now: int, locked: set<EventId>)
      returns (ids: seq<EventId>, claims: seq<Claim>)
      modifies this
      ensures Selection(old(rows), now, staleBefore, batchSize, locked, ids)
      ensures rows == ClaimRows(old(rows), ids, workerId, now)
      ensures rows.Keys == old(rows).Keys
      ensures forall id :: id in rows ==>
                rows[id] == if id in ids then TakenRow(old(rows)[id], workerId, now) else old(rows)[id]
      ensures claims == ClaimsOf(rows, ids) && |claims| == |ids|
      ensures forall i :: 0 <= i < |ids| ==> claims[i] == Claim(ids[i], old(rows)[ids[i]].attempts + 1)
    {
      var candidates := set id | id in rows && id !in locked && Claimable(rows[id], now, staleBefore);
      var all := candidates;
      ids := [];
      while |ids| < batchSize && candidates != {}
        invariant rows == old(rows) && Distinct(ids) && |ids| <= batchSize
        invariant candidates <= all && forall id :: id in all ==> (id in ids <==> id !in candidates)
        invariant forall id :: id in ids ==> id in all
        invariant forall id, other :: id in candidates && other in ids ==> rows[other].createdAt <= rows[id].createdAt
        decreases candidates
      {
        var id := Oldest(candidates);
        ids := ids + [id];
        candidates := candidates - {id};
      }
      rows := ClaimRows(rows, ids, workerId, now);
      claims := ClaimsOf(rows, ids);
    }

    method MarkProcessed(id: EventId, workerId: WorkerId, now: int) returns (count: nat)
      modifies this
      ensures rows == ProcessedRows(old(rows), id, workerId, now)
      ensures rows == if HeldBy(old(rows), id, workerId) then old(rows)[id := DoneRow(old(rows)[id], now)]
                      else old(rows)
      ensures count == if rows != old(rows) then 1 else 0
    {
      count := 0;
      if id in rows && rows[id].status == PROCESSING && rows[id].lockedBy == Some(workerId) {
        var r := rows[id];
        rows := rows[id := r.(status := PROCESSED, processedAt := Some(now), lockedAt := None,
                              lockedBy := None, lastError := None)];
        assert rows[id].status != r.status;
        count := 1;
      }
    }

    method MarkRetry(id: EventId, workerId: WorkerId, attempts: nat, error: string, backoffBaseMs: nat, now: int)
      returns (count: nat)
      modifies this
      ensures rows == RetryRows(old(rows), id, workerId, now, BackoffMs(backoffBaseMs, attempts), error)
      ensures var again := now + BackoffMs(backoffBaseMs, attempts);
              rows == if HeldBy(old(rows), id, workerId) then old(rows)[id := AgainRow(old(rows)[id], again, error)]
                      else old(rows)
      ensures count == if rows != old(rows) then 1 else 0
    {
      var delayMs := Min(60_000, backoffBaseMs * Pow2(Max(0, attempts - 1)));
      count := 0;
      if id in rows && rows[id].status == PROCESSING && rows[id].lockedBy == Some(workerId) {
        var r := rows[id];
        rows := rows[id := r.(status := RETRY, availableAt := now + delayMs, lockedAt := None,
                              lockedBy := None, lastError := Some(error))];
        assert rows[id].status != r.status;
        count := 1;
      }
    }

    method MarkFailed(id: EventId, workerId: WorkerId, error: string) returns (count: nat)
      modifies this
      ensures rows == FailedRows(old(rows), id, workerId, error)
      ensures rows == if HeldBy(old(rows), id, workerId) then old(rows)[id := LostRow(old(rows)[id], error)]
                      else old(rows)
      ensures count == if rows != old(rows) then 1 else 0
    {
      count := 0;
      if id in rows && rows[id].status == PROCESSING && rows[id].lockedBy == Some(workerId) {
        var r := rows[id];
        rows := rows[id := r.(status := FAILED, lockedAt := None, lockedBy := None, lastError := Some(error))];
        assert rows[id].status != r.status;
        count := 1;
      }
    }
  }

  /** How the database answers a statement; a rejected one may have been applied all the same. */
  datatype Answer = Answered | Rejected(applied: bool)

  /** What the network and the database answer while one event is processed. */
  datatype Outcome =
    | DispatchOk
    | DispatchFails(error: string, mark: Answer)
    | MarkThrows(applied: bool, error: string, mark: Answer)

  /** Whether the loop goes on after an event: only a rejected failure mark ends the tick. */
  predicate Survives(outcome: Outcome) { outcome.DispatchOk? || outcome.mark.Answered? }

  /** The worker an action belongs to, if any. */
  function Actor(a: Action): Option<WorkerId> {
    match a
    case ClaimBatch(w, _, _) => Some(w)
    case Dispatch(w, _) => Some(w)
    case MarkProcessed(w) => Some(w)
    case MarkProcessedThrows(w, _, _) => Some(w)
    case MarkFailure(w) => Some(w)
    case Crash(w) => Some(w)
    case _ => None
  }

  /** The part of a schedule that one worker performs. */
  function Own(acts: seq<Action>, w: WorkerId): seq<Action> {
    if |acts| == 0 then []
    else Own(acts[..|acts| - 1], w) + if Actor(acts[|acts| - 1]) == Some(w) then [acts[|acts| - 1]] else []
  }

  /** The failure mark; when it is rejected the tick is over and the batch forgotten. */
  function FailureActions(w: WorkerId, mark: Answer): seq<Action> {
    match mark
    case Answered => [MarkFailure(w)]
    case Rejected(applied) => if applied then [MarkFailure(w), Crash(w)] else [Crash(w)]
  }

  /** What a tick does for one event, given the answers. */
  function EventActions(w: WorkerId, outcome: Outcome): seq<Action> {
    match outcome
    case DispatchOk => [Dispatch(w, None), Action.MarkProcessed(w)]
    case DispatchFails(e, mark) => [Dispatch(w, Some(e))] + FailureActions(w, mark)
    case MarkThrows(applied, e, mark) =>
      [Dispatch(w, None), MarkProcessedThrows(w, applied, e)] + FailureActions(w, mark)
  }

  function BatchActions(w: WorkerId, outcomes: nat -> Outcome, n: nat): seq<Action> {
    if n == 0 then [] else BatchActions(w, outcomes, n - 1) + EventActions(w, outcomes(n - 1))
  }

  /** How many of n events the loop reaches: all, or none after the first that ends the tick. */
  function Reached(outcomes: nat -> Outcome, n: nat): (k: nat)
    ensures k <= n && (n > 0 ==> k > 0)
    ensures forall i: nat :: i + 1 < k ==> Survives(outcomes(i))
    ensures k < n ==> k > 0 && !Survives(outcomes(k - 1))
  {
    if n == 0 then 0
    else
      var k := Reached(outcomes, n - 1);
      if k < n - 1 || (k > 0 && !Survives(outcomes(k - 1))) then k else n
  }

  /** After the event that ends the tick, no other is reached. */
  lemma {:induction false} ReachedStops(outcomes: nat -> Outcome, k: nat, n: nat)
    requires 0 < k <= n && Reached(outcomes, k) == k && !Survives(outcomes(k - 1))
    ensures Reached(outcomes, n) == k
  {
    if k < n { ReachedStops(outcomes, k, n - 1); }
  }

  /** What the claim of a tick does, by its answer: a rejected claim leaves the worker with no events. */
  function ClaimActions(w: WorkerId, ids: seq<EventId>, locked: set<EventId>, answer: Answer): seq<Action> {
    match answer
    case Answered => [Action.ClaimBatch(w, ids, locked)]
    case Rejected(applied) => if applied then [Action.ClaimBatch(w, ids, locked), Crash(w)] else []
  }

  lemma {:induction false} RunAppend(c: Config, s: State, a: seq<Action>, b: seq<Action>)
    ensures RunFrom(c, s, a + b) == RunFrom(c, RunFrom(c, s, a), b)
    decreases |b|
  {
    if |b| == 0 {
      assert a + b == a;
    } else {
      assert (a + b)[..|a + b| - 1] == a + b[..|b| - 1];
      RunAppend(c, s, a, b[..|b| - 1]);
    }
  }

  lemma {:induction false} OwnAppend(a: seq<Action>, b: seq<Action>, w: WorkerId)
    ensures Own(a + b, w) == Own(a, w) + Own(b, w)
    decreases |b|
  {
    if |b| == 0 {
      assert a + b == a;
    } else {
      assert (a + b)[..|a + b| - 1] == a + b[..|b| - 1];
      OwnAppend(a, b[..|b| - 1], w);
    }
  }

  lemma OtherStepKeepsPhase(c: Config, s: State, a: Action, w: WorkerId)
    requires Actor(a) != Some(w)
    ensures PhaseOf(Step(c, s, a), w) == PhaseOf(s, w)
  {}

  /** Steps of others leave a worker's memory alone and own nothing of it. */
  lemma {:induction false} OthersKeepPhase(c: Config, s: State, acts: seq<Action>, w: WorkerId)
    requires forall a :: a in acts ==> Actor(a) != Some(w)
    ensures PhaseOf(RunFrom(c, s, acts), w) == PhaseOf(s, w)
    ensures Own(acts, w) == []
  {
    if |acts| > 0 {
      var less, last := acts[..|acts| - 1], acts[|acts| - 1];
      OthersKeepPhase(c, s, less, w);
      OtherStepKeepsPhase(c, RunFrom(c, s, less), last, w);
    }
  }

  /** The shared world as one tick sees it: the table it talks to, and everything else. */
  class World {
    const config: Config
    const repository: OutboxRepository
    var state: State
    ghost var trace: seq<Action>

    constructor (config: Config)
      requires config.Valid()
      ensures Valid() && this.config == config && state == INIT && trace == []
      ensures fresh(repository)
    {
      this.config := config;
      this.state := INIT;
      this.repository := new OutboxRepository(map[]);
      this.trace := [];
    }

    /** The world is what the protocol makes of the schedule so far. */
    ghost predicate Valid()
      reads this, repository
    {
      && config.Valid()
      && repository.rows == state.rows
      && state == Run(config, trace)
    }

    /** Anything the other workers, and the clock, do between two statements of this one. */
    method Await(acts: seq<Action>, ghost w: WorkerId)
      requires Valid() && forall a :: a in acts ==> Actor(a) != Some(w)
      modifies this, repository
      ensures Valid() && trace == old(trace) + acts && Own(trace, w) == old(Own(trace, w))
      ensures PhaseOf(state, w) == old(PhaseOf(state, w))
    {
      OthersKeepPhase(config, state, acts, w);
      OwnAppend(trace, acts, w);
      RunAppend(config, INIT, trace, acts);
      state := RunFrom(config, state, acts);
      repository.rows := state.rows;
      trace := trace + acts;
    }

    /** Records that the table now holds what one protocol step makes of it. */
    method Record(a: Action, ghost w: WorkerId)
      requires config.Valid() && state == Run(config, trace)
      requires repository.rows == Step(config, state, a).rows && Actor(a) == Some(w)
      modifies this
      ensures Valid() && state == Step(config, old(state), a)
      ensures Own(trace, w) == old(Own(trace, w)) + [a]
    {
      assert (trace + [a])[..|trace|] == trace;
      state := Step(config, state, a);
      trace := trace + [a];
    }

    /** The claim statement of a tick. */
    method Claim(w: WorkerId, locked: set<EventId>) returns (ids: seq<EventId>, events: seq<Claim>)
      requires Valid() && PhaseOf(state, w).Idle?
      modifies this, repository
      ensures Valid() && |ids| == |events| <= config.batchSize && Distinct(ids)
      ensures PhaseOf(state, w) == if events == [] then Idle else Working(events, Undecided)
      ensures Own(trace, w) == old(Own(trace, w)) + [Action.ClaimBatch(w, ids, locked)]
    {
      RunKeepsInv(config, trace);
      var now := state.clock;
      ids, events := repository.ClaimBatch(w, config.batchSize, now - config.lockTimeoutMs, now, locked);
      Record(Action.ClaimBatch(w, ids, locked), w);
    }

    /** The dispatch of the first event, and the answer to it. */
    method Dispatched(w: WorkerId, error: Option<string>)
      requires Valid() && PhaseOf(state, w).Working? && PhaseOf(state, w).verdict.Undecided?
      modifies this
      ensures Valid()
      ensures PhaseOf(state, w) ==
                old(PhaseOf(state, w)).(verdict := if error.Some? then Thrown(error.value) else Delivered)
      ensures Own(trace, w) == old(Own(trace, w)) + [Dispatch(w, error)]
    {
      RunKeepsInv(config, trace);
      OwnedIsLatest(config, state, w);
      Record(Dispatch(w, error), w);
    }

    /** markProcessed for the first event. */
    method Processed(w: WorkerId)
      requires Valid() && PhaseOf(state, w).Working? && PhaseOf(state, w).verdict.Delivered?
      modifies this, repository
      ensures Valid() && |old(PhaseOf(state, w)).batch| > 0
      ensures PhaseOf(state, w) == Next(old(PhaseOf(state, w)).batch)
      ensures Own(trace, w) == old(Own(trace, w)) + [Action.MarkProcessed(w)]
    {
      RunKeepsInv(config, trace);
      OwnedIsLatest(config, state, w);
      var count := repository.MarkProcessed(PhaseOf(state, w).batch[0].id, w, state.clock);
      Record(Action.MarkProcessed(w), w);
    }

    /** markProcessed for the first event, answered with an error. */
    method ProcessedThrows(w: WorkerId, applied: bool, error: string)
      requires Valid() && PhaseOf(state, w).Working? && PhaseOf(state, w).verdict.Delivered?
      modifies this, repository
      ensures Valid()
      ensures PhaseOf(state, w) == old(PhaseOf(state, w)).(verdict := Thrown(error))
      ensures Own(trace, w) == old(Own(trace, w)) + [MarkProcessedThrows(w, applied, error)]
    {
      RunKeepsInv(config, trace);
      OwnedIsLatest(config, state, w);
      if applied {
        var count := repository.MarkProcessed(PhaseOf(state, w).batch[0].id, w, state.clock);
      }
      Record(MarkProcessedThrows(w, applied, error), w);
    }

    /** The catch block: FAILED at the attempt limit, RETRY below it, by the count the claim returned. */
    method Failure(w: WorkerId)
      requires Valid() && PhaseOf(state, w).Working? && PhaseOf(state, w).verdict.Thrown?
      modifies this, repository
      ensures Valid() && |old(PhaseOf(state, w)).batch| > 0
      ensures PhaseOf(state, w) == Next(old(PhaseOf(state, w)).batch)
      ensures Own(trace, w) == old(Own(trace, w)) + [MarkFailure(w)]
    {
      RunKeepsInv(config, trace);
      OwnedIsLatest(config, state, w);
      var event, error := PhaseOf(state, w).batch[0], PhaseOf(state, w).verdict.error;
      var count;
      if event.attempts >= config.maxAttempts {
        count := repository.MarkFailed(event.id, w, error);
      } else {
        count := repository.MarkRetry(event.id, w, event.attempts, error, config.backoffBaseMs, state.clock);
      }
      Record(MarkFailure(w), w);
    }

    /** The tick ends with an error: what it had claimed is forgotten. */
    method Forget(w: WorkerId)
      requires Valid()
      modifies this
      ensures Valid() && PhaseOf(state, w).Idle? && Own(trace, w) == old(Own(trace, w)) + [Crash(w)]
    {
      Record(Crash(w), w);
    }

    /** The failure mark of a tick, by its answer. */
    method FailureAnswered(w: WorkerId, mark: Answer)
      requires Valid() && PhaseOf(state, w).Working? && PhaseOf(state, w).verdict.Thrown?
      modifies this, repository
      ensures Valid() && |old(PhaseOf(state, w)).batch| > 0
      ensures PhaseOf(state, w) == if mark.Answered? then Next(old(PhaseOf(state, w)).batch) else Idle
      ensures Own(trace, w) == old(Own(trace, w)) + FailureActions(w, mark)
    {
      ghost var before := Own(trace, w);
      RunKeepsInv(config, trace);
      OwnedIsLatest(config, state, w);
      if mark.Answered? || mark.applied { Failure(w); }
      if mark.Rejected? { Forget(w); }
      assert before + [MarkFailure(w)] + [Crash(w)] == before + [MarkFailure(w), Crash(w)];
    }

    /** The claim of a tick, by its answer. */
    method ClaimAnswered(w: WorkerId, locked: set<EventId>, answer: Answer)
      returns (ids: seq<EventId>, events: seq<Claim>)
      requires Valid() && PhaseOf(state, w).Idle?
      modifies this, repository
      ensures Valid() && |ids| <= config.batchSize && Distinct(ids)
      ensures |events| == if answer.Answered? then |ids| else 0
      ensures PhaseOf(state, w) == if events == [] then Idle else Working(events, Undecided)
      ensures Own(trace, w) == old(Own(trace, w)) + ClaimActions(w, ids, locked, answer)
    {
      ghost var before := Own(trace, w);
      ids, events := [], [];
      if answer == Rejected(false) { return; }
      ids, events := Claim(w, locked);
      if answer.Rejected? {
        Forget(w);
        events := [];
        assert before + [Action.ClaimBatch(w, ids, locked)] + [Crash(w)]
            == before + [Action.ClaimBatch(w, ids, locked), Crash(w)];
      }
    }
  }

  /** The worker's memory after n events of the loop. */
  function Left(events: seq<Claim>, n: nat, rejected: bool): Phase
    requires n <= |events|
  {
    if n == |events| || rejected then Idle else Working(events[n..], Undecided)
  }

  lemma LeftAfterOne(events: seq<Claim>, n: nat, goesOn: bool)
    requires n < |events|
    ensures Left(events, n + 1, !goesOn) == if goesOn then Next(events[n..]) else Idle
  {
    assert events[n..][1..] == events[n + 1..];
  }

  lemma OneMoreEvent(trace: seq<Action>, w: WorkerId, outcomes: nat -> Outcome, i: nat)
    ensures trace + BatchActions(w, outcomes, i) + EventActions(w, outcomes(i))
         == trace + BatchActions(w, outcomes, i + 1)
  {}

  class OutboxWorker {
    const workerId: WorkerId
    var stopping: bool

    constructor (workerId: WorkerId)
      ensures this.workerId == workerId && !stopping
    {
      this.workerId := workerId;
      stopping := false;
    }

    /**
     One tick. Whatever the others do meanwhile, the world moves by protocol steps only, and
     the worker's own are one claim followed, event by event and in order, by dispatch and mark.
     A rejected claim is taken for an empty batch; a rejected failure mark ends the tick.
     */
    method Tick(world: World, locked: set<EventId>, claim: Answer, outcomes: nat -> Outcome, others: nat -> seq<Action>)
      returns (n: nat, rejected: bool)
      requires world.Valid() && PhaseOf(world.state, workerId).Idle?
      requires forall k: nat, a :: a in others(k) ==> Actor(a) != Some(workerId)
      modifies world, world.repository
      ensures world.Valid() && PhaseOf(world.state, workerId).Idle?
      ensures stopping ==> n == 0 && !rejected && world.trace == old(world.trace)
      ensures !stopping ==> exists ids: seq<EventId> ::
                && |ids| <= world.config.batchSize && Distinct(ids)
                && n == (if claim.Answered? then Reached(outcomes, |ids|) else 0)
                && Own(world.trace, workerId) == old(Own(world.trace, workerId))
                     + ClaimActions(workerId, ids, locked, claim) + BatchActions(workerId, outcomes, n)
      ensures rejected <==> n > 0 && !Survives(outcomes(n - 1))
    {
      n, rejected := 0, false;
      if stopping { return; }
      ghost var before := Own(world.trace, workerId);
      var ids, events := world.ClaimAnswered(workerId, locked, claim);
      n, rejected := ProcessBatch(world, events, outcomes, others);
      assert Own(world.trace, workerId)
          == before + ClaimActions(workerId, ids, locked, claim) + BatchActions(workerId, outcomes, n);
    }

    /** The loop over the claimed events. */
    method ProcessBatch(world: World, events: seq<Claim>, outcomes: nat -> Outcome, others: nat -> seq<Action>)
      returns (n: nat, rejected: bool)
      requires world.Valid()
      requires PhaseOf(world.state, workerId) == if events == [] then Idle else Working(events, Undecided)
      requires forall k: nat, a :: a in others(k) ==> Actor(a) != Some(workerId)
      modifies world, world.repository
      ensures world.Valid() && PhaseOf(world.state, workerId).Idle?
      ensures n == Reached(outcomes, |events|)
      ensures Own(world.trace, workerId) == old(Own(world.trace, workerId)) + BatchActions(workerId, outcomes, n)
      ensures rejected <==> n > 0 && !Survives(outcomes(n - 1))
    {
      n, rejected := 0, false;
      var w := workerId;
      ghost var claimed := Own(world.trace, w);
      while n < |events| && !rejected
        invariant world.Valid() && 0 <= n <= |events|
        invariant PhaseOf(world.state, w) == Left(events, n, rejected)
        invariant Own(world.trace, w) == claimed + BatchActions(w, outcomes, n)
        invariant Reached(outcomes, n) == n
        invariant rejected <==> n > 0 && !Survives(outcomes(n - 1))
        decreases |events| - n
      {
        ProcessEvent(world, events[n..], outcomes(n), others(3 * n), others(3 * n + 1), others(3 * n + 2));
        LeftAfterOne(events, n, Survives(outcomes(n)));
        OneMoreEvent(claimed, w, outcomes, n);
        rejected := !Survives(outcomes(n));
        n := n + 1;
      }
      if rejected { ReachedStops(outcomes, n, |events|); }
    }

    /** The body of the loop: dispatch, then mark; any error ends in a retry or a failure mark. */
    method ProcessEvent(world: World, batch: seq<Claim>, outcome: Outcome,
                        during: seq<Action>, then1: seq<Action>, then2: seq<Action>)
      requires world.Valid() && |batch| > 0 && PhaseOf(world.state, workerId) == Working(batch, Undecided)
      requires forall a :: a in during || a in then1 || a in then2 ==> Actor(a) != Some(workerId)
      modifies world, world.repository
      ensures world.Valid() && PhaseOf(world.state, workerId) == if Survives(outcome) then Next(batch) else Idle
      ensures Own(world.trace, workerId) == old(Own(world.trace, workerId)) + EventActions(workerId, outcome)
    {
      var w := workerId;
      ghost var before := Own(world.trace, w);
      world.Await(during, w);
      match outcome
      case DispatchOk =>
        world.Dispatched(w, None);
        world.Await(then1, w);
        world.Processed(w);
        assert before + [Dispatch(w, None)] + [Action.MarkProcessed(w)] == before + EventActions(w, outcome);
      case DispatchFails(error, mark) =>
        world.Dispatched(w, Some(error));
        world.Await(then1, w);
        world.FailureAnswered(w, mark);
        JoinOne(before, Dispatch(w, Some(error)), FailureActions(w, mark));
      case MarkThrows(applied, error, mark) =>
        world.Dispatched(w, None);
        world.Await(then1, w);
        world.ProcessedThrows(w, applied, error);
        world.Await(then2, w);
        world.FailureAnswered(w, mark);
        JoinTwo(before, Dispatch(w, None), MarkProcessedThrows(w, applied, error), FailureActions(w, mark));
    }
  }

  lemma JoinOne(x: seq<Action>, a: Action, y: seq<Action>)
    ensures x + [a] + y == x + ([a] + y)
  {}

  lemma JoinTwo(x: seq<Action>, a: Action, b: Action, y: seq<Action>)
    ensures x + [a] + [b] + y == x + ([a, b] + y)
  {}
}
