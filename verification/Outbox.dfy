/**
 The transactional outbox: rows claimed under a lease by many workers, taken over when
 the lease goes stale, and marked PROCESSED, RETRY or FAILED by whoever still owns them.

 Every database statement is one atomic step. What a worker remembers between two
 statements (the batch it was given and what became of the current dispatch) is its
 `Phase`; everybody else may act in between.
 */
module Outbox {
  import opened Base

  type EventId = string
  type WorkerId = string

  datatype Status = PENDING | PROCESSING | PROCESSED | RETRY | FAILED

  datatype Row = Row(
    createdAt: int,
    availableAt: int,
    status: Status,
    lockedAt: Option<int>,
    lockedBy: Option<WorkerId>,
    attempts: nat,
    processedAt: Option<int>,
    lastError: Option<string>)

  type Table = map<EventId, Row>

  /** Worker configuration; every value is a positive integer. */
  datatype Config = Config(maxAttempts: nat, lockTimeoutMs: nat, batchSize: nat, backoffBaseMs: nat) {
    predicate Valid() {
      1 <= maxAttempts && 1 <= lockTimeoutMs && 1 <= batchSize && 1 <= backoffBaseMs
    }
  }

  // ---------------------------------------------------------------- statements

  const MAX_BACKOFF_MS := 60_000

  function Pow2(n: nat): (p: nat)
    ensures 1 <= p
  {
    if n == 0 then 1 else 2 * Pow2(n - 1)
  }

  function BackoffMs(base: nat, attempts: nat): nat {
    Min(MAX_BACKOFF_MS, base * Pow2(Max(0, attempts - 1)))
  }

  predicate Claimable(r: Row, now: int, staleBefore: int) {
    || (r.status in {PENDING, RETRY} && r.availableAt <= now)
    || (r.status == PROCESSING && r.lockedAt.Some? && r.lockedAt.value < staleBefore)
  }

  function ClaimRow(r: Row, w: WorkerId, now: int): Row {
    r.(status := PROCESSING, lockedAt := Some(now), lockedBy := Some(w), attempts := r.attempts + 1)
  }

  function ClaimRows(t: Table, ids: seq<EventId>, w: WorkerId, now: int): Table {
    map id | id in t :: if id in ids then ClaimRow(t[id], w, now) else t[id]
  }

  /**
   What the claim query may return: distinct claimable rows that no other transaction has
   locked, at most `batchSize` of them, and none left behind that is older than one taken.
   */
  predicate Selection(t: Table, now: int, staleBefore: int, batchSize: nat,
                            skipped: set<EventId>, ids: seq<EventId>) {
    && Distinct(ids)
    && |ids| <= batchSize
    && (forall id :: id in ids ==> id in t && id !in skipped && Claimable(t[id], now, staleBefore))
    && (forall id, other ::
          id in t && id !in skipped && id !in ids && Claimable(t[id], now, staleBefore) && other in ids ==>
          t[other].createdAt <= t[id].createdAt)
    && (forall id :: id in t && id !in skipped && id !in ids && Claimable(t[id], now, staleBefore) ==>
          |ids| == batchSize)
  }

  /** The guard of every mark: still PROCESSING, and locked by this worker. */
  predicate Owned(r: Row, w: WorkerId) {
    r.status == PROCESSING && r.lockedBy == Some(w)
  }

  function Unlock(r: Row, status: Status): Row {
    r.(status := status, lockedAt := None, lockedBy := None)
  }

  function ProcessedRows(t: Table, id: EventId, w: WorkerId, now: int): Table {
    if id in t && Owned(t[id], w)
    then t[id := Unlock(t[id], PROCESSED).(processedAt := Some(now), lastError := None)]
    else t
  }

  function RetryRows(t: Table, id: EventId, w: WorkerId, now: int, delayMs: nat, error: string): Table {
    if id in t && Owned(t[id], w)
    then t[id := Unlock(t[id], RETRY).(availableAt := now + delayMs, lastError := Some(error))]
    else t
  }

  function FailedRows(t: Table, id: EventId, w: WorkerId, error: string): Table {
    if id in t && Owned(t[id], w)
    then t[id := Unlock(t[id], FAILED).(lastError := Some(error))]
    else t
  }

  // ---------------------------------------------------------------- protocol

  /** One row of a claimed batch, with the attempt count the claim returned. */
  datatype Claim = Claim(id: EventId, attempts: nat)

  /** What became of the dispatch of the first event of the batch. */
  datatype Verdict = Undecided | Delivered | Thrown(error: string)

  datatype Phase = Idle | Working(batch: seq<Claim>, verdict: Verdict)

  /** History of one row: who claimed it, in order, and what the claims came to. */
  datatype Ledger = Ledger(claims: seq<WorkerId>, takeovers: nat, retries: nat, deliveries: nat)

  datatype State = State(
    clock: int,
    rows: Table,
    workers: map<WorkerId, Phase>,
    ledger: map<EventId, Ledger>)

  datatype Action =
    | Elapse(ms: nat)
    | Enqueue(id: EventId)
    | ClaimBatch(worker: WorkerId, ids: seq<EventId>, skipped: set<EventId>)
    | Dispatch(worker: WorkerId, error: Option<string>)
    | MarkProcessed(worker: WorkerId)
    // the statement reports an error, whether or not the database applied it
    | MarkProcessedThrows(worker: WorkerId, applied: bool, reason: string)
    | MarkFailure(worker: WorkerId)
    // the process dies, or the tick rejects: the batch is forgotten
    | Crash(worker: WorkerId)

  const INIT := State(0, map[], map[], map[])

  function PhaseOf(s: State, w: WorkerId): Phase {
    if w in s.workers then s.workers[w] else Idle
  }

  function NewRow(now: int): Row {
    Row(now, now, PENDING, None, None, 0, None, None)
  }

  function Next(batch: seq<Claim>): Phase
    requires |batch| > 0
  {
    if |batch| == 1 then Idle else Working(batch[1..], Undecided)
  }

  function ClaimsOf(t: Table, ids: seq<EventId>): seq<Claim>
    requires forall id :: id in ids ==> id in t
  {
    seq(|ids|, i requires 0 <= i < |ids| => Claim(ids[i], t[ids[i]].attempts))
  }

  predicate Enabled(c: Config, s: State, a: Action) {
    match a
    case Elapse(_) => true
    case Enqueue(id) => id !in s.rows && id !in s.ledger
    case ClaimBatch(w, ids, skipped) =>
      PhaseOf(s, w).Idle? && Selection(s.rows, s.clock, s.clock - c.lockTimeoutMs, c.batchSize, skipped, ids)
      && (forall id :: id in ids ==> id in s.ledger)
    case Dispatch(w, _) =>
      var p := PhaseOf(s, w);
      p.Working? && |p.batch| > 0 && p.verdict.Undecided? && p.batch[0].id in s.ledger
    case MarkProcessed(w) =>
      var p := PhaseOf(s, w); p.Working? && |p.batch| > 0 && p.verdict.Delivered?
    case MarkProcessedThrows(w, _, _) =>
      var p := PhaseOf(s, w); p.Working? && |p.batch| > 0 && p.verdict.Delivered?
    case MarkFailure(w) =>
      var p := PhaseOf(s, w);
      p.Working? && |p.batch| > 0 && p.verdict.Thrown? && p.batch[0].id in s.ledger
    case Crash(w) => true
  }

  function ClaimStep(s: State, w: WorkerId, ids: seq<EventId>): State
    requires forall id :: id in ids ==> id in s.rows && id in s.ledger
  {
    var rows := ClaimRows(s.rows, ids, w, s.clock);
    s.(rows := rows,
       workers := s.workers[w := if ids == [] then Idle else Working(ClaimsOf(rows, ids), Undecided)],
       ledger := map id | id in s.ledger :: var l := s.ledger[id];
         if id in ids && id in s.rows
         then l.(claims := l.claims + [w],
                 takeovers := l.takeovers + if s.rows[id].status == PROCESSING then 1 else 0)
         else l)
  }

  function DispatchStep(s: State, w: WorkerId, error: Option<string>): State
    requires PhaseOf(s, w).Working? && |PhaseOf(s, w).batch| > 0 && PhaseOf(s, w).batch[0].id in s.ledger
  {
    var p := PhaseOf(s, w);
    var id := p.batch[0].id;
    match error
    case Some(e) => s.(workers := s.workers[w := p.(verdict := Thrown(e))])
    case None => s.(workers := s.workers[w := p.(verdict := Delivered)],
                    ledger := s.ledger[id := s.ledger[id].(deliveries := s.ledger[id].deliveries + 1)])
  }

  function FailureStep(c: Config, s: State, w: WorkerId): State
    requires PhaseOf(s, w).Working? && |PhaseOf(s, w).batch| > 0 && PhaseOf(s, w).verdict.Thrown?
    requires PhaseOf(s, w).batch[0].id in s.ledger
  {
    var p := PhaseOf(s, w);
    var claim := p.batch[0];
    var l := s.ledger[claim.id];
    var workers := s.workers[w := Next(p.batch)];
    if claim.attempts >= c.maxAttempts then
      s.(rows := FailedRows(s.rows, claim.id, w, p.verdict.error), workers := workers)
    else
      var rows := RetryRows(s.rows, claim.id, w, s.clock, BackoffMs(c.backoffBaseMs, claim.attempts), p.verdict.error);
      var hit := claim.id in s.rows && Owned(s.rows[claim.id], w);
      s.(rows := rows, workers := workers,
         ledger := if hit then s.ledger[claim.id := l.(retries := l.retries + 1)] else s.ledger)
  }

  function Step(c: Config, s: State, a: Action): State {
    if !Enabled(c, s, a) then s else
    match a
    case Elapse(ms) => s.(clock := s.clock + ms)
    case Enqueue(id) => s.(rows := s.rows[id := NewRow(s.clock)], ledger := s.ledger[id := Ledger([], 0, 0, 0)])
    case ClaimBatch(w, ids, _) => ClaimStep(s, w, ids)
    case Dispatch(w, error) => DispatchStep(s, w, error)
    case MarkProcessed(w) =>
      var p := PhaseOf(s, w);
      s.(rows := ProcessedRows(s.rows, p.batch[0].id, w, s.clock), workers := s.workers[w := Next(p.batch)])
    case MarkProcessedThrows(w, applied, error) =>
      var p := PhaseOf(s, w);
      s.(rows := if applied then ProcessedRows(s.rows, p.batch[0].id, w, s.clock) else s.rows,
         workers := s.workers[w := p.(verdict := Thrown(error))])
    case MarkFailure(w) => FailureStep(c, s, w)
    case Crash(w) => s.(workers := s.workers[w := Idle])
  }

  function RunFrom(c: Config, s: State, acts: seq<Action>): State {
    if |acts| == 0 then s
    else Step(c, RunFrom(c, s, acts[..|acts| - 1]), acts[|acts| - 1])
  }

  /** The state after any schedule of any workers' actions; an action that is not enabled changes nothing. */
  function Run(c: Config, acts: seq<Action>): State {
    RunFrom(c, INIT, acts)
  }

  // ---------------------------------------------------------------- invariant

  predicate Terminal(r: Row) { r.status in {PROCESSED, FAILED} }

  function InFlight(r: Row): nat { if r.status in {PROCESSING, PROCESSED, FAILED} then 1 else 0 }

  ghost predicate RowInv(c: Config, clock: int, r: Row, l: Ledger) {
    && r.attempts == |l.claims|
    && r.attempts == l.retries + l.takeovers + InFlight(r)
    && l.retries < c.maxAttempts
    && (r.status == PENDING ==> r.attempts == 0)
    && (r.status == RETRY ==> 1 <= r.attempts < c.maxAttempts)
    && (r.status == FAILED ==> c.maxAttempts <= r.attempts)
    && (r.status == PROCESSED ==> 1 <= l.deliveries)
    && (if r.status == PROCESSING
        then r.attempts > 0 && r.lockedAt.Some? && r.lockedAt.value <= clock
             && r.lockedBy == Some(l.claims[r.attempts - 1])
        else r.lockedAt.None? && r.lockedBy.None?)
  }

  /** `claim` is one this worker really made, and it has not claimed the row again since. */
  ghost predicate ClaimInv(l: Ledger, w: WorkerId, claim: Claim) {
    && 1 <= claim.attempts <= |l.claims|
    && l.claims[claim.attempts - 1] == w
    && (forall k :: claim.attempts <= k < |l.claims| ==> l.claims[k] != w)
  }

  ghost predicate PhaseInv(ledger: map<EventId, Ledger>, w: WorkerId, p: Phase) {
    p.Working? ==>
      && |p.batch| > 0
      && (forall i, j :: 0 <= i < j < |p.batch| ==> p.batch[i].id != p.batch[j].id)
      && (forall i :: 0 <= i < |p.batch| ==> p.batch[i].id in ledger && ClaimInv(ledger[p.batch[i].id], w, p.batch[i]))
      && (p.verdict.Delivered? ==> 1 <= ledger[p.batch[0].id].deliveries)
  }

  ghost predicate Inv(c: Config, s: State) {
    && s.rows.Keys == s.ledger.Keys
    && (forall id :: id in s.rows ==> RowInv(c, s.clock, s.rows[id], s.ledger[id]))
    && (forall w :: w in s.workers ==> PhaseInv(s.ledger, w, s.workers[w]))
  }

  lemma ClaimRowInv(c: Config, now: int, r: Row, l: Ledger, w: WorkerId)
    requires RowInv(c, now, r, l) && r.status in {PENDING, RETRY, PROCESSING}
    ensures var l' := l.(claims := l.claims + [w],
                         takeovers := l.takeovers + if r.status == PROCESSING then 1 else 0);
            RowInv(c, now, ClaimRow(r, w, now), l')
  {}

  lemma ClaimKeepsOthers(ledger: map<EventId, Ledger>, ledger': map<EventId, Ledger>,
                         w: WorkerId, v: WorkerId, p: Phase)
    requires v != w && PhaseInv(ledger, v, p)
    requires ledger.Keys == ledger'.Keys
    requires forall id :: id in ledger ==>
               && ledger'[id].deliveries == ledger[id].deliveries
               && (ledger'[id].claims == ledger[id].claims || ledger'[id].claims == ledger[id].claims + [w])
    ensures PhaseInv(ledger', v, p)
  {
    if p.Working? {
      forall i | 0 <= i < |p.batch| ensures ClaimInv(ledger'[p.batch[i].id], v, p.batch[i]) {
        assert ClaimInv(ledger[p.batch[i].id], v, p.batch[i]);
      }
    }
  }

  lemma ClaimKeepsInv(c: Config, s: State, w: WorkerId, ids: seq<EventId>, skipped: set<EventId>)
    requires c.Valid() && Inv(c, s) && Enabled(c, s, ClaimBatch(w, ids, skipped))
    ensures Inv(c, ClaimStep(s, w, ids))
  {
    var s' := ClaimStep(s, w, ids);
    forall id | id in s'.rows ensures RowInv(c, s'.clock, s'.rows[id], s'.ledger[id]) {
      assert RowInv(c, s.clock, s.rows[id], s.ledger[id]);
      if id in ids { ClaimRowInv(c, s.clock, s.rows[id], s.ledger[id], w); }
    }
    forall v | v in s'.workers ensures PhaseInv(s'.ledger, v, s'.workers[v]) {
      if v == w {
        NewBatchInv(c, s, w, ids);
      } else {
        ClaimKeepsOthers(s.ledger, s'.ledger, w, v, s.workers[v]);
      }
    }
  }

  lemma NewBatchInv(c: Config, s: State, w: WorkerId, ids: seq<EventId>)
    requires Inv(c, s) && Distinct(ids)
    requires forall id :: id in ids ==> id in s.rows && id in s.ledger
    ensures PhaseInv(ClaimStep(s, w, ids).ledger, w, ClaimStep(s, w, ids).workers[w])
  {
    var s' := ClaimStep(s, w, ids);
    var p := s'.workers[w];
    if p.Working? {
      forall i | 0 <= i < |p.batch|
        ensures p.batch[i].id == ids[i] && ids[i] in s'.ledger && ClaimInv(s'.ledger[ids[i]], w, p.batch[i])
      {
        assert ids[i] in ids;
        assert RowInv(c, s.clock, s.rows[ids[i]], s.ledger[ids[i]]);
      }
    }
  }

  /** A mark that finds the row still owned finds it exactly as the worker's own claim left it. */
  lemma OwnedIsLatest(c: Config, s: State, w: WorkerId)
    requires Inv(c, s) && PhaseOf(s, w).Working?
    ensures |PhaseOf(s, w).batch| > 0
    ensures var claim := PhaseOf(s, w).batch[0];
            && claim.id in s.rows
            && (Owned(s.rows[claim.id], w) ==> s.rows[claim.id].attempts == claim.attempts)
  {
    assert PhaseInv(s.ledger, w, s.workers[w]);
    var claim := s.workers[w].batch[0];
    assert RowInv(c, s.clock, s.rows[claim.id], s.ledger[claim.id]);
  }

  /** The ledgers differ in one row only, which was neither claimed nor lost deliveries. */
  ghost predicate LedgerMoved(ledger: map<EventId, Ledger>, ledger': map<EventId, Ledger>, id: EventId) {
    && id in ledger && ledger'.Keys == ledger.Keys
    && (forall k :: k in ledger && k != id ==> ledger'[k] == ledger[k])
    && ledger'[id].claims == ledger[id].claims && ledger[id].deliveries <= ledger'[id].deliveries
  }

  /** Replacing one row, and nothing else but this worker's phase, keeps the invariant when the row is in order. */
  lemma RowChangeKeepsInv(c: Config, s: State, s': State, id: EventId, w: WorkerId)
    requires Inv(c, s) && s'.clock == s.clock && id in s.rows && s'.rows.Keys == s.rows.Keys
    requires forall k :: k in s.rows && k != id ==> s'.rows[k] == s.rows[k]
    requires LedgerMoved(s.ledger, s'.ledger, id)
    requires RowInv(c, s.clock, s'.rows[id], s'.ledger[id])
    requires w in s'.workers && PhaseInv(s'.ledger, w, s'.workers[w])
    requires forall v :: v in s'.workers && v != w ==> v in s.workers && s'.workers[v] == s.workers[v]
    ensures Inv(c, s')
  {
    forall k | k in s'.rows ensures RowInv(c, s'.clock, s'.rows[k], s'.ledger[k]) {
      assert RowInv(c, s.clock, s.rows[k], s.ledger[k]);
    }
    forall v | v in s'.workers ensures PhaseInv(s'.ledger, v, s'.workers[v]) {
      if v != w { PhaseFrame(s.ledger, s'.ledger, v, s.workers[v]); }
    }
  }

  lemma StepKeepsInv(c: Config, s: State, a: Action)
    requires c.Valid() && Inv(c, s)
    ensures Inv(c, Step(c, s, a))
  {
    if Enabled(c, s, a) {
      var s' := Step(c, s, a);
      match a
      case Elapse(ms) =>
        forall id | id in s'.rows ensures RowInv(c, s'.clock, s'.rows[id], s'.ledger[id]) {
          assert RowInv(c, s.clock, s.rows[id], s.ledger[id]);
        }
      case Enqueue(id) =>
        forall w | w in s'.workers ensures PhaseInv(s'.ledger, w, s'.workers[w]) {
          assert PhaseInv(s.ledger, w, s.workers[w]);
        }
        forall k | k in s'.rows ensures RowInv(c, s'.clock, s'.rows[k], s'.ledger[k]) {
          if k != id { assert RowInv(c, s.clock, s.rows[k], s.ledger[k]); }
        }
      case ClaimBatch(w, ids, skipped) => ClaimKeepsInv(c, s, w, ids, skipped);
      case Crash(w) =>
        forall v | v in s'.workers ensures PhaseInv(s'.ledger, v, s'.workers[v]) {
          if v != w { assert PhaseInv(s.ledger, v, s.workers[v]); }
        }
      case Dispatch(w, error) => DispatchKeepsInv(c, s, w, error);
      case MarkProcessed(w) => MarkProcessedKeepsInv(c, s, a);
      case MarkProcessedThrows(w, applied, error) => MarkProcessedKeepsInv(c, s, a);
      case MarkFailure(w) => FailureKeepsInv(c, s, w);
    }
  }

  /** Dropping the first claim of a batch, or judging it, keeps the worker's phase in order. */
  lemma NextPhaseInv(ledger: map<EventId, Ledger>, w: WorkerId, p: Phase)
    requires PhaseInv(ledger, w, p) && p.Working?
    ensures PhaseInv(ledger, w, Next(p.batch))
    ensures forall e :: PhaseInv(ledger, w, p.(verdict := Thrown(e)))
  {}

  /** The three marks rewrite one row, in order, whoever owns it. */
  lemma MarkedRowInv(c: Config, now: int, r: Row, l: Ledger, delay: nat, e: string)
    requires RowInv(c, now, r, l) && r.status == PROCESSING
    ensures 1 <= l.deliveries ==> RowInv(c, now, Unlock(r, PROCESSED).(processedAt := Some(now), lastError := None), l)
    ensures c.maxAttempts <= r.attempts ==> RowInv(c, now, Unlock(r, FAILED).(lastError := Some(e)), l)
    ensures r.attempts < c.maxAttempts ==>
              RowInv(c, now, Unlock(r, RETRY).(availableAt := now + delay, lastError := Some(e)),
                     l.(retries := l.retries + 1))
  {}

  lemma DispatchKeepsInv(c: Config, s: State, w: WorkerId, error: Option<string>)
    requires c.Valid() && Inv(c, s) && Enabled(c, s, Dispatch(w, error))
    ensures Inv(c, DispatchStep(s, w, error))
  {
    OwnedIsLatest(c, s, w);
    var id := s.workers[w].batch[0].id;
    assert RowInv(c, s.clock, s.rows[id], s.ledger[id]);
    assert PhaseInv(s.ledger, w, s.workers[w]);
    JudgedPhaseInv(s, w, error);
    RowChangeKeepsInv(c, s, DispatchStep(s, w, error), id, w);
  }

  /** Writing the PROCESSED mark, or failing to, and moving on or remembering the error. */
  lemma ProcessedKeepsInv(c: Config, s: State, w: WorkerId, applied: bool, phase: Phase)
    requires c.Valid() && Inv(c, s) && Enabled(c, s, MarkProcessed(w))
    requires PhaseInv(s.ledger, w, phase)
    ensures var rows := if applied then ProcessedRows(s.rows, PhaseOf(s, w).batch[0].id, w, s.clock) else s.rows;
            Inv(c, s.(rows := rows, workers := s.workers[w := phase]))
  {
    OwnedIsLatest(c, s, w);
    var id := s.workers[w].batch[0].id;
    assert PhaseInv(s.ledger, w, s.workers[w]);
    assert RowInv(c, s.clock, s.rows[id], s.ledger[id]);
    if Owned(s.rows[id], w) { MarkedRowInv(c, s.clock, s.rows[id], s.ledger[id], 0, ""); }
    var rows := if applied then ProcessedRows(s.rows, id, w, s.clock) else s.rows;
    RowChangeKeepsInv(c, s, s.(rows := rows, workers := s.workers[w := phase]), id, w);
  }

  lemma MarkProcessedKeepsInv(c: Config, s: State, a: Action)
    requires c.Valid() && Inv(c, s) && Enabled(c, s, a) && (a.MarkProcessed? || a.MarkProcessedThrows?)
    ensures Inv(c, Step(c, s, a))
  {
    var w := a.worker;
    assert PhaseInv(s.ledger, w, s.workers[w]);
    NextPhaseInv(s.ledger, w, s.workers[w]);
    if a.MarkProcessed? {
      ProcessedKeepsInv(c, s, w, true, Next(s.workers[w].batch));
    } else {
      ProcessedKeepsInv(c, s, w, a.applied, s.workers[w].(verdict := Thrown(a.reason)));
    }
  }

  lemma JudgedPhaseInv(s: State, w: WorkerId, error: Option<string>)
    requires w in s.workers && PhaseInv(s.ledger, w, s.workers[w]) && s.workers[w].Working?
    ensures PhaseInv(DispatchStep(s, w, error).ledger, w, DispatchStep(s, w, error).workers[w])
  {
    var s' := DispatchStep(s, w, error);
    var p := s.workers[w];
    forall i | 0 <= i < |p.batch| ensures ClaimInv(s'.ledger[p.batch[i].id], w, p.batch[i]) {
      assert ClaimInv(s.ledger[p.batch[i].id], w, p.batch[i]);
    }
  }

  /** A phase only depends on who claimed its rows and on deliveries already made. */
  lemma PhaseFrame(ledger: map<EventId, Ledger>, ledger': map<EventId, Ledger>, w: WorkerId, p: Phase)
    requires PhaseInv(ledger, w, p) && ledger.Keys == ledger'.Keys
    requires forall id :: id in ledger ==>
               ledger'[id].claims == ledger[id].claims && ledger[id].deliveries <= ledger'[id].deliveries
    ensures PhaseInv(ledger', w, p)
  {
    if p.Working? {
      forall i | 0 <= i < |p.batch| ensures ClaimInv(ledger'[p.batch[i].id], w, p.batch[i]) {
        assert ClaimInv(ledger[p.batch[i].id], w, p.batch[i]);
      }
    }
  }

  /** What the failure mark does to its row and to the row's history. */
  lemma FailureRowInv(c: Config, s: State, w: WorkerId)
    requires c.Valid() && Inv(c, s) && Enabled(c, s, MarkFailure(w))
    ensures var id := s.workers[w].batch[0].id;
            var s' := FailureStep(c, s, w);
            && id in s.rows && id in s'.rows && id in s'.ledger
            && RowInv(c, s.clock, s'.rows[id], s'.ledger[id])
  {
    OwnedIsLatest(c, s, w);
    var p := s.workers[w];
    var claim := p.batch[0];
    var r, l := s.rows[claim.id], s.ledger[claim.id];
    assert RowInv(c, s.clock, r, l);
    if Owned(r, w) { MarkedRowInv(c, s.clock, r, l, BackoffMs(c.backoffBaseMs, claim.attempts), p.verdict.error); }
  }

  /** It touches nothing else but the worker's phase. */
  lemma FailureFrame(c: Config, s: State, w: WorkerId)
    requires s.rows.Keys == s.ledger.Keys && Enabled(c, s, MarkFailure(w))
    ensures var id, s' := s.workers[w].batch[0].id, FailureStep(c, s, w);
            && s'.clock == s.clock && s'.rows.Keys == s.rows.Keys && LedgerMoved(s.ledger, s'.ledger, id)
            && (forall k :: k in s.rows && k != id ==> s'.rows[k] == s.rows[k])
            && s'.workers == s.workers[w := Next(s.workers[w].batch)]
  {}

  lemma MovedOnKeepsInv(c: Config, s: State, s': State, w: WorkerId)
    requires Inv(c, s) && w in s.workers && s.workers[w].Working? && |s.workers[w].batch| > 0
    requires var id := s.workers[w].batch[0].id;
             && s'.clock == s.clock && s'.rows.Keys == s.rows.Keys && LedgerMoved(s.ledger, s'.ledger, id)
             && (forall k :: k in s.rows && k != id ==> s'.rows[k] == s.rows[k])
             && id in s.rows && RowInv(c, s.clock, s'.rows[id], s'.ledger[id])
    requires s'.workers == s.workers[w := Next(s.workers[w].batch)]
    ensures Inv(c, s')
  {
    var p := s.workers[w];
    assert PhaseInv(s.ledger, w, p);
    NextPhaseInv(s.ledger, w, p);
    PhaseFrame(s.ledger, s'.ledger, w, Next(p.batch));
    RowChangeKeepsInv(c, s, s', p.batch[0].id, w);
  }

  lemma FailureKeepsInv(c: Config, s: State, w: WorkerId)
    requires c.Valid() && Inv(c, s) && Enabled(c, s, MarkFailure(w))
    ensures Inv(c, FailureStep(c, s, w))
  {
    FailureRowInv(c, s, w);
    FailureFrame(c, s, w);
    MovedOnKeepsInv(c, s, FailureStep(c, s, w), w);
  }

  lemma RunKeepsInv(c: Config, acts: seq<Action>)
    requires c.Valid()
    ensures Inv(c, Run(c, acts))
  {
    if |acts| > 0 {
      RunKeepsInv(c, acts[..|acts| - 1]);
      StepKeepsInv(c, Run(c, acts[..|acts| - 1]), acts[|acts| - 1]);
    }
  }

  // The rows the four statements leave, field by field: created, available, status, locked at
  // and by, attempts, processed, last error.

  function TakenRow(r: Row, w: WorkerId, now: int): Row {
    Row(r.createdAt, r.availableAt, PROCESSING, Some(now), Some(w), r.attempts + 1, r.processedAt, r.lastError)
  }

  function DoneRow(r: Row, now: int): Row {
    Row(r.createdAt, r.availableAt, PROCESSED, None, None, r.attempts, Some(now), None)
  }

  function AgainRow(r: Row, availableAt: int, error: string): Row {
    Row(r.createdAt, availableAt, RETRY, None, None, r.attempts, r.processedAt, Some(error))
  }

  function LostRow(r: Row, error: string): Row {
    Row(r.createdAt, r.availableAt, FAILED, None, None, r.attempts, r.processedAt, Some(error))
  }
}
