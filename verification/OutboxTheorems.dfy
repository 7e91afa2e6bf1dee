/**
 What holds of the outbox on every run: how rows change, whose marks take effect, what is final,
 how attempts are counted, and what the next batch takes.
 */
module OutboxTheorems {
  import opened Base
  import opened Outbox

  /** Every way one action can change an existing row, and what that adds to the row's history. */
  predicate RowStep(c: Config, now: int, r: Row, l: Ledger, r': Row, l': Ledger) {
    || (r' == r && l'.(deliveries := l.deliveries) == l && l.deliveries <= l'.deliveries)
    // claimed when due, or taken over once the lease is older than the lock timeout
    || (&& (|| (r.status in {PENDING, RETRY} && r.availableAt <= now)
            || (r.status == PROCESSING && r.lockedAt.Some? && r.lockedAt.value + c.lockTimeoutMs < now))
        && r'.lockedBy.Some? && r' == TakenRow(r, r'.lockedBy.value, now)
        && l'.claims == l.claims + [r'.lockedBy.value]
        && l'.takeovers == (if r.status == PROCESSING then l.takeovers + 1 else l.takeovers)
        && l'.retries == l.retries)
    // marked: only from PROCESSING, always unlocking, and by the attempt count in the row itself
    || (&& r.status == PROCESSING && l'.claims == l.claims && l'.takeovers == l.takeovers
        && match r'.status {
             case PROCESSED => 1 <= l.deliveries && l'.retries == l.retries && r' == DoneRow(r, now)
             case RETRY =>
               && r.attempts < c.maxAttempts && l'.retries == l.retries + 1 && r'.lastError.Some?
               && r' == AgainRow(r, now + BackoffMs(c.backoffBaseMs, r.attempts), r'.lastError.value)
             case FAILED =>
               && c.maxAttempts <= r.attempts && l'.retries == l.retries && r'.lastError.Some?
               && r' == LostRow(r, r'.lastError.value)
             case _ => false
           })
  }

  predicate ActsOnHead(a: Action) { a.Dispatch? || a.MarkProcessed? || a.MarkProcessedThrows? || a.MarkFailure? }

  lemma FailedRowStep(c: Config, s: State, w: WorkerId)
    requires c.Valid() && Inv(c, s) && Enabled(c, s, MarkFailure(w))
    ensures var id, s' := s.workers[w].batch[0].id, FailureStep(c, s, w);
            && id in s.rows && id in s'.rows && id in s'.ledger
            && RowStep(c, s.clock, s.rows[id], s.ledger[id], s'.rows[id], s'.ledger[id])
  {
    OwnedIsLatest(c, s, w);
  }

  lemma HeadRowStep(c: Config, s: State, a: Action, id: EventId)
    requires c.Valid() && Inv(c, s) && id in s.rows && Enabled(c, s, a) && ActsOnHead(a)
    ensures var s' := Step(c, s, a);
            && id in s'.rows && id in s'.ledger
            && RowStep(c, s.clock, s.rows[id], s.ledger[id], s'.rows[id], s'.ledger[id])
  {
    var w := a.worker;
    if a.MarkFailure? {
      FailedRowStep(c, s, w);
      FailureFrame(c, s, w);
    } else {
      OwnedIsLatest(c, s, w);
      assert PhaseInv(s.ledger, w, s.workers[w]);
    }
  }

  lemma OtherRowStep(c: Config, s: State, a: Action, id: EventId)
    requires c.Valid() && Inv(c, s) && id in s.rows && !ActsOnHead(a)
    ensures var s' := Step(c, s, a);
            && id in s'.rows && id in s'.ledger
            && RowStep(c, s.clock, s.rows[id], s.ledger[id], s'.rows[id], s'.ledger[id])
  {
    assert RowInv(c, s.clock, s.rows[id], s.ledger[id]);
  }

  lemma EveryRowChange(c: Config, acts: seq<Action>, a: Action, id: EventId)
    requires c.Valid() && id in Run(c, acts).rows
    ensures var s, s' := Run(c, acts), Run(c, acts + [a]);
            && id in s.ledger && id in s'.rows && id in s'.ledger
            && RowStep(c, s.clock, s.rows[id], s.ledger[id], s'.rows[id], s'.ledger[id])
  {
    RunKeepsInv(c, acts);
    assert (acts + [a])[..|acts|] == acts;
    if !ActsOnHead(a) { OtherRowStep(c, Run(c, acts), a, id); }
    else if Enabled(c, Run(c, acts), a) { HeadRowStep(c, Run(c, acts), a, id); }
  }

  predicate IsMark(a: Action) { a.MarkProcessed? || a.MarkProcessedThrows? || a.MarkFailure? }

  /** The claim is the latest one of its row, and this worker's. */
  ghost predicate LatestClaim(s: State, w: WorkerId, claim: Claim) {
    && claim.id in s.rows && claim.id in s.ledger
    && claim.attempts == s.rows[claim.id].attempts == |s.ledger[claim.id].claims| > 0
    && s.ledger[claim.id].claims[claim.attempts - 1] == w
  }

  lemma EffectiveMarkIsLatest(c: Config, s: State, a: Action)
    requires c.Valid() && Inv(c, s) && IsMark(a) && Step(c, s, a).rows != s.rows
    ensures var p := PhaseOf(s, a.worker);
            && p.Working? && |p.batch| > 0 && LatestClaim(s, a.worker, p.batch[0])
            && forall id :: id in s.rows && id != p.batch[0].id ==>
                 id in Step(c, s, a).rows && Step(c, s, a).rows[id] == s.rows[id]
  {
    OwnedIsLatest(c, s, a.worker);
    var claim := s.workers[a.worker].batch[0];
    assert RowInv(c, s.clock, s.rows[claim.id], s.ledger[claim.id]);
  }

  /**
   A mark that takes effect belongs to the most recent claim of its row: the count the
   worker was given is the row's count, and the last claim recorded for the row is the worker's.
   It touches that row only.
   */
  lemma MarkBelongsToLatestClaim(c: Config, acts: seq<Action>, a: Action)
    requires c.Valid() && IsMark(a)
    requires Run(c, acts + [a]).rows != Run(c, acts).rows
    ensures var s := Run(c, acts);
            var p := PhaseOf(s, a.worker);
            && p.Working? && |p.batch| > 0 && LatestClaim(s, a.worker, p.batch[0])
            && forall id :: id in s.rows && id != p.batch[0].id ==>
                 id in Run(c, acts + [a]).rows && Run(c, acts + [a]).rows[id] == s.rows[id]
  {
    RunKeepsInv(c, acts);
    assert (acts + [a])[..|acts|] == acts;
    EffectiveMarkIsLatest(c, Run(c, acts), a);
  }

  /** PROCESSED and FAILED are never left, whatever happens afterwards. */
  lemma {:induction false} TerminalForever(c: Config, acts: seq<Action>, more: seq<Action>, id: EventId)
    requires c.Valid() && id in Run(c, acts).rows && Terminal(Run(c, acts).rows[id])
    ensures id in Run(c, acts + more).rows && Run(c, acts + more).rows[id] == Run(c, acts).rows[id]
    decreases |more|
  {
    if |more| == 0 {
      assert acts + more == acts;
    } else {
      var less := more[..|more| - 1];
      TerminalForever(c, acts, less, id);
      EveryRowChange(c, acts + less, more[|more| - 1], id);
      assert acts + more == acts + less + [more[|more| - 1]];
    }
  }

  /** Where every attempt of a row went, and how far crashes can push the count. */
  lemma AttemptAccounting(c: Config, acts: seq<Action>, id: EventId)
    requires c.Valid() && id in Run(c, acts).rows
    ensures var s := Run(c, acts);
            && id in s.ledger
            && var r, l := s.rows[id], s.ledger[id];
            && r.attempts == |l.claims| == l.retries + l.takeovers + InFlight(r)
            && l.retries <= c.maxAttempts - 1
            && r.attempts <= c.maxAttempts + l.takeovers
            && (r.status == PROCESSED ==> 1 <= l.deliveries)
            && (r.status == FAILED ==> c.maxAttempts <= r.attempts)
  {
    RunKeepsInv(c, acts);
    assert RowInv(c, Run(c, acts).clock, Run(c, acts).rows[id], Run(c, acts).ledger[id]);
  }

  /** The first instant at which a row that is not yet settled can be claimed. */
  function ClaimableFrom(c: Config, r: Row): int
    requires !Terminal(r) && (r.status == PROCESSING ==> r.lockedAt.Some?)
  {
    if r.status == PROCESSING then r.lockedAt.value + c.lockTimeoutMs + 1 else r.availableAt
  }

  /** No unsettled row is ever lost: from a computable instant on it is claimable, and not before. */
  lemma UnsettledIsClaimable(c: Config, acts: seq<Action>, id: EventId, now: int)
    requires c.Valid() && id in Run(c, acts).rows && !Terminal(Run(c, acts).rows[id])
    ensures var r := Run(c, acts).rows[id];
            && (r.status == PROCESSING ==> r.lockedAt.Some?)
            && (Claimable(r, now, now - c.lockTimeoutMs) <==> ClaimableFrom(c, r) <= now)
  {
    RunKeepsInv(c, acts);
    assert RowInv(c, Run(c, acts).clock, Run(c, acts).rows[id], Run(c, acts).ledger[id]);
  }

  function Ahead(t: Table, now: int, staleBefore: int, id: EventId): set<EventId>
    requires id in t
  {
    set k | k in t && k != id && Claimable(t[k], now, staleBefore) && t[k].createdAt <= t[id].createdAt
  }

  /** A claimable row with fewer than `batchSize` claimable rows at least as old is in every batch that may lock it. */
  lemma OldestAreTaken(t: Table, now: int, staleBefore: int, batchSize: nat,
                       skipped: set<EventId>, ids: seq<EventId>, id: EventId)
    requires Selection(t, now, staleBefore, batchSize, skipped, ids)
    requires id in t && id !in skipped && Claimable(t[id], now, staleBefore)
    requires |Ahead(t, now, staleBefore, id)| < batchSize
    ensures id in ids
  {
    if id !in ids {
      DistinctCount(ids);
      assert Elements(ids) <= Ahead(t, now, staleBefore, id);
      SubsetCount(Elements(ids), Ahead(t, now, staleBefore, id));
    }
  }

  /** Doubling from the base up to the cap, which is reached by the seventeenth attempt at the latest. */
  lemma BackoffDoublesToCap(base: nat, attempts: nat)
    requires 1 <= base && 1 <= attempts
    ensures BackoffMs(base, 1) == Min(MAX_BACKOFF_MS, base)
    ensures BackoffMs(base, attempts + 1) == Min(MAX_BACKOFF_MS, 2 * BackoffMs(base, attempts))
    ensures 17 <= attempts ==> BackoffMs(base, attempts) == MAX_BACKOFF_MS
  {
    var p := Pow2(attempts - 1);
    assert base * (2 * p) == 2 * (base * p);
    if 17 <= attempts {
      Pow2Monotone(16, attempts - 1);
      assert Pow2(16) == 65536 by { assert Pow2(12) == 4096; }
      assert p <= base * p by { MulGrows(base, p); }
    }
  }

  lemma MulGrows(a: nat, b: nat)
    requires 1 <= a
    ensures b <= a * b
  {
    assert a * b == b + (a - 1) * b;
  }

  lemma {:induction false} Pow2Monotone(m: nat, n: nat)
    requires m <= n
    ensures Pow2(m) <= Pow2(n)
    decreases n - m
  {
    if m < n { Pow2Monotone(m, n - 1); }
  }
}
