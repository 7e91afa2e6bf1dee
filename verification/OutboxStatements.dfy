/**
 What each statement of the outbox leaves of each row, and the place in the queue that follows
 from it.
 */
module OutboxStatements {
  import opened Base
  import opened Outbox

  /** The row is the one the worker's current event is about, and still under the worker's lock. */
  predicate Held(s: State, w: WorkerId, id: EventId) {
    && PhaseOf(s, w).Working? && |PhaseOf(s, w).batch| > 0 && PhaseOf(s, w).batch[0].id == id
    && id in s.rows && s.rows[id].status == PROCESSING && s.rows[id].lockedBy == Some(w)
  }

  /** Which of the four an enabled action leaves of one row; every other action leaves it as it is. */
  predicate Leaves(c: Config, s: State, a: Action, id: EventId, r': Row)
    requires id in s.rows
  {
    var r := s.rows[id];
    match a
    case ClaimBatch(w, ids, _) => r' == if id in ids then TakenRow(r, w, s.clock) else r
    case MarkProcessed(w) => r' == if Held(s, w, id) then DoneRow(r, s.clock) else r
    case MarkProcessedThrows(w, applied, _) => r' == if applied && Held(s, w, id) then DoneRow(r, s.clock) else r
    case MarkFailure(w) =>
      if !Held(s, w, id) || !PhaseOf(s, w).verdict.Thrown? then r' == r
      else
        var claim, error := PhaseOf(s, w).batch[0], PhaseOf(s, w).verdict.error;
        if claim.attempts < c.maxAttempts
        then r' == AgainRow(r, s.clock + BackoffMs(c.backoffBaseMs, claim.attempts), error)
        else r' == LostRow(r, error)
    case _ => r' == r
  }

  /** In every reachable state: what each action leaves of each row. */
  lemma EveryStatement(c: Config, acts: seq<Action>, a: Action, id: EventId)
    requires c.Valid() && id in Run(c, acts).rows && Enabled(c, Run(c, acts), a)
    ensures var s, s' := Run(c, acts), Run(c, acts + [a]);
            id in s'.rows && Leaves(c, s, a, id, s'.rows[id])
  {
    assert (acts + [a])[..|acts|] == acts;
  }

  /** An enqueued event is due at once and has not been tried. */
  lemma EnqueuedRow(c: Config, s: State, id: EventId)
    requires Enabled(c, s, Enqueue(id))
    ensures Step(c, s, Enqueue(id)).rows == s.rows[id := Row(s.clock, s.clock, PENDING, None, None, 0, None, None)]
  {}

  /** The time at which an event was enqueued. */
  function BornAt(c: Config, acts: seq<Action>, id: EventId): int {
    if |acts| == 0 then 0
    else
      var front := acts[..|acts| - 1];
      if id in Run(c, front).rows then BornAt(c, front, id) else Run(c, front).clock
  }

  /** A row keeps its place in the queue for good: its creation time is that of its enqueueing. */
  lemma {:induction false} PlaceInQueueStays(c: Config, acts: seq<Action>, id: EventId)
    requires c.Valid() && id in Run(c, acts).rows
    ensures Run(c, acts).rows[id].createdAt == BornAt(c, acts, id)
  {
    if |acts| > 0 {
      var front, last := acts[..|acts| - 1], acts[|acts| - 1];
      assert acts == front + [last];
      if id in Run(c, front).rows {
        PlaceInQueueStays(c, front, id);
        if Enabled(c, Run(c, front), last) { EveryStatement(c, front, last, id); }
      }
    }
  }

  /** The same in any continuation. */
  lemma {:induction false} PlaceInQueueIsKept(c: Config, acts: seq<Action>, more: seq<Action>, id: EventId)
    requires c.Valid() && id in Run(c, acts).rows
    ensures id in Run(c, acts + more).rows
    ensures Run(c, acts + more).rows[id].createdAt == Run(c, acts).rows[id].createdAt
    decreases |more|
  {
    if |more| == 0 {
      assert acts + more == acts;
    } else {
      var front, last := more[..|more| - 1], more[|more| - 1];
      PlaceInQueueIsKept(c, acts, front, id);
      assert acts + more == acts + front + [last];
      assert (acts + front + [last])[..|acts + front|] == acts + front;
      if Enabled(c, Run(c, acts + front), last) { EveryStatement(c, acts + front, last, id); }
    }
  }

  /** Time passes, crashes happen at any time, and a delivery is what a dispatch without an error is. */
  lemma AroundTheRows(c: Config, s: State, ms: nat, w: WorkerId, error: string)
    ensures Step(c, s, Elapse(ms)) == s.(clock := s.clock + ms)
    ensures Step(c, s, Crash(w)) == s.(workers := s.workers[w := Idle])
    ensures Enabled(c, s, Dispatch(w, None)) ==>
              var p, s' := PhaseOf(s, w), Step(c, s, Dispatch(w, None));
              && s'.rows == s.rows && PhaseOf(s', w) == p.(verdict := Delivered)
              && s'.ledger[p.batch[0].id].deliveries == s.ledger[p.batch[0].id].deliveries + 1
    ensures Enabled(c, s, Dispatch(w, Some(error))) ==>
              var s' := Step(c, s, Dispatch(w, Some(error)));
              s'.rows == s.rows && s'.ledger == s.ledger && PhaseOf(s', w) == PhaseOf(s, w).(verdict := Thrown(error))
  {}
}
