/**
 The search for a free slot: while some other appointment of the organisation overlaps the
 window, move the window to where that appointment ends.
 */
module SlotSearch {
  import opened Base

  type Instant = int
  type Id = nat

  datatype Appointment = Appointment(id: Id, orgId: nat, startsAt: Instant, endsAt: Instant)

  /** What a search is for: a window of this length in this organisation, ignoring one row. */
  datatype Request = Request(orgId: nat, duration: int, preserve: Option<Id>)

  /** The filter of the query, for the window that starts at `start`. */
  predicate Conflicts(req: Request, start: Instant, a: Appointment) {
    && a.orgId == req.orgId
    && req.preserve != Some(a.id)
    && a.startsAt < start + req.duration
    && a.endsAt > start
  }

  predicate Free(req: Request, rows: seq<Appointment>, start: Instant) {
    forall a <- rows :: !Conflicts(req, start, a)
  }

  /** The order of the query: by start, then by id. */
  predicate Before(a: Appointment, b: Appointment) {
    a.startsAt < b.startsAt || (a.startsAt == b.startsAt && a.id <= b.id)
  }

  /** The first conflicting row in the order of the query. */
  function FirstConflict(req: Request, rows: seq<Appointment>, start: Instant): (r: Option<Appointment>)
    ensures r.None? <==> Free(req, rows, start)
    ensures r.Some? ==> r.value in rows && Conflicts(req, start, r.value)
    ensures r.Some? ==> forall a <- rows :: Conflicts(req, start, a) ==> Before(r.value, a)
    ensures r.Some? ==>
              forall a <- rows :: Conflicts(req, start, a) ==>
                r.value.startsAt < a.startsAt || (r.value.startsAt == a.startsAt && r.value.id <= a.id)
  {
    if rows == [] then None
    else
      var rest := FirstConflict(req, rows[1..], start);
      assert rows == [rows[0]] + rows[1..];
      if Conflicts(req, start, rows[0]) && (rest.None? || Before(rows[0], rest.value)) then Some(rows[0])
      else rest
  }

  /** How many rows end after an instant: what falls at every round of the search. */
  function EndingAfter(rows: seq<Appointment>, t: Instant): nat {
    if rows == [] then 0 else (if rows[0].endsAt > t then 1 else 0) + EndingAfter(rows[1..], t)
  }

  lemma {:induction false} LaterLeavesFewer(rows: seq<Appointment>, t: Instant, a: Appointment)
    requires a in rows && a.endsAt > t
    ensures EndingAfter(rows, a.endsAt) < EndingAfter(rows, t)
  {
    NoMoreLater(rows[1..], t, a.endsAt);
    if a != rows[0] {
      assert a in rows[1..];
      LaterLeavesFewer(rows[1..], t, a);
    }
  }

  lemma {:induction false} NoMoreLater(rows: seq<Appointment>, t: Instant, u: Instant)
    requires t <= u
    ensures EndingAfter(rows, u) <= EndingAfter(rows, t)
  {
    if rows != [] { NoMoreLater(rows[1..], t, u); }
  }

  /** Skipping to the end of a conflicting row skips no free window. */
  lemma SkipsNothingFree(req: Request, rows: seq<Appointment>, start: Instant, a: Appointment, s: Instant)
    requires a in rows && Conflicts(req, start, a) && start <= s < a.endsAt
    ensures !Free(req, rows, s)
  {
    assert Conflicts(req, s, a);
  }

  /** `start` is the earliest free window at or after `desired`. */
  predicate Earliest(req: Request, rows: seq<Appointment>, desired: Instant, start: Instant) {
    && desired <= start
    && Free(req, rows, start)
    && forall s :: desired <= s < start ==> !Free(req, rows, s)
  }

  /** Another appointment of the organisation begins before the window ends and ends after the window begins. */
  predicate Blocked(rows: seq<Appointment>, orgId: nat, preserve: Option<Id>, start: Instant, duration: int) {
    exists a <- rows ::
      a.orgId == orgId && preserve != Some(a.id) && a.startsAt < start + duration && start < a.endsAt
  }

  lemma BlockedExactly(req: Request, rows: seq<Appointment>, start: Instant)
    ensures Blocked(rows, req.orgId, req.preserve, start, req.duration) <==> !Free(req, rows, start)
  {
    if !Free(req, rows, start) {
      var a :| a in rows && Conflicts(req, start, a);
      assert a.orgId == req.orgId;
    }
    if Blocked(rows, req.orgId, req.preserve, start, req.duration) {
      var a :| a in rows && a.orgId == req.orgId && req.preserve != Some(a.id)
               && a.startsAt < start + req.duration && start < a.endsAt;
      assert Conflicts(req, start, a);
    }
  }

  /** The loop of the program. It ends on every finite table, after at most one round a row. */
  method ResolveNonOverlappingWindow(rows: seq<Appointment>, orgId: nat,
                                     desiredStartsAt: Instant, desiredEndsAt: Instant,
                                     preserve: Option<Id>)
    returns (startsAt: Instant, endsAt: Instant)
    ensures endsAt - startsAt == desiredEndsAt - desiredStartsAt
    ensures Earliest(Request(orgId, desiredEndsAt - desiredStartsAt, preserve), rows, desiredStartsAt, startsAt)
    ensures startsAt == desiredStartsAt || exists a <- rows :: a.orgId == orgId && a.endsAt == startsAt
    // nothing else of the organisation is in the window, and something is in every earlier one
    ensures desiredStartsAt <= startsAt
    ensures forall a <- rows :: a.orgId == orgId && preserve != Some(a.id) ==>
              a.endsAt <= startsAt || endsAt <= a.startsAt
    ensures var duration := desiredEndsAt - desiredStartsAt;
            forall s :: desiredStartsAt <= s < startsAt ==> Blocked(rows, orgId, preserve, s, duration)
  {
    var duration := desiredEndsAt - desiredStartsAt;
    ghost var req := Request(orgId, duration, preserve);
    startsAt, endsAt := desiredStartsAt, desiredEndsAt;
    var conflict := FirstConflict(Request(orgId, duration, preserve), rows, startsAt);
    while conflict.Some?
      invariant endsAt - startsAt == duration && desiredStartsAt <= startsAt
      invariant conflict == FirstConflict(req, rows, startsAt)
      invariant forall s :: desiredStartsAt <= s < startsAt ==> !Free(req, rows, s)
      invariant startsAt == desiredStartsAt || exists a <- rows :: a.orgId == orgId && a.endsAt == startsAt
      decreases EndingAfter(rows, startsAt)
    {
      var a := conflict.value;
      LaterLeavesFewer(rows, startsAt, a);
      forall s | startsAt <= s < a.endsAt ensures !Free(req, rows, s) {
        SkipsNothingFree(req, rows, startsAt, a, s);
      }
      startsAt := a.endsAt;
      endsAt := startsAt + duration;
      conflict := FirstConflict(Request(orgId, duration, preserve), rows, startsAt);
    }
    forall a <- rows | a.orgId == orgId && preserve != Some(a.id)
      ensures a.endsAt <= startsAt || endsAt <= a.startsAt
    {
      assert !Conflicts(req, startsAt, a);
    }
    forall s | desiredStartsAt <= s < startsAt ensures Blocked(rows, orgId, preserve, s, duration) {
      BlockedExactly(req, rows, s);
    }
  }

  /** The answer does not depend on the order of the rows, nor on which conflict is taken first. */
  lemma EarliestIsUnique(req: Request, rows: seq<Appointment>, others: seq<Appointment>,
                         desired: Instant, s: Instant, t: Instant)
    requires Earliest(req, rows, desired, s) && Earliest(req, others, desired, t)
    requires forall a :: a in rows <==> a in others
    ensures s == t
  {
    assert Free(req, others, s) && Free(req, rows, t);
  }

  // ---------------------------------------------------------------- what conflicting means

  predicate Covers(from: Instant, to: Instant, t: Instant) { from <= t < to }

  /** For windows and rows that last, the filter says exactly: they share an instant. */
  lemma ConflictMeansSharedInstant(req: Request, start: Instant, a: Appointment)
    requires req.duration > 0 && a.startsAt < a.endsAt
    requires a.orgId == req.orgId && req.preserve != Some(a.id)
    ensures Conflicts(req, start, a) <==>
              exists t :: Covers(start, start + req.duration, t) && Covers(a.startsAt, a.endsAt, t)
  {
    var t := Max(start, a.startsAt);
    if Conflicts(req, start, a) {
      assert Covers(start, start + req.duration, t) && Covers(a.startsAt, a.endsAt, t);
    }
  }

  predicate Apart(a: Appointment, b: Appointment) {
    a.orgId != b.orgId || a.endsAt <= b.startsAt || b.endsAt <= a.startsAt
  }

  /** No two rows share an id, and no two of one organisation overlap. */
  predicate Schedule(rows: seq<Appointment>) {
    forall i, j :: 0 <= i < j < |rows| ==> rows[i].id != rows[j].id && Apart(rows[i], rows[j])
  }

  /** The table after a row is written: in place of the row with its id, or at the end. */
  function Written(rows: seq<Appointment>, row: Appointment): seq<Appointment> {
    if rows == [] then [row]
    else if rows[0].id == row.id then [row] + rows[1..]
    else [rows[0]] + Written(rows[1..], row)
  }

  lemma {:induction false} WrittenKeepsTheRest(rows: seq<Appointment>, row: Appointment)
    requires Schedule(rows)
    ensures forall a :: a in Written(rows, row) <==> a == row || (a in rows && a.id != row.id)
  {
    if rows != [] {
      assert forall a :: a in rows <==> a == rows[0] || a in rows[1..];
      if rows[0].id != row.id { WrittenKeepsTheRest(rows[1..], row); }
    }
  }

  /** Writing the window that was found keeps the organisation's appointments apart. */
  lemma {:induction false} WrittenStaysASchedule(req: Request, rows: seq<Appointment>, row: Appointment)
    requires Schedule(rows) && Free(req, rows, row.startsAt)
    requires row.orgId == req.orgId && row.endsAt == row.startsAt + req.duration
    requires forall a <- rows :: a.id == row.id ==> req.preserve == Some(a.id)
    requires req.preserve.Some? ==> req.preserve.value == row.id
    ensures Schedule(Written(rows, row))
  {
    if rows != [] {
      if rows[0].id == row.id {
        forall j | 0 < j < |rows| ensures rows[j].id != row.id && Apart(row, rows[j]) {
          assert rows[j] in rows && !Conflicts(req, row.startsAt, rows[j]);
        }
      } else {
        WrittenStaysASchedule(req, rows[1..], row);
        WrittenKeepsTheRest(rows[1..], row);
        assert !Conflicts(req, row.startsAt, rows[0]);
        var w := Written(rows[1..], row);
        forall j | 0 <= j < |w| ensures rows[0].id != w[j].id && Apart(rows[0], w[j]) {
          assert w[j] in w;
        }
      }
    }
  }

  /** The appointments of the seed, written one after the other. */
  class AppointmentTable {
    var rows: seq<Appointment>

    /** Find the window, then update the row found before or create one with a new id. */
    method Place(found: Option<Id>, newId: Id, orgId: nat, startsAt: Instant, endsAt: Instant)
      returns (row: Appointment)
      requires Schedule(rows)
      requires found.Some? ==> exists a <- rows :: a.id == found.value
      requires found.None? ==> forall a <- rows :: a.id != newId
      modifies this
      ensures Schedule(rows)
      ensures row.orgId == orgId && row.endsAt - row.startsAt == endsAt - startsAt
      ensures row.id == if found.Some? then found.value else newId
      ensures Earliest(Request(orgId, endsAt - startsAt, found), old(rows), startsAt, row.startsAt)
      ensures forall a :: a in rows <==> a == row || (a in old(rows) && a.id != row.id)
    {
      var s, e := ResolveNonOverlappingWindow(rows, orgId, startsAt, endsAt, found);
      row := Appointment(if found.Some? then found.value else newId, orgId, s, e);
      WrittenKeepsTheRest(rows, row);
      WrittenStaysASchedule(Request(orgId, endsAt - startsAt, found), rows, row);
      rows := Written(rows, row);
    }
  }
}
