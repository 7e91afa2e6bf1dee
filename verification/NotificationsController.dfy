/**
 The request handler of a notification stream as the program runs it: register, look for the
 cursor, fetch the page, write it row by row, and hand over to the hub, while database,
 transport, socket and browser act at every wait. It is proved to be nothing but its own
 steps of the protocol in `StreamHandoff`.
 */
module NotificationsControllers {
  import opened Base
  import opened StreamConnections
  import opened StreamDrains
  import opened StreamHandoff

  /** How many writes the socket takes before it first refuses one, out of n. */
  function Taken(accepts: nat -> bool, n: nat): (k: nat)
    ensures k <= n && (forall i: nat :: i < k ==> accepts(i)) && (k < n ==> !accepts(k))
  {
    if n == 0 then 0
    else var k := Taken(accepts, n - 1); if k < n - 1 || !accepts(n - 1) then k else n
  }

  /** The steps of the request handler itself; all others go on while it waits. */
  predicate HandlerStep(a: Action) {
    !(a.Persist? || a.Publish? || a.Chain? || a.BrowserCloses?)
  }

  function Own(acts: seq<Action>): seq<Action> {
    if acts == [] then []
    else Own(acts[..|acts| - 1]) + if HandlerStep(acts[|acts| - 1]) then [acts[|acts| - 1]] else []
  }

  predicate SameHandler(s: State, s': State) {
    && s'.handler == s.handler && s'.marker == s.marker && s'.direct == s.direct
    && s'.from == s.from && s'.page == s.page && s'.baseline == s.baseline && s.db <= s'.db
  }

  lemma {:induction false} OthersKeepHandler(s: State, acts: seq<Action>)
    requires forall a :: a in acts ==> !HandlerStep(a)
    ensures SameHandler(s, RunFrom(s, acts)) && Own(acts) == []
  {
    if acts != [] {
      OthersKeepHandler(s, acts[..|acts| - 1]);
      assert acts[|acts| - 1] in acts;
    }
  }

  lemma {:induction false} Append(s: State, a: seq<Action>, b: seq<Action>)
    ensures RunFrom(s, a + b) == RunFrom(RunFrom(s, a), b) && Own(a + b) == Own(a) + Own(b)
    decreases |b|
  {
    if b == [] {
      assert a + b == a;
    } else {
      assert (a + b)[..|a + b| - 1] == a + b[..|b| - 1];
      Append(s, a, b[..|b| - 1]);
    }
  }

  /** The writes of a loop over n rows: up to the first that is refused. */
  function Writes(n: nat): seq<Action> { if n == 0 then [] else Writes(n - 1) + [WriteDirect(true)] }

  function Tried(accepts: nat -> bool, n: nat): seq<Action> {
    Writes(Taken(accepts, n)) + if Taken(accepts, n) < n then [WriteDirect(false)] else []
  }

  /** What one replay does, by what its two queries returned. */
  function ReplayActions(marker: Marker, found: Option<Event>, rows: seq<Event>, accepts: nat -> bool): seq<Action> {
    if !marker.Id? then [WriteDirect(accepts(0))]
    else if found.None? then [Lookup(None), WriteDirect(accepts(0))]
    else if |rows| > REPLAY_LIMIT then [Lookup(found), Query(rows), WriteDirect(accepts(0))]
    else [Lookup(found), Query(rows)] + Tried(accepts, |rows|)
  }

  /** What the socket has after a replay. */
  function Sent(s: State, accepts: nat -> bool): seq<Frame> {
    if s.from.Some? then Frames(s.page[..Taken(accepts, |s.page|)])
    else if accepts(0) && s.marker.Some? then [Greet(s.marker.value)]
    else []
  }

  /** How a replay ends: with the ids it sent when every write was taken, otherwise in a refusal. */
  predicate Ends(s: State, accepts: nat -> bool, replayed: Option<set<EventId>>) {
    && s.direct == Sent(s, accepts)
    && (replayed.Some? <==> Enabled(s, Action.FinishReplay))
    && (replayed.Some? ==> replayed.value == ReplayedIds(s))
    && (replayed.None? ==> s.handler.Failing?)
  }

  predicate AtStart(s: State, marker: Marker) {
    && s.marker == Some(marker) && s.handler == FirstHandler(marker)
    && s.direct == [] && s.page == [] && s.from.None?
  }

  /** The first i rows of the page are written, and nothing else has changed for the handler. */
  predicate Sending(s: State, s0: State, i: nat)
    requires i <= |s0.page|
  {
    && s.page == s0.page && s.marker == s0.marker && s.from == s0.from
    && s.handler == Replaying(s0.page[i..]) && s.direct == Frames(s0.page[..i])
  }

  lemma OneMoreWrite(x: seq<Action>, i: nat)
    ensures x + Writes(i) + [WriteDirect(true)] == x + Writes(i + 1)
    ensures x + Writes(i) + [WriteDirect(false)] == x + (Writes(i) + [WriteDirect(false)])
  {}

  lemma JoinTwo(x: seq<Action>, a: Action, b: Action)
    ensures x + [a] + [b] == x + [a, b]
  {}

  lemma JoinAfter(x: seq<Action>, a: Action, y: seq<Action>)
    ensures x + [a] + y == x + ([a] + y)
  {}

  lemma JoinLookup(x: seq<Action>, a: Action, b: Action, y: seq<Action>)
    ensures x + [a] + ([b] + y) == x + ([a, b] + y)
  {}

  /** The first events after the cursor, by time and id, one after the other, and 101 of them if one is left out. */
  ghost predicate FirstAfter(db: set<Event>, cursor: Event, page: seq<Event>) {
    && |page| <= 101
    && (forall e :: e in page ==> e in db && Follows(cursor, e))
    && (forall i, j :: 0 <= i < j < |page| ==> Follows(page[i], page[j]))
    && (forall e :: e in db && Follows(cursor, e) && e !in page ==> |page| == 101 && AllFollow(page, e))
  }

  predicate AllFollow(page: seq<Event>, e: Event) { forall r :: r in page ==> Follows(r, e) }

  lemma PageIsFirstAfter(db: set<Event>, cursor: Event, page: seq<Event>)
    requires IsPage(db, cursor, page)
    ensures FirstAfter(db, cursor, page)
  {}

  /** The handler of one stream, and the world it runs in. */
  class NotificationsController {
    var rows: set<Event>
    var world: State
    ghost var trace: seq<Action>
    ghost const db0: set<Event>
    ghost const owed0: set<Event>

    ghost predicate Valid()
      reads this
    {
      UniqueIds(db0) && owed0 <= db0 && world == RunFrom(Start(db0, owed0), trace) && rows == world.db
    }

    constructor (db: set<Event>, owed: set<Event>)
      requires UniqueIds(db) && owed <= db
      ensures Valid() && world == Start(db, owed) && trace == []
    {
      rows, world, trace := db, Start(db, owed), [];
      db0, owed0 := db, owed;
    }

    /** The cursor query: the row with the id, if there is one. */
    method FindFirst(id: EventId) returns (found: Option<Event>)
      ensures IsRowOf(rows, id, found)
    {
      found := None;
      var rest := rows;
      while rest != {}
        invariant rest <= rows && forall e :: e in rows && e !in rest ==> e.eventId != id
        decreases rest
      {
        var e :| e in rest;
        if e.eventId == id { return Some(e); }
        rest := rest - {e};
      }
    }

    /** The page query: the rows after the cursor, in order, at most 101 of them. */
    method FindMany(cursor: Event) returns (page: seq<Event>)
      requires UniqueIds(rows)
      ensures IsPage(rows, cursor, page)
      ensures FirstAfter(rows, cursor, page)
    {
      var rest := After(rows, cursor);
      ghost var all := rest;
      var found: seq<Event> := [];
      while rest != {}
        invariant rest <= all && DistinctIds(found)
        invariant forall e :: e in found <==> e in all && e !in rest
        decreases rest
      {
        var e :| e in rest;
        assert forall x :: x in found ==> x != e && x in rows;
        found := found + [e];
        rest := rest - {e};
      }
      SortAscends(found);
      var sorted := Sort(found);
      PrefixIsPage(rows, cursor, sorted);
      page := if |sorted| <= REPLAY_LIMIT + 1 then sorted else sorted[..REPLAY_LIMIT + 1];
      PageIsFirstAfter(rows, cursor, page);
    }

    /** Whatever database, transport, socket and browser do while the handler waits. */
    method Await(acts: seq<Action>)
      requires Valid() && forall a :: a in acts ==> !HandlerStep(a)
      modifies this
      ensures Valid() && SameHandler(old(world), world) && Own(trace) == old(Own(trace))
    {
      OthersKeepHandler(world, acts);
      Append(Start(db0, owed0), trace, acts);
      world := RunFrom(world, acts);
      rows := world.db;
      trace := trace + acts;
    }

    /** A step of the handler itself. */
    method Record(a: Action)
      requires Valid() && HandlerStep(a) && Enabled(world, a)
      modifies this
      ensures Valid() && world == Next(old(world), a) && Own(trace) == old(Own(trace)) + [a]
    {
      assert (trace + [a])[..|trace|] == trace;
      trace := trace + [a];
      world := Next(world, a);
      rows := world.db;
    }

    /** The single write of a replay that has no page to send. */
    method WriteGreeting(ok: bool) returns (replayed: Option<set<EventId>>)
      requires Valid() && world.handler.Greeting? && world.direct == [] && world.page == []
      modifies this
      ensures Valid() && Own(trace) == old(Own(trace)) + [WriteDirect(ok)]
      ensures world.marker == old(world.marker) && world.page == [] && world.from.None? && world.marker.Some?
      ensures world.direct == if ok then [Greet(world.marker.value)] else []
      ensures world.handler == if ok then Replayed else Failing
      ensures replayed == if ok then Some({}) else None
    {
      StreamHandoff.RunKeepsInv(db0, owed0, trace);
      Record(WriteDirect(ok));
      replayed := if ok then Some({}) else None;
    }

    /** The loop over the page. */
    method WriteRows(accepts: nat -> bool, others: nat -> seq<Action>) returns (replayed: Option<set<EventId>>)
      requires Valid() && world.handler == Replaying(world.page) && world.direct == [] && world.from.Some?
      requires forall k: nat, a :: a in others(k) ==> !HandlerStep(a)
      modifies this
      ensures Valid() && Own(trace) == old(Own(trace)) + Tried(accepts, |world.page|)
      ensures world.marker == old(world.marker) && world.page == old(world.page) && world.from == old(world.from)
      ensures world.direct == Frames(world.page[..Taken(accepts, |world.page|)])
      ensures var all := Taken(accepts, |world.page|) == |world.page|;
              && world.handler == (if all then Replaying([]) else Failing)
              && replayed == if all then Some(Ids(world.page)) else None
    {
      var page := world.page;
      ghost var before, s0 := Own(trace), world;
      var ids: set<EventId> := {};
      var i := 0;
      assert page[..0] == [] && page[0..] == page;
      while i < |page|
        invariant 0 <= i <= |page| && Valid() && ids == Ids(page[..i]) && Sending(world, s0, i)
        invariant Own(trace) == before + Writes(i)
        invariant forall j: nat :: j < i ==> accepts(j)
      {
        ids := ids + {page[i].eventId};
        var ok := accepts(i);
        WriteRow(s0, i, ok, others(i));
        OneMoreWrite(before, i);
        if !ok {
          TakenIs(accepts, |page|, i);
          return None;
        }
        i := i + 1;
      }
      TakenIs(accepts, |page|, |page|);
      assert page[..|page|] == page && page[|page|..] == [];
      assert Writes(|page|) + [] == Writes(|page|);
      replayed := Some(ids);
    }

    /** One round of the loop. */
    method WriteRow(ghost s0: State, i: nat, ok: bool, others: seq<Action>)
      requires Valid() && i < |s0.page| && Sending(world, s0, i) && forall a :: a in others ==> !HandlerStep(a)
      modifies this
      ensures Valid() && Own(trace) == old(Own(trace)) + [WriteDirect(ok)]
      ensures Ids(s0.page[..i + 1]) == Ids(s0.page[..i]) + {s0.page[i].eventId}
      ensures ok ==> Sending(world, s0, i + 1)
      ensures !ok ==>
                && world.handler.Failing? && world.direct == Frames(s0.page[..i])
                && world.page == s0.page && world.marker == s0.marker && world.from == s0.from
    {
      WroteOne(s0.page, i);
      Await(others);
      Record(WriteDirect(ok));
    }

    /** The replay after the row of the named id was found: query, and write the page or greet. */
    method ReplayAfter(accepts: nat -> bool, others: nat -> seq<Action>)
      returns (replayed: Option<set<EventId>>, ghost page: seq<Event>)
      requires Valid() && world.handler.Querying? && world.direct == [] && world.page == [] && world.from.None?
      requires forall k: nat, a :: a in others(k) ==> !HandlerStep(a)
      modifies this
      ensures Valid() && world.marker == old(world.marker)
      ensures Own(trace) == old(Own(trace)) + ([Query(page)] + if |page| > REPLAY_LIMIT then [WriteDirect(accepts(0))]
                                                               else Tried(accepts, |page|))
      ensures world.from.Some? <==> |page| <= REPLAY_LIMIT
      ensures Ends(world, accepts, replayed)
    {
      ghost var before := Own(trace);
      Await(others(0));
      StreamHandoff.RunKeepsInv(db0, owed0, trace);
      var fetched := FindMany(world.handler.cursor);
      page := fetched;
      Record(Query(fetched));
      if |fetched| > REPLAY_LIMIT {
        replayed := WriteGreeting(accepts(0));
        JoinAfter(before, Query(fetched), [WriteDirect(accepts(0))]);
        return;
      }
      replayed := WriteRows(accepts, k => if k >= 0 then others(k + 1) else []);
      JoinAfter(before, Query(fetched), Tried(accepts, |fetched|));
    }

    /**
     The replay of one request. Whatever happens meanwhile, its own steps are the cursor query,
     the page query and the writes, in order and up to the first refused write; it returns the
     ids of the page exactly when all of it was taken, and no ids after a greeting.
     */
    method Replay(marker: Marker, accepts: nat -> bool, others: nat -> seq<Action>)
      returns (replayed: Option<set<EventId>>, ghost found: Option<Event>, ghost page: seq<Event>)
      requires Valid() && AtStart(world, marker)
      requires forall k: nat, a :: a in others(k) ==> !HandlerStep(a)
      modifies this
      ensures Valid() && world.marker == Some(marker)
      ensures Own(trace) == old(Own(trace)) + ReplayActions(marker, found, page, accepts)
      ensures world.from.Some? <==> marker.Id? && found.Some? && |page| <= REPLAY_LIMIT
      ensures Ends(world, accepts, replayed)
    {
      ghost var before := Own(trace);
      found, page := None, [];
      if !marker.Id? {
        replayed := WriteGreeting(accepts(0));
        return;
      }
      Await(others(0));
      var cursor := FindFirst(marker.id);
      found := cursor;
      Record(Lookup(cursor));
      if cursor.None? {
        replayed := WriteGreeting(accepts(0));
        JoinTwo(before, Lookup(None), WriteDirect(accepts(0)));
        return;
      }
      replayed, page := ReplayAfter(accepts, k => if k >= 0 then others(k + 1) else []);
      JoinLookup(before, Lookup(cursor), Query(page), if |page| > REPLAY_LIMIT then [WriteDirect(accepts(0))]
                                                      else Tried(accepts, |page|));
      assert [Lookup(cursor), Query(page)] + [WriteDirect(accepts(0))]
          == [Lookup(cursor), Query(page), WriteDirect(accepts(0))];
    }

    /**
     The stream up to the drain: register, replay, and hand over to the hub, or refuse. In the
     end the stream is draining, or it is closed.
     */
    method Stream(marker: Marker, accepts: nat -> bool, told: bool, others: nat -> seq<Action>)
      requires Valid() && world.handler.Unregistered?
      requires forall k: nat, a :: a in others(k) ==> !HandlerStep(a)
      modifies this
      ensures Valid() && world.marker == Some(marker)
      ensures world.handler.Draining? || (world.handler.Ended? && world.conn.closed)
    {
      StreamHandoff.RunKeepsInv(db0, owed0, trace);
      Record(Register(marker));
      var replayed, found, page := Replay(marker, accepts, others);
      Await(others(103));
      if replayed.Some? { Record(Action.FinishReplay); }
      if !world.handler.Draining? && !world.handler.Ended? {
        Await(others(104));
        Record(GiveUp(told));
      }
      StreamHandoff.RunKeepsInv(db0, owed0, trace);
    }
  }

  lemma TakenIs(accepts: nat -> bool, n: nat, k: nat)
    requires k <= n && (forall j: nat :: j < k ==> accepts(j)) && (k < n ==> !accepts(k))
    ensures Taken(accepts, n) == k
  {}

  lemma WroteOne(page: seq<Event>, i: nat)
    requires i < |page|
    ensures page[..i + 1] == page[..i] + [page[i]] && page[i..][0] == page[i] && page[i..][1..] == page[i + 1..]
    ensures Frames(page[..i + 1]) == Frames(page[..i]) + [EventFrame(page[i])]
    ensures Ids(page[..i + 1]) == Ids(page[..i]) + {page[i].eventId}
  {
    assert page[..i + 1] == page[..i] + [page[i]];
  }

  /** The start of all rows after the cursor, sorted, is the page. */
  lemma PrefixIsPage(db: set<Event>, cursor: Event, sorted: seq<Event>)
    requires Ascending(sorted) && forall e :: e in sorted <==> e in After(db, cursor)
    ensures IsPage(db, cursor, if |sorted| <= REPLAY_LIMIT + 1 then sorted else sorted[..REPLAY_LIMIT + 1])
  {
    if |sorted| <= REPLAY_LIMIT + 1 {
      assert forall e :: e in db && Before(cursor, e) ==> e in After(db, cursor);
    } else {
      var n := REPLAY_LIMIT + 1;
      var page := sorted[..n];
      assert forall e :: e in page ==> e in sorted;
      forall e, r | e in db && Before(cursor, e) && e !in page && r in page ensures Before(r, e) {
        assert e in After(db, cursor);
        LeftOut(sorted, n, e, r);
      }
    }
  }

  lemma LeftOut(sorted: seq<Event>, n: nat, e: Event, r: Event)
    requires Ascending(sorted) && n <= |sorted| && e in sorted && e !in sorted[..n] && r in sorted[..n]
    ensures Before(r, e)
  {
    var i :| 0 <= i < |sorted| && sorted[i] == e;
    var j :| 0 <= j < n && sorted[..n][j] == r;
    assert forall k | 0 <= k < n :: sorted[k] in sorted[..n];
    assert r == sorted[j];
  }
}
