/**
 The handoff of one stream from replay to live. The connection registers first and queries
 the database afterwards; events are persisted before they are published; whatever is
 delivered meanwhile waits in the connection's buffer. Database, transport, socket and
 browser may act between any two steps of the request handler.
 */
module StreamHandoff {
  import opened Base
  import opened StreamConnections
  import opened StreamDrains

  const REPLAY_LIMIT: nat := 100

  function Frames(s: seq<Event>): seq<Frame> {
    seq(|s|, i requires 0 <= i < |s| => EventFrame(s[i]))
  }

  // ---------------------------------------------------------------- protocol

  /** The Last-Event-ID header: absent, not a safe id, or an id. */
  datatype Marker = Absent | Unsafe | Id(id: EventId)

  /** Where the request handler is. */
  datatype Handler =
    | Unregistered
    | Looking(id: EventId)
    | Querying(cursor: Event)
    | Greeting(frame: Frame)
    | Replaying(rest: seq<Event>)
    | Replayed
    | Draining(todo: seq<Event>, awaited: Option<nat>)
    | Live
    | Failing
    | Ended

  datatype State = State(
    db: set<Event>,
    owed: set<Event>,           // persisted, not yet delivered to this hub
    conn: Conn,
    handler: Handler,
    gone: bool,                 // the browser closed the response
    marker: Option<Marker>,     // the header the request came with, once registered
    baseline: set<Event>,       // what was persisted when the connection registered
    from: Option<Event>,        // the cursor, once its page turned out to be complete
    page: seq<Event>,           // the rows of that page
    direct: seq<Frame>)         // frames the handler wrote itself, before going live

  function Start(db: set<Event>, owed: set<Event>): State {
    State(db, owed, FRESH, Unregistered, false, None, {}, None, [], [])
  }

  datatype Action =
    | Persist(event: Event)
    | Publish(event: Event)
    | Register(marker: Marker)
    | Lookup(found: Option<Event>)
    | Query(rows: seq<Event>)
    | WriteDirect(ok: bool)
    | FinishReplay
    | DrainNext
    | DrainSettled(result: bool)
    | GiveUp(ok: bool)
    | Chain(step: Step)
    | BrowserCloses

  /** The rows the replay query returns: everything after the cursor in order, cut off after 101. */
  predicate IsPage(db: set<Event>, cursor: Event, rows: seq<Event>) {
    && Ascending(rows) && |rows| <= REPLAY_LIMIT + 1
    && (forall e :: e in rows ==> e in db && Before(cursor, e))
    && (forall e :: e in db && Before(cursor, e) && e !in rows ==> |rows| == REPLAY_LIMIT + 1)
    && (forall e, r :: e in db && Before(cursor, e) && e !in rows && r in rows ==> Before(r, e))
  }

  predicate KnownId(db: set<Event>, id: EventId) {
    exists e :: e in db && e.eventId == id
  }

  /** The row the cursor query returns, if the id belongs to the stream's user. */
  predicate IsRowOf(db: set<Event>, id: EventId, found: Option<Event>) {
    if found.Some? then found.value in db && found.value.eventId == id else !KnownId(db, id)
  }

  function Ids(s: seq<Event>): set<EventId> { set e | e in s :: e.eventId }

  predicate Enabled(s: State, a: Action) {
    match a
    case Persist(e) => !KnownId(s.db, e.eventId)
    case Publish(e) => e in s.db
    case Register(_) => s.handler.Unregistered?
    case Lookup(found) => s.handler.Looking? && IsRowOf(s.db, s.handler.id, found)
    case Query(rows) => s.handler.Querying? && IsPage(s.db, s.handler.cursor, rows)
    case WriteDirect(_) => s.handler.Greeting? || (s.handler.Replaying? && s.handler.rest != [])
    case FinishReplay => s.handler.Replayed? || s.handler == Replaying([])
    case DrainNext => s.handler.Draining? && s.handler.awaited.None?
    case DrainSettled(result) =>
      s.handler.Draining? && s.handler.awaited.Some? && s.handler.awaited.value < s.conn.settled
      && (s.conn.tail ==> result)
    case GiveUp(_) => s.handler.Failing?
    case Chain(step) => !s.handler.Unregistered? && (step.DoRun? || step.DoSettle? || step.DoShutdown?)
    case BrowserCloses => !s.handler.Unregistered?
  }

  /** The frame that stands in for a replay: nothing was asked for, or what was asked for cannot be replayed. */
  function Greet(marker: Marker): Frame { if marker.Absent? then Ready else Resync }

  function FirstHandler(marker: Marker): Handler {
    match marker
    case Absent => Greeting(Ready)
    case Unsafe => Greeting(Resync)
    case Id(id) => Looking(id)
  }

  function AfterRegister(s: State, marker: Marker): State {
    s.(conn := FRESH, baseline := s.db, marker := Some(marker), handler := FirstHandler(marker))
  }

  function AfterLookup(s: State, found: Option<Event>): State {
    s.(handler := if found.Some? then Querying(found.value) else Greeting(Resync))
  }

  function AfterQuery(s: State, rows: seq<Event>): State
    requires s.handler.Querying?
  {
    if |rows| > REPLAY_LIMIT then s.(handler := Greeting(Resync))
    else s.(handler := Replaying(rows), from := Some(s.handler.cursor), page := rows)
  }

  function AfterWrite(s: State, ok: bool): State
    requires s.handler.Greeting? || (s.handler.Replaying? && s.handler.rest != [])
  {
    if !ok then s.(handler := Failing)
    else if s.handler.Greeting? then s.(direct := s.direct + [s.handler.frame], handler := Replayed)
    else s.(direct := s.direct + [EventFrame(s.handler.rest[0])], handler := Replaying(s.handler.rest[1..]))
  }

  /** The set replay() returned: the ids of the page's rows, or empty when it only greeted. */
  function ReplayedIds(s: State): set<EventId> { Ids(s.page) }

  function AfterReplay(s: State): State {
    if s.gone then s.(handler := Ended)
    else if s.conn.closed || s.conn.overflowed then s.(conn := EndReplay(s.conn), handler := Failing)
    else s.(conn := EndReplay(s.conn), handler := Draining(Drain(s.conn.pending, ReplayedIds(s)), None))
  }

  function AfterDrainNext(s: State): State
    requires s.handler.Draining?
  {
    if s.handler.todo == [] then s.(handler := Live)
    else
      var frame := EventFrame(s.handler.todo[0]);
      s.(conn := Write(s.conn, frame),
         handler := if Joins(s.conn) then Draining(s.handler.todo[1..], Some(|s.conn.accepted|)) else Failing)
  }

  function Next(s: State, a: Action): State {
    if !Enabled(s, a) then s else
    match a
    case Persist(e) => s.(db := s.db + {e}, owed := s.owed + {e})
    case Publish(e) =>
      s.(owed := s.owed - {e}, conn := if s.handler.Unregistered? then s.conn else Deliver(s.conn, e))
    case Register(marker) => AfterRegister(s, marker)
    case Lookup(found) => AfterLookup(s, found)
    case Query(rows) => AfterQuery(s, rows)
    case WriteDirect(ok) => AfterWrite(s, ok)
    case FinishReplay => AfterReplay(s)
    case DrainNext => AfterDrainNext(s)
    case DrainSettled(result) =>
      s.(handler := if result then Draining(s.handler.todo, None) else Failing)
    case GiveUp(ok) =>
      s.(conn := Close(s.conn), gone := true, handler := Ended,
         direct := if ok && !s.gone then s.direct + [Resync] else s.direct)
    case Chain(step) => s.(conn := Apply(s.conn, step))
    case BrowserCloses => s.(gone := true, conn := Close(s.conn))
  }

  function RunFrom(s: State, acts: seq<Action>): State {
    if |acts| == 0 then s else Next(RunFrom(s, acts[..|acts| - 1]), acts[|acts| - 1])
  }

  // ---------------------------------------------------------------- invariant

  ghost predicate UniqueIds(db: set<Event>) {
    forall a, b :: a in db && b in db && a.eventId == b.eventId ==> a == b
  }

  /** What this stream owes its browser: all persisted since it registered, and with a page what follows the cursor. */
  predicate Due(s: State, e: Event) {
    e in s.db && (e !in s.baseline || (s.from.Some? && Before(s.from.value, e)))
  }

  predicate Covered(s: State, e: Event) {
    || EventFrame(e) in s.direct
    || EventFrame(e) in s.conn.accepted
    || (s.handler.Draining? && e in s.handler.todo)
  }

  predicate Registering(h: Handler) { h.Looking? || h.Querying? || h.Greeting? || h.Replaying? || h.Replayed? }

  /** Before the handoff, an event that is due and delivered is in the page or in the buffer. */
  ghost predicate Buffering(s: State) {
    && s.conn.replaying && s.conn.accepted == []
    && (!s.conn.overflowed ==>
          forall e :: Due(s, e) && e !in s.owed ==> e in s.page || e in s.conn.pending)
    && (forall e :: e in s.conn.pending ==> e in s.db)
  }

  /** The handler has written the page's rows in order, up to the ones still to come. */
  ghost predicate PageWritten(s: State) {
    && (s.from.None? ==> s.page == [])
    && Ascending(s.page) && (forall e :: e in s.page ==> e in s.db)
    && (s.handler.Looking? || s.handler.Querying? || s.handler.Greeting? ==> s.from.None? && s.direct == [])
    && (s.handler.Replaying? ==>
          && s.from.Some? && |s.handler.rest| <= |s.page|
          && var n := |s.page| - |s.handler.rest|;
             s.handler.rest == s.page[n..] && s.direct == Frames(s.page[..n]))
    && (s.handler.Replayed? ==> s.from.None?)
  }

  ghost predicate Handed(s: State) {
    && !s.conn.replaying
    && (s.from.Some? ==> s.direct == Frames(s.page))
    && (forall e :: Due(s, e) && e !in s.owed ==> Covered(s, e))
    && (s.handler.Draining? ==> Ascending(s.handler.todo))
  }

  /** What the handler does is an answer to the marker. */
  predicate MarkerInv(s: State) {
    && (s.marker.None? <==> s.handler.Unregistered?)
    && (s.handler.Looking? ==> s.marker == Some(Id(s.handler.id)))
    && (s.handler.Querying? ==> s.handler.cursor in s.db && s.marker == Some(Id(s.handler.cursor.eventId)))
    && (s.handler.Greeting? ==> s.marker.Some? && s.handler.frame == Greet(s.marker.value))
    && (s.from.Some? ==> s.from.value in s.db && s.marker == Some(Id(s.from.value.eventId)))
    && (s.from.None? && (s.handler.Replayed? || s.handler.Draining? || s.handler.Live?) ==>
          s.marker.Some? && s.direct == [Greet(s.marker.value)])
  }

  ghost predicate HandoffInv(s: State) {
    && UniqueIds(s.db) && s.owed <= s.db && MarkerInv(s)
    && StreamConnections.Inv(s.conn)
    && (Registering(s.handler) ==> PageWritten(s))
    && (Registering(s.handler) && !s.conn.closed ==> Buffering(s))
    && ((s.handler.Draining? || s.handler.Live?) && !s.conn.closed ==> Handed(s))
    && (s.handler.Unregistered? ==> s.page == [] && s.direct == [] && s.from.None? && !s.gone)
    && (s.gone ==> s.conn.closed)
    && (s.handler.Ended? ==> s.conn.closed)
  }

  lemma NextKeepsInv(s: State, a: Action)
    requires HandoffInv(s)
    ensures HandoffInv(Next(s, a))
  {
    if Enabled(s, a) {
      match a
      case Persist(e) => PersistKeepsInv(s, e);
      case Publish(e) => PublishKeepsInv(s, e);
      case FinishReplay => FinishKeepsInv(s);
      case WriteDirect(ok) => WriteKeepsInv(s, ok);
      case Query(rows) => QueryKeepsInv(s, rows);
      case DrainNext => DrainKeepsInv(s);
      case Chain(step) => ChainKeepsInv(s, step);
      case Register(_) =>
      case Lookup(_) =>
      case DrainSettled(_) =>
      case GiveUp(_) =>
      case BrowserCloses =>
    }
  }

  lemma PersistKeepsInv(s: State, e: Event)
    requires HandoffInv(s) && !KnownId(s.db, e.eventId)
    ensures HandoffInv(s.(db := s.db + {e}, owed := s.owed + {e}))
  {}

  lemma PublishKeepsInv(s: State, e: Event)
    requires HandoffInv(s) && e in s.db
    ensures HandoffInv(Next(s, Publish(e)))
  {
    ApplyKeepsInv(s.conn, DoDeliver(e));
  }

  lemma QueryKeepsInv(s: State, rows: seq<Event>)
    requires HandoffInv(s) && s.handler.Querying? && IsPage(s.db, s.handler.cursor, rows)
    ensures HandoffInv(AfterQuery(s, rows))
  {
    var s' := AfterQuery(s, rows);
    if |rows| <= REPLAY_LIMIT { PageIsReady(s, s', rows); }
    if |rows| <= REPLAY_LIMIT && !s.conn.closed { PageHasWhatIsDue(s, s', rows); }
  }

  lemma PageIsReady(s: State, s': State, rows: seq<Event>)
    requires s.handler.Querying? && s.direct == [] && s'.direct == s.direct
    requires IsPage(s.db, s.handler.cursor, rows) && s'.db == s.db && s'.page == rows
    requires s'.from == Some(s.handler.cursor) && s'.handler == Replaying(rows)
    ensures PageWritten(s')
  {
    assert rows[0..] == rows && Frames(rows[..0]) == [];
  }

  lemma PageHasWhatIsDue(s: State, s': State, rows: seq<Event>)
    requires s.handler.Querying? && s.from.None? && s.page == [] && |rows| <= REPLAY_LIMIT && Buffering(s)
    requires IsPage(s.db, s.handler.cursor, rows) && s' == AfterQuery(s, rows)
    ensures Buffering(s')
  {
    if !s'.conn.overflowed {
      forall e | Due(s', e) && e !in s'.owed ensures e in s'.page || e in s'.conn.pending {
        if !Before(s.handler.cursor, e) { assert Due(s, e); }
      }
    }
  }

  lemma WriteKeepsInv(s: State, ok: bool)
    requires HandoffInv(s) && Enabled(s, WriteDirect(ok))
    ensures HandoffInv(AfterWrite(s, ok))
  {
    if ok && s.handler.Replaying? {
      var n := |s.page| - |s.handler.rest|;
      assert s.page[n..][1..] == s.page[n + 1..];
      assert s.page[..n + 1] == s.page[..n] + [s.page[n]];
      assert Frames(s.page[..n + 1]) == Frames(s.page[..n]) + [EventFrame(s.page[n])];
    }
  }

  lemma FinishKeepsInv(s: State)
    requires HandoffInv(s) && Enabled(s, FinishReplay)
    ensures HandoffInv(AfterReplay(s))
  {
    ApplyKeepsInv(s.conn, DoEndReplay);
    if !s.gone && !s.conn.closed && !s.conn.overflowed {
      var s' := AfterReplay(s);
      DrainIsExact(s.conn.pending, ReplayedIds(s));
      assert s.handler.Replaying? ==> s.page[..|s.page|] == s.page;
      forall e | Due(s', e) && e !in s'.owed ensures Covered(s', e) {
        if e in s.page {
          var i :| 0 <= i < |s.page| && s.page[i] == e;
          assert Frames(s.page)[i] == EventFrame(e);
        } else {
          assert e in s.conn.pending;
          assert forall r :: r in s.page && r.eventId == e.eventId ==> r == e;
        }
      }
    }
  }

  lemma DrainKeepsInv(s: State)
    requires HandoffInv(s) && Enabled(s, DrainNext)
    ensures HandoffInv(AfterDrainNext(s))
  {
    if s.handler.todo != [] {
      var frame := EventFrame(s.handler.todo[0]);
      ApplyKeepsInv(s.conn, DoWrite(frame));
      var s' := AfterDrainNext(s);
      if !s'.conn.closed {
        forall e | Due(s', e) && e !in s'.owed ensures Covered(s', e) {
          assert Covered(s, e);
          if e in s.handler.todo {
            var i :| 0 <= i < |s.handler.todo| && s.handler.todo[i] == e;
            if i == 0 {
              assert s'.conn.accepted[|s.conn.accepted|] == EventFrame(e);
            } else {
              assert s.handler.todo[1..][i - 1] == e;
            }
          } else if EventFrame(e) in s.conn.accepted {
            assert EventFrame(e) in s'.conn.accepted;
          }
        }
      }
    }
  }

  lemma ChainKeepsInv(s: State, step: Step)
    requires HandoffInv(s) && Enabled(s, Chain(step))
    ensures HandoffInv(s.(conn := Apply(s.conn, step)))
  {
    ApplyKeepsInv(s.conn, step);
  }

  lemma {:induction false} RunKeepsInv(db: set<Event>, owed: set<Event>, acts: seq<Action>)
    requires UniqueIds(db) && owed <= db
    ensures HandoffInv(RunFrom(Start(db, owed), acts))
  {
    if |acts| > 0 {
      RunKeepsInv(db, owed, acts[..|acts| - 1]);
      NextKeepsInv(RunFrom(Start(db, owed), acts[..|acts| - 1]), acts[|acts| - 1]);
    }
  }

  // ---------------------------------------------------------------- theorems

  /** What the browser asked for: everything after the event it names, and everything from now on. */
  predicate Asked(s: State, e: Event) {
    e in s.db && (e !in s.baseline || AfterNamed(s, e))
  }

  predicate AfterNamed(s: State, e: Event) {
    && s.marker.Some? && s.marker.value.Id?
    && exists c :: c in s.db && c.eventId == s.marker.value.id && Follows(c, e)
  }

  /** Later created, or created at the same time with the higher id. */
  predicate Follows(c: Event, e: Event) {
    c.createdAt < e.createdAt || (c.createdAt == e.createdAt && c.eventId < e.eventId)
  }

  /**
   No silent gap: on every registered stream, each event the browser asked for that the
   transport has delivered was replayed, drained, sent live or is about to be drained; or the
   browser has been told to resync; or the stream is closed, or about to be refused; or its
   replay is still going on.
   */
  lemma NoSilentGap(db: set<Event>, owed: set<Event>, acts: seq<Action>, e: Event)
    requires UniqueIds(db) && owed <= db
    ensures var s := RunFrom(Start(db, owed), acts);
            !s.handler.Unregistered? && Asked(s, e) && e !in s.owed ==>
              || Covered(s, e) || Resync in s.direct
              || s.conn.closed || s.handler.Failing? || Registering(s.handler)
  {
    RunKeepsInv(db, owed, acts);
    var s := RunFrom(Start(db, owed), acts);
    if (s.handler.Draining? || s.handler.Live?) && Asked(s, e) { AskedIsDue(s, e); }
  }

  lemma AskedIsDue(s: State, e: Event)
    requires HandoffInv(s) && (s.handler.Draining? || s.handler.Live?) && Asked(s, e)
    ensures Due(s, e) || s.direct == [Resync]
  {
    if s.from.Some? && AfterNamed(s, e) {
      var c :| c in s.db && c.eventId == s.marker.value.id && Follows(c, e);
      assert c == s.from.value;
    }
  }

  /**
   On an open stream past its handoff the browser was told to resync exactly when it named
   something and got no page; it was greeted as new exactly when it named nothing; and otherwise
   it got the page after the event it named.
   */
  lemma ToldExactly(db: set<Event>, owed: set<Event>, acts: seq<Action>)
    requires UniqueIds(db) && owed <= db
    ensures var s := RunFrom(Start(db, owed), acts);
            (s.handler.Draining? || s.handler.Live?) && !s.conn.closed ==>
              && s.marker.Some?
              && (Resync in s.direct <==> !s.marker.value.Absent? && s.from.None?)
              && (Ready in s.direct <==> s.marker.value.Absent?)
              && (s.from.None? ==> s.direct == [Greet(s.marker.value)])
              && (s.from.Some? ==>
                    && s.direct == Frames(s.page) && s.from.value in s.db
                    && s.marker == Some(Id(s.from.value.eventId)))
  {
    RunKeepsInv(db, owed, acts);
  }

  function After(db: set<Event>, cursor: Event): set<Event> { set e | e in db && Before(cursor, e) }

  /** The page is sent exactly when at most 100 events follow the cursor, and then it is all of them. */
  lemma PageExactly(s: State, rows: seq<Event>)
    requires Enabled(s, Query(rows))
    ensures var s', after := AfterQuery(s, rows), After(s.db, s.handler.cursor);
            && (s'.handler.Replaying? <==> |after| <= 100)
            && (s'.handler.Replaying? ==> s'.page == rows && forall e :: e in rows <==> e in after)
            && (forall e :: e in after <==> e in s.db && Follows(s.handler.cursor, e))
  {
    var after := After(s.db, s.handler.cursor);
    DistinctCount(rows);
    assert Elements(rows) <= after;
    SubsetCount(Elements(rows), after);
    if |rows| <= REPLAY_LIMIT { assert Elements(rows) == after; }
  }

  /** The handler has moved on and nothing else has changed. */
  predicate OnlyMoved(s: State, s': State) {
    && s'.db == s.db && s'.owed == s.owed && s'.conn == s.conn && s'.gone == s.gone && s'.marker == s.marker
    && s'.baseline == s.baseline && s'.from == s.from && s'.page == s.page && s'.direct == s.direct
  }

  /** How a replay starts: what the browser names decides, and only a row of its own can be replayed from. */
  lemma ReplayStarts(s: State, marker: Marker, found: Option<Event>)
    ensures s.handler.Unregistered? ==>
              var s' := Next(s, Register(marker));
              && s'.conn.replaying && !s'.conn.closed && !s'.conn.overflowed && s'.conn.queuedWrites == 0
              && s'.conn.pending == [] && s'.conn.accepted == [] && s'.baseline == s.db
              && (marker.Absent? ==> s'.handler == Greeting(Ready))
              && (marker.Unsafe? ==> s'.handler == Greeting(Resync))
              && (marker.Id? ==> s'.handler == Looking(marker.id))
    ensures s.handler.Looking? ==>
              (Enabled(s, Lookup(found)) <==>
                 if found.Some? then found.value in s.db && found.value.eventId == s.handler.id
                 else forall e :: e in s.db ==> e.eventId != s.handler.id)
    ensures s.handler.Looking? && Enabled(s, Lookup(found)) ==>
              var s' := Next(s, Lookup(found));
              && OnlyMoved(s, s')
              && s'.handler == if found.Some? then Querying(found.value) else Greeting(Resync)
  {}

  /** What the handler itself writes: the greeting, or the next row of the page; a failed write refuses the stream. */
  lemma ReplayStep(s: State, ok: bool)
    requires s.handler.Greeting? || s.handler.Replaying?
    ensures Enabled(s, WriteDirect(ok)) <==> s.handler.Greeting? || s.handler.rest != []
    ensures s.handler.Greeting? || s.handler.rest != [] ==>
              var s' := Next(s, WriteDirect(ok));
              if !ok then s'.handler == Failing && OnlyMoved(s, s')
              else
                && s'.handler == (if s.handler.Greeting? then Replayed else Replaying(s.handler.rest[1..]))
                && s'.direct == s.direct + [if s.handler.Greeting? then s.handler.frame
                                            else EventFrame(s.handler.rest[0])]
                && s'.conn == s.conn && s'.db == s.db && s'.owed == s.owed
  {}

  /** The drain writes its events one by one, in order, and waits for each; a failed one refuses the stream. */
  lemma DrainStep(s: State)
    requires s.handler.Draining?
    ensures Enabled(s, DrainNext) <==> s.handler.awaited.None?
    ensures forall result :: Enabled(s, DrainSettled(result)) <==>
              && s.handler.awaited.Some? && s.handler.awaited.value < s.conn.settled
              && (s.conn.tail ==> result)
    ensures s.handler.awaited.None? && s.handler.todo == [] ==>
              Next(s, DrainNext).handler == Live && OnlyMoved(s, Next(s, DrainNext))
    ensures s.handler.awaited.None? && s.handler.todo != [] ==>
              var s' := Next(s, DrainNext);
              && s'.conn == Apply(s.conn, DoWrite(EventFrame(s.handler.todo[0])))
              && (if !s.conn.closed && s.conn.queuedWrites < 100
                  then s'.handler == Draining(s.handler.todo[1..], Some(|s.conn.accepted|))
                  else s'.handler == Failing)
              && s'.direct == s.direct && s'.db == s.db && s'.owed == s.owed
    ensures forall result :: Enabled(s, DrainSettled(result)) ==>
              var s' := Next(s, DrainSettled(result));
              OnlyMoved(s, s') && s'.handler == if result then Draining(s.handler.todo, None) else Failing
  {}

  /** What happens around the handler: rows are written before they are published, and published once registered. */
  lemma AroundTheHandler(s: State, e: Event, step: Step)
    ensures (forall d :: d in s.db ==> d.eventId != e.eventId) ==>
              Next(s, Persist(e)) == s.(db := s.db + {e}, owed := s.owed + {e})
    ensures e in s.db ==>
              var conn' := if s.handler.Unregistered? then s.conn else Apply(s.conn, DoDeliver(e));
              Next(s, Publish(e)) == s.(owed := s.owed - {e}, conn := conn')
    ensures !s.handler.Unregistered? ==>
              Next(s, BrowserCloses) == s.(gone := true, conn := Apply(s.conn, DoClose))
    ensures Enabled(s, Chain(step)) <==> !s.handler.Unregistered? && (step.DoRun? || step.DoSettle? || step.DoShutdown?)
    ensures Enabled(s, Chain(step)) ==> Next(s, Chain(step)) == s.(conn := Apply(s.conn, step))
  {}

  /** A refused stream ends closed, and its browser is told to resync if it can still be told anything. */
  lemma RefusalIsNotSilent(db: set<Event>, owed: set<Event>, acts: seq<Action>, ok: bool)
    requires UniqueIds(db) && owed <= db && RunFrom(Start(db, owed), acts).handler.Failing?
    ensures var s, s' := RunFrom(Start(db, owed), acts), RunFrom(Start(db, owed), acts + [GiveUp(ok)]);
            && s'.handler.Ended? && s'.conn.closed
            && s'.direct == (if ok && !s.gone then s.direct + [Resync] else s.direct)
            && s'.gone && s'.handler == Ended
  {
    assert (acts + [GiveUp(ok)])[..|acts|] == acts;
  }

  /** When the transport and the write chain have caught up, every event asked for has reached the socket. */
  lemma CaughtUpStreamIsComplete(db: set<Event>, owed: set<Event>, acts: seq<Action>, e: Event)
    requires UniqueIds(db) && owed <= db
    requires var s := RunFrom(Start(db, owed), acts);
             && s.handler.Live? && !s.conn.closed && Asked(s, e) && e !in s.owed
             && s.conn.settled == |s.conn.accepted|
    ensures var s := RunFrom(Start(db, owed), acts);
            EventFrame(e) in s.direct || EventFrame(e) in s.conn.handed || s.direct == [Resync]
  {
    RunKeepsInv(db, owed, acts);
    AskedIsDue(RunFrom(Start(db, owed), acts), e);
  }

  /**
   In any run, finishing the replay either refuses the stream or starts a drain of exactly
   the buffered events that are not rows of the page, each once, in keyset order.
   */
  lemma HandoffDrain(db: set<Event>, owed: set<Event>, acts: seq<Action>)
    requires UniqueIds(db) && owed <= db
    requires Enabled(RunFrom(Start(db, owed), acts), FinishReplay)
    ensures var s, s' := RunFrom(Start(db, owed), acts), RunFrom(Start(db, owed), acts + [FinishReplay]);
            && (s'.handler.Draining? <==> !s.conn.closed && !s.conn.overflowed)
            && (s'.handler.Draining? ==>
                  && Ascending(s'.handler.todo) && s'.conn.pending == [] && !s'.conn.replaying
                  && forall e :: e in s'.handler.todo <==> e in s.conn.pending && e !in s.page)
            && (!s'.handler.Draining? ==> s'.conn.closed && s'.handler == if s.gone then Ended else Failing)
  {
    RunKeepsInv(db, owed, acts);
    assert (acts + [FinishReplay])[..|acts|] == acts;
    var s := RunFrom(Start(db, owed), acts);
    DrainIsExact(s.conn.pending, ReplayedIds(s));
    if !s.conn.closed {
      forall e | e in s.conn.pending ensures e in s.page <==> e.eventId in ReplayedIds(s) {
        assert forall r :: r in s.page && r.eventId == e.eventId ==> r == e;
      }
    }
  }

  /**
   The replayed rows come first, in keyset order: nothing goes through the write chain before
   the handoff, and what the handler wrote by then is the page and only the page.
   */
  lemma ReplayComesFirst(db: set<Event>, owed: set<Event>, acts: seq<Action>)
    requires UniqueIds(db) && owed <= db
    ensures var s := RunFrom(Start(db, owed), acts);
            && (Registering(s.handler) && !s.conn.closed ==> s.conn.accepted == [] && s.conn.handed == [])
            && ((s.handler.Draining? || s.handler.Live?) && !s.conn.closed && s.from.Some? ==>
                  Ascending(s.page) && s.direct == Frames(s.page))
  {
    RunKeepsInv(db, owed, acts);
    PageStaysAscending(db, owed, acts);
  }

  lemma {:induction false} PageStaysAscending(db: set<Event>, owed: set<Event>, acts: seq<Action>)
    requires UniqueIds(db) && owed <= db
    ensures Ascending(RunFrom(Start(db, owed), acts).page)
  {
    if |acts| > 0 {
      PageStaysAscending(db, owed, acts[..|acts| - 1]);
    }
  }
}
