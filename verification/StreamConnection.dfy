/**
 One notification stream connection: the buffer that holds live events back while the
 replay runs, and the chain of writes behind it. A write joins the chain at once; its
 callback runs when the previous write has settled, and hands the frame to the socket
 only if that one succeeded and the connection is still open.
 */
module StreamConnections {
  import opened Base

  const MAX_PENDING_EVENTS: nat := 100

  /** Ids stand for their rank in the one total order that sorts them. */
  type EventId = nat

  datatype Event = Event(createdAt: int, eventId: EventId)

  datatype Frame = EventFrame(event: Event) | Ready | Resync | Heartbeat

  datatype Conn = Conn(
    closed: bool,
    replaying: bool,
    pending: seq<Event>,
    overflowed: bool,
    queuedWrites: nat,
    // the write chain: every frame that joined it, how many have settled, whether the next
    // callback has run (and really wrote), what reached the socket, and the last outcome
    accepted: seq<Frame>,
    settled: nat,
    running: Option<bool>,
    handed: seq<Frame>,
    tail: bool)

  const FRESH := Conn(false, true, [], false, 0, [], 0, None, [], true)

  predicate Buffered(pending: seq<Event>, id: EventId) {
    exists p :: p in pending && p.eventId == id
  }

  function Close(c: Conn): Conn {
    if c.closed then c else c.(closed := true, pending := [], queuedWrites := 0)
  }

  function Write(c: Conn, frame: Frame): Conn {
    if c.closed then c
    else if c.queuedWrites >= MAX_PENDING_EVENTS then Close(c)
    else c.(queuedWrites := c.queuedWrites + 1, accepted := c.accepted + [frame])
  }

  /** Whether a call of write joins the chain; otherwise its promise is already false. */
  predicate Joins(c: Conn) { !c.closed && c.queuedWrites < MAX_PENDING_EVENTS }

  predicate CanRun(c: Conn) { c.running.None? && c.settled < |c.accepted| }

  function RunHead(c: Conn): Conn
    requires CanRun(c)
  {
    if !c.tail || c.closed then c.(running := Some(false))
    else c.(running := Some(true), handed := c.handed + [c.accepted[c.settled]])
  }

  /** A callback that did not write can only settle as false. */
  predicate CanSettle(c: Conn, ok: bool) { c.running.Some? && (ok ==> c.running.value) }

  function SettleHead(c: Conn, ok: bool): Conn
    requires CanSettle(c, ok)
  {
    var c' := c.(queuedWrites := Max(0, c.queuedWrites - 1), settled := c.settled + 1, running := None, tail := ok);
    if ok then c' else Close(c')
  }

  function Deliver(c: Conn, e: Event): Conn {
    if c.closed then c
    else if !c.replaying then Write(c, EventFrame(e))
    else if Buffered(c.pending, e.eventId) then c
    else if |c.pending| >= MAX_PENDING_EVENTS then c.(overflowed := true)
    else c.(pending := c.pending + [e])
  }

  /** The part of finishReplay before its first write. */
  function EndReplay(c: Conn): Conn {
    if c.closed then c
    else if c.overflowed then Close(c.(replaying := false))
    else c.(replaying := false, pending := [])
  }

  // ---------------------------------------------------------------- runs of one connection

  datatype Step =
    | DoWrite(frame: Frame)
    | DoRun
    | DoSettle(ok: bool)
    | DoDeliver(event: Event)
    | DoEndReplay
    | DoClose
    | DoShutdown

  function Apply(c: Conn, s: Step): Conn {
    match s
    case DoWrite(f) => Write(c, f)
    case DoRun => if CanRun(c) then RunHead(c) else c
    case DoSettle(ok) => if CanSettle(c, ok) then SettleHead(c, ok) else c
    case DoDeliver(e) => Deliver(c, e)
    case DoEndReplay => EndReplay(c)
    case DoClose => Close(c)
    case DoShutdown => c.(closed := true)
  }

  function Run(c: Conn, steps: seq<Step>): Conn {
    if |steps| == 0 then c else Apply(Run(c, steps[..|steps| - 1]), steps[|steps| - 1])
  }

  function Started(c: Conn): nat { if c.running.Some? then c.settled + 1 else c.settled }

  predicate Inv(c: Conn) {
    && Started(c) <= |c.accepted|
    && |c.handed| <= Started(c) && c.handed == c.accepted[..|c.handed|]
    && |c.pending| <= MAX_PENDING_EVENTS
    && (forall i, j :: 0 <= i < j < |c.pending| ==> c.pending[i].eventId != c.pending[j].eventId)
    && (!c.tail ==> c.closed)
    && (!c.closed ==>
          && |c.handed| == Started(c)
          && c.running != Some(false)
          && c.queuedWrites == |c.accepted| - c.settled <= MAX_PENDING_EVENTS)
  }

  lemma WriteKeepsInv(c: Conn, frame: Frame)
    requires Inv(c)
    ensures Inv(Write(c, frame))
  {}

  lemma RunHeadKeepsInv(c: Conn)
    requires Inv(c) && CanRun(c)
    ensures Inv(RunHead(c))
  {}

  lemma SettleKeepsInv(c: Conn, ok: bool)
    requires Inv(c) && CanSettle(c, ok)
    ensures Inv(SettleHead(c, ok))
  {}

  lemma DeliverKeepsInv(c: Conn, e: Event)
    requires Inv(c)
    ensures Inv(Deliver(c, e))
  {
    WriteKeepsInv(c, EventFrame(e));
  }

  lemma EndReplayKeepsInv(c: Conn)
    requires Inv(c)
    ensures Inv(EndReplay(c)) && Inv(Close(c))
  {}

  lemma ApplyKeepsInv(c: Conn, s: Step)
    requires Inv(c)
    ensures Inv(Apply(c, s))
  {
    match s
    case DoWrite(frame) => WriteKeepsInv(c, frame);
    case DoRun => if CanRun(c) { RunHeadKeepsInv(c); }
    case DoSettle(ok) => if CanSettle(c, ok) { SettleKeepsInv(c, ok); }
    case DoDeliver(e) => DeliverKeepsInv(c, e);
    case DoEndReplay => EndReplayKeepsInv(c);
    case DoClose => EndReplayKeepsInv(c);
    case DoShutdown =>
  }

  lemma {:induction false} RunKeepsInv(steps: seq<Step>)
    ensures Inv(Run(FRESH, steps))
  {
    if |steps| > 0 {
      RunKeepsInv(steps[..|steps| - 1]);
      ApplyKeepsInv(Run(FRESH, steps[..|steps| - 1]), steps[|steps| - 1]);
    }
  }

  /** Closing forgets what waits and what is queued, and nothing else. */
  predicate NowClosed(c: Conn, c': Conn) {
    && c'.closed && c'.pending == [] && c'.queuedWrites == 0
    && c'.replaying == c.replaying && c'.overflowed == c.overflowed && SameChain(c, c')
  }

  predicate SameChain(c: Conn, c': Conn) {
    && c'.accepted == c.accepted && c'.settled == c.settled && c'.running == c.running
    && c'.handed == c.handed && c'.tail == c.tail
  }

  predicate SameBuffer(c: Conn, c': Conn) {
    c'.replaying == c.replaying && c'.pending == c.pending && c'.overflowed == c.overflowed
  }

  /** A frame on an open connection: it joins the chain, or is the one too many that closes it. */
  predicate Queued(c: Conn, c': Conn, frame: Frame) {
    if c.queuedWrites >= 100 then NowClosed(c, c')
    else
      && !c'.closed && SameBuffer(c, c')
      && c'.queuedWrites == c.queuedWrites + 1 && c'.accepted == c.accepted + [frame]
      && c'.settled == c.settled && c'.running == c.running && c'.handed == c.handed && c'.tail == c.tail
  }

  /** A live event on an open connection: queued when live, and during the replay held back once, up to a hundred. */
  predicate Delivered(c: Conn, c': Conn, e: Event) {
    if !c.replaying then Queued(c, c', EventFrame(e))
    else
      && !c'.closed && c'.replaying && c'.queuedWrites == c.queuedWrites && SameChain(c, c')
      && if exists p :: p in c.pending && p.eventId == e.eventId
         then c'.pending == c.pending && c'.overflowed == c.overflowed
         else if |c.pending| >= 100 then c'.pending == c.pending && c'.overflowed
         else c'.pending == c.pending + [e] && c'.overflowed == c.overflowed
  }

  /** A write that has come back: it leaves the queue, and a failed one closes the connection. */
  predicate CameBack(c: Conn, c': Conn, ok: bool) {
    && c'.settled == c.settled + 1 && c'.running.None? && c'.tail == ok
    && c'.accepted == c.accepted && c'.handed == c.handed
    && c'.replaying == c.replaying && c'.overflowed == c.overflowed
    && (ok ==> c'.closed == c.closed && c'.pending == c.pending && c'.queuedWrites == Max(0, c.queuedWrites - 1))
    && (!ok ==> c'.closed && (c.closed || (c'.pending == [] && c'.queuedWrites == 0)))
  }

  /** What every step does to every field of an open connection. */
  lemma EveryStep(c: Conn, s: Step)
    requires Inv(c) && !c.closed
    ensures var c' := Apply(c, s);
            match s
            case DoWrite(frame) => Queued(c, c', frame)
            case DoDeliver(e) => Delivered(c, c', e)
            case DoRun =>
              if c.running.Some? || c.settled == |c.accepted| then c' == c
              else
                && !c'.closed && SameBuffer(c, c') && c'.queuedWrites == c.queuedWrites
                && c'.running == Some(true) && c'.handed == c.handed + [c.accepted[c.settled]]
                && c'.accepted == c.accepted && c'.settled == c.settled && c'.tail == c.tail
            case DoSettle(ok) => if c.running.None? then c' == c else CameBack(c, c', ok)
            case DoEndReplay =>
              && !c'.replaying && c'.overflowed == c.overflowed && SameChain(c, c') && c'.pending == []
              && (if c.overflowed then c'.closed && c'.queuedWrites == 0
                  else !c'.closed && c'.queuedWrites == c.queuedWrites)
            case DoClose => NowClosed(c, c')
            case DoShutdown => c'.closed && SameBuffer(c, c') && SameChain(c, c') && c'.queuedWrites == c.queuedWrites
  {
    match s
    case DoDeliver(e) =>
      assert Buffered(c.pending, e.eventId) <==> exists p :: p in c.pending && p.eventId == e.eventId;
    case _ =>
  }

  /** On a closed connection a callback that runs writes nothing, and settles as failed. */
  lemma ClosedCallback(c: Conn, ok: bool)
    requires Inv(c) && c.closed && c.running.None? && c.settled < |c.accepted|
    ensures Apply(c, DoRun) == c.(running := Some(false))
    ensures ok ==> Apply(Apply(c, DoRun), DoSettle(ok)) == Apply(c, DoRun)
    ensures !ok ==> CameBack(c, Apply(Apply(c, DoRun), DoSettle(ok)), false)
  {}

  /** What reached the socket is a prefix of what was accepted; while open, every write but the unsettled ones. */
  lemma SocketSeesPrefix(steps: seq<Step>)
    ensures var c := Run(FRESH, steps);
            && c.handed <= c.accepted
            && (!c.closed ==>
                  && c.queuedWrites == |c.accepted| - c.settled <= MAX_PENDING_EVENTS
                  && c.settled <= |c.handed| <= c.settled + 1
                  && (c.running.None? ==> |c.handed| == c.settled))
  {
    RunKeepsInv(steps);
  }

  /** Once closed, for good: nothing more is accepted, and nothing more reaches the socket. */
  lemma {:induction false} ClosedIsSilent(c: Conn, steps: seq<Step>)
    requires c.closed
    ensures var c' := Run(c, steps); c'.closed && c'.handed == c.handed && c'.accepted == c.accepted
  {
    if |steps| > 0 {
      ClosedIsSilent(c, steps[..|steps| - 1]);
    }
  }

  /** The first write that fails is the last frame the socket ever sees. */
  lemma FirstFailureStopsTheStream(before: seq<Step>, after: seq<Step>)
    requires CanSettle(Run(FRESH, before), false)
    ensures var c, c' := Run(FRESH, before), Run(FRESH, before + [DoSettle(false)] + after);
            c'.closed && c'.handed == c.handed && |c.handed| <= c.settled + 1
  {
    RunKeepsInv(before);
    RunAppend(FRESH, before, [DoSettle(false)]);
    RunAppend(FRESH, before + [DoSettle(false)], after);
    var c := Run(FRESH, before);
    assert Run(c, [DoSettle(false)]) == Apply(Run(c, []), DoSettle(false));
    ClosedIsSilent(Run(FRESH, before + [DoSettle(false)]), after);
  }

  lemma {:induction false} RunAppend(c: Conn, a: seq<Step>, b: seq<Step>)
    ensures Run(c, a + b) == Run(Run(c, a), b)
    decreases |b|
  {
    if |b| == 0 {
      assert a + b == a;
    } else {
      assert (a + b)[..|a + b| - 1] == a + b[..|b| - 1];
      RunAppend(c, a, b[..|b| - 1]);
    }
  }

  // ---------------------------------------------------------------- the object

  /** The organisation and the user a connection belongs to. */
  datatype Key = Key(orgId: string, userId: string)

  class Connection {
    const id: nat
    const key: Key
    var closed: bool
    var replaying: bool
    var pending: seq<Event>
    var overflowed: bool
    var queuedWrites: nat
    var accepted: seq<Frame>
    var settled: nat
    var running: Option<bool>
    var handed: seq<Frame>
    var tail: bool

    function View(): Conn
      reads this
    {
      Conn(closed, replaying, pending, overflowed, queuedWrites, accepted, settled, running, handed, tail)
    }

    constructor (id: nat, key: Key)
      ensures this.id == id && this.key == key && View() == FRESH
    {
      this.id, this.key := id, key;
      closed, replaying, pending, overflowed, queuedWrites := false, true, [], false, 0;
      accepted, settled, running, handed, tail := [], 0, None, [], true;
    }

    method MarkClosed()
      modifies this
      ensures View() == Close(old(View()))
    {
      if closed { return; }
      closed := true;
      pending := [];
      queuedWrites := 0;
    }

    /** Joins the chain, or reports that the queue is full and the connection has to go. */
    method Enqueue(frame: Frame) returns (full: bool)
      requires !closed
      modifies this
      ensures full <==> old(queuedWrites) >= MAX_PENDING_EVENTS
      ensures !full ==> View() == Write(old(View()), frame)
      ensures full ==> View() == old(View())
    {
      full := queuedWrites >= MAX_PENDING_EVENTS;
      if !full {
        queuedWrites := queuedWrites + 1;
        accepted := accepted + [frame];
      }
    }

    method RunNext()
      requires CanRun(View())
      modifies this
      ensures View() == RunHead(old(View()))
    {
      if !tail || closed {
        running := Some(false);
      } else {
        handed := handed + [accepted[settled]];
        running := Some(true);
      }
    }

    /** The callback behind the write itself; the caller removes the connection when it failed. */
    method Settle(ok: bool)
      requires CanSettle(View(), ok)
      modifies this
      ensures ok ==> View() == SettleHead(old(View()), ok)
      ensures Close(View()) == Close(SettleHead(old(View()), ok)) && closed == old(closed)
    {
      queuedWrites := if queuedWrites == 0 then 0 else queuedWrites - 1;
      settled := settled + 1;
      running := None;
      tail := ok;
    }

    /** Buffers a live event while the replay still runs. */
    method Buffer(event: Event)
      requires !closed && replaying
      modifies this
      ensures View() == Deliver(old(View()), event)
    {
      var seen := false;
      var i := 0;
      while i < |pending| && !seen
        invariant 0 <= i <= |pending|
        invariant seen <==> exists k :: 0 <= k < i && pending[k].eventId == event.eventId
      {
        seen := pending[i].eventId == event.eventId;
        i := i + 1;
      }
      assert seen <==> Buffered(pending, event.eventId);
      if seen { return; }
      if |pending| >= MAX_PENDING_EVENTS {
        overflowed := true;
      } else {
        pending := pending + [event];
      }
    }
  }
}
