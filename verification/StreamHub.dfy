/**
 The registry of open stream connections, at most five per user, and the fan-out of a
 published event to them.
 */
module StreamHubs {
  import opened Base
  import opened StreamConnections
  import opened StreamDrains

  const MAX_PER_USER: nat := 5

  /** Set.delete on a set kept in insertion order. */
  function Without(s: seq<Connection>, c: Connection): seq<Connection> {
    if s == [] then []
    else if s[0] == c then s[1..]
    else [s[0]] + Without(s[1..], c)
  }

  lemma {:induction false} WithoutOne(s: seq<Connection>, c: Connection)
    requires Distinct(s) && c in s
    ensures |Without(s, c)| == |s| - 1 && Distinct(Without(s, c))
    ensures forall d :: d in s ==> (d in Without(s, c) <==> d != c)
    ensures forall d :: d in Without(s, c) ==> d in s
  {
    if s[0] == c {
      assert s == [c] + s[1..];
    } else {
      WithoutOne(s[1..], c);
      assert s == [s[0]] + s[1..] && s[0] !in s[1..];
    }
  }

  class NotificationStreamHub {
    var connections: map<Key, seq<Connection>>
    var nextId: nat
    /** Every connection this hub ever handed out. */
    ghost var all: set<Connection>

    /** Open connections are exactly the registered ones, under their own key, at most five a key. */
    ghost predicate RegistryValid()
      reads this, all
    {
      && (forall k :: k in connections ==> 1 <= |connections[k]| <= 5 && Distinct(connections[k]))
      && (forall k, c :: k in connections && c in connections[k] ==> c in all && c.key == k && !c.closed)
      && (forall c :: c in all && !c.closed ==> c.key in connections && c in connections[c.key])
    }

    ghost predicate Valid()
      reads this, all
    {
      RegistryValid() && forall c :: c in all ==> StreamConnections.Inv(c.View())
    }

    function Registered(key: Key): seq<Connection>
      reads this
    {
      if key in connections then connections[key] else []
    }

    constructor ()
      ensures Valid() && all == {} && connections == map[]
    {
      connections := map[];
      nextId := 1;
      all := {};
    }

    /** Refused, with nothing changed, exactly when the user already has five. */
    method Add(key: Key) returns (c: Connection?)
      requires Valid()
      modifies this
      ensures Valid()
      ensures c == null <==> |old(Registered(key))| == 5
      ensures c == null ==> connections == old(connections) && all == old(all)
      ensures c != null ==>
                && fresh(c) && c.key == key && c.View() == FRESH && all == old(all) + {c}
                && connections == old(connections)[key := old(Registered(key)) + [c as Connection]]
    {
      var registered := if key in connections then connections[key] else [];
      if |registered| >= MAX_PER_USER { return null; }
      var connection := new Connection(nextId, key);
      nextId := nextId + 1;
      connections := connections[key := registered + [connection]];
      all := all + {connection};
      c := connection;
    }

    /** Takes one connection out of the registry and closes it; twice is as good as once. */
    method Remove(c: Connection)
      requires RegistryValid() && c in all
      modifies this, c
      ensures RegistryValid() && all == old(all)
      ensures c.View() == Close(old(c.View())) && c.closed && c !in Registered(c.key)
      ensures forall d :: d in old(Registered(c.key)) && d != c ==> d in Registered(c.key)
      ensures forall k :: k != c.key ==> Registered(k) == old(Registered(k))
    {
      if c.closed { return; }
      var rest := Without(connections[c.key], c);
      WithoutOne(connections[c.key], c);
      c.MarkClosed();
      connections := if rest == [] then connections - {c.key} else connections[c.key := rest];
    }

    /** write(): joins the chain of an open connection, or drops the connection when 100 writes are queued. */
    method WriteTo(c: Connection, frame: Frame) returns (joined: bool)
      requires Valid() && c in all
      modifies this, c
      ensures Valid() && all == old(all)
      ensures c.View() == Write(old(c.View()), frame)
      ensures joined <==> !old(c.closed) && old(c.queuedWrites) < 100
      ensures joined ==> !c.closed && c.accepted == old(c.accepted) + [frame]
      ensures !joined ==> c.closed && c.accepted == old(c.accepted)
      ensures forall k :: k != c.key ==> Registered(k) == old(Registered(k))
    {
      if c.closed { return false; }
      ApplyKeepsInv(c.View(), DoWrite(frame));
      var full := c.Enqueue(frame);
      if full { Remove(c); }
      joined := !full;
    }

    /** The callbacks of the chain: run the next write, or settle the one under way. */
    method RunNext(c: Connection)
      requires Valid() && c in all && CanRun(c.View())
      modifies c
      ensures Valid() && c.View() == RunHead(old(c.View()))
    {
      ApplyKeepsInv(c.View(), DoRun);
      c.RunNext();
    }

    method Settle(c: Connection, ok: bool)
      requires Valid() && c in all && CanSettle(c.View(), ok)
      modifies this, c
      ensures Valid() && all == old(all) && c.View() == SettleHead(old(c.View()), ok)
      ensures !ok ==> c.closed
    {
      ApplyKeepsInv(c.View(), DoSettle(ok));
      c.Settle(ok);
      if !ok { Remove(c); }
    }

    /** What the fan-out does with one connection. */
    method DeliverTo(c: Connection, event: Event)
      requires Valid() && c in all
      modifies this, c
      ensures Valid() && all == old(all)
      ensures c.View() == StreamConnections.Deliver(old(c.View()), event)
      ensures forall k :: k != c.key ==> Registered(k) == old(Registered(k))
    {
      if c.closed { return; }
      ApplyKeepsInv(c.View(), DoDeliver(event));
      if c.replaying {
        c.Buffer(event);
      } else {
        var _ := WriteTo(c, EventFrame(event));
      }
    }

    /** Fan-out: every connection of the user sees the event exactly once, nobody else's changes. */
    method Deliver(key: Key, event: Event)
      requires Valid()
      modifies this, all
      ensures Valid() && all == old(all)
      ensures forall c :: c in all ==>
                c.View() == if c in old(Registered(key)) then StreamConnections.Deliver(old(c.View()), event)
                            else old(c.View())
      ensures forall k :: k != key ==> Registered(k) == old(Registered(k))
    {
      if key !in connections { return; }
      DeliverEach(connections[key], key, event);
    }

    /** The loop over the copied set; a connection dropped on the way stays dropped. */
    method DeliverEach(snapshot: seq<Connection>, key: Key, event: Event)
      requires Valid() && Distinct(snapshot)
      requires forall c :: c in snapshot ==> c in all && c.key == key
      modifies this, snapshot
      ensures Valid() && all == old(all)
      ensures forall c :: c in snapshot ==> c.View() == StreamConnections.Deliver(old(c.View()), event)
      ensures forall k :: k != key ==> Registered(k) == old(Registered(k))
    {
      var i := 0;
      while i < |snapshot|
        invariant 0 <= i <= |snapshot| && Valid() && all == old(all)
        invariant forall j :: i <= j < |snapshot| ==> snapshot[j].View() == old(snapshot[j].View())
        invariant forall j :: 0 <= j < i ==>
                    snapshot[j].View() == StreamConnections.Deliver(old(snapshot[j].View()), event)
        invariant forall k :: k != key ==> Registered(k) == old(Registered(k))
      {
        DeliverTo(snapshot[i], event);
        i := i + 1;
      }
    }

    /** The pending events that were not replayed, in order; the connection is live from now on. */
    method TakePending(c: Connection, replayed: set<EventId>) returns (todo: seq<Event>)
      requires StreamConnections.Inv(c.View()) && !c.closed && !c.overflowed
      modifies c
      ensures c.View() == EndReplay(old(c.View()))
      ensures Ascending(todo) && forall e :: e in todo <==> e in old(c.pending) && e.eventId !in replayed
    {
      c.replaying := false;
      DrainIsExact(c.pending, replayed);
      todo := Drain(c.pending, replayed);
      c.pending := [];
    }

    /** finishReplay up to its first write: refuse an overflowed connection, or go live with the drain to do. */
    method FinishReplay(c: Connection, replayed: set<EventId>) returns (ok: bool, todo: seq<Event>)
      requires Valid() && c in all
      modifies this, c
      ensures Valid() && all == old(all) && c.View() == EndReplay(old(c.View()))
      ensures ok == (!old(c.closed) && !old(c.overflowed))
      ensures ok ==> Ascending(todo) && forall e :: e in todo <==> e in old(c.pending) && e.eventId !in replayed
      ensures !ok ==> c.closed && todo == []
    {
      if c.closed { return false, []; }
      EndReplayKeepsInv(c.View());
      if c.overflowed {
        c.replaying := false;
        Remove(c);
        return false, [];
      }
      todo := TakePending(c, replayed);
      ok := true;
    }

    /** Shutdown leaves nothing registered and nothing open, and hands out nothing more. */
    method OnApplicationShutdown()
      requires Valid()
      modifies this, all
      ensures Valid() && all == old(all) && connections == map[]
      ensures forall c :: c in all ==> c.closed && c.handed == old(c.handed)
    {
      var keys := connections.Keys;
      while keys != {}
        invariant keys <= connections.Keys && connections == old(connections) && all == old(all)
        invariant forall k, c :: k in connections && c in connections[k] ==> c in all
        invariant forall c :: c in all ==> StreamConnections.Inv(c.View()) && c.handed == old(c.handed)
        invariant forall c :: c in all && !c.closed ==> c.key in keys && c in connections[c.key]
        decreases keys
      {
        var k :| k in keys;
        CloseEach(connections[k]);
        keys := keys - {k};
      }
      connections := map[];
    }

    method CloseEach(open: seq<Connection>)
      requires forall c :: c in open ==> StreamConnections.Inv(c.View())
      modifies open
      ensures forall c :: c in open ==>
                c.closed && StreamConnections.Inv(c.View()) && c.handed == old(c.handed)
    {
      var i := 0;
      while i < |open|
        invariant 0 <= i <= |open|
        invariant forall c :: c in open ==> StreamConnections.Inv(c.View()) && c.handed == old(c.handed)
        invariant forall j :: 0 <= j < i ==> open[j].closed
      {
        ApplyKeepsInv(open[i].View(), DoShutdown);
        open[i].closed := true;
        i := i + 1;
      }
    }
  }
}
