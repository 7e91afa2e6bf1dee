/**
 What is left of the buffer when the replay is over: the events the replay did not send,
 sorted by creation time and id.
 */
module StreamDrains {
  import opened Base
  import opened StreamConnections

  /** Keyset order: by creation time, then by id. */
  predicate Before(a: Event, b: Event) {
    a.createdAt < b.createdAt || (a.createdAt == b.createdAt && a.eventId < b.eventId)
  }

  predicate Ascending(s: seq<Event>) {
    forall i, j :: 0 <= i < j < |s| ==> Before(s[i], s[j])
  }

  function Insert(e: Event, s: seq<Event>): seq<Event> {
    if s == [] || !Before(s[0], e) then [e] + s else [s[0]] + Insert(e, s[1..])
  }

  function Sort(s: seq<Event>): seq<Event> {
    if s == [] then [] else Insert(s[0], Sort(s[1..]))
  }

  function Unseen(s: seq<Event>, replayed: set<EventId>): seq<Event> {
    if s == [] then []
    else if s[0].eventId in replayed then Unseen(s[1..], replayed)
    else [s[0]] + Unseen(s[1..], replayed)
  }

  predicate DistinctIds(s: seq<Event>) {
    forall i, j :: 0 <= i < j < |s| ==> s[i].eventId != s[j].eventId
  }

  lemma {:induction false} InsertAscends(e: Event, s: seq<Event>)
    requires Ascending(s) && forall x :: x in s ==> x.eventId != e.eventId
    ensures Ascending(Insert(e, s))
    ensures forall x :: x in Insert(e, s) <==> x == e || x in s
  {
    if s != [] && Before(s[0], e) {
      InsertAscends(e, s[1..]);
      var t := Insert(e, s[1..]);
      assert s == [s[0]] + s[1..];
      forall i, j | 0 <= i < j < |t| + 1 ensures Before(([s[0]] + t)[i], ([s[0]] + t)[j]) {
        if i == 0 { assert t[j - 1] in t; }
      }
    }
  }

  lemma {:induction false} SortAscends(s: seq<Event>)
    requires DistinctIds(s)
    ensures Ascending(Sort(s))
    ensures forall x :: x in Sort(s) <==> x in s
  {
    if s != [] {
      assert s == [s[0]] + s[1..];
      SortAscends(s[1..]);
      InsertAscends(s[0], Sort(s[1..]));
    }
  }

  lemma {:induction false} UnseenKeeps(s: seq<Event>, replayed: set<EventId>)
    requires DistinctIds(s)
    ensures DistinctIds(Unseen(s, replayed))
    ensures forall x :: x in Unseen(s, replayed) <==> x in s && x.eventId !in replayed
  {
    if s != [] {
      assert s == [s[0]] + s[1..];
      UnseenKeeps(s[1..], replayed);
    }
  }

  function Drain(pending: seq<Event>, replayed: set<EventId>): seq<Event> {
    Sort(Unseen(pending, replayed))
  }

  /** The drain holds each buffered event the replay did not send, once, in keyset order, and nothing else. */
  lemma DrainIsExact(pending: seq<Event>, replayed: set<EventId>)
    requires DistinctIds(pending)
    ensures Ascending(Drain(pending, replayed))
    ensures var todo := Drain(pending, replayed);
            forall i, j :: 0 <= i < j < |todo| ==>
              || todo[i].createdAt < todo[j].createdAt
              || (todo[i].createdAt == todo[j].createdAt && todo[i].eventId < todo[j].eventId)
    ensures forall e :: e in Drain(pending, replayed) <==> e in pending && e.eventId !in replayed
  {
    UnseenKeeps(pending, replayed);
    SortAscends(Unseen(pending, replayed));
  }
}
