/**
 Progress through a track: items are completed one at a time, in the order of the track, and
 the progress of the assignment is the rounded percentage of what is done. Archiving the
 track writes a progress of 100 over it, and does not keep anybody from going on.
 */
module TrackProgress {
  import opened Base

  type ItemId = string

  /** What an assignment stores: the completed items, oldest first, and the progress. */
  datatype Assignment = Assignment(done: seq<ItemId>, progress: nat)

  const FRESH := Assignment([], 0)

  datatype Reply =
    | Completed(progress: nat, finished: bool)
    | ItemRequired
    | EmptyTrack
    | AlreadyDone
    | NotNext

  /** White space as String.prototype.trim sees it: section 22.1.3.32.1 of ECMA-262. */
  predicate IsSpace(c: char) {
    c in "\t\n\r \U{000B}\U{000C}\U{00A0}\U{1680}\U{2028}\U{2029}\U{202F}\U{205F}\U{3000}\U{FEFF}"
    || '\U{2000}' <= c <= '\U{200A}'
  }

  predicate Blank(s: string) { forall c <- s :: IsSpace(c) }

  /** The first item of the track that is not done. */
  function NextItem(items: seq<ItemId>, done: set<ItemId>): (r: Option<ItemId>)
    ensures r.None? <==> forall x <- items :: x in done
    ensures r.Some? ==> exists i | 0 <= i < |items| ::
                          items[i] == r.value && r.value !in done && forall x <- items[..i] :: x in done
  {
    if items == [] then None
    else if items[0] !in done then Some(items[0])
    else
      var r := NextItem(items[1..], done);
      assert items == [items[0]] + items[1..];
      assert forall i | 0 <= i < |items[1..]| ::
          items[1..][i] == items[i + 1] && items[..i + 1] == [items[0]] + items[1..][..i];
      r
  }

  /** Math.round of 100 k / n, on exact quotients: halves go up. */
  function Percent(k: nat, n: nat): nat
    requires n > 0
  {
    (200 * k + n) / (2 * n)
  }

  function Answer(items: seq<ItemId>, a: Assignment, itemId: ItemId): Reply {
    var done := Elements(a.done);
    if Blank(itemId) then ItemRequired
    else if items == [] then EmptyTrack
    else if itemId in done then AlreadyDone
    else if NextItem(items, done) != Some(itemId) then NotNext
    else Completed(Percent(|done| + 1, |items|), |done| + 1 == |items|)
  }

  /** One completion request. */
  function Complete(items: seq<ItemId>, a: Assignment, itemId: ItemId): Assignment {
    var reply := Answer(items, a, itemId);
    if reply.Completed? then Assignment(a.done + [itemId], reply.progress) else a
  }

  /** What a rebuild reports, and stores unless the track is empty, from the completions alone. */
  function Rebuilt(items: seq<ItemId>, a: Assignment): nat {
    if items == [] then 0 else Percent(|Elements(a.done)|, |items|)
  }

  /** Everything that writes the progress of an assignment. */
  datatype Request = CompleteItem(itemId: ItemId) | Rebuild | Archive

  predicate Writes(items: seq<ItemId>, a: Assignment, r: Request) {
    match r
    case CompleteItem(itemId) => Answer(items, a, itemId).Completed?
    case Rebuild => items != []
    case Archive => a.progress < 100
  }

  function Apply(items: seq<ItemId>, a: Assignment, r: Request): Assignment {
    match r
    case CompleteItem(itemId) => Complete(items, a, itemId)
    case Rebuild => if items == [] then a else a.(progress := Rebuilt(items, a))
    case Archive => if a.progress < 100 then a.(progress := 100) else a
  }

  function Run(items: seq<ItemId>, requests: seq<Request>): Assignment {
    if requests == [] then FRESH
    else Apply(items, Run(items, requests[..|requests| - 1]), requests[|requests| - 1])
  }

  /** How many completions were granted. */
  function Granted(items: seq<ItemId>, requests: seq<Request>): nat {
    if requests == [] then 0
    else
      var front, last := requests[..|requests| - 1], requests[|requests| - 1];
      Granted(items, front) + if last.CompleteItem? && Writes(items, Run(items, front), last) then 1 else 0
  }

  /** Whether the progress was last written by archiving the track. */
  predicate Archived(items: seq<ItemId>, requests: seq<Request>) {
    if requests == [] then false
    else
      var front, last := requests[..|requests| - 1], requests[|requests| - 1];
      if Writes(items, Run(items, front), last) then last.Archive? else Archived(items, front)
  }

  // ---------------------------------------------------------------- the invariant

  predicate Inv(items: seq<ItemId>, a: Assignment) {
    && |a.done| <= |items|
    && a.done == items[..|a.done|]
  }

  /** The percentage that is really done. */
  function Share(k: nat, n: nat): nat
    requires k <= n
  {
    if k == 0 then 0 else Percent(k, n)
  }

  lemma NextAfterPrefix(items: seq<ItemId>, k: nat)
    requires Distinct(items) && k <= |items|
    ensures NextItem(items, Elements(items[..k])) == if k < |items| then Some(items[k]) else None
  {
    var done := Elements(items[..k]);
    if k < |items| {
      assert items[k] !in done && items[k] in items;
      var r := NextItem(items, done);
      var i :| 0 <= i < |items| && items[i] == r.value && r.value !in done && forall x <- items[..i] :: x in done;
      assert forall j | 0 <= j < k :: items[j] in items[..k];
      assert forall j | 0 <= j < i :: items[j] in items[..i];
      assert i == k;
    } else {
      assert items[..k] == items;
    }
  }

  lemma CompleteKeepsInv(items: seq<ItemId>, a: Assignment, itemId: ItemId)
    requires Distinct(items) && Inv(items, a)
    ensures Inv(items, Complete(items, a, itemId))
    ensures Answer(items, a, itemId).Completed? <==>
              !Blank(itemId) && |a.done| < |items| && itemId == items[|a.done|]
    ensures Answer(items, a, itemId).Completed? ==>
              Complete(items, a, itemId).done == items[..|a.done| + 1]
  {
    var k := |a.done|;
    NextAfterPrefix(items, k);
    DistinctCount(a.done);
    if k < |items| {
      assert items[k] !in a.done;
      assert items[..k + 1] == items[..k] + [items[k]];
    } else {
      assert items[..k] == items;
    }
  }

  /**
   Every reply, in the order of the checks: a blank id, an empty track, an item done already, an
   item that is not the next one; otherwise the item is done. A refusal changes nothing.
   */
  lemma RepliesExactly(items: seq<ItemId>, a: Assignment, itemId: ItemId)
    requires Distinct(items) && Inv(items, a)
    ensures var reply, a', k := Answer(items, a, itemId), Complete(items, a, itemId), |a.done|;
            && (reply == ItemRequired <==> Blank(itemId))
            && (reply == EmptyTrack <==> !Blank(itemId) && items == [])
            && (reply == AlreadyDone <==> !Blank(itemId) && items != [] && itemId in a.done)
            && (reply == NotNext <==>
                  !Blank(itemId) && items != [] && itemId !in a.done && (k == |items| || itemId != items[k]))
            && (reply.Completed? <==> !Blank(itemId) && k < |items| && itemId == items[k])
            && (reply.Completed? ==>
                  && a'.done == a.done + [itemId] && a'.progress == reply.progress
                  && 2 * |items| * a'.progress - |items| <= 200 * (k + 1) < 2 * |items| * a'.progress + |items|
                  && (reply.finished <==> k + 1 == |items|))
            && (!reply.Completed? ==> a' == a)
  {
    CompleteKeepsInv(items, a, itemId);
    DistinctCount(a.done);
    if |a.done| < |items| {
      PercentRounds(|a.done| + 1, |items|);
      assert items[|a.done|] !in a.done;
    }
    if items == [] { assert a.done == []; }
  }

  /** The characters String.prototype.trim takes away, by code point. */
  lemma SpacesAre(c: char)
    ensures IsSpace(c) <==>
              c as int in {0x9, 0xA, 0xB, 0xC, 0xD, 0x20, 0xA0, 0x1680, 0x2028, 0x2029, 0x202F, 0x205F, 0x3000, 0xFEFF}
              || 0x2000 <= c as int <= 0x200A
  {}

  lemma ApplyKeepsInv(items: seq<ItemId>, a: Assignment, r: Request)
    requires Distinct(items) && Inv(items, a)
    ensures Inv(items, Apply(items, a, r))
  {
    if r.CompleteItem? { CompleteKeepsInv(items, a, r.itemId); }
  }

  lemma {:induction false} RunKeepsInv(items: seq<ItemId>, requests: seq<Request>)
    requires Distinct(items)
    ensures Inv(items, Run(items, requests))
    ensures Granted(items, requests) == |Run(items, requests).done|
  {
    if requests != [] {
      var front, last := requests[..|requests| - 1], requests[|requests| - 1];
      RunKeepsInv(items, front);
      if last.CompleteItem? { CompleteKeepsInv(items, Run(items, front), last.itemId); }
    }
  }

  // ---------------------------------------------------------------- the percentage

  /** The percentage is the nearest whole number, a half rounded up, and lies within 0..100. */
  lemma PercentRounds(k: nat, n: nat)
    requires 0 < n
    ensures 2 * n * Percent(k, n) - n <= 200 * k < 2 * n * Percent(k, n) + n
    ensures k <= n ==> Percent(k, n) <= 100
  {
    var q := Percent(k, n);
    assert q == (200 * k + n) / (2 * n);
    Euclid(200 * k + n, 2 * n);
    if k <= n && q >= 101 { Scale(2 * n, 101, q); }
  }

  lemma Euclid(x: nat, d: nat)
    requires d > 0
    ensures d * (x / d) <= x < d * (x / d) + d
  {}

  lemma Scale(d: nat, a: nat, b: nat)
    requires a <= b
    ensures d * a <= d * b
  {}

  lemma PercentGrows(j: nat, k: nat, n: nat)
    requires 0 < n && j <= k
    ensures Percent(j, n) <= Percent(k, n)
  {
    PercentRounds(j, n);
    PercentRounds(k, n);
    var p, q := Percent(j, n), Percent(k, n);
    if p > q { Scale(2 * n, q + 1, p); }
  }

  /** 100 is shown from 99.5% on. */
  lemma HundredExactly(k: nat, n: nat)
    requires 0 < n && k <= n
    ensures Percent(k, n) == 100 <==> 200 * k >= 199 * n
  {
    PercentRounds(k, n);
    var q := Percent(k, n);
    if q <= 99 { Scale(2 * n, q, 99); }
  }

  lemma ShareGrows(j: nat, k: nat, n: nat)
    requires j <= k <= n
    ensures Share(j, n) <= Share(k, n) <= 100
  {
    if k > 0 { PercentRounds(k, n); }
    if j > 0 { PercentGrows(j, k, n); }
  }

  lemma PercentOfNothing(n: nat)
    requires 0 < n
    ensures Percent(0, n) == 0
  {
    PercentRounds(0, n);
    var q := Percent(0, n);
    if q >= 1 { Scale(2 * n, 1, q); }
  }

  lemma RebuiltIsShare(items: seq<ItemId>, a: Assignment)
    requires Distinct(items) && Inv(items, a)
    ensures Rebuilt(items, a) == Share(|a.done|, |items|)
  {
    DistinctCount(a.done);
    if items != [] && a.done == [] { PercentOfNothing(|items|); }
  }

  // ---------------------------------------------------------------- theorems

  /** Whatever is asked for in whatever order: the completions are a prefix of the track. */
  lemma CompletionsAreAPrefix(items: seq<ItemId>, requests: seq<Request>)
    requires Distinct(items)
    ensures Run(items, requests).done <= items
    ensures Granted(items, requests) == |Run(items, requests).done| <= |items|
  {
    RunKeepsInv(items, requests);
  }

  lemma CompleteReplies(items: seq<ItemId>, a: Assignment, itemId: ItemId)
    requires Distinct(items) && Inv(items, a) && Answer(items, a, itemId).Completed?
    ensures var a' := Complete(items, a, itemId);
            && |a'.done| == |a.done| + 1 <= |items|
            && a'.progress == Answer(items, a, itemId).progress == Share(|a'.done|, |items|)
  {
    CompleteKeepsInv(items, a, itemId);
    DistinctCount(a.done);
  }

  /** The progress, as it is while the last to write it was an archive or not. */
  predicate Shows(items: seq<ItemId>, a: Assignment, archived: bool) {
    && |a.done| <= |items| && Share(|a.done|, |items|) <= 100
    && a.progress == if archived then 100 else Share(|a.done|, |items|)
  }

  lemma ApplyShows(items: seq<ItemId>, a: Assignment, r: Request, archived: bool)
    requires Distinct(items) && Inv(items, a) && Shows(items, a, archived)
    ensures Shows(items, Apply(items, a, r), if Writes(items, a, r) then r.Archive? else archived)
  {
    match r
    case CompleteItem(itemId) =>
      if Answer(items, a, itemId).Completed? {
        CompleteReplies(items, a, itemId);
        ShareGrows(|a.done|, |a.done| + 1, |items|);
      }
    case Rebuild => RebuiltIsShare(items, a);
    case Archive =>
  }

  /** The progress is the percentage of what is done, unless the last to write it was an archive. */
  lemma {:induction false} ProgressIsTheShare(items: seq<ItemId>, requests: seq<Request>)
    requires Distinct(items)
    ensures Shows(items, Run(items, requests), Archived(items, requests))
  {
    if requests != [] {
      var front, last := requests[..|requests| - 1], requests[|requests| - 1];
      ProgressIsTheShare(items, front);
      RunKeepsInv(items, front);
      ApplyShows(items, Run(items, front), last, Archived(items, front));
    }
  }

  /** A rebuild always reports what is done, and changes the progress exactly when an archive overstated it. */
  lemma RebuildChangesExactly(items: seq<ItemId>, requests: seq<Request>)
    requires Distinct(items)
    ensures var a := Run(items, requests);
            && |a.done| <= |items| && Rebuilt(items, a) == Share(|a.done|, |items|)
            && (Apply(items, a, Rebuild) != a <==>
                  items != [] && Archived(items, requests) && Share(|a.done|, |items|) < 100)
  {
    RunKeepsInv(items, requests);
    ProgressIsTheShare(items, requests);
    RebuiltIsShare(items, Run(items, requests));
  }

  /** What the completions amount to after one more request. */
  function ShareAfter(items: seq<ItemId>, a: Assignment, r: Request): nat
    requires Distinct(items) && Inv(items, a)
  {
    ApplyKeepsInv(items, a, r);
    Share(|Apply(items, a, r).done|, |items|)
  }

  /** A request lowers the progress exactly when it is the first to write over an archive of a track still below 100. */
  lemma ProgressFallsExactly(items: seq<ItemId>, requests: seq<Request>, r: Request)
    requires Distinct(items)
    ensures var a := Run(items, requests);
            && Inv(items, a)
            && (Apply(items, a, r).progress < a.progress <==>
                  && Archived(items, requests)
                  && Writes(items, a, r)
                  && ShareAfter(items, a, r) < 100)
  {
    var a := Run(items, requests);
    RunKeepsInv(items, requests);
    ProgressIsTheShare(items, requests);
    match r
    case CompleteItem(itemId) =>
      if Answer(items, a, itemId).Completed? {
        CompleteReplies(items, a, itemId);
        ShareGrows(|a.done|, |a.done| + 1, |items|);
      }
    case Rebuild => RebuiltIsShare(items, a);
    case Archive =>
  }

  lemma {:induction false} DoneGrows(items: seq<ItemId>, requests: seq<Request>, i: nat)
    requires Distinct(items) && i <= |requests|
    ensures Run(items, requests[..i]).done <= Run(items, requests).done
  {
    if i == |requests| {
      assert requests[..i] == requests;
    } else {
      var front := requests[..|requests| - 1];
      DoneGrows(items, front, i);
      assert front[..i] == requests[..i];
    }
  }

  /** Progress stays within 0..100, and what completions have shown is never lost; only an archive's 100 may be. */
  lemma ProgressGrows(items: seq<ItemId>, requests: seq<Request>, i: nat)
    requires Distinct(items) && i <= |requests|
    ensures Run(items, requests[..i]).done <= Run(items, requests).done
    ensures Run(items, requests).progress <= 100
    ensures !Archived(items, requests[..i]) || Archived(items, requests) ==>
              Run(items, requests[..i]).progress <= Run(items, requests).progress
  {
    DoneGrows(items, requests, i);
    ProgressIsTheShare(items, requests[..i]);
    ProgressIsTheShare(items, requests);
    ShareGrows(|Run(items, requests[..i]).done|, |Run(items, requests).done|, |items|);
  }

  /** A progress of 100 is shown after an archive, and from 99.5% on. */
  lemma HundredShownExactly(items: seq<ItemId>, requests: seq<Request>)
    requires Distinct(items)
    ensures var a := Run(items, requests);
            a.progress == 100 <==> Archived(items, requests) || (a.done != [] && 200 * |a.done| >= 199 * |items|)
  {
    ProgressIsTheShare(items, requests);
    var k := |Run(items, requests).done|;
    if k > 0 { HundredExactly(k, |items|); }
  }

  ghost predicate HundredMeansFinished(items: seq<ItemId>, requests: seq<Request>) {
    Run(items, requests).progress == 100 ==> Run(items, requests).done == items
  }

  /** While no archive was the last to write it, 100 means finished on exactly the tracks of fewer than 200 items. */
  lemma ShortTracksExactly(items: seq<ItemId>)
    requires Distinct(items) && forall x <- items :: !Blank(x)
    ensures (forall requests :: !Archived(items, requests) ==> HundredMeansFinished(items, requests)) <==> |items| < 200
  {
    if |items| < 200 {
      forall requests | !Archived(items, requests) ensures HundredMeansFinished(items, requests) {
        RunKeepsInv(items, requests);
        HundredShownExactly(items, requests);
        assert items[..|items|] == items;
      }
    } else {
      var n := |items| - 1;
      var requests := InOrder(items[..n]);
      InOrderFinishes(items, n);
      HundredShownExactly(items, requests);
      InOrderIsNotArchived(items, items[..n]);
      assert !HundredMeansFinished(items, requests);
    }
  }

  /** An archive shows 100 on every track, exactly as unfinished as it is. */
  lemma ArchiveShowsHundred(items: seq<ItemId>, requests: seq<Request>)
    requires Distinct(items)
    ensures var a, a' := Run(items, requests), Run(items, requests + [Archive]);
            && a'.progress == 100 && a'.done == a.done
            && (HundredMeansFinished(items, requests + [Archive]) <==> a.done == items)
  {
    assert (requests + [Archive])[..|requests|] == requests;
    ProgressIsTheShare(items, requests);
  }

  /** A completion reports finished exactly when it is the last item; below 200 items, exactly at 100. */
  lemma FinishedExactly(items: seq<ItemId>, requests: seq<Request>, itemId: ItemId)
    requires Distinct(items) && Answer(items, Run(items, requests), itemId).Completed?
    ensures var reply := Answer(items, Run(items, requests), itemId);
            && (reply.finished <==> Complete(items, Run(items, requests), itemId).done == items)
            && (|items| < 200 ==> (reply.finished <==> reply.progress == 100))
  {
    RunKeepsInv(items, requests);
    FinishedAt(items, Run(items, requests), itemId);
  }

  lemma FinishedAt(items: seq<ItemId>, a: Assignment, itemId: ItemId)
    requires Distinct(items) && Inv(items, a) && Answer(items, a, itemId).Completed?
    ensures var reply := Answer(items, a, itemId);
            && (reply.finished <==> Complete(items, a, itemId).done == items)
            && (|items| < 200 ==> (reply.finished <==> reply.progress == 100))
  {
    CompleteKeepsInv(items, a, itemId);
    RepliesExactly(items, a, itemId);
    CompleteReplies(items, a, itemId);
    if |items| < 200 { ShortHundred(|a.done| + 1, |items|); }
    assert items[..|items|] == items;
  }

  lemma ShortHundred(k: nat, n: nat)
    requires k <= n && 0 < n < 200
    ensures Percent(k, n) == 100 <==> k == n
  {
    HundredExactly(k, n);
  }

  function InOrder(ids: seq<ItemId>): seq<Request> {
    seq(|ids|, (k: nat) requires k < |ids| => CompleteItem(ids[k]))
  }

  lemma {:induction false} InOrderIsNotArchived(items: seq<ItemId>, ids: seq<ItemId>)
    ensures !Archived(items, InOrder(ids))
  {
    if ids != [] {
      assert InOrder(ids)[..|ids| - 1] == InOrder(ids[..|ids| - 1]);
      InOrderIsNotArchived(items, ids[..|ids| - 1]);
    }
  }

  /** Asking for the items in order completes the track. */
  lemma {:induction false} InOrderFinishes(items: seq<ItemId>, k: nat)
    requires Distinct(items) && k <= |items| && forall x <- items :: !Blank(x)
    ensures Run(items, InOrder(items[..k])).done == items[..k]
  {
    if k > 0 {
      var less := InOrder(items[..k - 1]);
      InOrderFinishes(items, k - 1);
      assert InOrder(items[..k])[..k - 1] == less;
      RunKeepsInv(items, less);
      CompleteKeepsInv(items, Run(items, less), items[k - 1]);
    }
  }

  // ---------------------------------------------------------------- the service

  class AssignmentsService {
    const items: seq<ItemId>
    var assignment: Assignment

    constructor (items: seq<ItemId>)
      ensures this.items == items && assignment == FRESH
    {
      this.items := items;
      assignment := FRESH;
    }

    method GetNextItem() returns (r: Option<ItemId>)
      requires Distinct(items) && Inv(items, assignment)
      ensures r == if |assignment.done| < |items| then Some(items[|assignment.done|]) else None
    {
      NextAfterPrefix(items, |assignment.done|);
      r := NextItem(items, Elements(assignment.done));
    }

    method CompleteItem(itemId: ItemId) returns (reply: Reply)
      modifies this
      ensures reply == Answer(items, old(assignment), itemId)
      ensures assignment == Apply(items, old(assignment), Request.CompleteItem(itemId))
    {
      if Blank(itemId) { return ItemRequired; }
      var total := |items|;
      if total == 0 { return EmptyTrack; }
      var done := Elements(assignment.done);
      if itemId in done { return AlreadyDone; }
      var next := NextItem(items, done);
      if next.None? || next.value != itemId { return NotNext; }
      var count := |done| + 1;
      var progress := Percent(count, total);
      assignment := Assignment(assignment.done + [itemId], assignment.progress);
      assignment := assignment.(progress := progress);
      reply := Completed(progress, count == total);
    }

    method RebuildProgress() returns (progress: nat, finished: bool)
      modifies this
      ensures progress == Rebuilt(items, old(assignment))
      ensures finished <==> items != [] && |Elements(old(assignment).done)| >= |items|
      ensures assignment == Apply(items, old(assignment), Rebuild)
      ensures items == [] ==> progress == 0 && assignment == old(assignment)
      ensures items != [] ==> assignment == Assignment(old(assignment).done, progress)
    {
      if |items| == 0 { return 0, false; }
      var count := |Elements(assignment.done)|;
      progress := Percent(count, |items|);
      assignment := assignment.(progress := progress);
      finished := count >= |items|;
    }

    /** What archiving the track does to the assignment. */
    method ArchiveTrack()
      modifies this
      ensures assignment == Apply(items, old(assignment), Archive)
      ensures assignment.done == old(assignment).done
      ensures assignment.progress == if old(assignment).progress < 100 then 100 else old(assignment).progress
    {
      if assignment.progress < 100 { assignment := assignment.(progress := 100); }
    }
  }
}
