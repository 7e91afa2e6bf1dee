/**
 The stable printer behind execution keys: JSON with the entries of every object sorted by
 key. The comparison of keys is a parameter, because locale collation may call two different
 strings equal.
 */
module CanonicalJson {
  import opened Base
  import opened JsonText

  /** A JSON value. A number stands for its canonical text, which JavaScript fixes. */
  datatype Json =
    | Null
    | Bool(b: bool)
    | Number(text: Text)
    | Str(s: Text)
    | Arr(items: seq<Json>)
    | Obj(entries: seq<Entry>)

  datatype Entry = Entry(key: Text, value: Json)

  predicate NumberUnit(u: Unit) {
    0x30 <= u <= 0x39 || u == 0x2B || u == 0x2D || u == 0x2E || u == 0x65
  }

  predicate NumberText(t: Text) { t != [] && forall u :: u in t ==> NumberUnit(u) }

  ghost predicate DistinctKeys(entries: seq<Entry>) {
    forall i, j :: 0 <= i < j < |entries| ==> entries[i].key != entries[j].key
  }

  /** Numbers print as numbers, and no object has a key twice. */
  ghost predicate Valid(v: Json) {
    match v
    case Number(t) => NumberText(t)
    case Arr(items) => forall i :: 0 <= i < |items| ==> Valid(items[i])
    case Obj(entries) => DistinctKeys(entries) && forall i :: 0 <= i < |entries| ==> Valid(entries[i].value)
    case _ => true
  }

  // ---------------------------------------------------------------- printing

  const COMMA: Unit := 0x2C
  const COLON: Unit := 0x3A
  const OPEN_ARR: Unit := 0x5B
  const CLOSE_ARR: Unit := 0x5D
  const OPEN_OBJ: Unit := 0x7B
  const CLOSE_OBJ: Unit := 0x7D
  const NULL_TEXT: Text := [0x6E, 0x75, 0x6C, 0x6C]
  const TRUE_TEXT: Text := [0x74, 0x72, 0x75, 0x65]
  const FALSE_TEXT: Text := [0x66, 0x61, 0x6C, 0x73, 0x65]

  /** How two keys compare: a <= b. */
  type Order = (Text, Text) -> bool

  function Insert(leq: Order, e: Entry, s: seq<Entry>): seq<Entry> {
    if s == [] || leq(e.key, s[0].key) then [e] + s else [s[0]] + Insert(leq, e, s[1..])
  }

  /** Array.sort by key, which is stable. */
  function Sort(leq: Order, s: seq<Entry>): seq<Entry> {
    if s == [] then [] else Insert(leq, s[0], Sort(leq, s[1..]))
  }

  /** The value with the entries of every object in key order. */
  function Canon(leq: Order, v: Json): Json
    decreases v, 1
  {
    match v
    case Arr(items) => Arr(CanonItems(leq, items))
    case Obj(entries) => Obj(Sort(leq, CanonEntries(leq, entries)))
    case _ => v
  }

  function CanonItems(leq: Order, items: seq<Json>): (r: seq<Json>)
    ensures |r| == |items| && forall i :: 0 <= i < |items| ==> r[i] == Canon(leq, items[i])
    decreases items, 0
  {
    if items == [] then [] else [Canon(leq, items[0])] + CanonItems(leq, items[1..])
  }

  function CanonEntries(leq: Order, entries: seq<Entry>): (r: seq<Entry>)
    ensures |r| == |entries|
    ensures forall i :: 0 <= i < |entries| ==> r[i] == Entry(entries[i].key, Canon(leq, entries[i].value))
    decreases entries, 0
  {
    if entries == [] then []
    else [Entry(entries[0].key, Canon(leq, entries[0].value))] + CanonEntries(leq, entries[1..])
  }

  /** Plain JSON.stringify: entries in the order they have. */
  function Print(v: Json): Text
    decreases v, 1
  {
    match v
    case Null => NULL_TEXT
    case Bool(b) => if b then TRUE_TEXT else FALSE_TEXT
    case Number(t) => t
    case Str(s) => Quote(s)
    case Arr(items) => [OPEN_ARR] + PrintItems(items) + [CLOSE_ARR]
    case Obj(entries) => [OPEN_OBJ] + PrintEntries(entries) + [CLOSE_OBJ]
  }

  function PrintItems(items: seq<Json>): Text
    decreases items, 0
  {
    if items == [] then []
    else if |items| == 1 then Print(items[0])
    else Print(items[0]) + [COMMA] + PrintItems(items[1..])
  }

  function PrintEntry(e: Entry): Text
    decreases e, 2
  {
    Quote(e.key) + [COLON] + Print(e.value)
  }

  function PrintEntries(entries: seq<Entry>): Text
    decreases entries, 0
  {
    if entries == [] then []
    else if |entries| == 1 then PrintEntry(entries[0])
    else PrintEntry(entries[0]) + [COMMA] + PrintEntries(entries[1..])
  }

  function StableStringify(leq: Order, v: Json): Text { Print(Canon(leq, v)) }

  // ---------------------------------------------------------------- reading

  function NumberPrefix(t: Text): (n: nat)
    ensures n <= |t| && (forall i :: 0 <= i < n ==> NumberUnit(t[i])) && (n < |t| ==> !NumberUnit(t[n]))
  {
    if t == [] || !NumberUnit(t[0]) then 0 else 1 + NumberPrefix(t[1..])
  }

  function Parse(t: Text): (r: Option<Read<Json>>)
    ensures r.Some? ==> |r.value.rest| < |t|
    decreases |t|, 0
  {
    if t == [] then None
    else if t[0] == QUOTE then
      var s := ReadString(t[1..]);
      if s.Some? then Some(Read(Str(s.value.value), s.value.rest)) else None
    else if t[0] == OPEN_ARR then
      if |t| > 1 && t[1] == CLOSE_ARR then Some(Read(Arr([]), t[2..]))
      else
        var items := ParseItems(t[1..]);
        if items.Some? then Some(Read(Arr(items.value.value), items.value.rest)) else None
    else if t[0] == OPEN_OBJ then
      if |t| > 1 && t[1] == CLOSE_OBJ then Some(Read(Obj([]), t[2..]))
      else
        var entries := ParseEntries(t[1..]);
        if entries.Some? then Some(Read(Obj(entries.value.value), entries.value.rest)) else None
    else if NULL_TEXT <= t then Some(Read(Null, t[4..]))
    else if TRUE_TEXT <= t then Some(Read(Bool(true), t[4..]))
    else if FALSE_TEXT <= t then Some(Read(Bool(false), t[5..]))
    else
      var n := NumberPrefix(t);
      if n == 0 then None else Some(Read(Number(t[..n]), t[n..]))
  }

  /** The items of an array, up to and with its closing bracket. */
  function ParseItems(t: Text): (r: Option<Read<seq<Json>>>)
    ensures r.Some? ==> |r.value.rest| < |t|
    decreases |t|, 1
  {
    var v := Parse(t);
    if v.None? || v.value.rest == [] then None
    else if v.value.rest[0] == CLOSE_ARR then Some(Read([v.value.value], v.value.rest[1..]))
    else if v.value.rest[0] != COMMA then None
    else
      var more := ParseItems(v.value.rest[1..]);
      if more.Some? then Some(Read([v.value.value] + more.value.value, more.value.rest)) else None
  }

  function ParseEntry(t: Text): (r: Option<Read<Entry>>)
    ensures r.Some? ==> |r.value.rest| < |t|
    decreases |t|, 1
  {
    if t == [] || t[0] != QUOTE then None
    else
      var k := ReadString(t[1..]);
      if k.None? || k.value.rest == [] || k.value.rest[0] != COLON then None
      else
        var v := Parse(k.value.rest[1..]);
        if v.Some? then Some(Read(Entry(k.value.value, v.value.value), v.value.rest)) else None
  }

  function ParseEntries(t: Text): (r: Option<Read<seq<Entry>>>)
    ensures r.Some? ==> |r.value.rest| < |t|
    decreases |t|, 2
  {
    var e := ParseEntry(t);
    if e.None? || e.value.rest == [] then None
    else if e.value.rest[0] == CLOSE_OBJ then Some(Read([e.value.value], e.value.rest[1..]))
    else if e.value.rest[0] != COMMA then None
    else
      var more := ParseEntries(e.value.rest[1..]);
      if more.Some? then Some(Read([e.value.value] + more.value.value, more.value.rest)) else None
  }

  /** A position where a value may end. */
  predicate Stops(r: Text) { r == [] || !NumberUnit(r[0]) }

  lemma {:induction false} NumberEnds(t: Text, r: Text)
    requires (forall u :: u in t ==> NumberUnit(u)) && Stops(r)
    ensures NumberPrefix(t + r) == |t|
  {
    if t == [] {
      assert t + r == r;
    } else {
      assert (t + r)[1..] == t[1..] + r;
      NumberEnds(t[1..], r);
    }
  }

  /** The first unit of a printed value tells an opening bracket from a closing one. */
  lemma PrintIsNotEmpty(v: Json)
    requires Valid(v)
    ensures Print(v) != [] && Print(v)[0] != CLOSE_ARR && Print(v)[0] != CLOSE_OBJ
  {
    if v.Number? { assert v.text[0] in v.text; }
  }

  lemma ParseNull(r: Text)
    ensures Parse(NULL_TEXT + r) == Some(Read(Null, r))
  {
    assert (NULL_TEXT + r)[4..] == r;
  }

  lemma ParseBool(b: bool, r: Text)
    ensures Parse((if b then TRUE_TEXT else FALSE_TEXT) + r) == Some(Read(Bool(b), r))
  {
    if b { assert (TRUE_TEXT + r)[4..] == r; } else { assert (FALSE_TEXT + r)[5..] == r; }
  }

  lemma ParseNumber(text: Text, r: Text)
    requires Valid(Number(text)) && Stops(r)
    ensures Parse(text + r) == Some(Read(Number(text), r))
  {
    assert text[0] in text;
    NumberEnds(text, r);
    assert (text + r)[..|text|] == text && (text + r)[|text|..] == r;
  }

  lemma ParseString(s: Text, r: Text)
    requires Valid(Str(s))
    ensures Parse(Quote(s) + r) == Some(Read(Str(s), r))
  {
    assert (Quote(s) + r)[1..] == Escape(s) + [QUOTE] + r;
    ReadUndoesQuote(s, r);
  }

  /** Reading a printed value gives back the value and whatever followed. */
  lemma {:induction false} ParseUndoesPrint(v: Json, r: Text)
    requires Valid(v) && Stops(r)
    ensures Parse(Print(v) + r) == Some(Read(v, r))
    decreases v, 1
  {
    match v {
      case Null => ParseNull(r);
      case Bool(b) => ParseBool(b, r);
      case Number(text) => ParseNumber(text, r);
      case Str(s) => ParseString(s, r);
      case Arr(items) => ParseUndoesArr(items, r);
      case Obj(entries) => ParseUndoesObj(entries, r);
    }
  }

  lemma {:induction false} ParseUndoesArr(items: seq<Json>, r: Text)
    requires forall i :: 0 <= i < |items| ==> Valid(items[i])
    ensures Parse([OPEN_ARR] + PrintItems(items) + [CLOSE_ARR] + r) == Some(Read(Arr(items), r))
    decreases items, 1
  {
    var t := [OPEN_ARR] + PrintItems(items) + [CLOSE_ARR] + r;
    if items == [] {
      assert t[2..] == r;
    } else {
      PrintIsNotEmpty(items[0]);
      ParseUndoesItems(items, r);
      assert t[1..] == PrintItems(items) + [CLOSE_ARR] + r;
      assert t[1] == Print(items[0])[0];
    }
  }

  lemma {:induction false} ParseUndoesObj(entries: seq<Entry>, r: Text)
    requires forall i :: 0 <= i < |entries| ==> Valid(entries[i].value)
    ensures Parse([OPEN_OBJ] + PrintEntries(entries) + [CLOSE_OBJ] + r) == Some(Read(Obj(entries), r))
    decreases entries, 2
  {
    var t := [OPEN_OBJ] + PrintEntries(entries) + [CLOSE_OBJ] + r;
    if entries == [] {
      assert t[2..] == r;
    } else {
      ParseUndoesEntries(entries, r);
      assert t[1..] == PrintEntries(entries) + [CLOSE_OBJ] + r;
      assert t[1] == PrintEntry(entries[0])[0] == QUOTE;
    }
  }

  lemma Regroup(p: Text, u: Unit, q: Text, close: Unit, r: Text)
    ensures p + [u] + q + [close] + r == p + ([u] + (q + [close] + r))
    ensures p + [close] + r == p + ([close] + r)
    ensures ([u] + (q + [close] + r))[1..] == q + [close] + r && ([close] + r)[1..] == r
  {}

  lemma ItemsStep(t: Text, v: Json, tail: Text, r: Text)
    requires Parse(t) == Some(Read(v, [CLOSE_ARR] + r)) || Parse(t) == Some(Read(v, [COMMA] + tail))
    ensures Parse(t) == Some(Read(v, [CLOSE_ARR] + r)) ==> ParseItems(t) == Some(Read([v], r))
    ensures Parse(t) == Some(Read(v, [COMMA] + tail)) && ParseItems(tail).Some? ==>
              ParseItems(t) == Some(Read([v] + ParseItems(tail).value.value, ParseItems(tail).value.rest))
  {
    assert ([CLOSE_ARR] + r)[1..] == r && ([COMMA] + tail)[1..] == tail;
  }

  lemma {:induction false} ParseUndoesItems(items: seq<Json>, r: Text)
    requires items != [] && forall i :: 0 <= i < |items| ==> Valid(items[i])
    ensures ParseItems(PrintItems(items) + [CLOSE_ARR] + r) == Some(Read(items, r))
    decreases items, 0
  {
    var p, q := Print(items[0]), PrintItems(items[1..]);
    Regroup(p, COMMA, q, CLOSE_ARR, r);
    if |items| == 1 {
      ParseUndoesPrint(items[0], [CLOSE_ARR] + r);
      ItemsStep(p + ([CLOSE_ARR] + r), items[0], [], r);
      assert items == [items[0]];
    } else {
      var tail := q + [CLOSE_ARR] + r;
      ParseUndoesPrint(items[0], [COMMA] + tail);
      ParseUndoesItems(items[1..], r);
      ItemsStep(p + ([COMMA] + tail), items[0], tail, r);
      assert [items[0]] + items[1..] == items;
    }
  }

  lemma EntryStep(t: Text, k: Text, v: Json, rest: Text, r: Text)
    requires t != [] && t[0] == QUOTE && ReadString(t[1..]) == Some(Read(k, [COLON] + rest))
    requires Parse(rest) == Some(Read(v, r))
    ensures ParseEntry(t) == Some(Read(Entry(k, v), r))
  {
    assert ([COLON] + rest)[1..] == rest;
  }

  lemma EntryText(k: Text, p: Text, r: Text)
    ensures var t := [QUOTE] + k + [QUOTE] + [COLON] + p + r;
            t[0] == QUOTE && t[1..] == k + [QUOTE] + ([COLON] + (p + r))
  {}

  lemma {:induction false} ParseUndoesEntry(e: Entry, r: Text)
    requires Valid(e.value) && Stops(r)
    ensures ParseEntry(PrintEntry(e) + r) == Some(Read(e, r))
    decreases e, 0
  {
    var t, rest := PrintEntry(e) + r, Print(e.value) + r;
    ReadUndoesQuote(e.key, [COLON] + rest);
    EntryText(Escape(e.key), Print(e.value), r);
    ParseUndoesPrint(e.value, r);
    EntryStep(t, e.key, e.value, rest, r);
  }

  lemma EntriesStep(t: Text, e: Entry, tail: Text, r: Text)
    requires ParseEntry(t) == Some(Read(e, [CLOSE_OBJ] + r)) || ParseEntry(t) == Some(Read(e, [COMMA] + tail))
    ensures ParseEntry(t) == Some(Read(e, [CLOSE_OBJ] + r)) ==> ParseEntries(t) == Some(Read([e], r))
    ensures ParseEntry(t) == Some(Read(e, [COMMA] + tail)) && ParseEntries(tail).Some? ==>
              ParseEntries(t) == Some(Read([e] + ParseEntries(tail).value.value, ParseEntries(tail).value.rest))
  {
    assert ([CLOSE_OBJ] + r)[1..] == r && ([COMMA] + tail)[1..] == tail;
  }

  lemma {:induction false} ParseUndoesEntries(entries: seq<Entry>, r: Text)
    requires entries != [] && forall i :: 0 <= i < |entries| ==> Valid(entries[i].value)
    ensures ParseEntries(PrintEntries(entries) + [CLOSE_OBJ] + r) == Some(Read(entries, r))
    decreases entries, 1
  {
    var p, q := PrintEntry(entries[0]), PrintEntries(entries[1..]);
    Regroup(p, COMMA, q, CLOSE_OBJ, r);
    if |entries| == 1 {
      ParseUndoesEntry(entries[0], [CLOSE_OBJ] + r);
      EntriesStep(p + ([CLOSE_OBJ] + r), entries[0], [], r);
      assert entries == [entries[0]];
    } else {
      var tail := q + [CLOSE_OBJ] + r;
      ParseUndoesEntry(entries[0], [COMMA] + tail);
      ParseUndoesEntries(entries[1..], r);
      EntriesStep(p + ([COMMA] + tail), entries[0], tail, r);
      assert [entries[0]] + entries[1..] == entries;
    }
  }

  // ---------------------------------------------------------------- equality up to key order

  /** The same value, whatever order the entries of its objects have. */
  ghost predicate Equiv(a: Json, b: Json)
    decreases a, 1
  {
    match (a, b)
    case (Arr(xs), Arr(ys)) => |xs| == |ys| && forall i :: 0 <= i < |xs| ==> Equiv(xs[i], ys[i])
    case (Obj(es), Obj(fs)) =>
      && (forall i :: 0 <= i < |es| ==> LikeOneOf(fs, es[i]))
      && (forall j :: 0 <= j < |fs| ==> IsLikeOneOf(es, fs[j]))
    case _ => a == b
  }

  /** Among fs there is an entry that e equals; among es there is one that equals f. */
  ghost predicate LikeOneOf(fs: seq<Entry>, e: Entry)
    decreases e, 0
  {
    exists j :: 0 <= j < |fs| && fs[j].key == e.key && Equiv(e.value, fs[j].value)
  }

  ghost predicate IsLikeOneOf(es: seq<Entry>, f: Entry)
    decreases es, 0
  {
    exists i :: 0 <= i < |es| && es[i].key == f.key && Equiv(es[i].value, f.value)
  }

  ghost predicate TotalPreorder(leq: Order) {
    && (forall a, b :: leq(a, b) || leq(b, a))
    && (forall a, b, c :: leq(a, b) && leq(b, c) ==> leq(a, c))
  }

  ghost predicate Tied(leq: Order, a: Text, b: Text) { a != b && leq(a, b) && leq(b, a) }

  /** No object has two keys the comparison cannot tell apart. */
  ghost predicate Untied(leq: Order, v: Json) {
    match v
    case Arr(items) => forall i :: 0 <= i < |items| ==> Untied(leq, items[i])
    case Obj(entries) =>
      && (forall i, j :: 0 <= i < j < |entries| ==> !Tied(leq, entries[i].key, entries[j].key))
      && (forall i :: 0 <= i < |entries| ==> Untied(leq, entries[i].value))
    case _ => true
  }

  lemma {:induction false} InsertElements(leq: Order, e: Entry, s: seq<Entry>)
    ensures |Insert(leq, e, s)| == |s| + 1
    ensures forall x :: x in Insert(leq, e, s) <==> x == e || x in s
  {
    if s != [] && !leq(e.key, s[0].key) {
      InsertElements(leq, e, s[1..]);
      assert s == [s[0]] + s[1..];
    }
  }

  lemma {:induction false} InsertKeepsKeysDistinct(leq: Order, e: Entry, s: seq<Entry>)
    requires DistinctKeys(s) && forall x :: x in s ==> x.key != e.key
    ensures DistinctKeys(Insert(leq, e, s))
  {
    if s != [] && !leq(e.key, s[0].key) {
      var t := Insert(leq, e, s[1..]);
      InsertKeepsKeysDistinct(leq, e, s[1..]);
      InsertElements(leq, e, s[1..]);
      forall j | 0 <= j < |t| ensures t[j].key != s[0].key { assert t[j] in t; }
    }
  }

  lemma {:induction false} SortElements(leq: Order, s: seq<Entry>)
    ensures |Sort(leq, s)| == |s|
    ensures forall x :: x in Sort(leq, s) <==> x in s
    ensures DistinctKeys(s) ==> DistinctKeys(Sort(leq, s))
  {
    if s != [] {
      SortElements(leq, s[1..]);
      InsertElements(leq, s[0], Sort(leq, s[1..]));
      assert s == [s[0]] + s[1..];
      if DistinctKeys(s) {
        forall x | x in Sort(leq, s[1..]) ensures x.key != s[0].key {
          var k :| 0 <= k < |s[1..]| && s[1..][k] == x;
          assert s[k + 1] == x;
        }
        InsertKeepsKeysDistinct(leq, s[0], Sort(leq, s[1..]));
      }
    }
  }

  /** Sorting keeps a value well formed. */
  lemma {:induction false} CanonIsValid(leq: Order, v: Json)
    requires Valid(v)
    ensures Valid(Canon(leq, v))
    decreases v
  {
    match v
    case Arr(items) =>
      forall i | 0 <= i < |items| ensures Valid(CanonItems(leq, items)[i]) { CanonIsValid(leq, items[i]); }
    case Obj(entries) =>
      var es := CanonEntries(leq, entries);
      forall i | 0 <= i < |entries| ensures Valid(es[i].value) { CanonIsValid(leq, entries[i].value); }
      SortElements(leq, es);
      var sorted := Sort(leq, es);
      forall i | 0 <= i < |sorted| ensures Valid(sorted[i].value) { assert sorted[i] in es; }
    case _ =>
  }

  /** Different values print differently: the reader undoes the printer. */
  lemma PrintIsInjective(a: Json, b: Json)
    requires Valid(a) && Valid(b) && Print(a) == Print(b)
    ensures a == b
  {
    ParseUndoesPrint(a, []);
    ParseUndoesPrint(b, []);
    assert Print(a) + [] == Print(a) && Print(b) + [] == Print(b);
  }

  /** Equal stable prints come from equal sorted values. */
  lemma StablePrintsAgree(leq: Order, a: Json, b: Json)
    requires Valid(a) && Valid(b)
    ensures StableStringify(leq, a) == StableStringify(leq, b) <==> Canon(leq, a) == Canon(leq, b)
  {
    CanonIsValid(leq, a);
    CanonIsValid(leq, b);
    if StableStringify(leq, a) == StableStringify(leq, b) { PrintIsInjective(Canon(leq, a), Canon(leq, b)); }
  }

  lemma {:induction false} SameCanonIsEquiv(leq: Order, a: Json, b: Json)
    requires Canon(leq, a) == Canon(leq, b)
    ensures Equiv(a, b)
    decreases a, 1
  {
    match (a, b)
    case (Arr(xs), Arr(ys)) =>
      forall i | 0 <= i < |xs| ensures Equiv(xs[i], ys[i]) {
        assert CanonItems(leq, xs)[i] == CanonItems(leq, ys)[i];
        SameCanonIsEquiv(leq, xs[i], ys[i]);
      }
    case (Obj(es), Obj(fs)) =>
      SameElements(leq, CanonEntries(leq, es), CanonEntries(leq, fs));
      forall i | 0 <= i < |es| ensures LikeOneOf(fs, es[i]) { SameCanonEntry(leq, es, fs, i); }
      forall j | 0 <= j < |fs| ensures IsLikeOneOf(es, fs[j]) { SameCanonEntryBack(leq, es, fs, j); }
    case _ =>
  }

  lemma SameElements(leq: Order, ce: seq<Entry>, cf: seq<Entry>)
    requires Sort(leq, ce) == Sort(leq, cf)
    ensures forall i :: 0 <= i < |ce| ==> ce[i] in cf
    ensures forall j :: 0 <= j < |cf| ==> cf[j] in ce
  {
    SortElements(leq, ce);
    SortElements(leq, cf);
    forall i | 0 <= i < |ce| ensures ce[i] in cf { assert ce[i] in Sort(leq, ce); }
    forall j | 0 <= j < |cf| ensures cf[j] in ce { assert cf[j] in Sort(leq, cf); }
  }

  lemma {:induction false} SameCanonEntry(leq: Order, es: seq<Entry>, fs: seq<Entry>, i: nat)
    requires i < |es| && CanonEntries(leq, es)[i] in CanonEntries(leq, fs)
    ensures LikeOneOf(fs, es[i])
    decreases es, 0
  {
    var cf := CanonEntries(leq, fs);
    var j :| 0 <= j < |cf| && cf[j] == CanonEntries(leq, es)[i];
    SameCanonIsEquiv(leq, es[i].value, fs[j].value);
  }

  lemma {:induction false} SameCanonEntryBack(leq: Order, es: seq<Entry>, fs: seq<Entry>, j: nat)
    requires j < |fs| && CanonEntries(leq, fs)[j] in CanonEntries(leq, es)
    ensures IsLikeOneOf(es, fs[j])
    decreases es, 0
  {
    var ce := CanonEntries(leq, es);
    var i :| 0 <= i < |ce| && ce[i] == CanonEntries(leq, fs)[j];
    SameCanonIsEquiv(leq, es[i].value, fs[j].value);
  }

  ghost predicate StrictlySorted(leq: Order, s: seq<Entry>) {
    forall i, j :: 0 <= i < j < |s| ==> leq(s[i].key, s[j].key) && !leq(s[j].key, s[i].key)
  }

  lemma {:induction false} InsertSorts(leq: Order, e: Entry, s: seq<Entry>)
    requires TotalPreorder(leq) && StrictlySorted(leq, s)
    requires forall x :: x in s ==> x.key != e.key && !Tied(leq, x.key, e.key)
    ensures StrictlySorted(leq, Insert(leq, e, s))
  {
    InsertElements(leq, e, s);
    if s == [] {
    } else if leq(e.key, s[0].key) {
      forall j | 0 <= j < |s| ensures leq(e.key, s[j].key) && !leq(s[j].key, e.key) {
        assert s[j] in s;
        assert leq(s[0].key, s[j].key);
      }
    } else {
      var t := Insert(leq, e, s[1..]);
      assert s == [s[0]] + s[1..];
      InsertSorts(leq, e, s[1..]);
      InsertElements(leq, e, s[1..]);
      forall j | 0 <= j < |t| ensures leq(s[0].key, t[j].key) && !leq(t[j].key, s[0].key) {
        assert t[j] in t;
        if t[j] != e { assert t[j] in s[1..]; }
      }
    }
  }

  lemma {:induction false} SortSorts(leq: Order, s: seq<Entry>)
    requires TotalPreorder(leq) && DistinctKeys(s)
    requires forall i, j :: 0 <= i < j < |s| ==> !Tied(leq, s[i].key, s[j].key)
    ensures StrictlySorted(leq, Sort(leq, s))
  {
    if s != [] {
      var rest := s[1..];
      SortSorts(leq, rest);
      SortElements(leq, rest);
      forall x | x in Sort(leq, rest) ensures x.key != s[0].key && !Tied(leq, x.key, s[0].key) {
        var k :| 0 <= k < |rest| && rest[k] == x;
        assert s[k + 1] == x;
      }
      InsertSorts(leq, s[0], Sort(leq, rest));
    }
  }

  lemma BothEmpty(s: seq<Entry>, t: seq<Entry>)
    requires forall x :: x in s <==> x in t
    ensures s == [] <==> t == []
  {
    if s != [] { assert s[0] in t; }
    if t != [] { assert t[0] in s; }
  }

  /** A strictly sorted sequence is determined by its elements. */
  lemma {:induction false} SortedIsUnique(leq: Order, s: seq<Entry>, t: seq<Entry>)
    requires TotalPreorder(leq) && StrictlySorted(leq, s) && StrictlySorted(leq, t)
    requires forall x :: x in s <==> x in t
    ensures s == t
  {
    BothEmpty(s, t);
    if s != [] {
      assert s[0] in t && t[0] in s;
      assert s[0] == t[0];
      forall x ensures x in s[1..] <==> x in t[1..] {
        RestWithoutFirst(leq, s, x);
        RestWithoutFirst(leq, t, x);
      }
      SortedIsUnique(leq, s[1..], t[1..]);
      assert s == [s[0]] + s[1..] && t == [t[0]] + t[1..];
    }
  }

  lemma RestWithoutFirst(leq: Order, s: seq<Entry>, x: Entry)
    requires TotalPreorder(leq) && StrictlySorted(leq, s) && s != []
    ensures x in s[1..] <==> x in s && x != s[0]
  {
    assert s == [s[0]] + s[1..];
    if x in s[1..] {
      var k :| 0 <= k < |s[1..]| && s[1..][k] == x;
      assert s[k + 1] == x;
    }
  }

  ghost predicate Regular(leq: Order, v: Json) { Valid(v) && Untied(leq, v) }

  lemma {:induction false} EquivHasSameCanon(leq: Order, a: Json, b: Json)
    requires TotalPreorder(leq) && Regular(leq, a) && Regular(leq, b) && Equiv(a, b)
    ensures Canon(leq, a) == Canon(leq, b)
    decreases a, 2
  {
    match (a, b)
    case (Arr(xs), Arr(ys)) => EquivItems(leq, xs, ys);
    case (Obj(es), Obj(fs)) =>
      EquivEntries(leq, es, fs);
      CanonKeepsKeys(leq, es);
      CanonKeepsKeys(leq, fs);
      SameElementsSortAlike(leq, CanonEntries(leq, es), CanonEntries(leq, fs));
    case _ =>
  }

  lemma {:induction false} EquivItems(leq: Order, xs: seq<Json>, ys: seq<Json>)
    requires TotalPreorder(leq) && |xs| == |ys|
    requires forall i :: 0 <= i < |xs| ==> Regular(leq, xs[i]) && Regular(leq, ys[i]) && Equiv(xs[i], ys[i])
    ensures CanonItems(leq, xs) == CanonItems(leq, ys)
    decreases xs, 1
  {
    forall i | 0 <= i < |xs| ensures CanonItems(leq, xs)[i] == CanonItems(leq, ys)[i] {
      EquivHasSameCanon(leq, xs[i], ys[i]);
    }
  }

  ghost predicate KeysUntied(leq: Order, es: seq<Entry>) {
    DistinctKeys(es) && forall i, j :: 0 <= i < j < |es| ==> !Tied(leq, es[i].key, es[j].key)
  }

  lemma CanonKeepsKeys(leq: Order, es: seq<Entry>)
    requires KeysUntied(leq, es)
    ensures KeysUntied(leq, CanonEntries(leq, es))
  {}

  lemma SameElementsSortAlike(leq: Order, ce: seq<Entry>, cf: seq<Entry>)
    requires TotalPreorder(leq) && KeysUntied(leq, ce) && KeysUntied(leq, cf)
    requires forall x :: x in ce <==> x in cf
    ensures Sort(leq, ce) == Sort(leq, cf)
  {
    SortSorts(leq, ce);
    SortSorts(leq, cf);
    SortElements(leq, ce);
    SortElements(leq, cf);
    SortedIsUnique(leq, Sort(leq, ce), Sort(leq, cf));
  }

  lemma {:induction false} EquivEntries(leq: Order, es: seq<Entry>, fs: seq<Entry>)
    requires TotalPreorder(leq)
    requires forall i :: 0 <= i < |es| ==> LikeOneOf(fs, es[i]) && Regular(leq, es[i].value)
    requires forall j :: 0 <= j < |fs| ==> IsLikeOneOf(es, fs[j]) && Regular(leq, fs[j].value)
    ensures forall x :: x in CanonEntries(leq, es) <==> x in CanonEntries(leq, fs)
    decreases es, 1
  {
    var ce, cf := CanonEntries(leq, es), CanonEntries(leq, fs);
    forall i | 0 <= i < |ce| ensures ce[i] in cf { EquivEntry(leq, es, fs, i); }
    forall j | 0 <= j < |cf| ensures cf[j] in ce { EquivEntryBack(leq, es, fs, j); }
  }

  lemma {:induction false} EquivEntry(leq: Order, es: seq<Entry>, fs: seq<Entry>, i: nat)
    requires TotalPreorder(leq) && i < |es| && LikeOneOf(fs, es[i]) && Regular(leq, es[i].value)
    requires forall j :: 0 <= j < |fs| ==> Regular(leq, fs[j].value)
    ensures CanonEntries(leq, es)[i] in CanonEntries(leq, fs)
    decreases es, 0
  {
    var j :| 0 <= j < |fs| && fs[j].key == es[i].key && Equiv(es[i].value, fs[j].value);
    EquivHasSameCanon(leq, es[i].value, fs[j].value);
    assert CanonEntries(leq, fs)[j] == CanonEntries(leq, es)[i];
  }

  lemma {:induction false} EquivEntryBack(leq: Order, es: seq<Entry>, fs: seq<Entry>, j: nat)
    requires TotalPreorder(leq) && j < |fs| && IsLikeOneOf(es, fs[j]) && Regular(leq, fs[j].value)
    requires forall i :: 0 <= i < |es| ==> Regular(leq, es[i].value)
    ensures CanonEntries(leq, fs)[j] in CanonEntries(leq, es)
    decreases es, 0
  {
    var i :| 0 <= i < |es| && es[i].key == fs[j].key && Equiv(es[i].value, fs[j].value);
    EquivHasSameCanon(leq, es[i].value, fs[j].value);
    assert CanonEntries(leq, fs)[j] == CanonEntries(leq, es)[i];
  }

  // ---------------------------------------------------------------- theorems

  /** Whatever the comparison: values with equal prints are equal up to key order. */
  lemma EqualPrintsMeanEqualValues(leq: Order, a: Json, b: Json)
    requires Valid(a) && Valid(b) && StableStringify(leq, a) == StableStringify(leq, b)
    ensures Equiv(a, b)
  {
    StablePrintsAgree(leq, a, b);
    SameCanonIsEquiv(leq, a, b);
  }

  /** While no object has two keys that compare equal, the print decides equality up to key order. */
  lemma StableStringifyIsCanonical(leq: Order, a: Json, b: Json)
    requires TotalPreorder(leq) && Valid(a) && Valid(b) && Untied(leq, a) && Untied(leq, b)
    ensures StableStringify(leq, a) == StableStringify(leq, b) <==> Equiv(a, b)
  {
    if Equiv(a, b) {
      EquivHasSameCanon(leq, a, b);
    } else if StableStringify(leq, a) == StableStringify(leq, b) {
      EqualPrintsMeanEqualValues(leq, a, b);
    }
  }

  function Pair(k: Text, l: Text): Json { Obj([Entry(k, Null), Entry(l, Null)]) }

  lemma LikeAt(es: seq<Entry>, fs: seq<Entry>, i: nat, j: nat)
    requires i < |es| && j < |fs| && es[i].key == fs[j].key && Equiv(es[i].value, fs[j].value)
    ensures LikeOneOf(fs, es[i]) && IsLikeOneOf(es, fs[j])
  {}

  lemma PairEquiv(k: Text, l: Text)
    requires k != l
    ensures Valid(Pair(k, l)) && Equiv(Pair(k, l), Pair(l, k))
  {
    LikeAt(Pair(k, l).entries, Pair(l, k).entries, 0, 1);
    LikeAt(Pair(k, l).entries, Pair(l, k).entries, 1, 0);
  }

  lemma TiedPairKeepsOrder(leq: Order, k: Text, l: Text)
    requires Tied(leq, k, l)
    ensures Canon(leq, Pair(k, l)) == Pair(k, l)
  {
    var es := Pair(k, l).entries;
    assert CanonEntries(leq, es) == es;
    assert es[1..] == [es[1]] && es[1..][1..] == [];
    assert Sort(leq, es[1..][1..]) == [];
    assert Sort(leq, es[1..]) == [es[1]];
    assert Sort(leq, es) == [es[0]] + [es[1]];
  }

  /** Two keys that compare equal are enough for two equal values to print differently. */
  lemma TiedKeysPrintInInsertionOrder(leq: Order, k: Text, l: Text)
    requires TotalPreorder(leq) && Tied(leq, k, l)
    ensures Equiv(Pair(k, l), Pair(l, k)) && StableStringify(leq, Pair(k, l)) != StableStringify(leq, Pair(l, k))
  {
    PairEquiv(k, l);
    PairEquiv(l, k);
    TiedPairKeepsOrder(leq, k, l);
    TiedPairKeepsOrder(leq, l, k);
    assert Pair(k, l) != Pair(l, k) by { assert Pair(k, l).entries[0].key != Pair(l, k).entries[0].key; }
    StablePrintsAgree(leq, Pair(k, l), Pair(l, k));
  }

  // ---------------------------------------------------------------- exactly which values print canonically

  predicate SameRank(leq: Order, k: Text, x: Entry) { leq(x.key, k) && leq(k, x.key) }

  /** The entries the comparison cannot tell from k, in their order. */
  function Class(leq: Order, k: Text, s: seq<Entry>): seq<Entry> {
    if s == [] then [] else (if SameRank(leq, k, s[0]) then [s[0]] else []) + Class(leq, k, s[1..])
  }

  lemma ClassOfCons(leq: Order, k: Text, x: Entry, s: seq<Entry>)
    ensures Class(leq, k, [x] + s) == (if SameRank(leq, k, x) then [x] else []) + Class(leq, k, s)
  {
    assert ([x] + s)[1..] == s;
  }

  lemma {:induction false} ClassOfInsert(leq: Order, k: Text, e: Entry, s: seq<Entry>)
    requires TotalPreorder(leq)
    ensures Class(leq, k, Insert(leq, e, s)) == (if SameRank(leq, k, e) then [e] else []) + Class(leq, k, s)
  {
    if s == [] || leq(e.key, s[0].key) {
      ClassOfCons(leq, k, e, s);
    } else {
      ClassOfInsert(leq, k, e, s[1..]);
      ClassOfCons(leq, k, s[0], Insert(leq, e, s[1..]));
      PassedIsOther(leq, k, e, s[0]);
    }
  }

  /** An entry that has to go before the new one is not in its class. */
  lemma PassedIsOther(leq: Order, k: Text, e: Entry, x: Entry)
    requires TotalPreorder(leq) && !leq(e.key, x.key)
    ensures SameRank(leq, k, e) ==> !SameRank(leq, k, x)
  {}

  /** Sorting is stable: what compares equal keeps its order. */
  lemma {:induction false} SortIsStable(leq: Order, k: Text, s: seq<Entry>)
    requires TotalPreorder(leq)
    ensures Class(leq, k, Sort(leq, s)) == Class(leq, k, s)
  {
    if s != [] {
      SortIsStable(leq, k, s[1..]);
      ClassOfInsert(leq, k, s[0], Sort(leq, s[1..]));
    }
  }

  lemma {:induction false} ClassOfConcat(leq: Order, k: Text, s: seq<Entry>, t: seq<Entry>)
    ensures Class(leq, k, s + t) == Class(leq, k, s) + Class(leq, k, t)
  {
    if s == [] {
      assert s + t == t;
    } else {
      assert (s + t)[1..] == s[1..] + t && (s + t)[0] == s[0];
      ClassOfConcat(leq, k, s[1..], t);
      Reassociate(if SameRank(leq, k, s[0]) then [s[0]] else [], Class(leq, k, s[1..]), Class(leq, k, t));
    }
  }

  lemma Reassociate(x: seq<Entry>, y: seq<Entry>, z: seq<Entry>)
    ensures x + (y + z) == (x + y) + z
  {}

  /** The first entry of a class after a common start tells two sequences apart. */
  lemma ClassesDiffer(leq: Order, k: Text, p: seq<Entry>, x: Entry, y: Entry, s: seq<Entry>, t: seq<Entry>)
    requires x != y && SameRank(leq, k, x) && SameRank(leq, k, y)
    ensures Class(leq, k, p + ([x] + s)) != Class(leq, k, p + ([y] + t))
  {
    ClassOfConcat(leq, k, p, [x] + s);
    ClassOfConcat(leq, k, p, [y] + t);
    assert ([x] + s)[1..] == s && ([y] + t)[1..] == t;
    var n := |Class(leq, k, p)|;
    assert Class(leq, k, p + ([x] + s))[n] == x && Class(leq, k, p + ([y] + t))[n] == y;
  }

  function Swapped(es: seq<Entry>, i: nat, j: nat): seq<Entry>
    requires i < j < |es|
  {
    es[i := es[j]][j := es[i]]
  }

  lemma SplitAt(es: seq<Entry>, i: nat)
    requires i < |es|
    ensures es == es[..i] + ([es[i]] + es[i + 1..])
  {}

  lemma SwappedSortsApart(leq: Order, es: seq<Entry>, i: nat, j: nat)
    requires TotalPreorder(leq) && i < j < |es| && Tied(leq, es[i].key, es[j].key)
    ensures Sort(leq, es) != Sort(leq, Swapped(es, i, j))
  {
    var fs, k := Swapped(es, i, j), es[i].key;
    SplitAt(es, i);
    SplitAt(fs, i);
    assert fs[..i] == es[..i];
    ClassesDiffer(leq, k, es[..i], es[i], fs[i], es[i + 1..], fs[i + 1..]);
    SortIsStable(leq, k, es);
    SortIsStable(leq, k, fs);
  }

  lemma {:induction false} EquivIsReflexive(v: Json)
    ensures Equiv(v, v)
    decreases v
  {
    match v
    case Arr(items) => forall i | 0 <= i < |items| ensures Equiv(items[i], items[i]) { EquivIsReflexive(items[i]); }
    case Obj(entries) =>
      forall i | 0 <= i < |entries| ensures LikeOneOf(entries, entries[i]) && IsLikeOneOf(entries, entries[i]) {
        EquivIsReflexive(entries[i].value);
      }
    case _ =>
  }

  /** Where an entry goes when two are swapped. */
  function Partner(i: nat, j: nat, n: nat): nat { if n == i then j else if n == j then i else n }

  lemma SwappedIsValid(es: seq<Entry>, i: nat, j: nat)
    requires Valid(Obj(es)) && i < j < |es|
    ensures Valid(Obj(Swapped(es, i, j)))
  {
    var fs := Swapped(es, i, j);
    forall n | 0 <= n < |fs| ensures fs[n] == es[Partner(i, j, n)] {}
  }

  lemma SameAt(es: seq<Entry>, fs: seq<Entry>, i: nat, j: nat)
    requires i < |es| && j < |fs| && es[i] == fs[j]
    ensures LikeOneOf(fs, es[i]) && IsLikeOneOf(es, fs[j])
  {
    EquivIsReflexive(es[i].value);
    LikeAt(es, fs, i, j);
  }

  lemma SwappedIsEquiv(es: seq<Entry>, i: nat, j: nat)
    requires i < j < |es|
    ensures Equiv(Obj(es), Obj(Swapped(es, i, j)))
  {
    var fs := Swapped(es, i, j);
    forall n | 0 <= n < |es| ensures LikeOneOf(fs, es[n]) { SameAt(es, fs, n, Partner(i, j, n)); }
    forall n | 0 <= n < |fs| ensures IsLikeOneOf(es, fs[n]) { SameAt(es, fs, Partner(i, j, n), n); }
  }

  /** Two tied keys of one object: the same object with the two entries swapped sorts differently. */
  lemma SwappedPrintsApart(leq: Order, es: seq<Entry>, i: nat, j: nat)
    requires TotalPreorder(leq) && i < j < |es| && Tied(leq, es[i].key, es[j].key)
    ensures Canon(leq, Obj(es)) != Canon(leq, Obj(Swapped(es, i, j)))
  {
    var ce := CanonEntries(leq, es);
    assert CanonEntries(leq, Swapped(es, i, j)) == Swapped(ce, i, j);
    SwappedSortsApart(leq, ce, i, j);
  }

  lemma ReplacedIsValid(es: seq<Entry>, i: nat, w: Json)
    requires Valid(Obj(es)) && i < |es| && Valid(w)
    ensures Valid(Obj(es[i := Entry(es[i].key, w)]))
  {
    var fs := es[i := Entry(es[i].key, w)];
    forall n | 0 <= n < |fs| ensures fs[n].key == es[n].key && Valid(fs[n].value) {}
  }

  lemma LikeEverywhere(es: seq<Entry>, fs: seq<Entry>)
    requires |es| == |fs| && forall n :: 0 <= n < |es| ==> es[n].key == fs[n].key && Equiv(es[n].value, fs[n].value)
    ensures Equiv(Obj(es), Obj(fs))
  {
    forall n | 0 <= n < |es| ensures LikeOneOf(fs, es[n]) { LikeAt(es, fs, n, n); }
    forall n | 0 <= n < |fs| ensures IsLikeOneOf(es, fs[n]) { LikeAt(es, fs, n, n); }
  }

  lemma ReplacedIsEquiv(es: seq<Entry>, i: nat, w: Json)
    requires i < |es| && Equiv(es[i].value, w)
    ensures Equiv(Obj(es), Obj(es[i := Entry(es[i].key, w)]))
  {
    var fs := es[i := Entry(es[i].key, w)];
    forall n | 0 <= n < |es| ensures es[n].key == fs[n].key && Equiv(es[n].value, fs[n].value) {
      if n != i { EquivIsReflexive(es[n].value); }
    }
    LikeEverywhere(es, fs);
  }

  lemma ReplacedPrintsApart(leq: Order, es: seq<Entry>, i: nat, w: Json)
    requires DistinctKeys(es) && i < |es| && Canon(leq, es[i].value) != Canon(leq, w)
    ensures Canon(leq, Obj(es)) != Canon(leq, Obj(es[i := Entry(es[i].key, w)]))
  {
    var fs := es[i := Entry(es[i].key, w)];
    ReplacedEntryIsNew(es, fs, CanonEntries(leq, es), CanonEntries(leq, fs), i);
    SortElements(leq, CanonEntries(leq, es));
    SortElements(leq, CanonEntries(leq, fs));
    assert CanonEntries(leq, fs)[i] in Sort(leq, CanonEntries(leq, fs));
  }

  lemma ReplacedEntryIsNew(es: seq<Entry>, fs: seq<Entry>, ce: seq<Entry>, cf: seq<Entry>, i: nat)
    requires DistinctKeys(es) && i < |es| == |fs| == |ce| == |cf|
    requires forall n :: 0 <= n < |es| ==> es[n].key == fs[n].key == ce[n].key == cf[n].key
    requires cf[i] != ce[i]
    ensures cf[i] !in ce
  {
    forall j | 0 <= j < |ce| ensures ce[j] != cf[i] {
      if j != i { assert es[j].key != es[i].key; }
    }
  }

  ghost predicate PrintsApart(leq: Order, a: Json, b: Json) {
    Valid(b) && Equiv(a, b) && Canon(leq, a) != Canon(leq, b)
  }

  lemma ItemPrintsApart(leq: Order, items: seq<Json>, i: nat, w: Json)
    requires Valid(Arr(items)) && i < |items| && PrintsApart(leq, items[i], w)
    ensures PrintsApart(leq, Arr(items), Arr(items[i := w]))
  {
    var ws := items[i := w];
    forall n | 0 <= n < |items| ensures Equiv(items[n], ws[n]) { EquivIsReflexive(items[n]); }
    assert CanonItems(leq, items)[i] != CanonItems(leq, ws)[i];
  }

  lemma ValuePrintsApart(leq: Order, es: seq<Entry>, i: nat, w: Json)
    requires Valid(Obj(es)) && i < |es| && PrintsApart(leq, es[i].value, w)
    ensures PrintsApart(leq, Obj(es), Obj(es[i := Entry(es[i].key, w)]))
  {
    ReplacedIsValid(es, i, w);
    ReplacedIsEquiv(es, i, w);
    ReplacedPrintsApart(leq, es, i, w);
  }

  /** A value with a tie somewhere has an equal value that sorts differently. */
  lemma {:induction false} TieGivesAnother(leq: Order, a: Json) returns (b: Json)
    requires TotalPreorder(leq) && Valid(a) && !Untied(leq, a)
    ensures PrintsApart(leq, a, b)
    decreases a
  {
    match a
    case Arr(items) =>
      var i :| 0 <= i < |items| && !Untied(leq, items[i]);
      var w := TieGivesAnother(leq, items[i]);
      b := Arr(items[i := w]);
      ItemPrintsApart(leq, items, i, w);
    case Obj(es) =>
      if i, j :| 0 <= i < j < |es| && Tied(leq, es[i].key, es[j].key) {
        b := Obj(Swapped(es, i, j));
        SwappedIsValid(es, i, j);
        SwappedIsEquiv(es, i, j);
        SwappedPrintsApart(leq, es, i, j);
      } else {
        var i :| 0 <= i < |es| && !Untied(leq, es[i].value);
        var w := TieGivesAnother(leq, es[i].value);
        b := Obj(es[i := Entry(es[i].key, w)]);
        ValuePrintsApart(leq, es, i, w);
      }
    case _ =>
  }

  lemma KeysStayUntied(leq: Order, es: seq<Entry>, fs: seq<Entry>, m: nat, n: nat)
    requires KeysUntied(leq, es) && m < n < |fs| && fs[m].key != fs[n].key
    requires IsLikeOneOf(es, fs[m]) && IsLikeOneOf(es, fs[n])
    ensures !Tied(leq, fs[m].key, fs[n].key)
  {
    var i :| 0 <= i < |es| && es[i].key == fs[m].key;
    var j :| 0 <= j < |es| && es[j].key == fs[n].key;
    if i < j { assert !Tied(leq, es[i].key, es[j].key); } else { assert !Tied(leq, es[j].key, es[i].key); }
  }

  /** Ties are a matter of the keys, not of their order. */
  lemma {:induction false} UntiedIsEquiv(leq: Order, a: Json, b: Json)
    requires Valid(a) && Valid(b) && Untied(leq, a) && Equiv(a, b)
    ensures Untied(leq, b)
    decreases a, 1
  {
    match (a, b)
    case (Arr(xs), Arr(ys)) =>
      forall i | 0 <= i < |ys| ensures Untied(leq, ys[i]) { UntiedIsEquiv(leq, xs[i], ys[i]); }
    case (Obj(es), Obj(fs)) =>
      forall j | 0 <= j < |fs| ensures Untied(leq, fs[j].value) { UntiedValue(leq, es, fs[j]); }
      forall m, n | 0 <= m < n < |fs| ensures !Tied(leq, fs[m].key, fs[n].key) { KeysStayUntied(leq, es, fs, m, n); }
    case _ =>
  }

  lemma {:induction false} UntiedValue(leq: Order, es: seq<Entry>, f: Entry)
    requires IsLikeOneOf(es, f) && Valid(f.value)
    requires forall i :: 0 <= i < |es| ==> Valid(es[i].value) && Untied(leq, es[i].value)
    ensures Untied(leq, f.value)
    decreases es, 0
  {
    var i :| 0 <= i < |es| && es[i].key == f.key && Equiv(es[i].value, f.value);
    UntiedIsEquiv(leq, es[i].value, f.value);
  }

  /** A value prints like all values equal to it up to key order exactly when none of its objects has tied keys. */
  lemma CanonicalExactlyWhenUntied(leq: Order, a: Json)
    requires TotalPreorder(leq) && Valid(a)
    ensures (forall b :: Valid(b) && Equiv(a, b) ==> StableStringify(leq, a) == StableStringify(leq, b))
              <==> Untied(leq, a)
  {
    if Untied(leq, a) {
      forall b | Valid(b) && Equiv(a, b) ensures StableStringify(leq, a) == StableStringify(leq, b) {
        UntiedIsEquiv(leq, a, b);
        EquivHasSameCanon(leq, a, b);
      }
    } else {
      var b := TieGivesAnother(leq, a);
      StablePrintsAgree(leq, a, b);
    }
  }

  ghost predicate Agrees(leq: Order, a: Json, b: Json) {
    StableStringify(leq, a) == StableStringify(leq, b) <==> Equiv(a, b)
  }

  /** The printer is canonical for all values exactly under a comparison that tells all keys apart. */
  lemma CanonicalExactlyWithoutTies(leq: Order)
    requires TotalPreorder(leq)
    ensures (forall a, b :: Valid(a) && Valid(b) ==> Agrees(leq, a, b)) <==> (forall k, l :: !Tied(leq, k, l))
  {
    forall k, l | Tied(leq, k, l)
      ensures Valid(Pair(k, l)) && Valid(Pair(l, k)) && !Agrees(leq, Pair(k, l), Pair(l, k))
    {
      TiedKeysPrintInInsertionOrder(leq, k, l);
      PairEquiv(k, l);
      PairEquiv(l, k);
    }
    if forall k, l :: !Tied(leq, k, l) {
      forall a, b | Valid(a) && Valid(b) ensures Agrees(leq, a, b) {
        NoTiesMeansUntied(leq, a);
        NoTiesMeansUntied(leq, b);
        StableStringifyIsCanonical(leq, a, b);
      }
    }
  }

  lemma {:induction false} NoTiesMeansUntied(leq: Order, v: Json)
    requires forall k, l :: !Tied(leq, k, l)
    ensures Untied(leq, v)
    decreases v
  {
    match v
    case Arr(items) => forall i | 0 <= i < |items| ensures Untied(leq, items[i]) { NoTiesMeansUntied(leq, items[i]); }
    case Obj(entries) =>
      forall i | 0 <= i < |entries| ensures Untied(leq, entries[i].value) { NoTiesMeansUntied(leq, entries[i].value); }
    case _ =>
  }

  // ---------------------------------------------------------------- what the print looks like

  /** The parts with a separator between them. */
  function Join(parts: seq<Text>, separator: Text): Text {
    if parts == [] then []
    else if |parts| == 1 then parts[0]
    else parts[0] + separator + Join(parts[1..], separator)
  }

  function Prints(items: seq<Json>): seq<Text> {
    seq(|items|, i requires 0 <= i < |items| => Print(items[i]))
  }

  /** Every entry as its quoted key, a colon and its value. */
  function EntryPrints(entries: seq<Entry>): seq<Text> {
    seq(|entries|, i requires 0 <= i < |entries| => Quote(entries[i].key) + Ascii(":") + Print(entries[i].value))
  }

  /** What number texts are made of. */
  lemma NumberUnitsAre(u: Unit)
    ensures NumberUnit(u) <==> u in Ascii("0123456789+-.e")
  {
    var t := Ascii("0123456789+-.e");
    if NumberUnit(u) {
      if u < 0x3A && u >= 0x30 { assert t[u - 0x30] == u; }
      assert t[10] == 0x2B && t[11] == 0x2D && t[12] == 0x2E && t[13] == 0x65;
    }
  }

  /** The print of a value is what JSON says it is. */
  lemma PrintIsJson(v: Json)
    ensures match v
            case Null => Print(v) == Ascii("null")
            case Bool(b) => Print(v) == if b then Ascii("true") else Ascii("false")
            case Number(t) => Print(v) == t
            case Str(s) => Print(v) == Quote(s)
            case Arr(items) => Print(v) == Ascii("[") + Join(Prints(items), Ascii(",")) + Ascii("]")
            case Obj(entries) => Print(v) == Ascii("{") + Join(EntryPrints(entries), Ascii(",")) + Ascii("}")
  {
    match v
    case Arr(items) => ItemsAreJoined(items);
    case Obj(entries) => EntriesAreJoined(entries);
    case _ =>
  }

  lemma {:induction false} ItemsAreJoined(items: seq<Json>)
    ensures PrintItems(items) == Join(Prints(items), Ascii(","))
  {
    if |items| > 1 {
      ItemsAreJoined(items[1..]);
      assert Prints(items)[1..] == Prints(items[1..]);
    }
  }

  lemma {:induction false} EntriesAreJoined(entries: seq<Entry>)
    ensures PrintEntries(entries) == Join(EntryPrints(entries), Ascii(","))
  {
    if |entries| > 0 { assert PrintEntry(entries[0]) == EntryPrints(entries)[0]; }
    if |entries| > 1 {
      EntriesAreJoined(entries[1..]);
      assert EntryPrints(entries)[1..] == EntryPrints(entries[1..]);
    }
  }

  ghost predicate Ascends(leq: Order, s: seq<Entry>) {
    forall i, j :: 0 <= i < j < |s| ==> leq(s[i].key, s[j].key)
  }

  /** At every depth the keys of an object ascend. */
  ghost predicate InKeyOrder(leq: Order, v: Json) {
    match v
    case Arr(items) => forall i :: 0 <= i < |items| ==> InKeyOrder(leq, items[i])
    case Obj(entries) => Ascends(leq, entries) && forall i :: 0 <= i < |entries| ==> InKeyOrder(leq, entries[i].value)
    case _ => true
  }

  lemma {:induction false} InsertAscends(leq: Order, e: Entry, s: seq<Entry>)
    requires TotalPreorder(leq) && Ascends(leq, s)
    ensures Ascends(leq, Insert(leq, e, s))
  {
    if s == [] {
    } else if leq(e.key, s[0].key) {
      forall j | 0 <= j < |s| ensures leq(e.key, s[j].key) { assert j == 0 || leq(s[0].key, s[j].key); }
    } else {
      var t := Insert(leq, e, s[1..]);
      InsertAscends(leq, e, s[1..]);
      InsertElements(leq, e, s[1..]);
      forall j | 0 <= j < |t| ensures leq(s[0].key, t[j].key) {
        assert t[j] in t;
        if t[j] != e {
          var k :| 0 <= k < |s[1..]| && s[1..][k] == t[j];
          assert s[k + 1] == t[j];
        }
      }
    }
  }

  lemma {:induction false} SortAscends(leq: Order, s: seq<Entry>)
    requires TotalPreorder(leq)
    ensures Ascends(leq, Sort(leq, s))
  {
    if s != [] {
      SortAscends(leq, s[1..]);
      InsertAscends(leq, s[0], Sort(leq, s[1..]));
    }
  }

  /** What is printed: a value equal to the input up to key order, with its keys in ascending order everywhere. */
  lemma PrintsTheSortedValue(leq: Order, v: Json)
    requires TotalPreorder(leq)
    ensures StableStringify(leq, v) == Print(Canon(leq, v))
    ensures Equiv(v, Canon(leq, v)) && InKeyOrder(leq, Canon(leq, v))
  {
    CanonIsEquiv(leq, v);
    CanonIsInKeyOrder(leq, v);
  }

  lemma {:induction false} CanonIsInKeyOrder(leq: Order, v: Json)
    requires TotalPreorder(leq)
    ensures InKeyOrder(leq, Canon(leq, v))
    decreases v
  {
    match v
    case Arr(items) =>
      forall i | 0 <= i < |items| ensures InKeyOrder(leq, CanonItems(leq, items)[i]) {
        CanonIsInKeyOrder(leq, items[i]);
      }
    case Obj(entries) =>
      var es := CanonEntries(leq, entries);
      var sorted := Sort(leq, es);
      forall i | 0 <= i < |es| ensures InKeyOrder(leq, es[i].value) { CanonIsInKeyOrder(leq, entries[i].value); }
      SortAscends(leq, es);
      SortElements(leq, es);
      forall i | 0 <= i < |sorted| ensures InKeyOrder(leq, sorted[i].value) { assert sorted[i] in es; }
    case _ =>
  }

  lemma {:induction false} CanonIsEquiv(leq: Order, v: Json)
    ensures Equiv(v, Canon(leq, v))
    decreases v
  {
    match v
    case Arr(items) =>
      forall i | 0 <= i < |items| ensures Equiv(items[i], CanonItems(leq, items)[i]) { CanonIsEquiv(leq, items[i]); }
    case Obj(entries) =>
      var es := CanonEntries(leq, entries);
      var sorted := Sort(leq, es);
      SortElements(leq, es);
      forall i | 0 <= i < |entries| ensures Equiv(entries[i].value, es[i].value) {
        CanonIsEquiv(leq, entries[i].value);
      }
      forall i | 0 <= i < |entries| ensures LikeOneOf(sorted, entries[i]) {
        assert es[i] in sorted;
        var j :| 0 <= j < |sorted| && sorted[j] == es[i];
        LikeAt(entries, sorted, i, j);
      }
      forall j | 0 <= j < |sorted| ensures IsLikeOneOf(entries, sorted[j]) {
        assert sorted[j] in es;
        var i :| 0 <= i < |es| && es[i] == sorted[j];
        LikeAt(entries, sorted, i, j);
      }
    case _ =>
  }
}
