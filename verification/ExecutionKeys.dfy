/**
 Execution keys: a 32-bit hash of the stable print of what is to be executed, written in
 base 36 without its sign.
 */
module ExecutionKeys {
  import opened Base
  import opened JsonText
  import opened CanonicalJson

  const P31 := 0x8000_0000
  const P32 := 0x1_0000_0000

  /** Conversion to a signed 32-bit integer: section 7.1.6 of ECMA-262. */
  function ToInt32(x: int): (r: int)
    ensures -P31 <= r < P31 && (x - r) % P32 == 0
  {
    var m := x % P32;
    if m >= P31 then m - P32 else m
  }

  predicate Congruent(x: int, y: int) { (x - y) % P32 == 0 }

  lemma CongruentMeansMultiple(x: int, y: int)
    ensures Congruent(x, y) <==> x % P32 == y % P32
  {
    var q, r := x / P32 - y / P32, x % P32 - y % P32;
    assert x - y == P32 * q + r;
    if r == 0 { MultipleMod(q); }
    if Congruent(x, y) {
      var k := (x - y) / P32;
      assert x - y == P32 * k;
    }
  }

  lemma MultipleMod(q: int)
    ensures (P32 * q) % P32 == 0
  {}

  lemma SameInt32(x: int, y: int)
    ensures ToInt32(x) == ToInt32(y) <==> Congruent(x, y)
  {
    CongruentMeansMultiple(x, y);
  }

  // ---------------------------------------------------------------- the polynomial

  /** The units of the text as the digits of a number to base 31, first digit highest. */
  function Polynomial(s: Text): nat {
    if s == [] then 0 else 31 * Polynomial(s[..|s| - 1]) + s[|s| - 1]
  }

  function Pow31(n: nat): nat { if n == 0 then 1 else 31 * Pow31(n - 1) }

  /** Written out: each unit weighs a power of 31 by its distance from the end. */
  function WeightedSum(s: Text): nat {
    if s == [] then 0 else s[0] * Pow31(|s| - 1) + WeightedSum(s[1..])
  }

  lemma {:induction false} PolynomialOfConcat(s: Text, t: Text)
    ensures Polynomial(s + t) == Polynomial(s) * Pow31(|t|) + Polynomial(t)
    decreases |t|
  {
    if t == [] {
      assert s + t == s;
    } else {
      var front, last := t[..|t| - 1], t[|t| - 1];
      PolynomialOfConcat(s, front);
      PolynomialOfOneMore(s, t);
      Scaled(Polynomial(s), Pow31(|front|), Polynomial(front));
    }
  }

  lemma PolynomialOfOneMore(s: Text, t: Text)
    requires t != []
    ensures Polynomial(s + t) == 31 * Polynomial(s + t[..|t| - 1]) + t[|t| - 1]
  {
    assert (s + t)[..|s + t| - 1] == s + t[..|t| - 1];
  }

  lemma Scaled(p: int, w: int, q: int)
    ensures 31 * (p * w + q) == p * (31 * w) + 31 * q
  {}

  lemma {:induction false} PolynomialIsWeightedSum(s: Text)
    ensures Polynomial(s) == WeightedSum(s)
  {
    if s != [] {
      assert s == [s[0]] + s[1..];
      PolynomialOfConcat([s[0]], s[1..]);
      PolynomialIsWeightedSum(s[1..]);
      assert Polynomial([s[0]]) == s[0];
    }
  }

  /** One round of the loop multiplies by 31 and adds, modulo 2^32. */
  lemma RoundStep(hash: int, p: int, u: int)
    requires Congruent(hash, p)
    ensures Congruent(ToInt32(hash * 32) - hash + u, 31 * p + u)
  {
    var a := (hash * 32 - ToInt32(hash * 32)) / P32;
    var b := (hash - p) / P32;
    assert hash * 32 - ToInt32(hash * 32) == P32 * a && hash - p == P32 * b;
    assert ToInt32(hash * 32) - hash + u - (31 * p + u) == P32 * (31 * b - a);
    MultipleMod(31 * b - a);
  }

  function Hash(s: Text): int { ToInt32(Polynomial(s)) }

  lemma HashOneMore(s: Text, i: nat, hash: int, sum: int)
    requires i < |s| && hash == Hash(s[..i]) && sum == ToInt32(hash * 32) - hash + s[i]
    ensures ToInt32(sum) == Hash(s[..i + 1])
  {
    PolynomialGrows(s, i);
    SameInt32(hash, Polynomial(s[..i]));
    RoundStep(hash, Polynomial(s[..i]), s[i]);
    SameInt32(sum, Polynomial(s[..i + 1]));
  }

  lemma PolynomialGrows(s: Text, i: nat)
    requires i < |s|
    ensures Polynomial(s[..i + 1]) == 31 * Polynomial(s[..i]) + s[i]
  {
    assert s[..i + 1][..i] == s[..i];
  }

  /** The loop of the program, shift and truncation included. */
  method HashString(input: Text) returns (key: Text)
    ensures key == KeyText(Hash(input))
  {
    var hash := 0;
    var i := 0;
    while i < |input|
      invariant 0 <= i <= |input| && hash == Hash(input[..i])
    {
      var sum := ToInt32(hash * 32) - hash + input[i];
      HashOneMore(input, i, hash, sum);
      hash := ToInt32(sum);
      i := i + 1;
    }
    assert input[..|input|] == input;
    key := KeyText(hash);
  }

  // ---------------------------------------------------------------- the text of a key

  function Abs(x: int): nat { if x < 0 then -x else x }

  function Digit36(d: nat): Unit
    requires d < 36
  {
    if d < 10 then 0x30 + d else 0x61 + (d - 10)
  }

  function ToString36(n: nat): Text {
    if n < 36 then [Digit36(n)] else ToString36(n / 36) + [Digit36(n % 36)]
  }

  function DigitValue(u: Unit): nat {
    if 0x61 <= u then u - 0x61 + 10 else if 0x30 <= u then u - 0x30 else 0
  }

  function Value36(t: Text): nat {
    if t == [] then 0 else 36 * Value36(t[..|t| - 1]) + DigitValue(t[|t| - 1])
  }

  lemma {:induction false} ValueUndoesToString(n: nat)
    ensures Value36(ToString36(n)) == n
  {
    if n < 36 {
      assert Value36([]) == 0;
    } else {
      ValueUndoesToString(n / 36);
      var t := ToString36(n / 36);
      assert ToString36(n)[..|t|] == t;
    }
  }

  const PREFIX: Text := [0x65, 0x78, 0x65, 0x63, 0x5F]

  function KeyText(hash: int): Text { PREFIX + ToString36(Abs(hash)) }

  function ExecutionKey(leq: Order, v: Json): Text { KeyText(Hash(StableStringify(leq, v))) }

  // ---------------------------------------------------------------- theorems

  /** The hash is the polynomial reduced to 32 bits; the number in the key is at most 2^31. */
  lemma HashIsReducedPolynomial(s: Text)
    ensures Congruent(Hash(s), WeightedSum(s)) && Abs(Hash(s)) <= P31
  {
    PolynomialIsWeightedSum(s);
    CongruentMeansMultiple(Hash(s), WeightedSum(s));
    CongruentMeansMultiple(WeightedSum(s), Hash(s));
  }

  lemma SameKeyText(x: int, y: int)
    ensures KeyText(x) == KeyText(y) <==> x == y || x == -y
  {
    ValueUndoesToString(Abs(x));
    ValueUndoesToString(Abs(y));
    assert KeyText(x)[|PREFIX|..] == ToString36(Abs(x));
    assert KeyText(y)[|PREFIX|..] == ToString36(Abs(y));
  }

  /** Exactly when two texts share a key: their polynomials are equal modulo 2^32, up to sign. */
  lemma KeysCollideExactly(s: Text, t: Text)
    ensures KeyText(Hash(s)) == KeyText(Hash(t)) <==>
              Congruent(Polynomial(s), Polynomial(t)) || Congruent(Polynomial(s), 0 - Polynomial(t))
  {
    SameKeyText(Hash(s), Hash(t));
    SameInt32(Polynomial(s), Polynomial(t));
    SameInt32(Polynomial(s), 0 - Polynomial(t));
    NegatedInt32(Polynomial(t));
  }

  /** Negation commutes with the conversion, except that -2^31 is its own negative. */
  lemma NegatedInt32(x: int)
    ensures ToInt32(-x) == if ToInt32(x) == -P31 then -P31 else -ToInt32(x)
  {
    var r := ToInt32(x);
    var k := (x - r) / P32;
    assert x - r == P32 * k;
    if r == -P31 {
      assert -x - r == P32 * (1 - k);
      MultipleMod(1 - k);
      SameInt32(-x, r);
    } else {
      assert -x - (-r) == P32 * (-k);
      MultipleMod(-k);
      SameInt32(-x, -r);
    }
  }

  /** Different texts can share a key. */
  lemma DifferentTextsCanShareAKey()
    ensures exists s: Text, t: Text :: s != t && KeyText(Hash(s)) == KeyText(Hash(t))
  {
    var s: Text, t: Text := [0x41, 0x61], [0x42, 0x42];
    assert s[..1] == [0x41] && t[..1] == [0x42];
    assert Polynomial([0x41]) == 65 && Polynomial([0x42]) == 66;
    assert Polynomial(s) == Polynomial(t);
    assert s != t && KeyText(Hash(s)) == KeyText(Hash(t));
  }

  /** A value without tied keys gets the same key as every value equal to it up to key order. */
  lemma KeyIgnoresKeyOrder(leq: Order, a: Json, b: Json)
    requires TotalPreorder(leq) && Valid(a) && Valid(b) && Untied(leq, a) && Equiv(a, b)
    ensures ExecutionKey(leq, a) == ExecutionKey(leq, b)
  {
    CanonicalExactlyWhenUntied(leq, a);
  }

  // ---------------------------------------------------------------- the text of a key, literally

  /** "exec_" and the magnitude of the hash, one base 36 digit after the other. */
  lemma KeyTextIs(hash: int)
    ensures KeyText(hash) == Ascii("exec_") + ToString36(if hash < 0 then -hash else hash)
  {
    assert PREFIX == Ascii("exec_");
  }

  lemma DigitsAre(n: nat)
    ensures n < 36 ==> ToString36(n) == [Ascii("0123456789abcdefghijklmnopqrstuvwxyz")[n]]
    ensures n >= 36 ==>
              ToString36(n) == ToString36(n / 36) + [Ascii("0123456789abcdefghijklmnopqrstuvwxyz")[n % 36]]
  {
    DigitIs(n % 36);
  }

  lemma DigitIs(d: nat)
    requires d < 36
    ensures Digit36(d) == Ascii("0123456789abcdefghijklmnopqrstuvwxyz")[d]
  {}

  /** The hash of three units, written out; longer texts go on in the same way. */
  lemma HashOfThree(a: Unit, b: Unit, c: Unit)
    ensures Hash([a, b, c]) == 961 * a + 31 * b + c
    ensures -2147483648 <= Hash([a, b, c]) <= 2147483647
  {
    assert [a, b, c][..2] == [a, b] && [a, b][..1] == [a];
    assert Polynomial([a]) == a;
    assert Polynomial([a, b]) == 31 * a + b;
    assert Polynomial([a, b, c]) == 961 * a + 31 * b + c < P31;
  }

  // ---------------------------------------------------------------- what is hashed

  datatype KeyInput = KeyInput(
    actionId: Text, decisionId: Text, entityType: Text, entityId: Text, orgId: Text,
    mode: Option<Text>, scope: Option<Text>, payload: Option<Json>)

  /** A missing mode or payload is written as null, a missing scope as "default". */
  function Described(k: KeyInput): Json {
    Obj([
      Entry(Ascii("actionId"), Str(k.actionId)),
      Entry(Ascii("decisionId"), Str(k.decisionId)),
      Entry(Ascii("entityType"), Str(k.entityType)),
      Entry(Ascii("entityId"), Str(k.entityId)),
      Entry(Ascii("orgId"), Str(k.orgId)),
      Entry(Ascii("mode"), if k.mode.Some? then Str(k.mode.value) else Null),
      Entry(Ascii("scope"), Str(ScopeOf(k))),
      Entry(Ascii("payload"), PayloadOf(k))])
  }

  function ScopeOf(k: KeyInput): Text { if k.scope.Some? then k.scope.value else Ascii("default") }

  function PayloadOf(k: KeyInput): Json { if k.payload.Some? then k.payload.value else Null }

  function BuildExecutionKey(leq: Order, k: KeyInput): Text { ExecutionKey(leq, Described(k)) }

  const NAMES := [Ascii("actionId"), Ascii("decisionId"), Ascii("entityType"), Ascii("entityId"), Ascii("orgId"),
                  Ascii("mode"), Ascii("scope"), Ascii("payload")]

  /** No two of the eight names are equal: most differ in length, the others in their first letter. */
  lemma NamesDiffer(i: nat, j: nat)
    requires i < j < 8
    ensures NAMES[i] != NAMES[j]
  {
    assert NAMES[0][0] != NAMES[3][0] && NAMES[1][0] != NAMES[2][0] && NAMES[4][0] != NAMES[6][0];
    assert |NAMES[0]| == 8 && |NAMES[1]| == 10 && |NAMES[2]| == 10 && |NAMES[3]| == 8;
    assert |NAMES[4]| == 5 && |NAMES[5]| == 4 && |NAMES[6]| == 5 && |NAMES[7]| == 7;
  }

  predicate NamesAre(es: seq<Entry>) { |es| == 8 && forall i :: 0 <= i < 8 ==> es[i].key == NAMES[i] }

  lemma DescribedIsValid(k: KeyInput)
    requires Valid(PayloadOf(k))
    ensures Valid(Described(k)) && NamesAre(Described(k).entries)
  {
    var es := Described(k).entries;
    forall i, j | 0 <= i < j < 8 ensures es[i].key != es[j].key { NamesDiffer(i, j); }
  }

  /** Under the same eight names, objects are equal up to key order when they are equal name by name. */
  lemma SameNamesSameValues(es: seq<Entry>, fs: seq<Entry>)
    requires NamesAre(es) && NamesAre(fs)
    ensures Equiv(Obj(es), Obj(fs)) <==> forall i :: 0 <= i < 8 ==> Equiv(es[i].value, fs[i].value)
  {
    if Equiv(Obj(es), Obj(fs)) {
      forall i | 0 <= i < 8 ensures Equiv(es[i].value, fs[i].value) {
        assert LikeOneOf(fs, es[i]);
        var j :| 0 <= j < |fs| && fs[j].key == es[i].key && Equiv(es[i].value, fs[j].value);
        if i < j { NamesDiffer(i, j); } else if j < i { NamesDiffer(j, i); }
      }
    }
    if forall i :: 0 <= i < 8 ==> Equiv(es[i].value, fs[i].value) { LikeEverywhere(es, fs); }
  }

  predicate SameScope(s: Option<Text>, t: Option<Text>) {
    s == t || (s.None? && t == Some(Ascii("default"))) || (t.None? && s == Some(Ascii("default")))
  }

  /** Two inputs that ask for the same execution. */
  ghost predicate SameExecution(k: KeyInput, l: KeyInput) {
    && k.actionId == l.actionId && k.decisionId == l.decisionId
    && k.entityType == l.entityType && k.entityId == l.entityId && k.orgId == l.orgId
    && k.mode == l.mode && SameScope(k.scope, l.scope) && Equiv(PayloadOf(k), PayloadOf(l))
  }

  lemma EqualAtoms(x: Text, y: Text)
    ensures Equiv(Str(x), Str(y)) <==> x == y
    ensures !Equiv(Str(x), Null) && !Equiv(Null, Str(y)) && Equiv(Null, Null)
  {}

  lemma SameFields(k: KeyInput, l: KeyInput)
    requires Valid(PayloadOf(k)) && Valid(PayloadOf(l))
    ensures Equiv(Described(k), Described(l)) <==> SameExecution(k, l)
  {
    DescribedIsValid(k);
    DescribedIsValid(l);
    SameNamesSameValues(Described(k).entries, Described(l).entries);
    ValuesAre(k, l, Described(k).entries, Described(l).entries);
    ScopesAgree(k, l);
  }

  ghost predicate FieldsAgree(k: KeyInput, l: KeyInput) {
    && k.actionId == l.actionId && k.decisionId == l.decisionId
    && k.entityType == l.entityType && k.entityId == l.entityId && k.orgId == l.orgId
    && k.mode == l.mode && ScopeOf(k) == ScopeOf(l) && Equiv(PayloadOf(k), PayloadOf(l))
  }

  lemma ScopesAgree(k: KeyInput, l: KeyInput)
    ensures ScopeOf(k) == ScopeOf(l) <==> SameScope(k.scope, l.scope)
  {}

  /** The values one by one. */
  lemma ValuesAre(k: KeyInput, l: KeyInput, es: seq<Entry>, fs: seq<Entry>)
    requires es == Described(k).entries && fs == Described(l).entries
    ensures (forall i :: 0 <= i < 8 ==> Equiv(es[i].value, fs[i].value)) <==> FieldsAgree(k, l)
  {
    EqualAtoms(k.actionId, l.actionId);
    EqualAtoms(k.decisionId, l.decisionId);
    EqualAtoms(k.entityType, l.entityType);
    EqualAtoms(k.entityId, l.entityId);
    EqualAtoms(k.orgId, l.orgId);
    EqualAtoms(if k.mode.Some? then k.mode.value else [], if l.mode.Some? then l.mode.value else []);
    EqualAtoms(ScopeOf(k), ScopeOf(l));
    EachOfEight(es, fs);
  }

  lemma EachOfEight(es: seq<Entry>, fs: seq<Entry>)
    requires |es| == |fs| == 8
    ensures (forall i :: 0 <= i < 8 ==> Equiv(es[i].value, fs[i].value)) <==>
              && Equiv(es[0].value, fs[0].value) && Equiv(es[1].value, fs[1].value)
              && Equiv(es[2].value, fs[2].value) && Equiv(es[3].value, fs[3].value)
              && Equiv(es[4].value, fs[4].value) && Equiv(es[5].value, fs[5].value)
              && Equiv(es[6].value, fs[6].value) && Equiv(es[7].value, fs[7].value)
  {}

  lemma DescribedIsUntied(leq: Order, k: KeyInput)
    requires Untied(leq, PayloadOf(k)) && forall i, j :: 0 <= i < j < 8 ==> !Tied(leq, NAMES[i], NAMES[j])
    ensures Untied(leq, Described(k))
  {
    var es := Described(k).entries;
    assert NamesAre(es);
    forall i, j | 0 <= i < j < 8 ensures !Tied(leq, es[i].key, es[j].key) {
      assert !Tied(leq, NAMES[i], NAMES[j]);
    }
    forall i | 0 <= i < 8 ensures Untied(leq, es[i].value) { if i == 7 { assert es[7].value == PayloadOf(k); } }
  }

  /**
   Which inputs have the same text hashed: those with the same action, decision, entity,
   organisation, mode, scope (a missing one counts as "default") and, up to key order, payload
   (a missing one counts as null). The comparison must tell the eight names and the keys of the
   payloads apart.
   */
  lemma SameTextExactly(leq: Order, k: KeyInput, l: KeyInput)
    requires TotalPreorder(leq) && Valid(PayloadOf(k)) && Valid(PayloadOf(l))
    requires Untied(leq, PayloadOf(k)) && Untied(leq, PayloadOf(l))
    requires forall i, j :: 0 <= i < j < 8 ==> !Tied(leq, NAMES[i], NAMES[j])
    ensures StableStringify(leq, Described(k)) == StableStringify(leq, Described(l)) <==> SameExecution(k, l)
    ensures SameExecution(k, l) ==> BuildExecutionKey(leq, k) == BuildExecutionKey(leq, l)
  {
    DescribedIsValid(k);
    DescribedIsValid(l);
    DescribedIsUntied(leq, k);
    DescribedIsUntied(leq, l);
    StableStringifyIsCanonical(leq, Described(k), Described(l));
    SameFields(k, l);
  }
}
