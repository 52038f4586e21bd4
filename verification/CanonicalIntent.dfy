/**
 `canonicalIntent`, `purchaseIntentPayload` and the scope string of a checkout.
 The reference definition is `Meaning`: a tree whose arrays are multisets and
 whose objects are finite maps. The canonical text decides exactly that meaning.
 */
module CanonicalIntent {
  import opened Utf16
  import opened JsonText
  import opened JsonScan

  /**
   A JavaScript value as `canonicalIntent` sees it. `NonJson` is NaN, an infinity,
   a function or a symbol; `Num` carries the text of a finite number.
   */
  datatype Json =
    | Undefined
    | Null
    | NonJson
    | Bool(b: bool)
    | Num(text: Text)
    | Str(s: Text)
    | Arr(items: seq<Json>)
    | Obj(fields: seq<Field>)
  datatype Field = Field(key: Text, value: Json)

  const NULL_TEXT: Text := [0x6E, 0x75, 0x6C, 0x6C]
  const TRUE_TEXT: Text := [0x74, 0x72, 0x75, 0x65]
  const FALSE_TEXT: Text := [0x66, 0x61, 0x6C, 0x73, 0x65]

  /** Digits, sign, point and exponent mark, beginning with a digit or a minus sign. */
  predicate IsNumberText(t: Text) {
    t != [] && (t[0] == 0x2D || 0x30 <= t[0] <= 0x39) &&
    forall i :: 0 <= i < |t| ==> 0x30 <= t[i] <= 0x39 || t[i] in {0x2B, 0x2D, 0x2E, 0x65}
  }

  /** What JavaScript guarantees of a value: number texts and distinct keys. */
  predicate WellFormed(v: Json) {
    match v
    case Num(t) => IsNumberText(t)
    case Arr(items) => forall i :: 0 <= i < |items| ==> WellFormed(items[i])
    case Obj(fields) =>
      && (forall i, j :: 0 <= i < j < |fields| ==> fields[i].key != fields[j].key)
      && forall i :: 0 <= i < |fields| ==> WellFormed(fields[i].value)
    case _ => true
  }

  /** The keys whose value is not undefined, in insertion order. */
  function DefinedKeys(fields: seq<Field>): (ks: seq<Text>)
    ensures forall k :: k in ks <==> exists i :: 0 <= i < |fields| && fields[i].key == k && fields[i].value != Undefined
  {
    if fields == [] then []
    else (if fields[0].value != Undefined then [fields[0].key] else []) + DefinedKeys(fields[1..])
  }

  function Index(fields: seq<Field>, k: Text): (i: nat)
    requires exists i :: 0 <= i < |fields| && fields[i].key == k
    ensures i < |fields| && fields[i].key == k
  {
    if fields[0].key == k then 0 else 1 + Index(fields[1..], k)
  }

  function SortedKeys(fields: seq<Field>): (ks: seq<Text>)
    ensures forall i :: 0 <= i < |ks| ==> ks[i] in DefinedKeys(fields)
  {
    SortSorts(DefinedKeys(fields));
    var ks := Sort(DefinedKeys(fields));
    assert forall i :: 0 <= i < |ks| ==> ks[i] in multiset(ks);
    ks
  }

  function Canonical(v: Json): Text {
    match v
    case Undefined => NULL_TEXT
    case Null => NULL_TEXT
    case NonJson => NULL_TEXT
    case Bool(b) => if b then TRUE_TEXT else FALSE_TEXT
    case Num(t) => t
    case Str(s) => Quote(s)
    case Arr(items) =>
      var texts := seq(|items|, i requires 0 <= i < |items| => Canonical(items[i]));
      [OPEN_SQUARE] + Join(Sort(texts)) + [CLOSE_SQUARE]
    case Obj(fields) =>
      var ks := SortedKeys(fields);
      var texts := seq(|ks|, i requires 0 <= i < |ks| => Entry(ks[i], Canonical(fields[Index(fields, ks[i])].value)));
      [OPEN_CURLY] + Join(texts) + [CLOSE_CURLY]
  }

  function Entry(key: Text, value: Text): Text { Quote(key) + [COLON] + value }

  /** A value with array order, key order and undefined fields forgotten. */
  datatype Tree =
    | TNull
    | TBool(b: bool)
    | TNum(text: Text)
    | TStr(s: Text)
    | TArr(items: multiset<Tree>)
    | TObj(fields: map<Text, Tree>)

  /** The meaning of a value once the object keys in `drop` are ignored at every depth. */
  ghost function Meaning(v: Json, drop: set<Text>): Tree {
    match v
    case Undefined => TNull
    case Null => TNull
    case NonJson => TNull
    case Bool(b) => TBool(b)
    case Num(t) => TNum(t)
    case Str(s) => TStr(s)
    case Arr(items) =>
      TArr(multiset(seq(|items|, i requires 0 <= i < |items| => Meaning(items[i], drop))))
    case Obj(fields) =>
      TObj(map k | k in DefinedKeys(fields) && k !in drop :: Meaning(fields[Index(fields, k)].value, drop))
  }

  function Texts(items: seq<Json>): seq<Text> {
    seq(|items|, i requires 0 <= i < |items| => Canonical(items[i]))
  }

  function Entries(fields: seq<Field>): seq<Text> {
    var ks := SortedKeys(fields);
    seq(|ks|, i requires 0 <= i < |ks| => Entry(ks[i], Canonical(fields[Index(fields, ks[i])].value)))
  }

  lemma {:induction false} CanonicalClosed(v: Json)
    requires WellFormed(v)
    ensures Closed(Canonical(v))
  {
    match v
    case Str(s) => QuoteClosed(s);
    case Arr(items) =>
      var us := Texts(items);
      forall i | 0 <= i < |items| ensures Closed(us[i]) { CanonicalClosed(items[i]); }
      SortKeepsClosed(us);
      BracketClosed(OPEN_SQUARE, Sort(us), CLOSE_SQUARE);
    case Obj(fields) =>
      var es := Entries(fields);
      forall i | 0 <= i < |es| ensures Closed(es[i]) {
        var k := SortedKeys(fields)[i];
        var w := fields[Index(fields, k)].value;
        CanonicalClosed(w);
        EntryClosed(k, Canonical(w));
      }
      BracketClosed(OPEN_CURLY, es, CLOSE_CURLY);
    case _ =>
      BareClosed(Canonical(v));
  }

  lemma {:induction false} SortKeepsClosed(us: seq<Text>)
    requires AllClosed(us)
    ensures AllClosed(Sort(us))
  {
    SortSorts(us);
    forall i | 0 <= i < |us| ensures Closed(Sort(us)[i]) {
      assert Sort(us)[i] in multiset(Sort(us));
      assert Sort(us)[i] in us;
    }
  }

  lemma {:induction false} EntryClosed(k: Text, t: Text)
    requires Closed(t)
    ensures Closed(Entry(k, t))
  {
    QuoteClosed(k);
    BareClosed([COLON]);
    ClosedConcat(Quote(k), [COLON]);
    ClosedConcat(Quote(k) + [COLON], t);
  }

  function Without<T>(s: seq<T>, j: nat): seq<T>
    requires j < |s|
  {
    s[..j] + s[j + 1..]
  }

  lemma {:induction false} WithoutMultiset<T>(s: seq<T>, j: nat)
    requires j < |s|
    ensures multiset(s) == multiset{s[j]} + multiset(Without(s, j))
    ensures multiset(Without(s, j)) == multiset(s) - multiset{s[j]}
  {
    assert s == s[..j] + [s[j]] + s[j + 1..];
  }

  /** Equal elements of xs and ys carry equal labels in us and vs. */
  ghost predicate Labelled<X, Y>(xs: seq<X>, us: seq<Y>, ys: seq<X>, vs: seq<Y>) {
    && |xs| == |us| && |ys| == |vs|
    && forall i, j :: 0 <= i < |xs| && 0 <= j < |ys| && xs[i] == ys[j] ==> us[i] == vs[j]
  }

  lemma {:induction false} LabelledWithout<X, Y>(xs: seq<X>, us: seq<Y>, ys: seq<X>, vs: seq<Y>, i: nat, j: nat)
    requires Labelled(xs, us, ys, vs) && i < |xs| && j < |ys|
    ensures Labelled(Without(xs, i), Without(us, i), Without(ys, j), Without(vs, j))
  {
  }

  lemma {:induction false} SameWithout<T>(s: seq<T>, t: seq<T>, j: nat)
    requires s != [] && j < |t| && s[0] == t[j]
    ensures multiset(s) == multiset(t) <==> multiset(Without(s, 0)) == multiset(Without(t, j))
  {
    WithoutMultiset(s, 0);
    WithoutMultiset(t, j);
  }

  /** Labels of equal multisets are equal multisets. */
  lemma {:induction false} LabelsMatch<X, Y>(xs: seq<X>, us: seq<Y>, ys: seq<X>, vs: seq<Y>)
    requires Labelled(xs, us, ys, vs) && multiset(xs) == multiset(ys)
    ensures multiset(us) == multiset(vs)
  {
    assert |multiset(xs)| == |multiset(ys)|;
    if xs != [] {
      assert xs[0] in multiset(ys);
      var j: nat :| j < |ys| && ys[j] == xs[0];
      SameWithout(xs, ys, j);
      LabelledWithout(xs, us, ys, vs, 0, j);
      LabelsMatch(Without(xs, 0), Without(us, 0), Without(ys, j), Without(vs, j));
      SameWithout(us, vs, j);
    }
  }

  /** The kinds of value are told apart by the first unit of the canonical text. */
  lemma {:induction false} KindDecided(a: Json, b: Json)
    requires WellFormed(a) && WellFormed(b) && Canonical(a) == Canonical(b)
    ensures Meaning(a, {}).TNull? <==> Meaning(b, {}).TNull?
    ensures a.Bool? <==> b.Bool?
    ensures a.Num? <==> b.Num?
    ensures a.Str? <==> b.Str?
    ensures a.Arr? <==> b.Arr?
    ensures a.Obj? <==> b.Obj?
  {
    assert Canonical(a)[0] == Canonical(b)[0];
  }

  /** The main theorem: equal canonical texts are exactly equal meanings. */
  lemma {:induction false} CanonicalDecides(a: Json, b: Json)
    requires WellFormed(a) && WellFormed(b)
    ensures Canonical(a) == Canonical(b) <==> Meaning(a, {}) == Meaning(b, {})
    decreases a
  {
    CanonicalClosed(a);
    CanonicalClosed(b);
    if Canonical(a) == Canonical(b) { KindDecided(a, b); }
    if a.Str? && b.Str? && Canonical(a) == Canonical(b) {
      QuoteUnique(a.s, [], b.s, []);
    }
    if a.Arr? && b.Arr? {
      ArraysDecided(a, b);
    }
    if a.Obj? && b.Obj? {
      ObjectsDecided(a, b);
    }
  }

  ghost function Trees(items: seq<Json>): seq<Tree> {
    seq(|items|, i requires 0 <= i < |items| => Meaning(items[i], {}))
  }

  lemma {:induction false} ArraysDecided(a: Json, b: Json)
    requires WellFormed(a) && WellFormed(b) && a.Arr? && b.Arr?
    ensures Canonical(a) == Canonical(b) <==> Meaning(a, {}) == Meaning(b, {})
    decreases a, 0
  {
    var us, vs, xs, ys := Texts(a.items), Texts(b.items), Trees(a.items), Trees(b.items);
    forall i, j | 0 <= i < |us| && 0 <= j < |vs| ensures us[i] == vs[j] <==> xs[i] == ys[j] {
      CanonicalDecides(a.items[i], b.items[j]);
    }
    if multiset(xs) == multiset(ys) { LabelsMatch(xs, us, ys, vs); }
    if multiset(us) == multiset(vs) { LabelsMatch(us, xs, vs, ys); }
    SortDecides(us, vs);
    var s, t := Sort(us), Sort(vs);
    if Canonical(a) == Canonical(b) {
      forall i | 0 <= i < |us| ensures Closed(us[i]) { CanonicalClosed(a.items[i]); }
      forall j | 0 <= j < |vs| ensures Closed(vs[j]) { CanonicalClosed(b.items[j]); }
      SortKeepsClosed(us);
      SortKeepsClosed(vs);
      BracketsUnique(OPEN_SQUARE, s, t, CLOSE_SQUARE);
    }
  }

  lemma {:induction false} EntriesClosed(fields: seq<Field>)
    requires WellFormed(Obj(fields))
    ensures AllClosed(Entries(fields))
  {
    var ks := SortedKeys(fields);
    forall i | 0 <= i < |ks| ensures Closed(Entries(fields)[i]) {
      var w := fields[Index(fields, ks[i])].value;
      CanonicalClosed(w);
      EntryClosed(ks[i], Canonical(w));
    }
  }

  ghost predicate SameElements(a: seq<Text>, b: seq<Text>) {
    forall k :: k in a <==> k in b
  }

  /** With distinct keys, equal sets of defined keys sort to equal sequences. */
  lemma {:induction false} SortedKeysDecided(f: seq<Field>, g: seq<Field>)
    requires WellFormed(Obj(f)) && WellFormed(Obj(g))
    ensures SortedKeys(f) == SortedKeys(g) <==> SameElements(DefinedKeys(f), DefinedKeys(g))
  {
    SortDecides(DefinedKeys(f), DefinedKeys(g));
    DistinctKeys(f);
    DistinctKeys(g);
    SameOnce(DefinedKeys(f), DefinedKeys(g));
  }

  ghost predicate Once(a: seq<Text>) { forall k :: multiset(a)[k] == if k in a then 1 else 0 }

  lemma {:induction false} SameOnce(a: seq<Text>, b: seq<Text>)
    requires Once(a) && Once(b)
    ensures multiset(a) == multiset(b) <==> SameElements(a, b)
  {
    if multiset(a) == multiset(b) {
      forall k ensures k in a <==> k in b { assert multiset(a)[k] == multiset(b)[k]; }
    }
  }

  lemma {:induction false} DistinctKeys(f: seq<Field>)
    requires forall i, j :: 0 <= i < j < |f| ==> f[i].key != f[j].key
    ensures Once(DefinedKeys(f))
  {
    if f != [] {
      DistinctKeys(f[1..]);
      var rest := DefinedKeys(f[1..]);
      assert f[0].key !in rest;
      if f[0].value != Undefined {
        assert DefinedKeys(f) == [f[0].key] + rest;
      } else {
        assert DefinedKeys(f) == rest;
      }
    }
  }

  function At(v: Json, k: Text): Json
    requires v.Obj? && k in DefinedKeys(v.fields)
  {
    v.fields[Index(v.fields, k)].value
  }

  lemma {:induction false} ObjectsDecided(a: Json, b: Json)
    requires WellFormed(a) && WellFormed(b) && a.Obj? && b.Obj?
    ensures Canonical(a) == Canonical(b) <==> Meaning(a, {}) == Meaning(b, {})
    decreases a, 0
  {
    var ka, kb := DefinedKeys(a.fields), DefinedKeys(b.fields);
    SortedKeysDecided(a.fields, b.fields);
    forall k | k in ka && k in kb
      ensures Canonical(At(a, k)) == Canonical(At(b, k)) <==> Meaning(At(a, k), {}) == Meaning(At(b, k), {})
    {
      CanonicalDecides(At(a, k), At(b, k));
    }
    if Meaning(a, {}) == Meaning(b, {}) {
      ObjectMeaning(a, b);
      assert Entries(a.fields) == Entries(b.fields);
    }
    if Canonical(a) == Canonical(b) {
      EntriesClosed(a.fields);
      EntriesClosed(b.fields);
      BracketsUnique(OPEN_CURLY, Entries(a.fields), Entries(b.fields), CLOSE_CURLY);
      EntriesDecided(a, b);
      ObjectMeaning(a, b);
    }
  }

  lemma {:induction false} FieldMeaning(v: Json, drop: set<Text>)
    requires v.Obj?
    ensures Meaning(v, drop).TObj?
    ensures forall k :: k in Meaning(v, drop).fields <==> k in DefinedKeys(v.fields) && k !in drop
    ensures forall k :: k in Meaning(v, drop).fields ==> Meaning(v, drop).fields[k] == Meaning(At(v, k), drop)
  {
  }

  /** Two objects mean the same exactly when their defined keys and the meanings at them agree. */
  lemma {:induction false} ObjectMeaning(a: Json, b: Json)
    requires a.Obj? && b.Obj?
    ensures Meaning(a, {}) == Meaning(b, {}) <==>
      && SameElements(DefinedKeys(a.fields), DefinedKeys(b.fields))
      && (forall k :: k in DefinedKeys(a.fields) && k in DefinedKeys(b.fields) ==>
            Meaning(At(a, k), {}) == Meaning(At(b, k), {}))
  {
    FieldMeaning(a, {});
    FieldMeaning(b, {});
    var m, n := Meaning(a, {}).fields, Meaning(b, {}).fields;
    if m == n {
      forall k | k in DefinedKeys(a.fields) && k in DefinedKeys(b.fields)
        ensures Meaning(At(a, k), {}) == Meaning(At(b, k), {})
      {
        assert k in m && k in n;
      }
      assert forall k :: k in DefinedKeys(a.fields) <==> k in m;
      assert forall k :: k in DefinedKeys(b.fields) <==> k in n;
    }
    if SameElements(DefinedKeys(a.fields), DefinedKeys(b.fields)) {
      assert m.Keys == n.Keys;
    }
  }

  lemma {:induction false} EntryUnique(k: Text, x: Text, l: Text, y: Text)
    requires Entry(k, x) == Entry(l, y)
    ensures k == l && x == y
  {
    assert Entry(k, x) == Quote(k) + ([COLON] + x);
    assert Entry(l, y) == Quote(l) + ([COLON] + y);
    QuoteUnique(k, [COLON] + x, l, [COLON] + y);
    assert x == ([COLON] + x)[1..] && y == ([COLON] + y)[1..];
  }

  lemma {:induction false} EntryAt(v: Json, i: nat)
    requires v.Obj? && i < |SortedKeys(v.fields)|
    ensures var k := SortedKeys(v.fields)[i]; Entries(v.fields)[i] == Entry(k, Canonical(At(v, k)))
  {
  }

  /** Equal entry texts give equal keys and equal texts at every key. */
  lemma {:induction false} EntriesDecided(a: Json, b: Json)
    requires a.Obj? && b.Obj? && Entries(a.fields) == Entries(b.fields)
    ensures SortedKeys(a.fields) == SortedKeys(b.fields)
    ensures forall k :: k in DefinedKeys(a.fields) && k in DefinedKeys(b.fields) ==> Canonical(At(a, k)) == Canonical(At(b, k))
  {
    var ks, ls := SortedKeys(a.fields), SortedKeys(b.fields);
    assert |ks| == |Entries(a.fields)| == |Entries(b.fields)| == |ls|;
    forall i | 0 <= i < |ks| ensures ks[i] == ls[i] && Canonical(At(a, ks[i])) == Canonical(At(b, ls[i])) {
      EntryAt(a, i);
      EntryAt(b, i);
      EntryUnique(ks[i], Canonical(At(a, ks[i])), ls[i], Canonical(At(b, ls[i])));
    }
    forall k | k in DefinedKeys(a.fields) && k in DefinedKeys(b.fields)
      ensures Canonical(At(a, k)) == Canonical(At(b, k))
    {
      SortSorts(DefinedKeys(a.fields));
      assert k in multiset(ks);
      var i :| 0 <= i < |ks| && ks[i] == k;
      assert ls[i] == k;
    }
  }
}
