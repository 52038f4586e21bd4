/**
 The scope of a checkout: owner, endpoint and the canonical text of the request
 with its cosmetic fields removed. Two requests share a scope exactly when they
 come from one owner, go to one endpoint and mean the same purchase.
 */
module CheckoutScope {
  import opened Utf16
  import opened JsonText
  import opened JsonScan
  import opened CanonicalIntent

  const IGNORED_FIELDS: set<Text> := {
    Ascii("cashback_code"), Ascii("gift_channel"), Ascii("gift_message"), Ascii("gifter_identicon"),
    Ascii("coin"), Ascii("network"), Ascii("ack_active_checkout")
  }

  function Keep(fields: seq<Field>): (kept: seq<Field>)
    ensures forall f :: f in kept <==> f in fields && f.key !in IGNORED_FIELDS
  {
    if fields == [] then []
    else (if fields[0].key in IGNORED_FIELDS then [] else [fields[0]]) + Keep(fields[1..])
  }

  function Payload(v: Json): Json {
    match v
    case Arr(items) => Arr(seq(|items|, i requires 0 <= i < |items| => Payload(items[i])))
    case Obj(fields) =>
      var kept := Keep(fields);
      Obj(seq(|kept|, i requires 0 <= i < |kept| => assert kept[i] in fields; Field(kept[i].key, Payload(kept[i].value))))
    case _ => v
  }

  datatype Endpoint = Quotes | Batch

  function PathText(e: Endpoint): Text {
    match e
    case Quotes => Ascii("/quotes")
    case Batch => Ascii("/quotes/batch")
  }

  function Scope(owner: Text, e: Endpoint, request: Json): Text {
    owner + [BAR] + PathText(e) + [BAR] + Canonical(Payload(request))
  }

  lemma {:induction false} KeepDistinct(fields: seq<Field>)
    requires forall i, j :: 0 <= i < j < |fields| ==> fields[i].key != fields[j].key
    ensures forall i, j :: 0 <= i < j < |Keep(fields)| ==> Keep(fields)[i].key != Keep(fields)[j].key
  {
    if fields != [] {
      KeepDistinct(fields[1..]);
      var rest := Keep(fields[1..]);
      forall i | 0 <= i < |rest| ensures rest[i].key != fields[0].key {
        assert rest[i] in fields[1..];
      }
    }
  }

  lemma {:induction false} PayloadWellFormed(v: Json)
    requires WellFormed(v)
    ensures WellFormed(Payload(v))
  {
    match v
    case Arr(items) =>
      forall i | 0 <= i < |items| ensures WellFormed(Payload(items[i])) { PayloadWellFormed(items[i]); }
    case Obj(fields) =>
      KeepDistinct(fields);
      var kept := Keep(fields);
      forall i | 0 <= i < |kept| ensures WellFormed(Payload(kept[i].value)) {
        assert kept[i] in fields;
        PayloadWellFormed(kept[i].value);
      }
    case _ =>
  }

  /** A defined field that is not ignored is in the payload. */
  lemma {:induction false} PayloadKeepsKey(v: Json, k: Text)
    requires WellFormed(v) && v.Obj? && k in DefinedKeys(v.fields) && k !in IGNORED_FIELDS
    ensures k in DefinedKeys(Payload(v).fields)
  {
    var kept, out := Keep(v.fields), Payload(v).fields;
    var i :| 0 <= i < |v.fields| && v.fields[i].key == k && v.fields[i].value != Undefined;
    assert v.fields[i] in kept;
    var j :| 0 <= j < |kept| && kept[j] == v.fields[i];
    assert out[j] == Field(k, Payload(kept[j].value));
    assert Payload(kept[j].value) != Undefined;
  }

  /** A payload field is a field of the request, not ignored, stripped in turn. */
  lemma {:induction false} PayloadKeyKept(v: Json, k: Text)
    requires WellFormed(v) && v.Obj? && WellFormed(Payload(v)) && k in DefinedKeys(Payload(v).fields)
    ensures k in DefinedKeys(v.fields) && k !in IGNORED_FIELDS && At(Payload(v), k) == Payload(At(v, k))
  {
    var kept, out := Keep(v.fields), Payload(v).fields;
    var j := Index(out, k);
    assert kept[j] in v.fields;
    var i :| 0 <= i < |v.fields| && v.fields[i] == kept[j];
    assert v.fields[i].key == k && out[j].value == Payload(v.fields[i].value);
    assert i == Index(v.fields, k);
  }

  lemma {:induction false} PayloadKeys(v: Json, k: Text)
    requires WellFormed(v) && v.Obj?
    ensures k in DefinedKeys(Payload(v).fields) <==> k in DefinedKeys(v.fields) && k !in IGNORED_FIELDS
    ensures k in DefinedKeys(Payload(v).fields) ==> At(Payload(v), k) == Payload(At(v, k))
  {
    PayloadWellFormed(v);
    if k in DefinedKeys(v.fields) && k !in IGNORED_FIELDS { PayloadKeepsKey(v, k); }
    if k in DefinedKeys(Payload(v).fields) { PayloadKeyKept(v, k); }
  }

  /** Stripping the cosmetic fields and then reading is reading without them, at every depth. */
  lemma {:induction false} PayloadMeaning(v: Json)
    requires WellFormed(v)
    ensures Meaning(Payload(v), {}) == Meaning(v, IGNORED_FIELDS)
  {
    match v
    case Arr(items) =>
      forall i | 0 <= i < |items| ensures Meaning(Payload(items[i]), {}) == Meaning(items[i], IGNORED_FIELDS) {
        PayloadMeaning(items[i]);
      }
      assert seq(|items|, i requires 0 <= i < |items| => Meaning(Payload(v).items[i], {}))
        == seq(|items|, i requires 0 <= i < |items| => Meaning(items[i], IGNORED_FIELDS));
    case Obj(fields) =>
      forall k | k in DefinedKeys(fields) ensures Meaning(Payload(At(v, k)), {}) == Meaning(At(v, k), IGNORED_FIELDS) {
        PayloadMeaning(At(v, k));
      }
      PayloadObject(v);
    case _ =>
  }

  /** Key by key, the stripped object means the object read without the ignored fields. */
  lemma {:induction false} PayloadField(v: Json, k: Text)
    requires WellFormed(v) && v.Obj?
    requires k in DefinedKeys(v.fields) ==> Meaning(Payload(At(v, k)), {}) == Meaning(At(v, k), IGNORED_FIELDS)
    ensures k in Meaning(Payload(v), {}).fields <==> k in Meaning(v, IGNORED_FIELDS).fields
    ensures k in Meaning(Payload(v), {}).fields ==>
              Meaning(Payload(v), {}).fields[k] == Meaning(v, IGNORED_FIELDS).fields[k]
  {
    FieldMeaning(Payload(v), {});
    FieldMeaning(v, IGNORED_FIELDS);
    PayloadKeys(v, k);
  }

  lemma {:induction false} PayloadObject(v: Json)
    requires WellFormed(v) && v.Obj?
    requires forall k :: k in DefinedKeys(v.fields) ==> Meaning(Payload(At(v, k)), {}) == Meaning(At(v, k), IGNORED_FIELDS)
    ensures Meaning(Payload(v), {}) == Meaning(v, IGNORED_FIELDS)
  {
    var m, n := Meaning(Payload(v), {}), Meaning(v, IGNORED_FIELDS);
    forall k ensures (k in m.fields <==> k in n.fields) && (k in m.fields ==> m.fields[k] == n.fields[k]) {
      PayloadField(v, k);
    }
    SameFields(m, n);
  }

  lemma {:induction false} SameFields(m: Tree, n: Tree)
    requires m.TObj? && n.TObj?
    requires forall k :: (k in m.fields <==> k in n.fields) && (k in m.fields ==> m.fields[k] == n.fields[k])
    ensures m == n
  {
    assert m.fields.Keys == n.fields.Keys;
  }

  lemma {:induction false} LaterBarInside(a: Text, p: Text, b: Text, q: Text)
    requires a + [BAR] + p == b + [BAR] + q && |a| < |b|
    ensures BAR in p
  {
    var s, t := a + [BAR] + p, b + [BAR] + q;
    assert p[|b| - |a| - 1] == s[|b|] == t[|b|];
  }

  /** Splitting at the last bar before a part that holds none. */
  lemma {:induction false} LastBarUnique(a: Text, p: Text, b: Text, q: Text)
    requires BAR !in p && BAR !in q && a + [BAR] + p == b + [BAR] + q
    ensures a == b && p == q
  {
    if |a| < |b| { LaterBarInside(a, p, b, q); }
    if |b| < |a| { LaterBarInside(b, q, a, p); }
    var s := a + [BAR] + p;
    assert a == s[..|a|] == (b + [BAR] + q)[..|b|];
    assert p == s[|a| + 1..] == (b + [BAR] + q)[|b| + 1..];
  }

  /** A common text cannot be cut after a bar into two different canonical tails. */
  lemma {:induction false} TailUnique(a: Text, c: Text, b: Text, d: Text)
    requires Closed(c) && Closed(d) && a + [BAR] + c == b + [BAR] + d
    ensures a == b && c == d
  {
    TailNotLonger(a, c, b, d);
    TailNotLonger(b, d, a, c);
    var s := a + [BAR] + c;
    assert a == s[..|a|] == (b + [BAR] + d)[..|b|] == b;
    assert c == s[|a| + 1..] == (b + [BAR] + d)[|b| + 1..] == d;
  }

  lemma {:induction false} TailNotLonger(a: Text, c: Text, b: Text, d: Text)
    requires Closed(c) && Closed(d) && a + [BAR] + c == b + [BAR] + d
    ensures |c| <= |d|
  {
    if |c| > |d| {
      var s, t := a + [BAR] + c, b + [BAR] + d;
      var n := |b| - |a| - 1;
      assert forall i :: 0 <= i < |c| ==> c[i] == s[|a| + 1 + i] == t[|a| + 1 + i];
      assert c[n] == t[|b|] == BAR;
      assert c[n + 1..] == d;
      assert c == c[..n] + [BAR] + d;
      NoBarBeforeSuffix(c[..n], d);
    }
  }

  lemma {:induction false} PathsDiffer(e: Endpoint, f: Endpoint)
    ensures BAR !in PathText(e)
    ensures PathText(e) == PathText(f) ==> e == f
  {
    assert |PathText(Quotes)| == 7 && |PathText(Batch)| == 13;
  }

  /** The scope decides owner, endpoint and purchase, for every owner text and every request. */
  lemma {:induction false} ScopeDecides(o1: Text, e1: Endpoint, r1: Json, o2: Text, e2: Endpoint, r2: Json)
    requires WellFormed(r1) && WellFormed(r2)
    ensures Scope(o1, e1, r1) == Scope(o2, e2, r2) <==>
      o1 == o2 && e1 == e2 && Meaning(r1, IGNORED_FIELDS) == Meaning(r2, IGNORED_FIELDS)
  {
    PayloadWellFormed(r1);
    PayloadWellFormed(r2);
    PayloadMeaning(r1);
    PayloadMeaning(r2);
    CanonicalDecides(Payload(r1), Payload(r2));
    if Scope(o1, e1, r1) == Scope(o2, e2, r2) {
      CanonicalClosed(Payload(r1));
      CanonicalClosed(Payload(r2));
      TailUnique(o1 + [BAR] + PathText(e1), Canonical(Payload(r1)), o2 + [BAR] + PathText(e2), Canonical(Payload(r2)));
      PathsDiffer(e1, e2);
      PathsDiffer(e2, e1);
      LastBarUnique(o1, PathText(e1), o2, PathText(e2));
    }
  }
}
