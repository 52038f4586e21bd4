/** Which edits of a request change its scope: every one, but for the seven cosmetic fields at any depth. */
module ScopeEdits {
  import opened Utf16
  import opened JsonText
  import opened JsonScan
  import opened CanonicalIntent
  import opened CheckoutScope

  /** One step into a value: an item of an array or a field of an object. */
  datatype Part = Item(i: nat) | In(key: Text)

  type Path = seq<Part>

  /** The path leads through defined parts of v to an object. */
  predicate Leads(v: Json, p: Path)
    decreases p
  {
    if p == [] then v.Obj?
    else match p[0]
      case Item(i) => v.Arr? && i < |v.items| && Leads(v.items[i], p[1..])
      case In(k) => v.Obj? && k in DefinedKeys(v.fields) && Leads(At(v, k), p[1..])
  }

  /** The fields with one value set; setting it to undefined removes the field. */
  function Put(fields: seq<Field>, k: Text, x: Json): seq<Field> {
    if fields == [] then [Field(k, x)]
    else if fields[0].key == k then [Field(k, x)] + fields[1..]
    else [fields[0]] + Put(fields[1..], k, x)
  }

  /** The request with field k of the object at the end of the path set to x. */
  function Edited(v: Json, p: Path, k: Text, x: Json): Json
    requires Leads(v, p)
    decreases p
  {
    if p == [] then Obj(Put(v.fields, k, x))
    else match p[0]
      case Item(i) => Arr(v.items[i := Edited(v.items[i], p[1..], k, x)])
      case In(key) => Obj(Put(v.fields, key, Edited(At(v, key), p[1..], k, x)))
  }

  /** What the object at the end of the path has in field k. */
  function Target(v: Json, p: Path, k: Text): Json
    requires Leads(v, p)
    decreases p
  {
    if p == [] then if k in DefinedKeys(v.fields) then At(v, k) else Undefined
    else match p[0]
      case Item(i) => Target(v.items[i], p[1..], k)
      case In(key) => Target(At(v, key), p[1..], k)
  }

  /** The edited field or one that leads to it has a name in the set. */
  predicate Passes(p: Path, k: Text, names: set<Text>) {
    k in names || exists i :: 0 <= i < |p| && p[i].In? && p[i].key in names
  }

  /** Both absent, or both there with one meaning. */
  ghost predicate SameField(a: Json, b: Json, names: set<Text>) {
    (a == Undefined <==> b == Undefined) && Meaning(a, names) == Meaning(b, names)
  }

  // ---- setting one field

  lemma {:induction false} PutKeys(fields: seq<Field>, k: Text, x: Json)
    requires forall i, j :: 0 <= i < j < |fields| ==> fields[i].key != fields[j].key
    ensures var out := Put(fields, k, x);
      && (forall i, j :: 0 <= i < j < |out| ==> out[i].key != out[j].key)
      && (forall f :: f in out <==> f == Field(k, x) || (f in fields && f.key != k))
  {
    if fields != [] {
      var rest, out := fields[1..], Put(fields[1..], k, x);
      PutKeys(rest, k, x);
      assert fields == [fields[0]] + rest;
      forall f | f in rest ensures f.key != fields[0].key {
        var i :| 0 <= i < |rest| && rest[i] == f;
        assert fields[i + 1] == f;
      }
      if fields[0].key != k {
        forall i | 0 <= i < |out| ensures out[i].key != fields[0].key { assert out[i] in out; }
      }
    }
  }

  lemma {:induction false} PutWellFormed(v: Json, k: Text, x: Json)
    requires WellFormed(v) && v.Obj? && WellFormed(x)
    ensures WellFormed(Obj(Put(v.fields, k, x)))
  {
    var out := Put(v.fields, k, x);
    PutKeys(v.fields, k, x);
    forall i | 0 <= i < |out| ensures WellFormed(out[i].value) {
      assert out[i] in out;
      if out[i] != Field(k, x) {
        var j :| 0 <= j < |v.fields| && v.fields[j] == out[i];
      }
    }
  }

  lemma {:induction false} FieldIsAt(v: Json, f: Field)
    requires WellFormed(v) && v.Obj? && f in v.fields && f.value != Undefined
    ensures f.key in DefinedKeys(v.fields) && At(v, f.key) == f.value
  {
    var i :| 0 <= i < |v.fields| && v.fields[i] == f;
    assert i == Index(v.fields, f.key);
  }

  lemma {:induction false} AtIsField(v: Json, k: Text)
    requires v.Obj? && k in DefinedKeys(v.fields)
    requires WellFormed(v)
    ensures Field(k, At(v, k)) in v.fields && At(v, k) != Undefined
  {
    var i :| 0 <= i < |v.fields| && v.fields[i].key == k && v.fields[i].value != Undefined;
    assert i == Index(v.fields, k);
  }

  lemma {:induction false} PutAt(v: Json, k: Text, x: Json, key: Text)
    requires WellFormed(v) && v.Obj? && WellFormed(x)
    ensures var out := Obj(Put(v.fields, k, x));
      (key in DefinedKeys(out.fields) <==> if key == k then x != Undefined else key in DefinedKeys(v.fields))
      && (key in DefinedKeys(out.fields) ==> At(out, key) == if key == k then x else At(v, key))
  {
    var out := Obj(Put(v.fields, k, x));
    PutKeys(v.fields, k, x);
    PutWellFormed(v, k, x);
    if key in DefinedKeys(out.fields) { AtIsField(out, key); }
    if key == k {
      if x != Undefined { FieldIsAt(out, Field(k, x)); }
    } else {
      if key in DefinedKeys(out.fields) { FieldIsAt(v, Field(key, At(out, key))); }
      if key in DefinedKeys(v.fields) {
        AtIsField(v, key);
        FieldIsAt(out, Field(key, At(v, key)));
      }
    }
  }

  // ---- what an edit does to the meaning

  /** Setting a field changes the meaning exactly when its name counts and its meaning there changes. */
  lemma {:induction false} PutMeaning(v: Json, k: Text, x: Json, names: set<Text>)
    requires WellFormed(v) && v.Obj? && WellFormed(x)
    ensures Meaning(Obj(Put(v.fields, k, x)), names) == Meaning(v, names)
      <==> k in names || SameField(Target(v, [], k), x, names)
  {
    var out := Obj(Put(v.fields, k, x));
    FieldMeaning(v, names);
    FieldMeaning(out, names);
    var m, n := Meaning(v, names), Meaning(out, names);
    PutAt(v, k, x, k);
    if k in names || SameField(Target(v, [], k), x, names) {
      forall key ensures (key in m.fields <==> key in n.fields) && (key in m.fields ==> m.fields[key] == n.fields[key]) {
        PutAt(v, k, x, key);
      }
      SameFields(m, n);
    }
  }

  lemma {:induction false} MeaningItem(items: seq<Json>, i: nat, x: Json, names: set<Text>)
    requires i < |items|
    ensures Meaning(Arr(items[i := x]), names) == Meaning(Arr(items), names) <==> Meaning(x, names) == Meaning(items[i], names)
  {
    var a := seq(|items|, j requires 0 <= j < |items| => Meaning(items[j], names));
    var b := seq(|items|, j requires 0 <= j < |items| => Meaning(items[i := x][j], names));
    assert b == a[i := Meaning(x, names)];
    OneReplaced(a, i, Meaning(x, names));
  }

  lemma {:induction false} OneReplaced<T>(a: seq<T>, i: nat, y: T)
    requires i < |a|
    ensures multiset(a[i := y]) == multiset(a) <==> y == a[i]
  {
    assert multiset(a[i := y]) == multiset(a) - multiset{a[i]} + multiset{y};
    if y == a[i] { assert a[i := y] == a; }
  }

  lemma {:induction false} PassesRest(p: Path, k: Text, names: set<Text>)
    requires p != []
    ensures Passes(p, k, names) <==> Passes(p[1..], k, names) || (p[0].In? && p[0].key in names)
  {
    if Passes(p[1..], k, names) && k !in names {
      var i :| 0 <= i < |p[1..]| && p[1..][i].In? && p[1..][i].key in names;
      assert p[i + 1].In? && p[i + 1].key in names;
    }
    if Passes(p, k, names) && k !in names {
      var i :| 0 <= i < |p| && p[i].In? && p[i].key in names;
      if i > 0 { assert p[1..][i - 1] == p[i]; }
    }
  }

  lemma {:induction false} LeadsToValue(v: Json, p: Path, k: Text, x: Json)
    requires WellFormed(v) && WellFormed(x) && Leads(v, p)
    ensures v != Undefined && Edited(v, p, k, x) != Undefined && WellFormed(Edited(v, p, k, x))
    decreases p
  {
    if p == [] {
      PutWellFormed(v, k, x);
    } else {
      match p[0]
      case Item(i) => LeadsToValue(v.items[i], p[1..], k, x);
      case In(key) =>
        AtWellFormed(v, key);
        LeadsToValue(At(v, key), p[1..], k, x);
        PutWellFormed(v, key, Edited(At(v, key), p[1..], k, x));
    }
  }

  lemma {:induction false} AtWellFormed(v: Json, k: Text)
    requires WellFormed(v) && v.Obj? && k in DefinedKeys(v.fields)
    ensures WellFormed(At(v, k)) && At(v, k) != Undefined
  {
    AtIsField(v, k);
    var i :| 0 <= i < |v.fields| && v.fields[i] == Field(k, At(v, k));
  }

  /** An edit keeps the meaning exactly when its way passes an ignored name or the field means what it meant. */
  lemma {:induction false} EditMeaning(v: Json, p: Path, k: Text, x: Json, names: set<Text>)
    requires WellFormed(v) && WellFormed(x) && Leads(v, p)
    ensures Meaning(Edited(v, p, k, x), names) == Meaning(v, names)
      <==> Passes(p, k, names) || SameField(Target(v, p, k), x, names)
    decreases p
  {
    if p == [] {
      PutMeaning(v, k, x, names);
    } else {
      PassesRest(p, k, names);
      match p[0]
      case Item(i) =>
        EditMeaning(v.items[i], p[1..], k, x, names);
        MeaningItem(v.items, i, Edited(v.items[i], p[1..], k, x), names);
      case In(key) =>
        AtWellFormed(v, key);
        EditMeaning(At(v, key), p[1..], k, x, names);
        LeadsToValue(At(v, key), p[1..], k, x);
        PutMeaning(v, key, Edited(At(v, key), p[1..], k, x), names);
    }
  }

  // ---- so for scopes

  /** Two requests of one owner to one endpoint share a scope exactly when they agree but for seven fields, named here. */
  lemma {:induction false} ScopeByNames(owner: Text, e: Endpoint, r1: Json, r2: Json)
    requires WellFormed(r1) && WellFormed(r2)
    ensures var seven := {
        Ascii("cashback_code"), Ascii("gift_channel"), Ascii("gift_message"), Ascii("gifter_identicon"),
        Ascii("coin"), Ascii("network"), Ascii("ack_active_checkout") };
      Scope(owner, e, r1) == Scope(owner, e, r2) <==> Meaning(r1, seven) == Meaning(r2, seven)
  {
    ScopeDecides(owner, e, r1, owner, e, r2);
  }

  /**
   Setting, changing or removing a field, at any depth of a request, keeps the scope exactly when the
   field is one of the seven or lies inside one, or keeps its meaning.
   */
  lemma {:induction false} EditDecides(owner: Text, e: Endpoint, v: Json, p: Path, k: Text, x: Json)
    requires WellFormed(v) && WellFormed(x) && Leads(v, p)
    ensures var seven := {
        Ascii("cashback_code"), Ascii("gift_channel"), Ascii("gift_message"), Ascii("gifter_identicon"),
        Ascii("coin"), Ascii("network"), Ascii("ack_active_checkout") };
      Scope(owner, e, Edited(v, p, k, x)) == Scope(owner, e, v)
      <==> Passes(p, k, seven) || SameField(Target(v, p, k), x, seven)
  {
    var seven := {
      Ascii("cashback_code"), Ascii("gift_channel"), Ascii("gift_message"), Ascii("gifter_identicon"),
      Ascii("coin"), Ascii("network"), Ascii("ack_active_checkout") };
    LeadsToValue(v, p, k, x);
    ScopeByNames(owner, e, Edited(v, p, k, x), v);
    EditMeaning(v, p, k, x, seven);
  }
}
