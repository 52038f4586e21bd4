/** What a scope looks like: the text of a small request, character by character. */
module ScopeSample {
  import opened Utf16
  import opened JsonText
  import opened JsonScan
  import opened CanonicalIntent
  import opened CheckoutScope

  /** No control characters, quotation marks, backslashes or surrogates. */
  predicate Plain(t: Text) {
    forall i :: 0 <= i < |t| ==> 0x20 <= t[i] && t[i] != 0x22 && t[i] != 0x5C && !(0xD800 <= t[i] <= 0xDFFF)
  }

  lemma {:induction false} PlainUnit(c: CodeUnit)
    requires 0x20 <= c && c != 0x22 && c != 0x5C && !(0xD800 <= c <= 0xDFFF)
    ensures EscapeUnit(c) == [c] && !IsHigh(c)
  {
  }

  lemma {:induction false} PlainEscape(t: Text)
    requires Plain(t)
    ensures Escape(t) == t
  {
    if t != [] {
      PlainEscape(t[1..]);
      PlainUnit(t[0]);
      assert [t[0]] + t[1..] == t;
    }
  }

  function InMarks(t: Text): Text { Ascii("\"") + t + Ascii("\"") }

  /** Plain text stands between quotation marks as it is. */
  lemma {:induction false} PlainQuote(t: Text)
    requires Plain(t)
    ensures Quote(t) == InMarks(t)
  {
    PlainEscape(t);
    assert Ascii("\"") == [QUOTE];
  }

  /** Short escapes, controls and lone surrogates, as JSON.stringify writes them. */
  lemma {:induction false} Escapes()
    ensures EscapeUnit(0x22) == Ascii("\\\"") && EscapeUnit(0x5C) == Ascii("\\\\") && EscapeUnit(0x0A) == Ascii("\\n")
    ensures EscapeUnit(0x09) == Ascii("\\t") && EscapeUnit(0x0D) == Ascii("\\r") && EscapeUnit(0x08) == Ascii("\\b") && EscapeUnit(0x0C) == Ascii("\\f")
    ensures EscapeUnit(0x1F) == Ascii("\\u001f") && EscapeUnit(0xD83D) == Ascii("\\ud83d")
  {
  }

  /** The literals, and missing values in arrays. */
  lemma {:induction false} Literals()
    ensures Canonical(Null) == Canonical(Undefined) == Canonical(NonJson) == Ascii("null")
    ensures Canonical(Bool(true)) == Ascii("true") && Canonical(Bool(false)) == Ascii("false")
  {
  }

  lemma {:induction false} SortTwo(x: Text, y: Text)
    requires LexLe(x, y)
    ensures Sort([x, y]) == [x, y] && Sort([y, x]) == [x, y]
  {
    SortSorts([x, y]);
    SortSorts([y, x]);
    assert multiset([y, x]) == multiset([x, y]);
    assert Sorted([x, y]);
    SortedUnique(Sort([x, y]), [x, y]);
    SortedUnique(Sort([y, x]), [x, y]);
  }

  lemma {:induction false} JoinTwo(x: Text, y: Text)
    ensures Join([x, y]) == x + Ascii(",") + y
  {
    assert [x, y][1..] == [y];
    assert Ascii(",") == [COMMA];
  }

  /** An array lists its texts in order, with commas between square brackets. */
  lemma {:induction false} TwoItems(a: Json, b: Json)
    requires LexLe(Canonical(a), Canonical(b))
    ensures Canonical(Arr([a, b])) == Canonical(Arr([b, a])) == Ascii("[") + (Canonical(a) + Ascii(",") + Canonical(b)) + Ascii("]")
  {
    var x, y := Canonical(a), Canonical(b);
    assert Texts([a, b]) == [x, y] && Texts([b, a]) == [y, x];
    SortTwo(x, y);
    JoinTwo(x, y);
    assert Ascii("[") == [OPEN_SQUARE] && Ascii("]") == [CLOSE_SQUARE];
  }

  lemma {:induction false} KeysOfTwo(k: Text, l: Text, v: Json, w: Json)
    requires k != l && v != Undefined && w != Undefined
    ensures DefinedKeys([Field(l, w), Field(k, v)]) == [l, k]
  {
    var fields := [Field(l, w), Field(k, v)];
    assert fields[1..] == [Field(k, v)] && [Field(k, v)][1..] == [];
    assert DefinedKeys([Field(k, v)]) == [k];
  }

  /** An object lists its fields by key, each with a colon, between curly brackets. */
  lemma {:induction false} TwoFields(k: Text, l: Text, v: Json, w: Json)
    requires k != l && LexLe(k, l) && v != Undefined && w != Undefined
    ensures Canonical(Obj([Field(l, w), Field(k, v)]))
      == Ascii("{") + ((Quote(k) + Ascii(":") + Canonical(v)) + Ascii(",") + (Quote(l) + Ascii(":") + Canonical(w))) + Ascii("}")
  {
    var fields := [Field(l, w), Field(k, v)];
    KeysOfTwo(k, l, v, w);
    SortTwo(k, l);
    assert SortedKeys(fields) == [k, l];
    assert Index(fields, l) == 0;
    assert Index(fields, k) == 1 by { assert fields[1..] == [Field(k, v)]; }
    assert Entries(fields) == [Entry(k, Canonical(v)), Entry(l, Canonical(w))];
    JoinTwo(Entry(k, Canonical(v)), Entry(l, Canonical(w)));
    assert Ascii(":") == [COLON] && Ascii("{") == [OPEN_CURLY] && Ascii("}") == [CLOSE_CURLY];
  }

  lemma {:induction false} PayloadOfThree(k: Text, l: Text, v: Text, w: Text, x: Json)
    requires k != l && k !in IGNORED_FIELDS && l !in IGNORED_FIELDS
    ensures Payload(Obj([Field(l, Str(w)), Field(Ascii("coin"), x), Field(k, Str(v))])) == Obj([Field(l, Str(w)), Field(k, Str(v))])
  {
    var fields := [Field(l, Str(w)), Field(Ascii("coin"), x), Field(k, Str(v))];
    assert fields[1..] == [Field(Ascii("coin"), x), Field(k, Str(v))] && fields[1..][1..] == [Field(k, Str(v))];
    assert Keep([Field(k, Str(v))]) == [Field(k, Str(v))] by { assert [Field(k, Str(v))][1..] == []; }
    assert Keep(fields[1..]) == [Field(k, Str(v))];
    assert Keep(fields) == [Field(l, Str(w)), Field(k, Str(v))];
  }

  /**
   The scope of a request to /quotes with two plain text fields and a coin: owner, path and the two
   fields by key, with bars between them and the coin left out.
   */
  lemma {:induction false} ScopeText(owner: Text, k: Text, l: Text, v: Text, w: Text, x: Json)
    requires k != l && LexLe(k, l) && k !in IGNORED_FIELDS && l !in IGNORED_FIELDS && Plain(k) && Plain(l) && Plain(v) && Plain(w)
    ensures Scope(owner, Quotes, Obj([Field(l, Str(w)), Field(Ascii("coin"), x), Field(k, Str(v))]))
      == owner + Ascii("|") + Ascii("/quotes") + Ascii("|")
         + (Ascii("{") + ((InMarks(k) + Ascii(":") + InMarks(v)) + Ascii(",") + (InMarks(l) + Ascii(":") + InMarks(w))) + Ascii("}"))
  {
    PayloadOfThree(k, l, v, w, x);
    TwoFields(k, l, Str(v), Str(w));
    PlainQuote(k);
    PlainQuote(l);
    PlainQuote(v);
    PlainQuote(w);
    assert Ascii("|") == [BAR];
  }

  /** The batch endpoint has its own path. */
  lemma {:induction false} BatchPath(owner: Text, r: Json)
    ensures Scope(owner, Batch, r) == owner + Ascii("|") + Ascii("/quotes/batch") + Ascii("|") + Canonical(Payload(r))
  {
    assert Ascii("|") == [BAR];
  }
}
