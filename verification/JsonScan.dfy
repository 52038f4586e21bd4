/**
 A one-pass scanner over JSON text. It stops where a value at nesting depth 0
 must have ended: at a comma or closing bracket outside every string, and at a
 bar or backslash outside strings, which no JSON text contains there. A text is
 `Closed` when the scanner crosses it and comes back to where it started; closed
 texts joined by commas can be taken apart again in only one way.
 */
module JsonScan {
  import opened Utf16
  import opened JsonText

  const COMMA: CodeUnit := 0x2C
  const COLON: CodeUnit := 0x3A
  const OPEN_SQUARE: CodeUnit := 0x5B
  const CLOSE_SQUARE: CodeUnit := 0x5D
  const OPEN_CURLY: CodeUnit := 0x7B
  const CLOSE_CURLY: CodeUnit := 0x7D
  const BAR: CodeUnit := 0x7C

  datatype Mode = Plain | Quoted | Escaped
  datatype State = In(mode: Mode, depth: nat) | Stop

  function Step(c: CodeUnit, s: State): State {
    match s
    case Stop => Stop
    case In(Escaped, d) => In(Quoted, d)
    case In(Quoted, d) => if c == BACKSLASH then In(Escaped, d) else if c == QUOTE then In(Plain, d) else s
    case In(Plain, d) =>
      if c == QUOTE then In(Quoted, d)
      else if c == OPEN_SQUARE || c == OPEN_CURLY then In(Plain, d + 1)
      else if c == CLOSE_SQUARE || c == CLOSE_CURLY then if d == 0 then Stop else In(Plain, d - 1)
      else if c == COMMA then if d == 0 then Stop else s
      else if c == BAR || c == BACKSLASH then Stop
      else s
  }

  function Run(t: Text, s: State): State {
    if t == [] then s else Run(t[1..], Step(t[0], s))
  }

  lemma {:induction false} RunConcat(a: Text, b: Text, s: State)
    ensures Run(a + b, s) == Run(b, Run(a, s))
  {
    if a == [] {
      assert a + b == b;
    } else {
      RunConcat(a[1..], b, Step(a[0], s));
      assert (a + b)[1..] == a[1..] + b;
    }
  }

  lemma {:induction false} RunStop(t: Text)
    ensures Run(t, Stop) == Stop
  {
    if t != [] { RunStop(t[1..]); }
  }

  ghost predicate Closed(u: Text) {
    u != [] && forall d: nat :: Run(u, In(Plain, d)) == In(Plain, d)
  }

  /** Units other than the first of an escape that keep the scanner inside the string. */
  ghost predicate Inert(t: Text) { forall i :: 0 <= i < |t| ==> t[i] != QUOTE && t[i] != BACKSLASH }

  lemma {:induction false} RunInert(t: Text, d: nat)
    requires Inert(t)
    ensures Run(t, In(Quoted, d)) == In(Quoted, d)
  {
    if t != [] { RunInert(t[1..], d); }
  }

  lemma {:induction false} RunEscapeUnit(c: CodeUnit, d: nat)
    ensures Run(EscapeUnit(c), In(Quoted, d)) == In(Quoted, d)
  {
    var e := EscapeUnit(c);
    if |e| == 1 {
      RunInert(e, d);
    } else {
      assert e == [BACKSLASH, e[1]] + e[2..];
      RunConcat([BACKSLASH, e[1]], e[2..], In(Quoted, d));
      assert [BACKSLASH, e[1]][1..] == [e[1]];
      RunInert(e[2..], d);
    }
  }

  lemma {:induction false} RunEscape(s: Text, d: nat)
    ensures Run(Escape(s), In(Quoted, d)) == In(Quoted, d)
  {
    if s == [] {
    } else if |s| >= 2 && IsHigh(s[0]) && IsLow(s[1]) {
      RunEscape(s[2..], d);
      RunConcat([s[0], s[1]], Escape(s[2..]), In(Quoted, d));
      assert [s[0], s[1]][1..] == [s[1]];
    } else {
      RunEscape(s[1..], d);
      RunEscapeUnit(s[0], d);
      RunConcat(EscapeUnit(s[0]), Escape(s[1..]), In(Quoted, d));
    }
  }

  lemma {:induction false} QuoteClosed(s: Text)
    ensures Closed(Quote(s))
  {
    forall d: nat ensures Run(Quote(s), In(Plain, d)) == In(Plain, d) {
      RunEscape(s, d);
      RunConcat([QUOTE] + Escape(s), [QUOTE], In(Plain, d));
      RunConcat([QUOTE], Escape(s), In(Plain, d));
    }
  }

  lemma {:induction false} ClosedConcat(a: Text, b: Text)
    requires Closed(a) && Closed(b)
    ensures Closed(a + b)
  {
    forall d: nat ensures Run(a + b, In(Plain, d)) == In(Plain, d) {
      RunConcat(a, b, In(Plain, d));
    }
  }

  /** Texts without quotation marks, brackets, commas, bars or backslashes. */
  ghost predicate Bare(u: Text) {
    forall i :: 0 <= i < |u| ==>
      u[i] !in {QUOTE, BACKSLASH, COMMA, BAR, OPEN_SQUARE, CLOSE_SQUARE, OPEN_CURLY, CLOSE_CURLY}
  }

  lemma {:induction false} RunBare(u: Text, d: nat)
    requires Bare(u)
    ensures Run(u, In(Plain, d)) == In(Plain, d)
  {
    if u != [] {
      RunBare(u[1..], d);
    }
  }

  lemma {:induction false} BareClosed(u: Text)
    requires u != [] && Bare(u)
    ensures Closed(u)
  {
    forall d: nat ensures Run(u, In(Plain, d)) == In(Plain, d) {
      RunBare(u, d);
    }
  }

  function Join(us: seq<Text>): Text {
    if us == [] then [] else if |us| == 1 then us[0] else us[0] + ([COMMA] + Join(us[1..]))
  }

  ghost predicate AllClosed(us: seq<Text>) { forall i :: 0 <= i < |us| ==> Closed(us[i]) }

  lemma {:induction false} RunJoin(us: seq<Text>, d: nat)
    requires AllClosed(us) && d > 0
    ensures Run(Join(us), In(Plain, d)) == In(Plain, d)
  {
    if |us| > 1 {
      RunJoin(us[1..], d);
      RunConcat(us[0], [COMMA] + Join(us[1..]), In(Plain, d));
      RunConcat([COMMA], Join(us[1..]), In(Plain, d));
    }
  }

  predicate Brackets(open: CodeUnit, close: CodeUnit) {
    (open, close) in {(OPEN_SQUARE, CLOSE_SQUARE), (OPEN_CURLY, CLOSE_CURLY)}
  }

  lemma {:induction false} BracketClosed(open: CodeUnit, us: seq<Text>, close: CodeUnit)
    requires Brackets(open, close) && AllClosed(us)
    ensures Closed([open] + Join(us) + [close])
  {
    var t := [open] + Join(us);
    forall d: nat ensures Run(t + [close], In(Plain, d)) == In(Plain, d) {
      RunJoin(us, d + 1);
      RunConcat([open], Join(us), In(Plain, d));
      RunConcat(t, [close], In(Plain, d));
    }
  }

  /** A closed text followed by a comma or by nothing is not a proper prefix of another. */
  lemma {:induction false} ClosedNotLonger(a: Text, x: Text, b: Text, y: Text)
    requires Closed(a) && Closed(b) && a + x == b + y
    requires x == [] || x[0] == COMMA
    ensures |b| <= |a|
  {
    if |a| < |b| {
      var n := |a|;
      assert (a + x)[..n] == a && (b + y)[..n] == b[..n];
      assert b[n] == (b + y)[n] == (a + x)[n] == x[0];
      assert b == a + b[n..];
      RunConcat(a, b[n..], In(Plain, 0));
      RunStop(b[n..][1..]);
    }
  }

  /** Unique readability of the comma-joined text. */
  lemma {:induction false} JoinUnique(us: seq<Text>, vs: seq<Text>)
    requires AllClosed(us) && AllClosed(vs) && Join(us) == Join(vs)
    ensures us == vs
  {
    if us != [] {
      var x := if |us| == 1 then [] else [COMMA] + Join(us[1..]);
      var y := if |vs| == 1 then [] else [COMMA] + Join(vs[1..]);
      assert us[0] + x == Join(us) && vs[0] + y == Join(vs);
      ClosedNotLonger(us[0], x, vs[0], y);
      ClosedNotLonger(vs[0], y, us[0], x);
      assert us[0] == (us[0] + x)[..|us[0]|] == vs[0];
      assert x == (us[0] + x)[|us[0]|..] == y;
      if |us| > 1 {
        assert Join(us[1..]) == x[1..] == y[1..] == Join(vs[1..]);
        JoinUnique(us[1..], vs[1..]);
      }
      assert us == [us[0]] + us[1..] && vs == [vs[0]] + vs[1..];
    }
  }

  lemma {:induction false} BracketsUnique(open: CodeUnit, us: seq<Text>, vs: seq<Text>, close: CodeUnit)
    requires AllClosed(us) && AllClosed(vs) && [open] + Join(us) + [close] == [open] + Join(vs) + [close]
    ensures us == vs
  {
    var s, t := [open] + Join(us) + [close], [open] + Join(vs) + [close];
    assert Join(us) == s[1..|s| - 1] == t[1..|t| - 1] == Join(vs);
    JoinUnique(us, vs);
  }

  /**
   Scanning the same text from outside and from inside a string: the two scans
   swap sides at every quotation mark, so they cannot both end outside.
   */
  lemma {:induction false} TwinScan(t: Text, a: State, b: State)
    requires a.In? && b.In? && a.mode != Escaped && b.mode != Escaped && a.mode != b.mode
    requires Run(t, a) != Stop && Run(t, b) != Stop
    ensures Run(t, a).mode != Run(t, b).mode  // at most one of them ends Plain
  {
    if t != [] {
      var a', b' := Step(t[0], a), Step(t[0], b);
      RunStop(t[1..]);
      TwinScan(t[1..], a', b');
    }
  }

  /** No closed text is a proper suffix of another that starts right after a bar. */
  lemma {:induction false} NoBarBeforeSuffix(p: Text, c: Text)
    requires Closed(c)
    ensures !Closed(p + [BAR] + c)
  {
    var s := In(Plain, 0);
    RunConcat(p + [BAR], c, s);
    RunConcat(p, [BAR], s);
    var m := Run(p + [BAR], s);
    RunStop(c);
    if m.In? && Run(c, m) != Stop {
      TwinScan(c, s, m);
    }
  }
}
