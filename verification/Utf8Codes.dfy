/** Valid text is exactly the encodings of Unicode scalar values, and a memo's product name is trimmed of white space as such. */
module Utf8Codes {
  import opened Utf8
  import opened PayoutMemo
  import MoneyGo

  predicate Scalar(u: int) { 0 <= u < 0xD800 || 0xE000 <= u < 0x110000 }

  predicate Scalars(us: seq<int>) { forall i :: 0 <= i < |us| ==> Scalar(us[i]) }

  /** The bytes of a scalar value, six bits in every byte after the first. */
  function Encoded(u: int): Bytes
    requires Scalar(u)
  {
    if u < 0x80 then [u as Byte]
    else if u < 0x800 then [(192 + u / 64) as Byte, (128 + u % 64) as Byte]
    else if u < 0x10000 then [(224 + u / 4096) as Byte, (128 + u / 64 % 64) as Byte, (128 + u % 64) as Byte]
    else [(240 + u / 262144) as Byte, (128 + u / 4096 % 64) as Byte, (128 + u / 64 % 64) as Byte, (128 + u % 64) as Byte]
  }

  function EncodedAll(us: seq<int>): Bytes
    requires Scalars(us)
  {
    if us == [] then [] else Encoded(us[0]) + EncodedAll(us[1..])
  }

  lemma {:induction false} EncodedIsChar(u: int)
    requires Scalar(u)
    ensures CharLen(Encoded(u)) == |Encoded(u)| > 0
  {
  }

  lemma {:induction false} CharInFront(u: int, t: Bytes)
    requires Scalar(u)
    ensures var s := Encoded(u) + t; CharLen(s) == |Encoded(u)| && s[..CharLen(s)] == Encoded(u) && s[CharLen(s)..] == t
  {
    var s := Encoded(u) + t;
    EncodedIsChar(u);
    assert Encoded(u)[..|Encoded(u)|] == Encoded(u) && s[..|Encoded(u)|] == Encoded(u);
    FrontDecides(Encoded(u), s);
  }

  lemma {:induction false} TwoBytes(s: Bytes) returns (u: int)
    requires CharLen(s) == 2
    ensures Scalar(u) && s[..2] == Encoded(u)
  {
    u := (s[0] as int - 192) * 64 + (s[1] as int - 128);
    assert u / 64 == s[0] as int - 192 && u % 64 == s[1] as int - 128;
  }

  lemma {:induction false} ThreeBytes(s: Bytes) returns (u: int)
    requires CharLen(s) == 3
    ensures Scalar(u) && s[..3] == Encoded(u)
  {
    var a, b, c := s[0] as int - 224, s[1] as int - 128, s[2] as int - 128;
    u := a * 4096 + b * 64 + c;
    assert u / 64 == a * 64 + b && u % 64 == c;
    assert u / 4096 == a && u / 64 % 64 == b;
  }

  lemma {:induction false} FourBytes(s: Bytes) returns (u: int)
    requires CharLen(s) == 4
    ensures Scalar(u) && s[..4] == Encoded(u)
  {
    var a, b, c, d := s[0] as int - 240, s[1] as int - 128, s[2] as int - 128, s[3] as int - 128;
    u := a * 262144 + b * 4096 + c * 64 + d;
    assert u / 64 == a * 4096 + b * 64 + c && u % 64 == d;
    assert u / 4096 == a * 64 + b && u / 64 % 64 == c;
    assert u / 262144 == a && u / 4096 % 64 == b;
  }

  lemma {:induction false} CharDecoded(s: Bytes) returns (u: int)
    requires CharLen(s) > 0
    ensures Scalar(u) && s[..CharLen(s)] == Encoded(u)
  {
    if CharLen(s) == 1 {
      u := s[0] as int;
      assert s[..1] == [s[0]];
    } else if CharLen(s) == 2 {
      u := TwoBytes(s);
    } else if CharLen(s) == 3 {
      u := ThreeBytes(s);
    } else {
      u := FourBytes(s);
    }
  }

  lemma {:induction false} EncodedValid(us: seq<int>)
    requires Scalars(us)
    ensures Valid(EncodedAll(us))
  {
    if us != [] {
      CharInFront(us[0], EncodedAll(us[1..]));
      EncodedValid(us[1..]);
    }
  }

  lemma {:induction false} ValidDecoded(s: Bytes) returns (us: seq<int>)
    requires Valid(s)
    ensures Scalars(us) && s == EncodedAll(us)
  {
    if s == [] {
      us := [];
    } else {
      var k := CharLen(s);
      var u := CharDecoded(s);
      var rest := ValidDecoded(s[k..]);
      us := [u] + rest;
      assert us[1..] == rest && s == s[..k] + s[k..];
    }
  }

  predicate Encodes(s: Bytes, us: seq<int>) { Scalars(us) && s == EncodedAll(us) }

  /** The byte table accepts exactly the encodings of Unicode scalar values. */
  lemma {:induction false} ValidIff(s: Bytes)
    ensures Valid(s) <==> exists us :: Encodes(s, us)
  {
    if Valid(s) {
      var us := ValidDecoded(s);
      assert Encodes(s, us);
    }
    if us :| Encodes(s, us) { EncodedValid(us); }
  }

  // ---- white space

  predicate White(u: int) { 0 <= u < 0x3001 && MoneyGo.UnicodeSpace(u as char) }

  predicate AllWhite(us: seq<int>) { forall i :: 0 <= i < |us| ==> White(us[i]) }

  /** A byte sequence counts as one space exactly when it encodes a white space character. */
  lemma {:induction false} SpaceIff(u: int)
    requires Scalar(u)
    ensures SpaceChar(Encoded(u)) <==> White(u)
  {
    var c := Encoded(u);
    if u < 0x80 {
    } else if u < 0x800 {
      assert c[0] == 0xC2 <==> u / 64 == 2;
    } else if u < 0x10000 {
      SpaceOfThree(u);
    }
  }

  lemma {:induction false} SpaceOfThree(u: int)
    requires Scalar(u) && 0x800 <= u < 0x10000
    ensures SpaceChar(Encoded(u)) <==> White(u)
  {
    var c, a, b, d := Encoded(u), u / 4096, u / 64 % 64, u % 64;
    assert u == a * 4096 + b * 64 + d;
    assert c == [(224 + a) as Byte, (128 + b) as Byte, (128 + d) as Byte];
    assert c == [0xE1, 0x9A, 0x80] <==> u == 0x1680;
    assert c == [0xE2, 0x81, 0x9F] <==> u == 0x205F;
    assert c == [0xE3, 0x80, 0x80] <==> u == 0x3000;
  }

  lemma {:induction false} SpaceShape(c: Bytes)
    requires SpaceChar(c)
    ensures 0 < |c| <= 3 && !Tail(c[0]) && forall i :: 1 <= i < |c| ==> Tail(c[i])
  {
  }

  lemma {:induction false} LeadingSpaceIs(u: int, t: Bytes)
    requires Scalar(u)
    ensures LeadingSpace(Encoded(u) + t) == if White(u) then |Encoded(u)| else 0
  {
    var s, k := Encoded(u) + t, LeadingSpace(Encoded(u) + t);
    CharInFront(u, t);
    SpaceIff(u);
    if k > 0 {
      SpaceIsChar(s[..k]);
      assert s[..k][..k] == s[..k];
      FrontDecides(s[..k], s);
    }
  }

  /** Two characters that end a text are one. */
  lemma {:induction false} SameStart(s: Bytes, c: Bytes, e: Bytes)
    requires 0 < |c| <= |s| && 0 < |e| <= |s| && c == s[|s| - |c|..] && e == s[|s| - |e|..]
    requires !Tail(c[0]) && (forall i :: 1 <= i < |c| ==> Tail(c[i])) && !Tail(e[0]) && forall i :: 1 <= i < |e| ==> Tail(e[i])
    ensures c == e
  {
    var i, j := |s| - |c|, |s| - |e|;
    assert s[i] == c[0] && s[j] == e[0];
    assert forall k :: i < k < |s| ==> s[k] == c[k - i];
    assert forall k :: j < k < |s| ==> s[k] == e[k - j];
  }

  lemma {:induction false} TrailingSpaceIs(t: Bytes, u: int)
    requires Scalar(u)
    ensures TrailingSpace(t + Encoded(u)) == if White(u) then |Encoded(u)| else 0
  {
    var s, c := t + Encoded(u), Encoded(u);
    var k, m := TrailingSpace(t + Encoded(u)), |c|;
    EncodedIsChar(u);
    SpaceIff(u);
    assert s[|t|..] == c;
    assert s[|s| - m..] == c;
    if k > 0 {
      var e := s[|s| - k..];
      SpaceShape(e);
      SameStart(s, c, e);
    } else if White(u) {
      SpaceShape(c);
    }
  }

  lemma {:induction false} TrimmedLeft(us: seq<int>, t: Bytes)
    requires Scalars(us) && AllWhite(us)
    ensures TrimLeft(EncodedAll(us) + t) == TrimLeft(t)
  {
    if us == [] {
      assert EncodedAll(us) + t == t;
    } else {
      var rest := EncodedAll(us[1..]) + t;
      assert EncodedAll(us) + t == Encoded(us[0]) + rest;
      EncodedIsChar(us[0]);
      LeadingSpaceIs(us[0], rest);
      assert (Encoded(us[0]) + rest)[|Encoded(us[0])|..] == rest;
      TrimmedLeft(us[1..], t);
    }
  }

  lemma {:induction false} EncodedSnoc(us: seq<int>, u: int)
    requires Scalars(us) && Scalar(u)
    ensures Scalars(us + [u]) && EncodedAll(us + [u]) == EncodedAll(us) + Encoded(u)
  {
    if us == [] {
      assert [u][1..] == [] && EncodedAll([]) == [];
      assert EncodedAll([u]) == Encoded(u) + [];
      assert us + [u] == [u];
    } else {
      EncodedSnoc(us[1..], u);
      assert (us + [u])[1..] == us[1..] + [u];
    }
  }

  lemma {:induction false} TrimmedRight(t: Bytes, us: seq<int>)
    requires Scalars(us) && AllWhite(us)
    ensures TrimRight(t + EncodedAll(us)) == TrimRight(t)
    decreases |us|
  {
    if us == [] {
      assert t + EncodedAll(us) == t;
    } else {
      var front, u := us[..|us| - 1], us[|us| - 1];
      assert us == front + [u];
      EncodedSnoc(front, u);
      var s := t + EncodedAll(front);
      assert t + EncodedAll(us) == s + Encoded(u);
      EncodedIsChar(u);
      TrailingSpaceIs(s, u);
      assert (s + Encoded(u))[..|s|] == s;
      TrimmedRight(t, front);
    }
  }

  /** Nothing white at either end. */
  predicate Bare(us: seq<int>) { us == [] || (!White(us[0]) && !White(us[|us| - 1])) }

  /** Line feeds become blanks. */
  function Flat(us: seq<int>): (r: seq<int>)
    requires Scalars(us)
    ensures Scalars(r)
  {
    seq(|us|, i requires 0 <= i < |us| => if us[i] == 10 then 32 else us[i])
  }

  lemma {:induction false} OneLineFlat(us: seq<int>)
    requires Scalars(us)
    ensures OneLine(EncodedAll(us)) == EncodedAll(Flat(us))
  {
    if us != [] {
      OneLineFlat(us[1..]);
      assert Flat(us)[1..] == Flat(us[1..]);
      OneLineChar(us[0]);
      assert OneLine(EncodedAll(us)) == OneLine(Encoded(us[0])) + OneLine(EncodedAll(us[1..]));
    }
  }

  lemma {:induction false} OneLineChar(u: int)
    requires Scalar(u)
    ensures OneLine(Encoded(u)) == Encoded(if u == 10 then 32 else u)
  {
    EncodedIsChar(u);
    assert u >= 0x80 ==> forall i :: 0 <= i < |Encoded(u)| ==> Encoded(u)[i] >= 128;
  }

  lemma {:induction false} TrimmedBlank(before: seq<int>, after: seq<int>)
    requires Scalars(before) && Scalars(after) && AllWhite(before) && AllWhite(after)
    ensures TrimSpace(EncodedAll(before) + EncodedAll(after)) == []
  {
    TrimmedLeft(before, EncodedAll(after));
    assert EncodedAll(after) + [] == EncodedAll(after) && TrimLeft([]) == [];
    TrimmedLeft(after, []);
  }

  lemma {:induction false} StaysLeft(name: seq<int>, t: Bytes)
    requires Scalars(name) && Bare(name) && name != []
    ensures TrimLeft(EncodedAll(name) + t) == EncodedAll(name) + t
  {
    var rest := EncodedAll(name[1..]);
    assert EncodedAll(name) + t == Encoded(name[0]) + (rest + t);
    LeadingSpaceIs(name[0], rest + t);
  }

  lemma {:induction false} StaysRight(name: seq<int>)
    requires Scalars(name) && Bare(name) && name != []
    ensures TrimRight(EncodedAll(name)) == EncodedAll(name)
  {
    var front := name[..|name| - 1];
    EncodedSnoc(front, name[|name| - 1]);
    assert name == front + [name[|name| - 1]];
    TrailingSpaceIs(EncodedAll(front), name[|name| - 1]);
  }

  lemma {:induction false} TrimmedBetween(before: seq<int>, name: seq<int>, after: seq<int>)
    requires Scalars(before) && Scalars(name) && Scalars(after) && AllWhite(before) && AllWhite(after) && Bare(name) && name != []
    ensures TrimSpace(EncodedAll(before) + (EncodedAll(name) + EncodedAll(after))) == EncodedAll(name)
  {
    TrimmedLeft(before, EncodedAll(name) + EncodedAll(after));
    StaysLeft(name, EncodedAll(after));
    TrimmedRight(EncodedAll(name), after);
    StaysRight(name);
  }

  /** A name between white space is written without it and on one line; nothing else of it changes. */
  lemma {:induction false} ProductIs(before: seq<int>, name: seq<int>, after: seq<int>)
    requires Scalars(before) && Scalars(name) && Scalars(after) && AllWhite(before) && AllWhite(after) && Bare(name)
    ensures Product(EncodedAll(before) + (EncodedAll(name) + EncodedAll(after))) == EncodedAll(Flat(name))
  {
    if name == [] {
      assert EncodedAll(name) + EncodedAll(after) == EncodedAll(after);
      TrimmedBlank(before, after);
    } else {
      TrimmedBetween(before, name, after);
    }
    OneLineFlat(name);
  }
}
