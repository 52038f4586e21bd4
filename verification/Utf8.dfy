/** Bytes that are UTF-8 in the sense of RFC 3629, section 3, and where they may be cut. */
module Utf8 {
  newtype Byte = x: int | 0 <= x < 256

  type Bytes = seq<Byte>

  predicate Tail(b: Byte) { 0x80 <= b < 0xC0 }

  /** The length of the character a byte sequence starts with, or 0. */
  function CharLen(s: Bytes): (k: nat)
    ensures k <= 4 && k <= |s|
    ensures forall i :: 1 <= i < k ==> Tail(s[i])
    ensures k > 0 ==> !Tail(s[0])
  {
    if |s| >= 1 && s[0] < 0x80 then 1
    else if |s| >= 2 && 0xC2 <= s[0] <= 0xDF && Tail(s[1]) then 2
    else if |s| >= 3 && 0xE0 <= s[0] <= 0xEF && Tail(s[1]) && Tail(s[2])
      && (s[0] == 0xE0 ==> s[1] >= 0xA0) && (s[0] == 0xED ==> s[1] < 0xA0) then 3
    else if |s| >= 4 && 0xF0 <= s[0] <= 0xF4 && Tail(s[1]) && Tail(s[2]) && Tail(s[3])
      && (s[0] == 0xF0 ==> s[1] >= 0x90) && (s[0] == 0xF4 ==> s[1] < 0x90) then 4
    else 0
  }

  predicate Valid(s: Bytes) {
    s == [] || (CharLen(s) > 0 && Valid(s[CharLen(s)..]))
  }

  /** A position between characters. */
  predicate Boundary(s: Bytes, i: int) { 0 <= i <= |s| && (i < |s| ==> !Tail(s[i])) }

  lemma {:induction false} FrontDecides(s: Bytes, t: Bytes)
    requires CharLen(s) > 0 && |t| >= CharLen(s) && t[..CharLen(s)] == s[..CharLen(s)]
    ensures CharLen(t) == CharLen(s)
  {
    forall i | 0 <= i < CharLen(s) ensures t[i] == s[i] {
      assert t[..CharLen(s)][i] == s[..CharLen(s)][i];
    }
  }

  lemma {:induction false} ValidConcat(s: Bytes, t: Bytes)
    requires Valid(s) && Valid(t)
    ensures Valid(s + t)
  {
    if s == [] {
      assert s + t == t;
    } else {
      var k, u := CharLen(s), s + t;
      assert u[..k] == s[..k] && u[k..] == s[k..] + t;
      FrontDecides(s, u);
      ValidConcat(s[k..], t);
      AfterFirst(u, k);
    }
  }

  lemma {:induction false} AfterFirst(s: Bytes, k: nat)
    requires s != [] && CharLen(s) == k > 0
    ensures Valid(s) <==> Valid(s[k..])
  {
  }

  lemma {:induction false} BoundaryAfter(s: Bytes, k: nat, i: nat)
    requires k <= i <= |s|
    ensures Boundary(s, i) <==> Boundary(s[k..], i - k)
  {
    assert i < |s| ==> s[i] == s[k..][i - k];
  }

  /** Cutting valid text gives two valid texts exactly when the cut is at a character boundary. */
  lemma {:induction false} CutAtBoundary(s: Bytes, i: nat)
    requires Valid(s) && i <= |s|
    ensures Boundary(s, i) <==> Valid(s[..i])
    ensures Boundary(s, i) ==> Valid(s[i..])
  {
    if i == 0 {
      assert s[0..] == s;
    } else {
      var k := CharLen(s);
      if i < k {
        ShortFront(s, i);
      } else {
        var t := s[..i];
        CutAtBoundary(s[k..], i - k);
        BoundaryAfter(s, k, i);
        assert s[k..][i - k..] == s[i..];
        assert t[..k] == s[..k] && t[k..] == s[k..][..i - k];
        FrontDecides(s, t);
        AfterFirst(t, k);
      }
    }
  }

  lemma {:induction false} ShortFront(s: Bytes, i: nat)
    requires 0 < i < CharLen(s)
    ensures !Boundary(s, i) && !Valid(s[..i])
  {
    var t := s[..i];
    assert t[0] == s[0];
    assert |t| == i < CharLen(s);
  }

  /** Within any four consecutive positions of valid text there is a boundary. */
  lemma {:induction false} BoundaryNear(s: Bytes, n: nat)
    requires Valid(s) && n <= |s|
    ensures exists k :: n - 3 <= k <= n && Boundary(s, k)
  {
    var k := if s == [] then 0 else CharLen(s);
    if n < k {
      assert Boundary(s, 0);
    } else if n == 0 {
      assert Boundary(s, 0);
    } else {
      BoundaryNear(s[k..], n - k);
      var j :| n - k - 3 <= j <= n - k && Boundary(s[k..], j);
      BoundaryAfter(s, k, k + j);
      assert Boundary(s, k + j);
    }
  }

  /** The longest valid prefix of s of at most n bytes. */
  predicate LongestPrefix(r: Bytes, s: Bytes, n: nat) {
    |r| <= n && |r| <= |s| && r == s[..|r|] && Valid(r)
    && forall k :: |r| < k <= n && k <= |s| ==> !Valid(s[..k])
  }

  /** Valid text loses at most three bytes to the boundary. */
  lemma {:induction false} AtMostThreeLost(r: Bytes, s: Bytes, n: nat)
    requires Valid(s) && LongestPrefix(r, s, n)
    ensures |s| <= n ==> r == s
    ensures |s| > n ==> n - 3 <= |r| <= n && Boundary(s, |r|)
  {
    if |s| <= n {
      assert s[..|s|] == s;
    } else {
      BoundaryNear(s, n);
      var k :| n - 3 <= k <= n && Boundary(s, k);
      CutAtBoundary(s, k);
      CutAtBoundary(s, |r|);
    }
  }

  // ---- plain text

  predicate Ascii(s: Bytes) { forall i :: 0 <= i < |s| ==> s[i] < 0x80 }

  lemma {:induction false} AsciiValid(s: Bytes)
    requires Ascii(s)
    ensures Valid(s)
  {
    if s != [] { AsciiValid(s[1..]); }
  }
}
