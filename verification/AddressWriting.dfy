/** How an address may be written: white space and the case of its letters do not matter. */
module AddressWriting {
  import opened JsText
  import opened NimiqAddress

  lemma {:induction false} CompactConcat(s: string, t: string)
    ensures Compact(s + t) == Compact(s) + Compact(t)
  {
    if s == "" {
      assert s + t == t;
    } else {
      assert (s + t)[1..] == s[1..] + t;
      CompactConcat(s[1..], t);
    }
  }

  /** White space does not matter, wherever it stands. */
  lemma {:induction false} SpaceIgnored(s: string, c: char, t: string)
    requires IsSpace(c)
    ensures Compact(s + [c] + t) == Compact(s + t)
  {
    CompactConcat(s, [c] + t);
    CompactConcat(s, t);
    assert s + [c] + t == s + ([c] + t) && ([c] + t)[1..] == t;
  }

  /** Nor does the case of a letter. */
  lemma {:induction false} CaseIgnored(s: string)
    requires forall i :: 0 <= i < |s| ==> s[i] as int < 128
    ensures Compact(Lower(s)) == Compact(s)
  {
    if s != "" {
      assert Lower(s)[1..] == Lower(s[1..]);
      CaseIgnored(s[1..]);
      CaseOfOne(s[0]);
    }
  }

  lemma {:induction false} CaseOfOne(c: char)
    requires c as int < 128
    ensures UpperOf(LowerChar(c)) == UpperOf(c) && (IsSpace(LowerChar(c)) <==> IsSpace(c))
  {
  }

  /** In groups of four, with a blank between them. */
  function InFours(s: string): string { if |s| <= 4 then s else s[..4] + " " + InFours(s[4..]) }

  lemma {:induction false} FoursIgnored(s: string)
    ensures Compact(InFours(s)) == Compact(s)
  {
    if |s| > 4 {
      FoursIgnored(s[4..]);
      SpaceIgnored(s[..4], ' ', InFours(s[4..]));
      CompactConcat(s[..4], InFours(s[4..]));
      CompactConcat(s[..4], s[4..]);
      assert s[..4] + s[4..] == s;
    }
  }

  /** A valid address in small letters and groups of four is read as that address. */
  lemma {:induction false} WrittenAsUsual(a: string)
    requires IsValid(a)
    ensures Compact(InFours(Lower(a))) == a
  {
    FoursIgnored(Lower(a));
    CaseIgnored(a);
    CompactTwice(a);
  }
}
