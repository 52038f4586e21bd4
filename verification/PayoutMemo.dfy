/** The memos of cashback payments: at most 64 bytes of valid UTF-8. */
module PayoutMemo {
  import opened Utf8

  const MAX_MEMO: int := 64

  /** What clipping to n bytes leaves: short text as it is, longer text cut to its longest valid prefix. */
  predicate Clipped(r: Bytes, s: Bytes, n: int) {
    if n <= 0 then r == [] else if |s| <= n then r == s else LongestPrefix(r, s, n)
  }

  method ClipBytes(s: Bytes, n: int) returns (r: Bytes)
    ensures Clipped(r, s, n)
    ensures n > 0 && Valid(s) ==> LongestPrefix(r, s, n)
  {
    if n <= 0 { return []; }
    if |s| <= n {
      assert s[..|s|] == s;
      return s;
    }
    var k := n;
    while k > 0 && !Valid(s[..k])
      invariant 0 <= k <= n
      invariant forall j :: k < j <= n ==> !Valid(s[..j])
    {
      k := k - 1;
    }
    r := s[..k];
  }

  // ---- white space

  /** The encodings of the white space characters of Unicode. */
  predicate SpaceChar(c: Bytes) {
    (|c| == 1 && (9 <= c[0] <= 13 || c[0] == 32))
    || (|c| == 2 && c[0] == 0xC2 && (c[1] == 0x85 || c[1] == 0xA0))
    || (|c| == 3 && (c == [0xE1, 0x9A, 0x80] || c == [0xE2, 0x81, 0x9F] || c == [0xE3, 0x80, 0x80]
        || (c[0] == 0xE2 && c[1] == 0x80 && (0x80 <= c[2] <= 0x8A || c[2] in {0xA8, 0xA9, 0xAF}))))
  }

  /** How many bytes of white space character a text starts with. */
  function LeadingSpace(s: Bytes): (k: nat)
    ensures k <= |s| && k <= 3 && (k > 0 ==> SpaceChar(s[..k]))
  {
    if |s| >= 1 && SpaceChar(s[..1]) then 1
    else if |s| >= 2 && SpaceChar(s[..2]) then 2
    else if |s| >= 3 && SpaceChar(s[..3]) then 3
    else 0
  }

  function TrailingSpace(s: Bytes): (k: nat)
    ensures k <= |s| && k <= 3 && (k > 0 ==> SpaceChar(s[|s| - k..]))
  {
    if |s| >= 1 && SpaceChar(s[|s| - 1..]) then 1
    else if |s| >= 2 && SpaceChar(s[|s| - 2..]) then 2
    else if |s| >= 3 && SpaceChar(s[|s| - 3..]) then 3
    else 0
  }

  function TrimLeft(s: Bytes): Bytes {
    if LeadingSpace(s) == 0 then s else TrimLeft(s[LeadingSpace(s)..])
  }

  function TrimRight(s: Bytes): Bytes {
    if TrailingSpace(s) == 0 then s else TrimRight(s[..|s| - TrailingSpace(s)])
  }

  function TrimSpace(s: Bytes): Bytes { TrimRight(TrimLeft(s)) }

  function OneLine(s: Bytes): Bytes {
    seq(|s|, i requires 0 <= i < |s| => if s[i] == 10 then 32 else s[i])
  }

  lemma {:induction false} SpaceIsChar(c: Bytes)
    requires SpaceChar(c)
    ensures CharLen(c) == |c| > 0
  {
  }

  lemma {:induction false} SpaceInFront(s: Bytes, k: nat)
    requires 0 < k <= |s| && SpaceChar(s[..k]) && Valid(s)
    ensures Valid(s[k..])
  {
    SpaceIsChar(s[..k]);
    assert s[..k][..k] == s[..k];
    FrontDecides(s[..k], s);
  }

  lemma {:induction false} TrimLeftValid(s: Bytes)
    requires Valid(s)
    ensures Valid(TrimLeft(s))
  {
    var k := LeadingSpace(s);
    if k > 0 {
      SpaceInFront(s, k);
      TrimLeftValid(s[k..]);
    }
  }

  lemma {:induction false} SpaceBoundary(s: Bytes, i: nat)
    requires i < |s| && SpaceChar(s[i..])
    ensures Boundary(s, i)
  {
    SpaceIsChar(s[i..]);
    assert s[i] == s[i..][0];
  }

  lemma {:induction false} TrimRightValid(s: Bytes)
    requires Valid(s)
    ensures Valid(TrimRight(s))
  {
    var k := TrailingSpace(s);
    if k > 0 {
      SpaceBoundary(s, |s| - k);
      CutAtBoundary(s, |s| - k);
      TrimRightValid(s[..|s| - k]);
    }
  }

  lemma {:induction false} OneLineValid(s: Bytes)
    requires Valid(s)
    ensures Valid(OneLine(s))
  {
    if s != [] {
      var k := CharLen(s);
      OneLineValid(s[k..]);
      assert OneLine(s)[k..] == OneLine(s[k..]);
      assert CharLen(OneLine(s)) == k;
    }
  }

  /** The product name as a memo writes it. */
  function Product(name: Bytes): Bytes { OneLine(TrimSpace(name)) }

  lemma {:induction false} ProductValid(name: Bytes)
    requires Valid(name)
    ensures Valid(Product(name))
  {
    TrimLeftValid(name);
    TrimRightValid(TrimLeft(name));
    OneLineValid(TrimSpace(name));
  }

  // ---- memos

  predicate Plain(s: string) { forall i :: 0 <= i < |s| ==> s[i] as int < 128 }

  /** Text of ASCII characters as bytes. */
  function Text(s: string): Bytes
    requires Plain(s)
  {
    seq(|s|, i requires 0 <= i < |s| => s[i] as int as Byte)
  }

  lemma {:induction false} TextValid(s: string)
    requires Plain(s)
    ensures Valid(Text(s))
  {
    AsciiValid(Text(s));
  }

  /** What surrounds the product name, what replaces a name of which nothing fits, and the short form. */
  datatype Frame = Frame(prefix: Bytes, suffix: Bytes, standIn: Bytes, short: Bytes)

  predicate ValidFrame(f: Frame) { Valid(f.prefix) && Valid(f.suffix) && Valid(f.standIn) && Valid(f.short) }

  function Budget(f: Frame): int { MAX_MEMO - |f.prefix| - |f.suffix| }

  predicate Filled(r: Bytes, f: Frame, p: Bytes) {
    if p != [] then r == f.prefix + p + f.suffix
    else if |f.standIn| <= Budget(f) then r == f.prefix + f.standIn + f.suffix
    else Clipped(r, f.short, MAX_MEMO)
  }

  /** The frame around the clipped name, or the clipped short form. */
  ghost predicate IsMemo(r: Bytes, f: Frame, product: Bytes) {
    if Budget(f) <= 0 then Clipped(r, f.short, MAX_MEMO)
    else exists p :: Clipped(p, product, Budget(f)) && Filled(r, f, p)
  }

  method Compose(f: Frame, name: Bytes) returns (r: Bytes)
    ensures IsMemo(r, f, Product(name))
  {
    var product := OneLine(TrimSpace(name));
    if |f.prefix| + |f.suffix| >= MAX_MEMO {
      r := ClipBytes(f.short, MAX_MEMO);
      return;
    }
    var budget := MAX_MEMO - |f.prefix| - |f.suffix|;
    var p := ClipBytes(product, budget);
    ghost var clipped := p;
    if p == [] {
      p := f.standIn;
      if |f.prefix| + |p| + |f.suffix| > MAX_MEMO {
        r := ClipBytes(f.short, MAX_MEMO);
        assert Filled(r, f, clipped);
        return;
      }
    }
    r := f.prefix + p + f.suffix;
    assert Filled(r, f, clipped);
  }

  /** Every composed memo has at most 64 bytes, and is valid UTF-8 when its parts are. */
  lemma {:induction false} MemoFits(r: Bytes, f: Frame, product: Bytes)
    requires IsMemo(r, f, product)
    ensures |r| <= MAX_MEMO
    ensures ValidFrame(f) && Valid(product) ==> Valid(r)
  {
    if Budget(f) > 0 {
      var p :| Clipped(p, product, Budget(f)) && Filled(r, f, p);
      if ValidFrame(f) && Valid(product) {
        ClippedValid(p, product, Budget(f));
        FilledValid(r, f, p);
      }
    } else if ValidFrame(f) {
      ClippedValid(r, f.short, MAX_MEMO);
    }
  }

  lemma {:induction false} ClippedValid(r: Bytes, s: Bytes, n: int)
    requires Clipped(r, s, n) && Valid(s)
    ensures Valid(r) && (n > 0 ==> LongestPrefix(r, s, n))
  {
    assert s[..|s|] == s;
  }

  lemma {:induction false} FilledValid(r: Bytes, f: Frame, p: Bytes)
    requires ValidFrame(f) && Valid(p) && Filled(r, f, p)
    ensures Valid(r)
  {
    var q := if p != [] then p else f.standIn;
    if p != [] || |f.standIn| <= Budget(f) {
      ValidConcat(f.prefix, q);
      ValidConcat(f.prefix + q, f.suffix);
    } else {
      ClippedValid(r, f.short, MAX_MEMO);
    }
  }

  /** A product name that fits is written whole; a longer one gives up at most three bytes to the cut. */
  lemma {:induction false} MemoKeepsName(r: Bytes, f: Frame, product: Bytes)
    requires IsMemo(r, f, product) && Valid(product) && product != []
    ensures |product| <= Budget(f) ==> r == f.prefix + product + f.suffix
    ensures |product| > Budget(f) > 3 ==>
      exists k :: Budget(f) - 3 <= k <= Budget(f) && 0 < k <= |product| && r == f.prefix + product[..k] + f.suffix
  {
    if Budget(f) > 0 {
      var p :| Clipped(p, product, Budget(f)) && Filled(r, f, p);
      ClippedValid(p, product, Budget(f));
      AtMostThreeLost(p, product, Budget(f));
    }
  }

  /** The fixed words of a memo; the short form keeps the opening and drops the product. */
  datatype Wording = Wording(opening: string, middle: string, shortMiddle: string, closing: string, standIn: string)

  predicate PlainWords(w: Wording) {
    Plain(w.opening) && Plain(w.middle) && Plain(w.shortMiddle) && Plain(w.closing) && Plain(w.standIn)
  }

  function FrameOf(w: Wording, amt: Bytes, shop: Bytes): Frame
    requires PlainWords(w)
  {
    Frame(Text(w.opening) + amt + Text(w.middle), Text(w.closing) + shop, Text(w.standIn),
          Text(w.opening) + amt + Text(w.shortMiddle) + shop)
  }

  lemma {:induction false} FrameOfValid(w: Wording, amt: Bytes, shop: Bytes)
    requires PlainWords(w) && Valid(amt) && Valid(shop)
    ensures ValidFrame(FrameOf(w, amt, shop))
  {
    var opening, middle, shortMiddle, closing := Text(w.opening), Text(w.middle), Text(w.shortMiddle), Text(w.closing);
    TextValid(w.opening);
    TextValid(w.middle);
    TextValid(w.shortMiddle);
    TextValid(w.closing);
    TextValid(w.standIn);
    ValidConcat(opening, amt);
    ValidConcat(opening + amt, middle);
    ValidConcat(opening + amt, shortMiddle);
    ValidConcat(opening + amt + shortMiddle, shop);
    ValidConcat(closing, shop);
  }

  const EARN := Wording("You earn ", " NIM by purchasing ", " NIM from ", " from ", "item")
  const BURN := Wording("", " NIM cashback -> burn from ", " NIM burned @ ", " @ ", "purchase")

  lemma {:induction false} EarnIsPlain()
    ensures PlainWords(EARN)
  {
    assert Plain("You earn ");
    assert Plain(" NIM by purchasing ");
    assert Plain(" NIM from ");
    assert Plain(" from ");
    assert Plain("item");
  }

  lemma {:induction false} BurnIsPlain()
    ensures PlainWords(BURN)
  {
    assert Plain("");
    assert Plain(" NIM cashback -> burn from ");
    assert Plain(" NIM burned @ ");
    assert Plain(" @ ");
    assert Plain("purchase");
  }

  method Write(w: Wording, amt: Bytes, name: Bytes, shop: Bytes) returns (r: Bytes)
    requires PlainWords(w)
    ensures |r| <= MAX_MEMO && (Valid(amt) && Valid(name) && Valid(shop) ==> Valid(r))
    ensures IsMemo(r, FrameOf(w, amt, shop), Product(name))
  {
    r := Compose(FrameOf(w, amt, shop), name);
    MemoFits(r, FrameOf(w, amt, shop), Product(name));
    if Valid(amt) && Valid(name) && Valid(shop) {
      FrameOfValid(w, amt, shop);
      ProductValid(name);
    }
  }

  method Memo(amt: Bytes, name: Bytes, shop: Bytes) returns (r: Bytes)
    ensures |r| <= MAX_MEMO && (Valid(amt) && Valid(name) && Valid(shop) ==> Valid(r))
    ensures PlainWords(EARN) && IsMemo(r, FrameOf(EARN, amt, shop), Product(name))
  {
    EarnIsPlain();
    r := Write(EARN, amt, name, shop);
  }

  method BurnMemo(amt: Bytes, name: Bytes, shop: Bytes) returns (r: Bytes)
    ensures |r| <= MAX_MEMO && (Valid(amt) && Valid(name) && Valid(shop) ==> Valid(r))
    ensures PlainWords(BURN) && IsMemo(r, FrameOf(BURN, amt, shop), Product(name))
  {
    BurnIsPlain();
    r := Write(BURN, amt, name, shop);
  }
}
