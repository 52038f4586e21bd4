/** What the two payout memos say, word by word, and when they fall back to their short forms. */
module MemoTexts {
  import opened Utf8
  import opened PayoutMemo

  /** The words of a memo about a purchase, and of its short form. */
  predicate Earned(r: Bytes, amt: Bytes, product: Bytes, shop: Bytes) {
    Plain("You earn ") && Plain(" NIM by purchasing ") && Plain(" from ")
    && r == Text("You earn ") + amt + Text(" NIM by purchasing ") + product + (Text(" from ") + shop)
  }

  predicate EarnedShort(r: Bytes, amt: Bytes, shop: Bytes) {
    Plain("You earn ") && Plain(" NIM from ") && Clipped(r, Text("You earn ") + amt + Text(" NIM from ") + shop, 64)
  }

  predicate IsItem(p: Bytes) { Plain("item") && p == Text("item") }

  lemma {:induction false} EarnFilled(r: Bytes, amt: Bytes, p: Bytes, shop: Bytes)
    requires PlainWords(EARN) && r == FrameOf(EARN, amt, shop).prefix + p + FrameOf(EARN, amt, shop).suffix
    ensures Earned(r, amt, p, shop)
  {
    EarnWords();
  }

  lemma {:induction false} EarnClipped(r: Bytes, amt: Bytes, shop: Bytes)
    requires PlainWords(EARN) && Clipped(r, FrameOf(EARN, amt, shop).short, MAX_MEMO)
    ensures EarnedShort(r, amt, shop)
  {
    EarnWords();
  }

  /** A memo names what fits of the product, an item when there is no name, and neither when amount and shop leave no room. */
  lemma {:induction false} EarnMemoSays(r: Bytes, amt: Bytes, name: Bytes, shop: Bytes)
    requires PlainWords(EARN) && IsMemo(r, FrameOf(EARN, amt, shop), Product(name))
    ensures |amt| + |shop| >= 30 ==> EarnedShort(r, amt, shop)
    ensures |amt| + |shop| < 30 && 0 < |Product(name)| <= 30 - |amt| - |shop| ==> Earned(r, amt, Product(name), shop)
    ensures Product(name) == [] && |amt| + |shop| <= 26 ==> exists p :: IsItem(p) && Earned(r, amt, p, shop)
    ensures Product(name) == [] && 26 < |amt| + |shop| ==> EarnedShort(r, amt, shop)
  {
    var f := FrameOf(EARN, amt, shop);
    EarnFrame(amt, shop);
    if Budget(f) > 0 {
      var p :| Clipped(p, Product(name), Budget(f)) && Filled(r, f, p);
      if p != [] {
        EarnFilled(r, amt, p, shop);
      } else if |f.standIn| <= Budget(f) {
        EarnFilled(r, amt, f.standIn, shop);
      } else {
        EarnClipped(r, amt, shop);
      }
    } else {
      EarnClipped(r, amt, shop);
    }
  }

  lemma {:induction false} EarnFrame(amt: Bytes, shop: Bytes)
    requires PlainWords(EARN)
    ensures var f := FrameOf(EARN, amt, shop); Budget(f) == 30 - |amt| - |shop| && |f.standIn| == 4 && IsItem(f.standIn)
  {
    EarnWords();
  }

  lemma {:induction false} EarnWords()
    ensures Plain("You earn ") && Plain(" NIM by purchasing ") && Plain(" NIM from ") && Plain(" from ") && Plain("item")
    ensures |"You earn "| == 9 && |" NIM by purchasing "| == 19 && |" from "| == 6 && |"item"| == 4
  {
    EarnIsPlain();
  }

  lemma {:induction false} CutName(p: Bytes, product: Bytes, n: int)
    requires Clipped(p, product, n) && Valid(product) && 3 < n < |product|
    ensures LongestPrefix(p, product, n) && |p| >= n - 3 && p != []
  {
    ClippedValid(p, product, n);
    AtMostThreeLost(p, product, n);
  }

  predicate IsCut(p: Bytes, product: Bytes, n: nat) { LongestPrefix(p, product, n) && |p| >= n - 3 }

  /** A longer name is cut to the most whole characters that fit. */
  lemma {:induction false} EarnMemoCuts(r: Bytes, amt: Bytes, name: Bytes, shop: Bytes)
    requires PlainWords(EARN) && IsMemo(r, FrameOf(EARN, amt, shop), Product(name)) && Valid(name)
    requires |amt| + |shop| < 27 && |Product(name)| > 30 - |amt| - |shop|
    ensures exists p :: IsCut(p, Product(name), 30 - |amt| - |shop|) && Earned(r, amt, p, shop)
  {
    var f, n := FrameOf(EARN, amt, shop), 30 - |amt| - |shop|;
    EarnFrame(amt, shop);
    ProductValid(name);
    var p :| Clipped(p, Product(name), n) && Filled(r, f, p);
    CutName(p, Product(name), n);
    EarnFilled(r, amt, p, shop);
  }

  // ---- burned cashback

  predicate Burned(r: Bytes, amt: Bytes, product: Bytes, shop: Bytes) {
    Plain(" NIM cashback -> burn from ") && Plain(" @ ")
    && r == amt + Text(" NIM cashback -> burn from ") + product + (Text(" @ ") + shop)
  }

  predicate BurnedShort(r: Bytes, amt: Bytes, shop: Bytes) {
    Plain(" NIM burned @ ") && Clipped(r, amt + Text(" NIM burned @ ") + shop, 64)
  }

  predicate IsPurchase(p: Bytes) { Plain("purchase") && p == Text("purchase") }

  lemma {:induction false} BurnWords()
    ensures Plain(" NIM cashback -> burn from ") && Plain(" NIM burned @ ") && Plain(" @ ") && Plain("purchase") && Plain("")
    ensures |" NIM cashback -> burn from "| == 27 && |" @ "| == 3 && |"purchase"| == 8
  {
    BurnIsPlain();
  }

  lemma {:induction false} BurnFrame(amt: Bytes, shop: Bytes)
    requires PlainWords(BURN)
    ensures var f := FrameOf(BURN, amt, shop); Budget(f) == 34 - |amt| - |shop| && |f.standIn| == 8 && IsPurchase(f.standIn)
  {
    BurnWords();
    assert Text("") == [] && [] + amt == amt;
    var f := FrameOf(BURN, amt, shop);
    assert f.prefix == amt + Text(" NIM cashback -> burn from ") && f.short == amt + Text(" NIM burned @ ") + shop;
  }

  lemma {:induction false} BurnFilled(r: Bytes, amt: Bytes, p: Bytes, shop: Bytes)
    requires PlainWords(BURN) && r == FrameOf(BURN, amt, shop).prefix + p + FrameOf(BURN, amt, shop).suffix
    ensures Burned(r, amt, p, shop)
  {
    BurnWords();
    assert Text("") == [] && [] + amt == amt;
  }

  lemma {:induction false} BurnClipped(r: Bytes, amt: Bytes, shop: Bytes)
    requires PlainWords(BURN) && Clipped(r, FrameOf(BURN, amt, shop).short, MAX_MEMO)
    ensures BurnedShort(r, amt, shop)
  {
    BurnWords();
    assert Text("") == [] && [] + amt == amt;
  }

  /** The same for a memo about burned cashback. */
  lemma {:induction false} BurnMemoSays(r: Bytes, amt: Bytes, name: Bytes, shop: Bytes)
    requires PlainWords(BURN) && IsMemo(r, FrameOf(BURN, amt, shop), Product(name))
    ensures |amt| + |shop| >= 34 ==> BurnedShort(r, amt, shop)
    ensures |amt| + |shop| < 34 && 0 < |Product(name)| <= 34 - |amt| - |shop| ==> Burned(r, amt, Product(name), shop)
    ensures Product(name) == [] && |amt| + |shop| <= 26 ==> exists p :: IsPurchase(p) && Burned(r, amt, p, shop)
    ensures Product(name) == [] && 26 < |amt| + |shop| ==> BurnedShort(r, amt, shop)
  {
    var f := FrameOf(BURN, amt, shop);
    BurnFrame(amt, shop);
    if Budget(f) > 0 {
      var p :| Clipped(p, Product(name), Budget(f)) && Filled(r, f, p);
      if p != [] {
        BurnFilled(r, amt, p, shop);
      } else if |f.standIn| <= Budget(f) {
        BurnFilled(r, amt, f.standIn, shop);
      } else {
        BurnClipped(r, amt, shop);
      }
    } else {
      BurnClipped(r, amt, shop);
    }
  }
}
