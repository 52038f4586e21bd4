/** A known address, the staking pool's, is valid as the gate computes it. */
module AddressSample {
  import opened JsText
  import opened NimiqAddress
  import opened AddressWriting

  /** Four characters take one remainder to another. */
  predicate Takes(r: int, s: string, t: int) { Fold(r, s) == t }

  lemma {:induction false} FoldFour(r: int, s: string, a: int, b: int, c: int, d: int)
    requires |s| == 4 && Feed(r, s[0]) == a && Feed(a, s[1]) == b && Feed(b, s[2]) == c && Feed(c, s[3]) == d
    ensures Takes(r, s, d)
  {
    assert s[1..][0] == s[1] && s[2..][0] == s[2] && s[3..][0] == s[3] && s[4..] == "";
    assert s[1..][1..] == s[2..] && s[2..][1..] == s[3..] && s[3..][1..] == s[4..];
    assert Fold(c, s[3..]) == d;
    assert Fold(b, s[2..]) == d;
    assert Fold(a, s[1..]) == d;
  }

  lemma {:induction false} Group1()
    ensures Takes(0, "N8MB", 85)
  {
    FoldFour(0, "N8MB", 23, 44, 57, 85);
  }

  lemma {:induction false} Group2()
    ensures Takes(85, "XYCR", 94)
  {
    FoldFour(85, "XYCR", 94, 25, 87, 94);
  }

  lemma {:induction false} Group3()
    ensures Takes(94, "XBUP", 86)
  {
    FoldFour(94, "XBUP", 24, 83, 85, 86);
  }

  lemma {:induction false} Group4()
    ensures Takes(86, "404C", 40)
  {
    FoldFour(86, "404C", 88, 7, 74, 40);
  }

  lemma {:induction false} Group5()
    ensures Takes(40, "KXKK", 83)
  {
    FoldFour(40, "KXKK", 43, 65, 21, 83);
  }

  lemma {:induction false} Group6()
    ensures Takes(83, "L49M", 77)
  {
    FoldFour(83, "L49M", 76, 85, 83, 77);
  }

  lemma {:induction false} Group7()
    ensures Takes(77, "A7BT", 87)
  {
    FoldFour(77, "A7BT", 47, 89, 84, 87);
  }

  lemma {:induction false} Group8()
    ensures Takes(87, "F082", 20)
  {
    FoldFour(87, "F082", 82, 44, 60, 20);
  }

  lemma {:induction false} Group9()
    ensures Takes(20, "NQ00", 49)
  {
    FoldFour(20, "NQ00", 83, 81, 34, 49);
  }

  lemma {:induction false} Then(r: int, s: string, m: int, t: string, e: int)
    requires Takes(r, s, m) && Takes(m, t, e)
    ensures Takes(r, s + t, e)
  {
    FoldConcat(r, s, t);
  }

  /** The body of the address and the header that stands for its check. */
  predicate IsBody(body: string) {
    body == "N8MB" + "XYCR" + "XBUP" + "404C" + "KXKK" + "L49M" + "A7BT" + "F082"
  }

  lemma {:induction false} FirstHalf(a: string)
    requires a == "N8MB" + "XYCR" + "XBUP" + "404C"
    ensures Takes(0, a, 40)
  {
    Group1();
    Group2();
    Group3();
    Group4();
    Then(0, "N8MB", 85, "XYCR", 94);
    Then(0, "N8MB" + "XYCR", 94, "XBUP", 86);
    Then(0, "N8MB" + "XYCR" + "XBUP", 86, "404C", 40);
  }

  lemma {:induction false} SecondHalf(b: string)
    requires b == "KXKK" + "L49M" + "A7BT" + "F082"
    ensures Takes(40, b, 20)
  {
    Group5();
    Group6();
    Group7();
    Group8();
    Then(40, "KXKK", 83, "L49M", 77);
    Then(40, "KXKK" + "L49M", 77, "A7BT", 87);
    Then(40, "KXKK" + "L49M" + "A7BT", 87, "F082", 20);
  }

  lemma {:induction false} Remainder49(body: string)
    requires IsBody(body)
    ensures BodyRemainder(body) == 49
  {
    var a, b := "N8MB" + "XYCR" + "XBUP" + "404C", "KXKK" + "L49M" + "A7BT" + "F082";
    FirstHalf(a);
    SecondHalf(b);
    Group9();
    Then(0, a, 40, b, 20);
    Then(0, a + b, 20, "NQ00", 49);
    assert body == a + b;
  }

  predicate IsPool(a: string) {
    a == "NQ" + "49" + ("N8MB" + "XYCR" + "XBUP" + "404C" + "KXKK" + "L49M" + "A7BT" + "F082")
  }

  lemma {:induction false} PoolText()
    ensures IsPool("NQ49N8MBXYCRXBUP404CKXKKL49MA7BTF082")
  {
  }

  lemma {:induction false} PoolBody(body: string)
    requires IsBody(body)
    ensures |body| == 32 && AlphaNumeric(body)
  {
  }

  lemma {:induction false} PoolValid(a: string)
    requires IsPool(a)
    ensures IsValid(a)
  {
    var body := "N8MB" + "XYCR" + "XBUP" + "404C" + "KXKK" + "L49M" + "A7BT" + "F082";
    PoolBody(body);
    AddressParts("49", body);
    Remainder49(body);
    ValidMeans(a);
    assert TwoDigits(49) == "49";
  }

  predicate ReadsAs(text: string, a: string) { Compact(text) == a && IsValid(a) }

  /** The address is valid, however it is written. */
  lemma {:induction false} PoolAddress()
    ensures IsValid("NQ49N8MBXYCRXBUP404CKXKKL49MA7BTF082")
    ensures ReadsAs(InFours(Lower("NQ49N8MBXYCRXBUP404CKXKKL49MA7BTF082")), "NQ49N8MBXYCRXBUP404CKXKKL49MA7BTF082")
  {
    PoolText();
    PoolValid("NQ49N8MBXYCRXBUP404CKXKKL49MA7BTF082");
    WrittenAsUsual("NQ49N8MBXYCRXBUP404CKXKKL49MA7BTF082");
  }
}
