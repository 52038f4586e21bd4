/** Which invoices the gate accepts, with the alphabet and the ranges written out. */
module InvoiceForm {
  import opened JsText
  import opened Bolt11
  import opened Bech32
  import opened ChecksumField
  import opened InvoiceGate

  predicate Printable(hrp: string) { forall i :: 0 <= i < |hrp| ==> '!' <= hrp[i] <= '~' }

  predicate InAlphabet(data: string) { forall i :: 0 <= i < |data| ==> data[i] in "qpzry9x8gf2tvdw0s3jn54khce6mua7l" }

  lemma {:induction false} PrintableIff(hrp: string)
    ensures Printable(hrp) <==> ValidHrp(hrp)
  {
  }

  lemma {:induction false} AlphabetIff(data: string)
    ensures InAlphabet(data) <==> ValidData(CHARSET, data)
  {
    assert CHARSET == "qpzry9x8gf2tvdw0s3jn54khce6mua7l";
  }

  /** The five-bit words a checksum covers: high bits of the readable part, a zero, its low bits, and the data. */
  function Words(hrp: string, data: string): seq<nat>
    requires InAlphabet(data)
  {
    AlphabetIff(data);
    seq(|hrp|, i requires 0 <= i < |hrp| => hrp[i] as int / 32) + [0] + seq(|hrp|, i requires 0 <= i < |hrp| => hrp[i] as int % 32)
    + seq(|data|, i requires 0 <= i < |data| => IndexOf(CHARSET, data[i]))
  }

  /** The words, after a one, leave the remainder one on division by the generator of BIP-173. */
  predicate DividesToOne(hrp: string, data: string) {
    InAlphabet(data) && Remainder([0, 0, 0, 0, 0, 1] + Words(hrp, data)) == [0, 0, 0, 0, 0, 1]
  }

  lemma {:induction false} WordsAreSymbols(hrp: string, data: string)
    requires Printable(hrp) && InAlphabet(data)
    ensures ValidData(CHARSET, data) && Words(hrp, data) == Prefix(hrp) + DataSymbols(CHARSET, data) && Symbols(Words(hrp, data))
  {
    AlphabetIff(data);
    forall i | 0 <= i < |data| ensures IndexOf(CHARSET, data[i]) < 32 { assert |CHARSET| == 32 by { CharsetProper(); } }
    assert Words(hrp, data) == HighBits(hrp) + [0] + LowBits5(hrp) + DataSymbols(CHARSET, data);
    WordsBelow(hrp, DataSymbols(CHARSET, data));
  }

  lemma {:induction false} WordsBelow(hrp: string, data: seq<nat>)
    requires Printable(hrp) && Symbols(data)
    ensures Symbols(Prefix(hrp) + data)
  {
  }

  /** A string is accepted exactly when it has a readable part of printable characters, a one, at least six characters of the alphabet, and its words divide to one. */
  lemma {:induction false} GateIff(hrp: string, data: string)
    requires '1' !in data
    ensures GateAccepts(hrp + "1" + data) <==> hrp != "" && Printable(hrp) && |data| >= 6 && DividesToOne(hrp, data)
  {
    AcceptsParts(CHARSET, hrp, data);
    PrintableIff(hrp);
    AlphabetIff(data);
    if Printable(hrp) && InAlphabet(data) {
      WordsAreSymbols(hrp, data);
      AcceptedIff(Words(hrp, data));
    }
  }

  /** Without a one, or with none but the first character, a string is refused. */
  lemma {:induction false} NoReadablePart(s: string)
    requires forall i :: 1 <= i < |s| ==> s[i] != '1'
    ensures !GateAccepts(s)
  {
    assert LastIndexOf(s, '1') < 1;
  }

  // ---- capitals

  /** The same ASCII character, or the capital and small form of one letter. */
  predicate SameLetter(c: char, d: char) {
    c as int < 128 && d as int < 128 && (c == d || ('A' <= c <= 'Z' && d as int == c as int + 32) || ('A' <= d <= 'Z' && c as int == d as int + 32))
  }

  predicate SameLetters(s: string, t: string) { |s| == |t| && forall i :: 0 <= i < |s| ==> SameLetter(s[i], t[i]) }

  /** The gate, which reads small letters, does not tell capitals from them. */
  lemma {:induction false} CaseIgnored(s: string, t: string)
    requires SameLetters(s, t)
    ensures LowerText(s) == LowerText(t)
  {
    if s != "" { CaseIgnored(s[1..], t[1..]); }
  }

  predicate Small(s: string) { forall i :: 0 <= i < |s| ==> s[i] as int < 128 && !('A' <= s[i] <= 'Z') }

  lemma {:induction false} SmallStays(s: string)
    requires Small(s)
    ensures LowerText(s) == s
  {
    if s != "" {
      SmallStays(s[1..]);
      assert [s[0]] + s[1..] == s;
    }
  }

  predicate PassesGate(s: string) { GateAccepts(LowerText(s)) }

  lemma {:induction false} PassesInCapitals(s: string, t: string)
    requires SameLetters(s, t) && Small(t) && GateAccepts(t)
    ensures PassesGate(s)
  {
    CaseIgnored(s, t);
    SmallStays(t);
  }

  lemma {:induction false} ExampleLetters()
    ensures SameLetters("A12UEL5L", "a12uel5l") && Small("a12uel5l")
  {
  }

  /** BIP-173's own example passes, as it is printed there. */
  lemma {:induction false} PrintedExample()
    ensures PassesGate("A12UEL5L")
  {
    ExampleLetters();
    KnownString();
    PassesInCapitals("A12UEL5L", "a12uel5l");
  }
}
