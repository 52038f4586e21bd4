/**
 `bolt11ChecksumOk`: from an invoice string to the symbols the checksum runs over,
 and what the checksum guarantees about strings.
 */
module Bolt11 {
  import opened JsText
  import opened BitXor
  import opened Bech32

  /** Thirty-two distinct characters, none of them the separator. The theorems hold for every such alphabet. */
  predicate Proper(abc: string) {
    |abc| == 32 && '1' !in abc && forall i, j :: 0 <= i < j < 32 ==> abc[i] != abc[j]
  }

  function IndexOf(t: string, c: char): (i: int)
    ensures -1 <= i < |t| && (i >= 0 ==> t[i] == c) && (i < 0 <==> c !in t)
    decreases |t|, c
  {
    if t == "" then -1 else if t[0] == c then 0
    else var i := IndexOf(t[1..], c); if i < 0 then -1 else i + 1
  }

  function LastIndexOf(t: string, c: char): (i: int)
    ensures -1 <= i < |t| && (i >= 0 ==> t[i] == c) && forall j :: i < j < |t| ==> t[j] != c
  {
    if t == "" then -1 else if t[|t| - 1] == c then |t| - 1 else LastIndexOf(t[..|t| - 1], c)
  }

  predicate ValidHrp(hrp: string) { forall i :: 0 <= i < |hrp| ==> 33 <= hrp[i] as int <= 126 }
  predicate ValidData(abc: string, data: string) { forall i :: 0 <= i < |data| ==> IndexOf(abc, data[i]) >= 0 }

  function HighBits(hrp: string): seq<nat> { seq(|hrp|, i requires 0 <= i < |hrp| => hrp[i] as int / 32) }
  function LowBits5(hrp: string): seq<nat> { seq(|hrp|, i requires 0 <= i < |hrp| => hrp[i] as int % 32) }

  function DataSymbols(abc: string, data: string): seq<nat>
    requires ValidData(abc, data)
  {
    seq(|data|, i requires 0 <= i < |data| => IndexOf(abc, data[i]))
  }

  function Prefix(hrp: string): seq<nat> { HighBits(hrp) + [0] + LowBits5(hrp) }

  /** The lower-case string has the bech32 shape and its checksum value is 1. */
  predicate Accepts(abc: string, s: string) {
    var sep := LastIndexOf(s, '1');
    && sep >= 1 && |s| - sep - 1 >= 6
    && ValidHrp(s[..sep]) && ValidData(abc, s[sep + 1..])
    && Poly(1, Prefix(s[..sep]) + DataSymbols(abc, s[sep + 1..])) == 1
  }

  method ChecksumOk(abc: string, inv: string) returns (ok: bool)
    ensures ok <==> Accepts(abc, LowerText(inv))
  {
    var s := LowerText(inv);
    var sep := LastIndexOf(s, '1');
    if sep < 1 || |s| - sep - 1 < 6 { return false; }
    var readable, vals := StartChecksum(s[..sep]);
    if !readable { return false; }
    ok := FinishChecksum(abc, vals, s[sep + 1..]);
  }

  /** The loops over the human-readable part: high bits, a zero, low bits. */
  method StartChecksum(hrp: string) returns (readable: bool, vals: seq<nat>)
    ensures readable <==> ValidHrp(hrp)
    ensures readable ==> vals == Prefix(hrp)
  {
    vals := [];
    for i := 0 to |hrp|
      invariant ValidHrp(hrp[..i]) && vals == HighBits(hrp[..i])
    {
      var o := hrp[i] as int;
      if o < 33 || o > 126 {
        assert !ValidHrp(hrp);
        return false, [];
      }
      vals := vals + [o / 32];
      assert hrp[..i + 1] == hrp[..i] + [hrp[i]];
    }
    assert hrp[..|hrp|] == hrp;
    vals := vals + [0];
    ghost var high := vals;
    for i := 0 to |hrp|
      invariant vals == high + LowBits5(hrp[..i])
    {
      vals := vals + [hrp[i] as int % 32];
      assert LowBits5(hrp[..i + 1]) == LowBits5(hrp[..i]) + [hrp[i] as int % 32];
    }
    assert hrp[..|hrp|] == hrp;
    readable := true;
  }

  method FinishChecksum(abc: string, prefix: seq<nat>, data: string) returns (ok: bool)
    ensures ok <==> ValidData(abc, data) && Poly(1, prefix + DataSymbols(abc, data)) == 1
  {
    var vals := prefix;
    for i := 0 to |data|
      invariant ValidData(abc, data[..i]) && vals == prefix + DataSymbols(abc, data[..i])
    {
      var k := IndexOf(abc, data[i]);
      if k < 0 {
        return false;
      }
      vals := vals + [k];
      assert data[..i + 1] == data[..i] + [data[i]];
      assert DataSymbols(abc, data[..i + 1]) == DataSymbols(abc, data[..i]) + [k];
    }
    assert data[..|data|] == data;
    var chk := Polymod(vals);
    ok := chk == 1;
  }

  lemma {:induction false} DataSymbolsFaithful(abc: string, a: string, b: string)
    requires Proper(abc) && ValidData(abc, a) && ValidData(abc, b) && |a| == |b|
    ensures Bech32.Symbols(DataSymbols(abc, a))
    ensures forall i :: 0 <= i < |a| ==> (DataSymbols(abc, a)[i] == DataSymbols(abc, b)[i] <==> a[i] == b[i])
  {
  }

  /** No character of the alphabet is the separator. */
  lemma {:induction false} SeparatorOutside(hrp: string, data: string)
    requires '1' !in data
    ensures LastIndexOf(hrp + "1" + data, '1') == |hrp|
  {
    var s, n := hrp + "1" + data, |hrp|;
    assert s[n] == '1' && s[n + 1..] == data;
  }

  lemma {:induction false} AcceptsParts(abc: string, hrp: string, data: string)
    requires '1' !in data
    ensures Accepts(abc, hrp + "1" + data) <==>
      && |hrp| >= 1 && |data| >= 6 && ValidHrp(hrp) && ValidData(abc, data)
      && Poly(1, Prefix(hrp) + DataSymbols(abc, data)) == 1
  {
    var s := hrp + "1" + data;
    SeparatorOutside(hrp, data);
    assert s[..|hrp|] == hrp && s[|hrp| + 1..] == data;
  }

  lemma {:induction false} BurstInData(abc: string, hrp: string, data: string, corrupt: string, i: nat)
    requires Proper(abc) && ValidHrp(hrp) && ValidData(abc, data) && ValidData(abc, corrupt)
    requires |data| == |corrupt| && data != corrupt
    requires forall k :: 0 <= k < |data| && !(i <= k < i + 6) ==> data[k] == corrupt[k]
    ensures Poly(1, Prefix(hrp) + DataSymbols(abc, data)) != Poly(1, Prefix(hrp) + DataSymbols(abc, corrupt))
  {
    var p, u, v := Prefix(hrp), DataSymbols(abc, data), DataSymbols(abc, corrupt);
    DataSymbolsFaithful(abc, data, corrupt);
    DataSymbolsFaithful(abc, corrupt, data);
    assert u != v by {
      var k :| 0 <= k < |data| && data[k] != corrupt[k];
      assert u[k] != v[k];
    }
    PolyConcat(1, p, u);
    PolyConcat(1, p, v);
    var k :| 0 <= k < |u| && u[k] != v[k];
    BurstDetected(Poly(1, p), u, v, i);
  }

  /**
   Corrupting an accepted invoice inside any six consecutive data characters makes
   it rejected, as long as the corruption does not plant a new separator.
   */
  lemma {:induction false} BurstRejected(abc: string, hrp: string, data: string, corrupt: string, i: nat)
    requires Proper(abc) && Accepts(abc, hrp + "1" + data) && '1' !in data && '1' !in corrupt
    requires |data| == |corrupt| && data != corrupt
    requires forall k :: 0 <= k < |data| && !(i <= k < i + 6) ==> data[k] == corrupt[k]
    ensures !Accepts(abc, hrp + "1" + corrupt)
  {
    AcceptsParts(abc, hrp, data);
    AcceptsParts(abc, hrp, corrupt);
    if ValidData(abc, corrupt) {
      BurstInData(abc, hrp, data, corrupt, i);
    }
  }

  /** Every accepted string has the parts that `BurstRejected` speaks about. */
  lemma {:induction false} AcceptedSplits(abc: string, s: string)
    requires Accepts(abc, s)
    ensures var sep := LastIndexOf(s, '1'); s == s[..sep] + "1" + s[sep + 1..] && '1' !in s[sep + 1..]
  {
  }

  // ---- every human-readable part and payload has exactly one accepted tail

  /** The k base-32 digits of n, most significant first. */
  function Digits32(n: nat, k: nat): (w: seq<nat>)
    ensures |w| == k
  {
    if k == 0 then [] else Digits32(n / 32, k - 1) + [n % 32]
  }

  lemma {:induction false} Base32Snoc(c: nat, w: seq<nat>, v: nat)
    ensures Base32(c, w + [v]) == 32 * Base32(c, w) + v
    decreases w
  {
    if w == [] {
      assert w + [v] == [v];
    } else {
      Base32Snoc(32 * c + w[0], w[1..], v);
      assert (w + [v])[1..] == w[1..] + [v];
    }
  }

  lemma {:induction false} DigitsRead(n: nat, k: nat)
    requires n < Power32(k)
    ensures Base32(0, Digits32(n, k)) == n && Bech32.Symbols(Digits32(n, k))
    decreases k
  {
    if k > 0 {
      DigitsRead(n / 32, k - 1);
      Base32Snoc(0, Digits32(n / 32, k - 1), n % 32);
    }
  }

  lemma {:induction false} DigitsUnique(v: seq<nat>, w: seq<nat>)
    requires |v| == |w| && Bech32.Symbols(v) && Bech32.Symbols(w) && Base32(0, v) == Base32(0, w)
    ensures v == w
  {
    if v != [] {
      var m := |v| - 1;
      assert v == v[..m] + [v[m]] && w == w[..m] + [w[m]];
      Base32Snoc(0, v[..m], v[m]);
      Base32Snoc(0, w[..m], w[m]);
      DigitsUnique(v[..m], w[..m]);
    }
  }

  /** A tail is accepted exactly when its numeral cancels what precedes it. */
  lemma {:induction false} TailValue(c: nat, t: seq<nat>)
    requires |t| == 6 && Bech32.Symbols(t)
    ensures Poly(c, t) == 1 <==> Base32(0, t) == Xor(Poly(c, [0, 0, 0, 0, 0, 0]), 1)
  {
    var z: seq<nat> := [0, 0, 0, 0, 0, 0];
    var p, b := Poly(c, z), Base32(0, t);
    assert XorSeq(z, t) == t by { forall k | 0 <= k < 6 { Zero(t[k]); } }
    Zero(c);
    PolyLinear(c, 0, z, t);
    Unreduced(0, t, 0);
    assert Poly(c, t) == Xor(p, b);
    XorSolves(p, b, 1);
  }

  lemma {:induction false} XorSolves(p: nat, b: nat, r: nat)
    ensures Xor(p, b) == r <==> b == Xor(p, r)
  {
    Associates(p, p, b);
    Associates(p, p, r);
    Cancels(p);
    Zero(b);
    Zero(r);
  }

  function Encode(abc: string, w: seq<nat>): string
    requires Proper(abc) && Bech32.Symbols(w)
  {
    seq(|w|, i requires 0 <= i < |w| => abc[w[i]])
  }

  lemma {:induction false} EncodeReads(abc: string, w: seq<nat>)
    requires Proper(abc) && Bech32.Symbols(w)
    ensures ValidData(abc, Encode(abc, w)) && DataSymbols(abc, Encode(abc, w)) == w
  {
    forall i | 0 <= i < |w| ensures IndexOf(abc, Encode(abc, w)[i]) == w[i] { }
  }

  ghost predicate IsTail(abc: string, hrp: string, payload: string, t: string) {
    |t| == 6 && Accepts(abc, hrp + "1" + (payload + t))
  }

  /** The checksum state after the human-readable part and the payload. */
  function StateBefore(abc: string, hrp: string, payload: string): nat
    requires ValidData(abc, payload)
  {
    Poly(1, Prefix(hrp) + DataSymbols(abc, payload))
  }

  ghost function TargetNumeral(abc: string, hrp: string, payload: string): nat
    requires ValidData(abc, payload)
  {
    Xor(Poly(StateBefore(abc, hrp, payload), [0, 0, 0, 0, 0, 0]), 1)
  }

  lemma {:induction false} DataConcat(abc: string, a: string, b: string)
    ensures ValidData(abc, a + b) <==> ValidData(abc, a) && ValidData(abc, b)
    ensures ValidData(abc, a) && ValidData(abc, b) ==> DataSymbols(abc, a + b) == DataSymbols(abc, a) + DataSymbols(abc, b)
  {
    ValidConcat(abc, a, b);
    if ValidData(abc, a) && ValidData(abc, b) {
      assert DataSymbols(abc, a + b) == DataSymbols(abc, a) + DataSymbols(abc, b);
    }
  }

  lemma {:induction false} ValidConcat(abc: string, a: string, b: string)
    ensures ValidData(abc, a + b) <==> ValidData(abc, a) && ValidData(abc, b)
  {
    var s := a + b;
    assert forall i :: 0 <= i < |a| ==> s[i] == a[i];
    assert forall i :: 0 <= i < |b| ==> s[|a| + i] == b[i];
    if ValidData(abc, s) {
      forall i | 0 <= i < |a| ensures IndexOf(abc, a[i]) >= 0 { assert IndexOf(abc, s[i]) >= 0; }
      forall i | 0 <= i < |b| ensures IndexOf(abc, b[i]) >= 0 { assert IndexOf(abc, s[|a| + i]) >= 0; }
    }
  }

  lemma {:induction false} PolyOfData(abc: string, hrp: string, payload: string, t: string)
    requires ValidData(abc, payload) && ValidData(abc, t)
    ensures ValidData(abc, payload + t)
    ensures Poly(1, Prefix(hrp) + DataSymbols(abc, payload + t)) == Poly(StateBefore(abc, hrp, payload), DataSymbols(abc, t))
  {
    DataConcat(abc, payload, t);
    var p := Prefix(hrp) + DataSymbols(abc, payload);
    assert Prefix(hrp) + DataSymbols(abc, payload + t) == p + DataSymbols(abc, t);
    PolyConcat(1, p, DataSymbols(abc, t));
  }

  lemma {:induction false} TailNumeral(abc: string, hrp: string, payload: string, t: string)
    requires Proper(abc) && hrp != "" && ValidHrp(hrp) && ValidData(abc, payload) && |t| == 6 && '1' !in t
    ensures IsTail(abc, hrp, payload, t) <==>
      ValidData(abc, t) && Base32(0, DataSymbols(abc, t)) == TargetNumeral(abc, hrp, payload)
  {
    AcceptsParts(abc, hrp, payload + t);
    DataConcat(abc, payload, t);
    if ValidData(abc, t) {
      PolyOfData(abc, hrp, payload, t);
      DataSymbolsFaithful(abc, t, t);
      TailValue(StateBefore(abc, hrp, payload), DataSymbols(abc, t));
    }
  }

  /** A separator inside the last six characters leaves too little data. */
  lemma {:induction false} TailHasNoSeparator(abc: string, hrp: string, payload: string, t: string)
    requires IsTail(abc, hrp, payload, t)
    ensures '1' !in t
  {
    assert hrp + "1" + payload + t == hrp + "1" + (payload + t);
    EndHasNoSeparator(hrp + "1" + payload, t);
  }

  lemma {:induction false} EndHasNoSeparator(a: string, t: string)
    requires |t| == 6 && |a + t| - LastIndexOf(a + t, '1') - 1 >= 6
    ensures '1' !in t
  {
    forall i | 0 <= i < 6 ensures t[i] != '1' {
      assert (a + t)[|a| + i] == t[i];
    }
  }

  /** Exactly one of the six-character tails makes a given prefix and payload acceptable. */
  lemma {:induction false} ExactlyOneTail(abc: string, hrp: string, payload: string)
    requires Proper(abc) && hrp != "" && ValidHrp(hrp) && ValidData(abc, payload)
    ensures exists t :: IsTail(abc, hrp, payload, t)
    ensures forall t, u :: IsTail(abc, hrp, payload, t) && IsTail(abc, hrp, payload, u) ==> t == u
  {
    TailExists(abc, hrp, payload);
    forall t, u | IsTail(abc, hrp, payload, t) && IsTail(abc, hrp, payload, u) ensures t == u {
      TailHasNoSeparator(abc, hrp, payload, t);
      TailHasNoSeparator(abc, hrp, payload, u);
      TailNumeral(abc, hrp, payload, t);
      TailNumeral(abc, hrp, payload, u);
      DataSymbolsFaithful(abc, t, u);
      DataSymbolsFaithful(abc, u, t);
      DigitsUnique(DataSymbols(abc, t), DataSymbols(abc, u));
      forall i | 0 <= i < 6 ensures t[i] == u[i] { assert DataSymbols(abc, t)[i] == DataSymbols(abc, u)[i]; }
    }
  }

  lemma {:induction false} TailExists(abc: string, hrp: string, payload: string)
    requires Proper(abc) && hrp != "" && ValidHrp(hrp) && ValidData(abc, payload)
    ensures exists t :: IsTail(abc, hrp, payload, t)
  {
    var n := TargetNumeral(abc, hrp, payload);
    TargetFits(abc, hrp, payload);
    var w := Digits32(n, 6);
    DigitsRead(n, 6);
    EncodeReads(abc, w);
    TailNumeral(abc, hrp, payload, Encode(abc, w));
    assert IsTail(abc, hrp, payload, Encode(abc, w));
  }

  lemma {:induction false} TargetFits(abc: string, hrp: string, payload: string)
    requires Proper(abc) && ValidHrp(hrp) && ValidData(abc, payload)
    ensures TargetNumeral(abc, hrp, payload) < Power32(6)
  {
    var p := Prefix(hrp) + DataSymbols(abc, payload);
    DataSymbolsFaithful(abc, payload, payload);
    assert Bech32.Symbols(p);
    SixZerosFit(p);
  }

  lemma {:induction false} SixZerosFit(p: seq<nat>)
    requires Bech32.Symbols(p)
    ensures Xor(Poly(Poly(1, p), [0, 0, 0, 0, 0, 0]), 1) < Power32(6)
  {
    var z: seq<nat> := [0, 0, 0, 0, 0, 0];
    PolyBelow(1, p);
    PolyBelow(Poly(1, p), z);
    Below30(Poly(Poly(1, p), z), 1);
    Power32Six();
  }
}
