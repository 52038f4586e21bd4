/** Which payment records storage gives back, which are taken in, and what a second one adds to the first. */
module PaymentRecords {
  import opened Common
  import opened PaymentQueue
  import opened PaymentRuns

  // ---- what storage gives back

  predicate Hex64(d: string) {
    |d| == 64 && forall i :: 0 <= i < 64 ==> d[i] in "0123456789abcdefABCDEF"
  }

  lemma {:induction false} HexDigit(c: char)
    ensures c in "0123456789abcdefABCDEF" <==> IsHex(c)
  {
    var s := "0123456789abcdefABCDEF";
    if '0' <= c <= '9' { assert s[c as int - '0' as int] == c; }
    if 'a' <= c <= 'f' { assert s[10 + (c as int - 'a' as int)] == c; }
    if 'A' <= c <= 'F' { assert s[16 + (c as int - 'A' as int)] == c; }
  }

  lemma {:induction false} Hex64Iff(d: string)
    ensures Hex64(d) <==> HexDigits(d)
  {
    if |d| == 64 {
      forall i | 0 <= i < 64 ensures d[i] in "0123456789abcdefABCDEF" <==> IsHex(d[i]) { HexDigit(d[i]); }
    }
  }

  predicate Prefixed(h: string, d: string) { h == d || h == "0x" + d || h == "0X" + d }

  lemma {:induction false} PrefixedIff(h: string, d: string)
    requires HexDigits(d)
    ensures Prefixed(h, d) <==> d == if |h| >= 2 && h[0] == '0' && (h[1] == 'x' || h[1] == 'X') then h[2..] else h
  {
    assert IsHex(d[1]);
    var lower, upper := "0x" + d, "0X" + d;
    assert lower[0] == '0' && lower[1] == 'x' && lower[2..] == d;
    assert upper[0] == '0' && upper[1] == 'X' && upper[2..] == d;
    if |h| >= 2 && h[0] == '0' && (h[1] == 'x' || h[1] == 'X') {
      assert h == [h[0], h[1]] + h[2..];
      assert lower == ['0', 'x'] + d && upper == ['0', 'X'] + d;
    }
  }

  predicate Spells(h: string, d: string) { Hex64(d) && Prefixed(h, d) }

  /** A hash is sixty-four hexadecimal digits of either case, alone or after 0x. */
  lemma {:induction false} HashIff(h: string)
    ensures IsHash(h) <==> exists d :: Spells(h, d)
  {
    if IsHash(h) {
      var d := if |h| >= 2 && h[0] == '0' && (h[1] == 'x' || h[1] == 'X') then h[2..] else h;
      Hex64Iff(d);
      PrefixedIff(h, d);
      assert Spells(h, d);
    }
    if d :| Spells(h, d) {
      Hex64Iff(d);
      PrefixedIff(h, d);
    }
  }

  /** Storage gives a tab the record under a key exactly when the record says it belongs there and its identifiers have their forms. */
  lemma {:induction false} GivenBackIff(stored: Entries, k: Key)
    ensures Seen(map[], stored, k).Some? <==>
      k in stored && stored[k].owner == k.owner && stored[k].id == k.id
      && (stored[k].hash == "" || IsHash(stored[k].hash)) && |stored[k].swapId| <= 256
  {
  }

  /** A tab shows a readable stored record whatever it remembers itself, and otherwise its own. */
  lemma {:induction false} StorageFirst(memory: Entries, stored: Entries, k: Key)
    ensures Seen(map[], stored, k).Some? ==> Seen(memory, stored, k) == Seen(map[], stored, k)
    ensures Seen(map[], stored, k).None? ==>
      Seen(memory, stored, k) == if k in memory && memory[k].owner == k.owner then Some(memory[k]) else None
  {
  }

  // ---- what is taken in

  /** An owner, an order, and at least one identifier. */
  predicate Complete(v: Submission) { v.owner != "" && v.id != "" && (v.hash != "" || v.swapId != "") }

  /** An incomplete record changes nothing; a complete first record of an order is shown as it came. */
  lemma {:induction false} FirstRecord(w: World, t: nat, v: Submission)
    requires Sound(w, KeyOf(v)) && WellFormed(v) && Seen(w.memory(t), w.stored, KeyOf(v)).None?
    ensures !Complete(v) ==> Step(w, Remember(t, v)) == w
    ensures Complete(v) ==>
      Seen(Step(w, Remember(t, v)).memory(t), Step(w, Remember(t, v)).stored, KeyOf(v)) == Some(v)
  {
  }

  /** Two identifiers fit unless both are there and differ; the one that is there counts. */
  predicate Fits(a: string, b: string) { a == "" || b == "" || a == b }

  predicate Joined(r: string, a: string, b: string) { (a != "" ==> r == a) && (b != "" ==> r == b) && (a == "" && b == "" ==> r == "") }

  /** A later record that fits adds what was missing and keeps the first time; one that does not changes nothing. */
  lemma {:induction false} LaterRecord(w: World, t: nat, v: Submission, p: Submission)
    requires Sound(w, KeyOf(v)) && WellFormed(v) && Complete(v) && Seen(w.memory(t), w.stored, KeyOf(v)) == Some(p)
    ensures !(Fits(p.hash, v.hash) && Fits(p.swapId, v.swapId)) ==> Step(w, Remember(t, v)) == w
    ensures Fits(p.hash, v.hash) && Fits(p.swapId, v.swapId) ==>
      exists r :: Seen(Step(w, Remember(t, v)).memory(t), Step(w, Remember(t, v)).stored, KeyOf(v)) == Some(r)
        && Adds(r, p, v)
  {
    SeenSound(w, t, KeyOf(v));
    if Fits(p.hash, v.hash) && Fits(p.swapId, v.swapId) {
      assert Adds(Merged(w.memory(t), w.stored, v), p, v);
    }
  }

  predicate Adds(r: Submission, p: Submission, v: Submission) {
    && r.owner == v.owner && r.id == v.id && Joined(r.hash, p.hash, v.hash) && Joined(r.swapId, p.swapId, v.swapId)
    && r.recordedAt == (if p.recordedAt == 0 then v.recordedAt else p.recordedAt)
  }

  // ---- recorded, sent, acknowledged

  /** The tab that took a record in shows it, readable in storage or not. */
  lemma {:induction false} OwnRecordShown(w: World, t: nat, v: Submission)
    requires Verdict(w.memory(t), w.stored, v).Recorded?
    ensures Seen(Step(w, Remember(t, v)).memory(t), Step(w, Remember(t, v)).stored, KeyOf(v)) == Some(Merged(w.memory(t), w.stored, v))
    ensures forall u: nat :: u != t ==> Step(w, Remember(t, v)).memory(u) == w.memory(u)
  {
  }

  lemma {:induction false} Without(memory: Entries, stored: Entries, k: Key, l: Key)
    ensures Seen(memory - {k}, stored - {k}, l) == if l == k then None else Seen(memory, stored, l)
  {
    if l != k {
      assert (l in memory <==> l in memory - {k}) && (l in stored <==> l in stored - {k});
    }
  }

  predicate Acknowledged(w: World, w': World, t: nat, k: Key) {
    w'.stored == w.stored - {k} && w'.memory(t) == w.memory(t) - {k}
  }

  /** A record that is sent as shown and acknowledged is taken out of its tab and of storage; the other tabs keep what they remember. */
  lemma {:induction false} SentAndAcknowledged(w: World, t: nat, k: Key, c: Submission)
    requires Seen(w.memory(t), w.stored, k) == Some(c) && KeyOf(c) == k
    ensures Acknowledged(w, Step(Step(w, Send(t, k)), Ack(t, c)), t, k)
    ensures forall u: nat :: u != t ==> Step(Step(w, Send(t, k)), Ack(t, c)).memory(u) == w.memory(u)
  {
    assert Step(w, Send(t, k)) == w.(sent := w.sent + {c});
  }

  /** Then its tab no longer shows it, and shows every other order as before. */
  lemma {:induction false} GoneOnceAcknowledged(w: World, w': World, t: nat, k: Key, l: Key)
    requires Acknowledged(w, w', t, k)
    ensures Seen(w'.memory(t), w'.stored, l) == if l == k then None else Seen(w.memory(t), w.stored, l)
  {
    Without(w.memory(t), w.stored, k, l);
  }

  /** What was never sent is not acknowledged. */
  lemma {:induction false} UnsentStays(w: World, t: nat, v: Submission)
    requires v !in w.sent
    ensures Step(w, Ack(t, v)) == w
  {
  }
}
