/** The fresh decision: when the call that dropped the key of its scope goes out under a new one. */
module CheckoutFresh {
  import opened Common
  import opened Utf16
  import opened IntentStore
  import opened CheckoutProtocol
  import opened CheckoutOneTab

  /** The event puts an entry where the scope had none. */
  predicate Plants(w: World, e: Event, s: Text) { s !in w.storage && s in Step(w, e).storage }

  /** Only a load or an answered request plants, and either always does. */
  lemma {:induction false} PlantCauses(w: World, e: Event, s: Text)
    ensures Plants(w, e, s) <==>
      && s !in w.storage
      && ((e.Load? && e.slot.scope == s && (At(w, e.slot) == Some(Loading) || At(w, e.slot) == Some(Reloading)))
          || (e.Reply? && e.slot.scope == s && e.slot in w.running && w.running[e.slot].Posting?))
  {
  }

  lemma {:induction false} RunSnoc(w: World, es: seq<Event>, n: nat)
    requires n < |es|
    ensures Run(w, es[..n + 1]) == Step(Run(w, es[..n]), es[n])
  {
    assert es[..n + 1] == es[..n] + [es[n]];
    RunConcat(w, es[..n], [es[n]]);
    Run1(Run(w, es[..n]), es[n]);
  }

  predicate Stored(w: World, es: seq<Event>, n: nat, s: Text)
    requires n <= |es|
  {
    s in Run(w, es[..n]).storage
  }

  /** Event i plants an entry that is never missing up to n. */
  predicate PlantsForGood(w: World, es: seq<Event>, i: nat, n: nat, s: Text)
    requires i < n <= |es|
  {
    Plants(Run(w, es[..i]), es[i], s) && forall j :: i < j <= n ==> Stored(w, es, j, s)
  }

  /** The event that planted an entry which was missing at first. */
  lemma {:induction false} FindPlant(w: World, es: seq<Event>, n: nat, s: Text) returns (i: nat)
    requires n <= |es| && s !in w.storage && Stored(w, es, n, s)
    ensures i < n && PlantsForGood(w, es, i, n, s)
    decreases n
  {
    assert es[..0] == [];
    RunSnoc(w, es, n - 1);
    if Stored(w, es, n - 1, s) {
      i := FindPlant(w, es, n - 1, s);
    } else {
      i := n - 1;
    }
  }

  /** An entry that was missing at first is there at the end exactly when one was planted and stayed. */
  lemma {:induction false} StoredIff(w: World, es: seq<Event>, s: Text)
    requires s !in w.storage
    ensures Stored(w, es, |es|, s) <==> exists i :: 0 <= i < |es| && PlantsForGood(w, es, i, |es|, s)
  {
    if Stored(w, es, |es|, s) {
      var i := FindPlant(w, es, |es|, s);
    }
  }

  lemma {:induction false} KeysWrittenRun(w: World, es: seq<Event>)
    requires KeysWritten(w)
    ensures KeysWritten(Run(w, es))
    decreases es
  {
    if es != [] {
      KeysWrittenStep(w, es[0]);
      KeysWrittenRun(Step(w, es[0]), es[1..]);
    }
  }

  /** The world after a call that waited through the events loads its key. */
  function Loads(w: World, es: seq<Event>, slot: Slot, proposed: Key): World { Run(w, es + [Load(slot, proposed)]) }

  /**
   A call that dropped the entry and then loads goes out under the key minted for it exactly
   when no other call planted an entry in between that stayed.
   */
  lemma {:induction false} FreshKeyIff(w: World, es: seq<Event>, slot: Slot, proposed: Key)
    requires KeysWritten(w) && slot.scope !in w.storage
    requires At(Run(w, es), slot) == Some(Loading) && (slot.scope, proposed) !in Run(w, es).written
    ensures At(Loads(w, es, slot, proposed), slot) == Some(Sending(Intent(proposed, None), Epoch(Run(w, es), slot.scope)))
      <==> !exists i :: 0 <= i < |es| && PlantsForGood(w, es, i, |es|, slot.scope)
  {
    var w' := Run(w, es);
    assert es[..|es|] == es;
    StoredIff(w, es, slot.scope);
    KeysWrittenRun(w, es);
    RunConcat(w, es, [Load(slot, proposed)]);
    Run1(w', Load(slot, proposed));
    LoadsOwnIff(w', slot, proposed);
  }

  lemma {:induction false} LoadsOwnIff(w: World, slot: Slot, proposed: Key)
    requires KeysWritten(w) && (slot.scope, proposed) !in w.written
    ensures At(DoLoad(w, slot, proposed, true), slot) == Some(Sending(Intent(proposed, None), Epoch(w, slot.scope)))
      <==> slot.scope !in w.storage
  {
    if slot.scope in w.storage { assert w.storage[slot.scope].key != proposed; }
  }

  // ---- one tab

  /** In one tab nothing plants an entry while the scope's only call is waiting to load. */
  lemma {:induction false} NothingPlants(w: World, es: seq<Event>, slot: Slot, tab: nat, n: nat)
    requires OneTab(w, tab) && AllInTab(es, tab) && slot.scope !in w.storage && n <= |es|
    requires forall i :: 0 <= i <= |es| ==> At(Run(w, es[..i]), slot) == Some(Loading)
    ensures OneTab(Run(w, es[..n]), tab) && !Stored(w, es, n, slot.scope)
    decreases n
  {
    if n == 0 {
      assert es[..0] == [];
    } else {
      NothingPlants(w, es, slot, tab, n - 1);
      RunSnoc(w, es, n - 1);
      var before, e := Run(w, es[..n - 1]), es[n - 1];
      OneTabStep(before, e, tab);
      PlantCauses(before, e, slot.scope);
      assert At(Run(w, es[..n - 1]), slot) == At(Run(w, es[..n]), slot) == Some(Loading);
    }
  }

  /** So one tab's fresh decision always goes out under its new key. */
  lemma {:induction false} OneTabFreshIsNew(w: World, es: seq<Event>, slot: Slot, proposed: Key, tab: nat)
    requires OneTab(w, tab) && AllInTab(es, tab) && slot.scope !in w.storage
    requires forall i :: 0 <= i <= |es| ==> At(Run(w, es[..i]), slot) == Some(Loading)
    ensures At(Loads(w, es, slot, proposed), slot) == Some(Sending(Intent(proposed, None), Epoch(Run(w, es), slot.scope)))
  {
    NothingPlants(w, es, slot, tab, |es|);
    assert es[..|es|] == es;
    RunConcat(w, es, [Load(slot, proposed)]);
    Run1(Run(w, es), Load(slot, proposed));
  }

  // ---- a fresh decision that goes out under the old key

  function Decides(): seq<Event> { [Call(B, true), Forget(B), Reply(A, "Q1")] }

  function Replays(): seq<Event> { [Load(B, K2), Verdict(B, false), Send(B)] }

  /** Tab 2 has dropped the key, and the answer to tab 1's request has put it back. */
  function PutBack(): World {
    World(INITIAL, map[B := Loading], {(CART, K1)}, {Sent(CART, 0, K1)}, map[CART := 1], map[CART := 1], {})
  }

  lemma {:induction false} PutsBack()
    ensures Run(Retrying(), Decides()) == PutBack()
  {
    var w := Retrying();
    var w1 := Step(w, Call(B, true));
    assert w1 == w.(running := map[A := Posting(Intent(K1, Some("Q1")), 0), B := Forgetting]);
    var w2 := Step(w1, Forget(B));
    assert w2.storage == map[] && w2.removed == map[CART := 1] && w2.forgotten == map[CART := 1];
    assert w2.running == map[A := Posting(Intent(K1, Some("Q1")), 0), B := Loading];
    var w3 := Step(w2, Reply(A, "Q1"));
    assert w3.running == map[B := Loading] && w3.storage == INITIAL;
    assert Decides() == [Call(B, true), Forget(B)] + [Reply(A, "Q1")];
    RunConcat(w, [Call(B, true), Forget(B)], [Reply(A, "Q1")]);
    Run2(w, Call(B, true), Forget(B));
    Run1(w2, Reply(A, "Q1"));
  }

  lemma {:induction false} SendsOldKey()
    ensures Run(PutBack(), Replays()).sent == {Sent(CART, 0, K1), Sent(CART, 1, K1)}
    ensures Run(PutBack(), Replays()).forgotten == map[CART := 1]
  {
    var w := PutBack();
    var i := Intent(K1, Some("Q1"));
    var w1 := Step(w, Load(B, K2));
    assert w1.running == map[B := Looking(i, 1)] && w1.sent == w.sent && w1.forgotten == w.forgotten;
    var w2 := Step(w1, Verdict(B, false));
    assert w2 == Goto(w1, B, Sending(i, 1));
    assert Replays() == [Load(B, K2), Verdict(B, false)] + [Send(B)];
    RunConcat(w, [Load(B, K2), Verdict(B, false)], [Send(B)]);
    Run2(w, Load(B, K2), Verdict(B, false));
    Run1(w2, Send(B));
  }

  /** Tab 2 asked for a new order, and its request carries the key of the order it has. */
  lemma {:induction false} FreshReplays()
    ensures var w := Run(Run(Retrying(), Decides()), Replays());
      w.forgotten == map[CART := 1] && Sent(CART, 1, K1) in w.sent && SentKeys(w, CART) == {K1}
    ensures Run(Start(INITIAL), CheckoutProtocol.Checkout(A, K2) + [Verdict(A, false), Send(A)]) == Retrying()
  {
    RetryStarts();
    PutsBack();
    SendsOldKey();
    var w := Run(PutBack(), Replays());
    assert forall x :: x in w.sent <==> x == Sent(CART, 0, K1) || x == Sent(CART, 1, K1);
    assert Sent(CART, 0, K1) in w.sent;
  }
}
