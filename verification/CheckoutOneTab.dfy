/** One tab alone: a reply there never meets another key, so the bounds on keys hold without a condition on replies. */
module CheckoutOneTab {
  import opened Common
  import opened Utf16
  import opened IntentStore
  import opened CheckoutProtocol

  /** The event belongs to the tab, or to no tab in particular. */
  predicate InTab(e: Event, tab: nat) {
    match e
    case ReloadTab(_) => true
    case Rebuy(_) => true
    case _ => e.slot.tab == tab
  }

  predicate AllInTab(es: seq<Event>, tab: nat) { forall i :: 0 <= i < |es| ==> InTab(es[i], tab) }

  ghost predicate OnlyTab(w: World, tab: nat) { forall slot :: slot in w.running ==> slot.tab == tab }

  /** A request under way carries the key that is stored for its scope, or the entry is gone. */
  ghost predicate KeyHeld(w: World, slot: Slot) {
    slot in w.running && SavedBy(w.running[slot]).Some? && slot.scope in w.storage ==>
      w.storage[slot.scope].key == SavedBy(w.running[slot]).value.key
  }

  ghost predicate OneTab(w: World, tab: nat) {
    OnlyTab(w, tab) && forall slot :: slot in w.running ==> KeyHeld(w, slot)
  }

  /** In one tab another slot has another scope. */
  lemma {:induction false} OtherScope(w: World, tab: nat, at: Slot, slot: Slot)
    requires OnlyTab(w, tab) && at.tab == tab && slot in w.running && slot != at
    ensures slot.scope != at.scope
  {
  }

  lemma {:induction false} OnlyTabStep(w: World, e: Event, tab: nat)
    requires OnlyTab(w, tab) && InTab(e, tab)
    ensures OnlyTab(Step(w, e), tab)
  {
  }

  /** What is stored for a scope after a step was stored before it, or this event loaded or answered it. */
  lemma {:induction false} EntryOrigin(w: World, e: Event, s: Text)
    requires s in Step(w, e).storage
    ensures (s in w.storage && Step(w, e).storage[s] == w.storage[s]) || ((e.Load? || e.Reply?) && e.slot.scope == s)
  {
  }

  lemma {:induction false} HeldLater(w: World, e: Event, tab: nat, slot: Slot)
    requires OneTab(w, tab) && InTab(e, tab) && slot in Step(w, e).running
    ensures KeyHeld(Step(w, e), slot)
  {
    var w' := Step(w, e);
    if SavedBy(w'.running[slot]).Some? && slot.scope in w'.storage {
      SavedOrigin(w, e, slot);
      EntryOrigin(w, e, slot.scope);
      if slot in w.running { assert KeyHeld(w, slot); }
      if slot in w.running && (e.Load? || e.Reply?) && slot != e.slot { OtherScope(w, tab, e.slot, slot); }
    }
  }

  lemma {:induction false} OneTabStep(w: World, e: Event, tab: nat)
    requires OneTab(w, tab) && InTab(e, tab)
    ensures OneTab(Step(w, e), tab) && !Overwrites(w, e) && !Revives(w, e)
  {
    OnlyTabStep(w, e, tab);
    forall slot | slot in Step(w, e).running ensures KeyHeld(Step(w, e), slot) { HeldLater(w, e, tab, slot); }
    if e.Reply? && e.slot in w.running { assert KeyHeld(w, e.slot); }
  }

  /** No reply of a run of one tab overwrites another key, whatever is rebought meanwhile. */
  lemma {:induction false} RepliesMeetTheirKey(w: World, es: seq<Event>, tab: nat)
    requires OneTab(w, tab) && AllInTab(es, tab)
    ensures NoneOverwrites(w, es) && NoneRevives(w, es) && OneTab(Run(w, es), tab)
    decreases es
  {
    if es != [] {
      assert InTab(es[0], tab);
      OneTabStep(w, es[0], tab);
      RepliesMeetTheirKey(Step(w, es[0]), es[1..], tab);
    }
  }

  /** In one tab all keys sent for a scope between two removals are the same. */
  lemma {:induction false} OneTabSharesKey(storage: Intents, es: seq<Event>, tab: nat)
    requires AllInTab(es, tab)
    ensures var sent := Run(Start(storage), es).sent;
      forall x, y :: x in sent && y in sent && x.scope == y.scope && x.epoch == y.epoch ==> x.key == y.key
  {
    RepliesMeetTheirKey(Start(storage), es, tab);
    RetriesShareKey(storage, es);
  }

  /** With fresh keys and honest answers, they number at most one plus the fresh decisions and the orders released. */
  lemma {:induction false} OneTabOneKeyPerPurchase(storage: Intents, es: seq<Event>, answer: map<Key, Quote>, tab: nat, s: Text)
    requires Injective(answer) && QuotesHonest(Start(storage), answer)
    requires AllInTab(es, tab) && HonestRun(Start(storage), es, answer)
    ensures var w := Run(Start(storage), es);
      |SentKeys(w, s)| <= 1 + Count(w.forgotten, s) + |RetiredFor(w, s)|
  {
    RepliesMeetTheirKey(Start(storage), es, tab);
    SettledOrdersRotateOnce(storage, es, answer, s);
  }
}
