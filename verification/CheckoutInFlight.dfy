/** One request per slot: a call that is under way is shared, kept to its end, and answered under its own key. */
module CheckoutInFlight {
  import opened Common
  import opened Utf16
  import opened IntentStore
  import opened CheckoutProtocol
  import opened CheckoutOneTab

  // ---- a second call changes nothing

  /** Calling for a slot that is under way is as if nobody had called. */
  lemma {:induction false} SecondCallShared(w: World, slot: Slot, anew: bool, es: seq<Event>)
    requires slot in w.running
    ensures Run(w, [Call(slot, anew)] + es) == Run(w, es)
  {
    RunNext(w, Call(slot, anew), es);
  }

  // ---- a call under way moves only by its own steps

  predicate Ends(e: Event, slot: Slot) {
    match e
    case Reply(s, _) => s == slot
    case Fail(s) => s == slot
    case ReloadTab(tab) => tab == slot.tab
    case _ => false
  }

  /** The event is a step of the slot's call, or ends it. */
  predicate Moves(e: Event, slot: Slot) {
    match e
    case Call(_, _) => false
    case ReloadTab(tab) => tab == slot.tab
    case Rebuy(_) => false
    case _ => e.slot == slot
  }

  lemma {:induction false} OthersLeaveIt(w: World, e: Event, slot: Slot)
    requires slot in w.running && !Moves(e, slot)
    ensures slot in Step(w, e).running && Step(w, e).running[slot] == w.running[slot]
  {
  }

  predicate NoneMoves(es: seq<Event>, slot: Slot) { forall i :: 0 <= i < |es| ==> !Moves(es[i], slot) }

  lemma {:induction false} WaitsThrough(w: World, es: seq<Event>, slot: Slot)
    requires slot in w.running && NoneMoves(es, slot)
    ensures slot in Run(w, es).running && Run(w, es).running[slot] == w.running[slot]
    decreases es
  {
    if es != [] {
      assert !Moves(es[0], slot);
      OthersLeaveIt(w, es[0], slot);
      WaitsThrough(Step(w, es[0]), es[1..], slot);
    }
  }

  /** A posted request leaves its slot exactly by its answer, its failure or a reload of its tab. */
  lemma {:induction false} PostingEndsIff(w: World, e: Event, slot: Slot)
    requires slot in w.running && w.running[slot].Posting?
    ensures slot !in Step(w, e).running <==> Ends(e, slot)
    ensures slot in Step(w, e).running ==> Step(w, e).running[slot] == w.running[slot]
  {
  }

  predicate NoneEnds(es: seq<Event>, slot: Slot) { forall i :: 0 <= i < |es| ==> !Ends(es[i], slot) }

  /** Until then it waits with its intent, whatever else is called, rebought or removed. */
  lemma {:induction false} PostingWaits(w: World, es: seq<Event>, slot: Slot)
    requires slot in w.running && w.running[slot].Posting? && NoneEnds(es, slot)
    ensures slot in Run(w, es).running && Run(w, es).running[slot] == w.running[slot]
    decreases es
  {
    if es != [] {
      assert !Ends(es[0], slot);
      PostingEndsIff(w, es[0], slot);
      PostingWaits(Step(w, es[0]), es[1..], slot);
    }
  }

  /** And its answer is stored under the key it was sent with. */
  lemma {:induction false} AnswerIsStored(w: World, es: seq<Event>, slot: Slot, quote: Quote)
    requires slot in w.running && w.running[slot].Posting? && NoneEnds(es, slot)
    ensures var w' := Run(w, es + [Reply(slot, quote)]);
      slot !in w'.running && slot.scope in w'.storage
      && w'.storage[slot.scope] == Intent(w.running[slot].saved.key, Some(quote))
  {
    PostingWaits(w, es, slot);
    RunConcat(w, es, [Reply(slot, quote)]);
    Run1(Run(w, es), Reply(slot, quote));
  }

  // ---- the whole way of a request

  /** The entry a load finds or mints. */
  function Found(w: World, scope: Text, proposed: Key): Intent {
    if scope in w.storage then w.storage[scope] else Intent(proposed, None)
  }

  /**
   Whatever happens elsewhere between its steps: a load whose entry has no order yet sends the key
   it found or minted, in the epoch it was loaded in, and stores the answer under that key.
   */
  lemma {:induction false} RequestRuns(w: World, slot: Slot, proposed: Key, a: seq<Event>, b: seq<Event>, quote: Quote)
    requires At(w, slot) == Some(Loading) && NoneMoves(a, slot) && NoneEnds(b, slot)
    requires var found := Found(w, slot.scope, proposed); found.quoteId.None? && (slot.scope in w.storage ==> |found.key| >= 16)
    ensures var found := Found(w, slot.scope, proposed);
      var posted := Run(w, [Load(slot, proposed)] + a + [Send(slot)]);
      var w' := Run(posted, b + [Reply(slot, quote)]);
      Sent(slot.scope, Epoch(w, slot.scope), found.key) in posted.sent
      && slot in posted.running && slot !in w'.running
      && slot.scope in w'.storage && w'.storage[slot.scope] == Intent(found.key, Some(quote))
  {
    var found := Found(w, slot.scope, proposed);
    var loaded := Step(w, Load(slot, proposed));
    RunThree(w, [Load(slot, proposed)], a, [Send(slot)]);
    Run1(w, Load(slot, proposed));
    assert slot in loaded.running && loaded.running[slot] == Sending(found, Epoch(w, slot.scope));
    WaitsThrough(loaded, a, slot);
    Run1(Run(loaded, a), Send(slot));
    AnswerIsStored(Step(Run(loaded, a), Send(slot)), b, slot, quote);
  }

  /** A load whose entry has an order asks after it; unless it is settled the key is sent again. */
  lemma {:induction false} RetryRuns(w: World, slot: Slot, proposed: Key, a: seq<Event>, b: seq<Event>)
    requires At(w, slot) == Some(Loading) && NoneMoves(a, slot) && NoneMoves(b, slot)
    requires slot.scope in w.storage && w.storage[slot.scope].quoteId.Some? && |w.storage[slot.scope].key| >= 16
    ensures var asked := Run(w, [Load(slot, proposed)] + a + [Verdict(slot, false)]);
      var posted := Run(asked, b + [Send(slot)]);
      Sent(slot.scope, Epoch(w, slot.scope), w.storage[slot.scope].key) in posted.sent
      && slot in posted.running && posted.running[slot] == Posting(w.storage[slot.scope], Epoch(w, slot.scope))
  {
    var found := w.storage[slot.scope];
    var loaded := Step(w, Load(slot, proposed));
    RunThree(w, [Load(slot, proposed)], a, [Verdict(slot, false)]);
    Run1(w, Load(slot, proposed));
    assert slot in loaded.running && loaded.running[slot] == Looking(found, Epoch(w, slot.scope));
    WaitsThrough(loaded, a, slot);
    Run1(Run(loaded, a), Verdict(slot, false));
    var asked := Step(Run(loaded, a), Verdict(slot, false));
    WaitsThrough(asked, b, slot);
    RunConcat(asked, b, [Send(slot)]);
    Run1(Run(asked, b), Send(slot));
  }

  /** If it is settled, every entry of that order goes, whenever the release comes, and the call loads again. */
  lemma {:induction false} SettledReleases(w: World, slot: Slot, proposed: Key, a: seq<Event>, b: seq<Event>)
    requires At(w, slot) == Some(Loading) && NoneMoves(a, slot) && NoneMoves(b, slot)
    requires slot.scope in w.storage && w.storage[slot.scope].quoteId.Some? && |w.storage[slot.scope].key| >= 16
    ensures var quote := w.storage[slot.scope].quoteId.value;
      var before := Run(Run(w, [Load(slot, proposed)] + a + [Verdict(slot, true)]), b);
      var after := Step(before, Release(slot));
      At(after, slot) == Some(Reloading)
      && forall s :: (s in after.storage <==> s in before.storage && before.storage[s].quoteId != Some(quote))
                     && (s in after.storage ==> after.storage[s] == before.storage[s])
  {
    var found := w.storage[slot.scope];
    var loaded := Step(w, Load(slot, proposed));
    RunThree(w, [Load(slot, proposed)], a, [Verdict(slot, true)]);
    Run1(w, Load(slot, proposed));
    assert slot in loaded.running && loaded.running[slot] == Looking(found, Epoch(w, slot.scope));
    WaitsThrough(loaded, a, slot);
    Run1(Run(loaded, a), Verdict(slot, true));
    WaitsThrough(Step(Run(loaded, a), Verdict(slot, true)), b, slot);
  }

  /** A stored key shorter than sixteen characters is refused: the call ends, and nothing is sent or stored. */
  lemma {:induction false} ShortKeyRefused(w: World, slot: Slot, proposed: Key)
    requires At(w, slot) == Some(Loading) || At(w, slot) == Some(Reloading)
    requires slot.scope in w.storage && |w.storage[slot.scope].key| < 16
    ensures var w' := Step(w, Load(slot, proposed)); slot !in w'.running && w'.storage == w.storage && w'.sent == w.sent
  {
  }

  /** After a release the call sends the key it then finds or mints, without asking again. */
  lemma {:induction false} ReloadedRuns(w: World, slot: Slot, proposed: Key, a: seq<Event>)
    requires At(w, slot) == Some(Reloading) && NoneMoves(a, slot) && (slot.scope in w.storage ==> |w.storage[slot.scope].key| >= 16)
    ensures var posted := Run(w, [Load(slot, proposed)] + a + [Send(slot)]);
      Sent(slot.scope, Epoch(w, slot.scope), Found(w, slot.scope, proposed).key) in posted.sent
  {
    var found := Found(w, slot.scope, proposed);
    var loaded := Step(w, Load(slot, proposed));
    RunThree(w, [Load(slot, proposed)], a, [Send(slot)]);
    Run1(w, Load(slot, proposed));
    assert slot in loaded.running && loaded.running[slot] == Sending(found, Epoch(w, slot.scope));
    WaitsThrough(loaded, a, slot);
    Run1(Run(loaded, a), Send(slot));
  }

  /** A call on an idle slot waits to load, or, for a fresh decision, first drops the entry of its scope and of no other. */
  lemma {:induction false} CallStarts(w: World, slot: Slot, a: seq<Event>)
    requires slot !in w.running && NoneMoves(a, slot)
    ensures At(Run(w, [Call(slot, false)] + a), slot) == Some(Loading)
    ensures var before := Run(w, [Call(slot, true)] + a); var after := Step(before, Forget(slot));
      At(after, slot) == Some(Loading) && slot.scope !in after.storage
      && forall s :: s != slot.scope ==>
          (s in after.storage <==> s in before.storage) && (s in before.storage ==> after.storage[s] == before.storage[s])
  {
    RunNext(w, Call(slot, false), a);
    WaitsThrough(Step(w, Call(slot, false)), a, slot);
    RunNext(w, Call(slot, true), a);
    WaitsThrough(Step(w, Call(slot, true)), a, slot);
  }

  // ---- fresh decisions of one tab

  /** The fresh calls for a slot that found no call under way. */
  function FreshCalls(w: World, es: seq<Event>, slot: Slot): nat
    decreases es
  {
    if es == [] then 0
    else (if es[0] == Call(slot, true) && slot !in w.running then 1 else 0) + FreshCalls(Step(w, es[0]), es[1..], slot)
  }

  /** A fresh call that has not dropped its entry yet. */
  function Pending(w: World, slot: Slot): nat { if At(w, slot) == Some(Forgetting) then 1 else 0 }

  lemma {:induction false} ForgetsStep(w: World, e: Event, slot: Slot)
    requires OnlyTab(w, slot.tab) && InTab(e, slot.tab)
    ensures Count(Step(w, e).forgotten, slot.scope) + Pending(Step(w, e), slot)
      <= Count(w.forgotten, slot.scope) + Pending(w, slot) + if e == Call(slot, true) && slot !in w.running then 1 else 0
  {
  }

  lemma {:induction false} ForgetsRun(w: World, es: seq<Event>, slot: Slot)
    requires OnlyTab(w, slot.tab) && AllInTab(es, slot.tab)
    ensures Count(Run(w, es).forgotten, slot.scope) <= Count(w.forgotten, slot.scope) + Pending(w, slot) + FreshCalls(w, es, slot)
    decreases es
  {
    if es != [] {
      assert InTab(es[0], slot.tab);
      ForgetsStep(w, es[0], slot);
      OnlyTabStep(w, es[0], slot.tab);
      ForgetsRun(Step(w, es[0]), es[1..], slot);
    }
  }

  /**
   One tab sends at most one key for a scope, plus one for each fresh call made while none was under
   way, plus one for each settled order: a double click costs nothing.
   */
  lemma {:induction false} KeysByClicks(storage: Intents, es: seq<Event>, answer: map<Key, Quote>, slot: Slot)
    requires Injective(answer) && QuotesHonest(Start(storage), answer)
    requires AllInTab(es, slot.tab) && HonestRun(Start(storage), es, answer)
    ensures var w := Run(Start(storage), es);
      |SentKeys(w, slot.scope)| <= 1 + FreshCalls(Start(storage), es, slot) + |RetiredFor(w, slot.scope)|
  {
    OneTabOneKeyPerPurchase(storage, es, answer, slot.tab, slot.scope);
    ForgetsRun(Start(storage), es, slot);
  }
}
