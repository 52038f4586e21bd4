/**
 `createCheckout` as a step machine: any number of tabs share one storage, every
 await is a step boundary, and at any step a lookup or POST may fail and a tab may
 be reloaded. One slot per tab and scope, as the in-flight map allows.
 */
module CheckoutProtocol {
  import opened Common
  import opened Utf16
  import opened IntentStore

  datatype Slot = Slot(tab: nat, scope: Text)

  /** Where one `createCheckout` call stands. `epoch` is the number of removals of its scope's entry when the key was loaded. */
  datatype Phase =
    | Forgetting
    | Loading
    | Looking(saved: Intent, epoch: nat)
    | Releasing(quote: Quote)
    | Reloading
    | Sending(saved: Intent, epoch: nat)
    | Posting(saved: Intent, epoch: nat)

  datatype Sent = Sent(scope: Text, epoch: nat, key: Key)

  /** Storage and calls in flight, followed by the history the properties speak about. */
  datatype World = World(
    storage: Intents,
    running: map<Slot, Phase>,
    written: set<(Text, Key)>,
    sent: set<Sent>,
    forgotten: map<Text, nat>,
    removed: map<Text, nat>,
    retired: set<(Text, Quote)>)

  datatype Event =
    | Call(slot: Slot, anew: bool)
    | Forget(slot: Slot)
    | Load(slot: Slot, proposed: Key)
    | Verdict(slot: Slot, settled: bool)
    | Release(slot: Slot)
    | Send(slot: Slot)
    | Reply(slot: Slot, quote: Quote)
    | Fail(slot: Slot)
    | ReloadTab(tab: nat)
    | Rebuy(quote: Quote)

  function Count(m: map<Text, nat>, scope: Text): nat {
    if scope in m then m[scope] else 0
  }

  function Bump(m: map<Text, nat>, scopes: set<Text>): map<Text, nat> {
    map s | s in m.Keys + scopes :: Count(m, s) + if s in scopes then 1 else 0
  }

  function Epoch(w: World, scope: Text): nat { Count(w.removed, scope) }

  /** The scopes whose stored key produced this order. */
  function Holding(m: Intents, quote: Quote): set<Text> {
    set s | s in m && m[s].quoteId == Some(quote)
  }

  function Drop(w: World, quote: Quote): World {
    var scopes := Holding(w.storage, quote);
    w.(storage := Released(w.storage, quote),
       removed := Bump(w.removed, scopes),
       retired := w.retired + set s | s in scopes :: (s, quote))
  }

  function Goto(w: World, slot: Slot, p: Phase): World { w.(running := w.running[slot := p]) }

  function Finish(w: World, slot: Slot): World { w.(running := w.running - {slot}) }

  function At(w: World, slot: Slot): Option<Phase> {
    if slot in w.running then Some(w.running[slot]) else None
  }

  function DoForget(w: World, slot: Slot): World {
    var scopes := if slot.scope in w.storage then {slot.scope} else {};
    Goto(w, slot, Loading).(
      storage := Forgotten(w.storage, slot.scope),
      forgotten := Bump(w.forgotten, scopes),
      removed := Bump(w.removed, scopes))
  }

  /** A stored key that is too short is refused; otherwise the order it produced, if any, is looked up first. */
  function DoLoad(w: World, slot: Slot, proposed: Key, look: bool): World {
    var m := Loaded(w.storage, slot.scope, proposed);
    var intent := m[slot.scope];
    var w' := w.(storage := m, written := w.written + {(slot.scope, intent.key)});
    if slot.scope in w.storage && |intent.key| < MIN_KEY_LENGTH then Finish(w', slot)
    else if look && intent.quoteId.Some? then Goto(w', slot, Looking(intent, Epoch(w, slot.scope)))
    else Goto(w', slot, Sending(intent, Epoch(w, slot.scope)))
  }

  function Step(w: World, e: Event): World {
    match e
    case Call(slot, anew) =>
      if slot in w.running then w else Goto(w, slot, if anew then Forgetting else Loading)
    case Forget(slot) =>
      if At(w, slot) == Some(Forgetting) then DoForget(w, slot) else w
    case Load(slot, proposed) =>
      if At(w, slot) == Some(Loading) then DoLoad(w, slot, proposed, true)
      else if At(w, slot) == Some(Reloading) then DoLoad(w, slot, proposed, false)
      else w
    case Verdict(slot, settled) => (
      match At(w, slot)
      case Some(Looking(saved, epoch)) =>
        if settled && saved.quoteId.Some? then Goto(w, slot, Releasing(saved.quoteId.value))
        else Goto(w, slot, Sending(saved, epoch))
      case _ => w)
    case Release(slot) => (
      match At(w, slot)
      case Some(Releasing(quote)) => Goto(Drop(w, quote), slot, Reloading)
      case _ => w)
    case Send(slot) => (
      match At(w, slot)
      case Some(Sending(saved, epoch)) =>
        Goto(w, slot, Posting(saved, epoch)).(sent := w.sent + {Sent(slot.scope, epoch, saved.key)})
      case _ => w)
    case Reply(slot, quote) => (
      match At(w, slot)
      case Some(Posting(saved, _)) =>
        Finish(w, slot).(storage := Saved(w.storage, slot.scope, saved, quote))
      case _ => w)
    case Fail(slot) => Finish(w, slot)
    case ReloadTab(tab) =>
      w.(running := map s | s in w.running && s.tab != tab :: w.running[s])
    case Rebuy(quote) => Drop(w, quote)
  }

  function Run(w: World, es: seq<Event>): World
    decreases es
  {
    if es == [] then w else Run(Step(w, es[0]), es[1..])
  }

  function Start(storage: Intents): World {
    World(storage, map[], set s | s in storage :: (s, storage[s].key), {}, map[], map[], {})
  }

  // ---- keys sent for a scope are bounded by the removals of its entry

  function SentKeys(w: World, scope: Text): set<Key> {
    set x | x in w.sent && x.scope == scope :: x.key
  }

  function WrittenKeys(w: World, scope: Text): set<Key> {
    set p | p in w.written && p.0 == scope :: p.1
  }

  function SavedBy(p: Phase): Option<Intent> {
    match p
    case Looking(saved, _) => Some(saved)
    case Sending(saved, _) => Some(saved)
    case Posting(saved, _) => Some(saved)
    case _ => None
  }

  ghost predicate KeysWritten(w: World) {
    && (forall x :: x in w.sent ==> (x.scope, x.key) in w.written)
    && (forall s :: s in w.storage ==> (s, w.storage[s].key) in w.written)
    && (forall slot :: slot in w.running && SavedBy(w.running[slot]).Some? ==>
          (slot.scope, SavedBy(w.running[slot]).value.key) in w.written)
  }

  ghost predicate Budget(w: World, s: Text) {
    |WrittenKeys(w, s)| + (if s in w.storage then 0 else 1) <= 1 + Epoch(w, s)
  }

  lemma {:induction false} KeysWrittenStep(w: World, e: Event)
    requires KeysWritten(w)
    ensures KeysWritten(Step(w, e))
  {
    match e
    case Load(slot, proposed) =>
      KeysWrittenLoad(w, slot, proposed, true);
      KeysWrittenLoad(w, slot, proposed, false);
    case Forget(slot) => KeysWrittenForget(w, slot);
    case Release(slot) => KeysWrittenRelease(w, slot);
    case Rebuy(quote) =>
    case Send(slot) => KeysWrittenSend(w, slot);
    case Reply(slot, quote) => KeysWrittenReply(w, slot, quote);
    case _ => KeysWrittenMove(w, e);
  }

  lemma {:induction false} KeysWrittenRelease(w: World, slot: Slot)
    requires KeysWritten(w)
    ensures KeysWritten(Step(w, Release(slot)))
  {
  }

  lemma {:induction false} KeysWrittenSend(w: World, slot: Slot)
    requires KeysWritten(w)
    ensures KeysWritten(Step(w, Send(slot)))
  {
  }

  lemma {:induction false} KeysWrittenReply(w: World, slot: Slot, quote: Quote)
    requires KeysWritten(w)
    ensures KeysWritten(Step(w, Reply(slot, quote)))
  {
  }

  lemma {:induction false} KeysWrittenMove(w: World, e: Event)
    requires KeysWritten(w) && (e.Call? || e.Verdict? || e.Fail? || e.ReloadTab?)
    ensures KeysWritten(Step(w, e))
  {
  }

  lemma {:induction false} KeysWrittenLoad(w: World, slot: Slot, proposed: Key, look: bool)
    requires KeysWritten(w)
    ensures KeysWritten(DoLoad(w, slot, proposed, look))
  {
  }

  lemma {:induction false} KeysWrittenForget(w: World, slot: Slot)
    requires KeysWritten(w)
    ensures KeysWritten(DoForget(w, slot))
  {
  }

  lemma {:induction false} BudgetDrop(w: World, quote: Quote, s: Text)
    requires Budget(w, s)
    ensures Budget(Drop(w, quote), s)
  {
    assert WrittenKeys(Drop(w, quote), s) == WrittenKeys(w, s);
  }

  lemma {:induction false} BudgetMint(w: World, w': World, scope: Text, proposed: Key, s: Text)
    requires Budget(w, s) && KeysWritten(w)
    requires w'.storage == Loaded(w.storage, scope, proposed) && w'.removed == w.removed
    requires w'.written == w.written + {(scope, w'.storage[scope].key)}
    ensures Budget(w', s)
  {
    var key := w'.storage[scope].key;
    if s == scope {
      assert WrittenKeys(w', s) == WrittenKeys(w, s) + {key};
      if scope in w.storage {
        assert (scope, key) in w.written;
        assert WrittenKeys(w', s) == WrittenKeys(w, s);
      }
    } else {
      assert WrittenKeys(w', s) == WrittenKeys(w, s);
    }
  }

  lemma {:induction false} BudgetLoad(w: World, slot: Slot, proposed: Key, look: bool, s: Text)
    requires Budget(w, s) && KeysWritten(w)
    ensures Budget(DoLoad(w, slot, proposed, look), s)
  {
    BudgetMint(w, DoLoad(w, slot, proposed, look), slot.scope, proposed, s);
  }

  lemma {:induction false} WrittenSame(w: World, w': World, s: Text)
    requires w'.written == w.written
    ensures WrittenKeys(w', s) == WrittenKeys(w, s)
  {
  }

  lemma {:induction false} BudgetForget(w: World, slot: Slot, s: Text)
    requires Budget(w, s)
    ensures Budget(DoForget(w, slot), s)
  {
    WrittenSame(w, DoForget(w, slot), s);
  }

  lemma {:induction false} BudgetSame(w: World, w': World, s: Text)
    requires Budget(w, s) && w'.written == w.written && w'.removed == w.removed && (s in w.storage ==> s in w'.storage)
    ensures Budget(w', s)
  {
    WrittenSame(w, w', s);
  }

  lemma {:induction false} BudgetRelease(w: World, slot: Slot, s: Text)
    requires Budget(w, s)
    ensures Budget(Step(w, Release(slot)), s)
  {
    if slot in w.running && w.running[slot].Releasing? {
      var quote := w.running[slot].quote;
      BudgetDrop(w, quote, s);
      BudgetSame(Drop(w, quote), Goto(Drop(w, quote), slot, Reloading), s);
    }
  }

  /** The other steps neither mint nor remove. */
  lemma {:induction false} PlainStep(w: World, e: Event)
    requires !e.Load? && !e.Forget? && !e.Release? && !e.Rebuy?
    ensures Step(w, e).written == w.written && Step(w, e).removed == w.removed
    ensures forall s :: s in w.storage ==> s in Step(w, e).storage
  {
  }

  lemma {:induction false} BudgetStep(w: World, e: Event, s: Text)
    requires Budget(w, s) && KeysWritten(w)
    ensures Budget(Step(w, e), s)
  {
    match e
    case Load(slot, proposed) =>
      BudgetLoad(w, slot, proposed, true, s);
      BudgetLoad(w, slot, proposed, false, s);
    case Forget(slot) => BudgetForget(w, slot, s);
    case Release(slot) => BudgetRelease(w, slot, s);
    case Rebuy(quote) => BudgetDrop(w, quote, s);
    case _ =>
      PlainStep(w, e);
      BudgetSame(w, Step(w, e), s);
  }

  lemma {:induction false} BudgetRun(w: World, es: seq<Event>, s: Text)
    requires Budget(w, s) && KeysWritten(w)
    ensures Budget(Run(w, es), s) && KeysWritten(Run(w, es))
    decreases es
  {
    if es != [] {
      BudgetStep(w, es[0], s);
      KeysWrittenStep(w, es[0]);
      BudgetRun(Step(w, es[0]), es[1..], s);
    }
  }

  /**
   Over every run of any number of tabs: a key is in storage before it is sent, and
   the distinct keys sent for a scope number at most one more than the removals.
   */
  lemma {:induction false} KeysBounded(storage: Intents, es: seq<Event>, s: Text)
    ensures var w := Run(Start(storage), es);
      && SentKeys(w, s) <= WrittenKeys(w, s)
      && |SentKeys(w, s)| <= 1 + Epoch(w, s)
  {
    var w0 := Start(storage);
    StartWritten(storage, s);
    BudgetRun(w0, es, s);
    var w := Run(w0, es);
    SubsetSize(SentKeys(w, s), WrittenKeys(w, s));
  }

  lemma {:induction false} SubsetSize<T>(a: set<T>, b: set<T>)
    requires a <= b
    ensures |a| <= |b|
  {
    assert b == a + (b - a);
  }

  /** Only a fresh decision for the scope, or a release of the order its entry points at, removes an entry. */
  lemma {:induction false} RemovalCauses(w: World, e: Event, s: Text)
    ensures Epoch(Step(w, e), s) == Epoch(w, s) + if s in w.storage && s !in Step(w, e).storage then 1 else 0
    ensures s in w.storage && s !in Step(w, e).storage <==>
      && s in w.storage
      && ((e.Forget? && e.slot.scope == s && At(w, e.slot) == Some(Forgetting))
          || (e.Release? && w.storage[s].quoteId.Some? && At(w, e.slot) == Some(Releasing(w.storage[s].quoteId.value)))
          || (e.Rebuy? && w.storage[s].quoteId == Some(e.quote)))
  {
  }

  // ---- one key per epoch, as long as no reply overwrites a newer key in use

  function EpochOf(p: Phase): nat {
    match p
    case Looking(_, epoch) => epoch
    case Sending(_, epoch) => epoch
    case Posting(_, epoch) => epoch
    case _ => 0
  }

  /** A key loaded in the current epoch is the stored one; keys sent in one epoch agree. */
  ghost predicate KeyLives(w: World, s: Text, epoch: nat, key: Key) {
    epoch <= Epoch(w, s) && (epoch == Epoch(w, s) ==> s in w.storage && w.storage[s].key == key)
  }

  /** The keys a call in flight holds or that have been sent, with their scope and epoch. */
  ghost function Claims(w: World): set<Sent> {
    w.sent + set slot | slot in w.running && SavedBy(w.running[slot]).Some?
      :: Sent(slot.scope, EpochOf(w.running[slot]), SavedBy(w.running[slot]).value.key)
  }

  ghost predicate OneKeyPerEpoch(w: World) {
    && (forall x :: x in Claims(w) ==> KeyLives(w, x.scope, x.epoch, x.key))
    && (forall x, y :: x in Claims(w) && y in Claims(w) && x.scope == y.scope && x.epoch == y.epoch ==> x.key == y.key)
  }

  /** Every claim after a step was a claim before it, or is the key just loaded from storage. */
  lemma {:induction false} ClaimOrigin(w: World, e: Event, x: Sent)
    requires x in Claims(Step(w, e))
    ensures var w' := Step(w, e);
      x in Claims(w) || (x.epoch == Epoch(w', x.scope) && x.scope in w'.storage && x.key == w'.storage[x.scope].key)
  {
    var w' := Step(w, e);
    if x in w'.sent {
      if x !in w.sent {
        assert e.Send? && e.slot in w.running && w.running[e.slot].Sending?;
      }
    } else {
      var slot :| slot in w'.running && SavedBy(w'.running[slot]).Some?
        && x == Sent(slot.scope, EpochOf(w'.running[slot]), SavedBy(w'.running[slot]).value.key);
      SavedOrigin(w, e, slot);
    }
  }

  /** The saved key of a slot after a step was saved before it, or was just loaded. */
  lemma {:induction false} SavedOrigin(w: World, e: Event, slot: Slot)
    requires var w' := Step(w, e); slot in w'.running && SavedBy(w'.running[slot]).Some?
    ensures var w' := Step(w, e); var p := w'.running[slot];
      || (slot in w.running && SavedBy(w.running[slot]) == SavedBy(p) && EpochOf(w.running[slot]) == EpochOf(p))
      || (EpochOf(p) == Epoch(w', slot.scope) && slot.scope in w'.storage && SavedBy(p).value == w'.storage[slot.scope])
  {
    if e.Load? && At(w, e.slot) == Some(Loading) {
      LoadOrigin(w, e.slot, e.proposed, true, slot);
    } else if e.Load? && At(w, e.slot) == Some(Reloading) {
      LoadOrigin(w, e.slot, e.proposed, false, slot);
    }
  }

  lemma {:induction false} LoadOrigin(w: World, at: Slot, proposed: Key, look: bool, slot: Slot)
    requires var w' := DoLoad(w, at, proposed, look); slot in w'.running
    ensures var w' := DoLoad(w, at, proposed, look); var p := w'.running[slot];
      || (slot in w.running && w.running[slot] == p)
      || (EpochOf(p) == Epoch(w', slot.scope) && slot.scope in w'.storage && SavedBy(p) == Some(w'.storage[slot.scope]))
  {
  }

  /** A reply that puts its own key over another one, which some call of the current epoch has loaded or sent. */
  ghost predicate Overwrites(w: World, e: Event) {
    e.Reply? && e.slot in w.running && w.running[e.slot].Posting?
    && e.slot.scope in w.storage && w.storage[e.slot.scope].key != w.running[e.slot].saved.key
    && exists x :: x in Claims(w) && x.scope == e.slot.scope && x.epoch == Epoch(w, x.scope)
  }

  /** A claim keeps living: the entry is untouched or the epoch moves on. */
  lemma {:induction false} LivesOn(w: World, e: Event, x: Sent)
    requires !Overwrites(w, e) && x in Claims(w) && KeyLives(w, x.scope, x.epoch, x.key)
    ensures KeyLives(Step(w, e), x.scope, x.epoch, x.key)
  {
    RemovalCauses(w, e, x.scope);
  }

  lemma {:induction false} EpochStep(w: World, e: Event)
    requires !Overwrites(w, e) && OneKeyPerEpoch(w)
    ensures OneKeyPerEpoch(Step(w, e))
  {
    var w' := Step(w, e);
    forall x | x in Claims(w') ensures KeyLives(w', x.scope, x.epoch, x.key) {
      ClaimOrigin(w, e, x);
      if x in Claims(w) { LivesOn(w, e, x); }
    }
    forall x, y | x in Claims(w') && y in Claims(w') && x.scope == y.scope && x.epoch == y.epoch
      ensures x.key == y.key
    {
      ClaimOrigin(w, e, x);
      ClaimOrigin(w, e, y);
    }
  }

  /** The step that overwrites breaks the agreement at once: the claim is still there and its key is not stored any more. */
  lemma {:induction false} OverwriteParts(w: World, e: Event)
    requires OneKeyPerEpoch(w) && Overwrites(w, e)
    ensures !OneKeyPerEpoch(Step(w, e))
  {
    var w' := Step(w, e);
    var x :| x in Claims(w) && x.scope == e.slot.scope && x.epoch == Epoch(w, x.scope);
    assert KeyLives(w, x.scope, x.epoch, x.key);
    if x !in w.sent {
      var slot :| slot in w.running && SavedBy(w.running[slot]).Some?
        && x == Sent(slot.scope, EpochOf(w.running[slot]), SavedBy(w.running[slot]).value.key);
      assert slot != e.slot;
      assert slot in w'.running && w'.running[slot] == w.running[slot];
    }
    assert x in Claims(w');
    assert !KeyLives(w', x.scope, x.epoch, x.key);
  }

  /** A step keeps the agreement of an epoch's keys exactly when it is not such a reply. */
  lemma {:induction false} SharesKeyIff(w: World, e: Event)
    requires OneKeyPerEpoch(w)
    ensures OneKeyPerEpoch(Step(w, e)) <==> !Overwrites(w, e)
  {
    if Overwrites(w, e) { OverwriteParts(w, e); } else { EpochStep(w, e); }
  }

  ghost predicate NoneOverwrites(w: World, es: seq<Event>)
    decreases es
  {
    es == [] || (!Overwrites(w, es[0]) && NoneOverwrites(Step(w, es[0]), es[1..]))
  }

  ghost predicate AlwaysOneKey(w: World, es: seq<Event>)
    decreases es
  {
    OneKeyPerEpoch(w) && (es == [] || AlwaysOneKey(Step(w, es[0]), es[1..]))
  }

  lemma {:induction false} EpochRunIff(w: World, es: seq<Event>)
    requires OneKeyPerEpoch(w)
    ensures AlwaysOneKey(w, es) <==> NoneOverwrites(w, es)
    ensures NoneOverwrites(w, es) ==> OneKeyPerEpoch(Run(w, es))
    decreases es
  {
    if es != [] {
      SharesKeyIff(w, es[0]);
      if !Overwrites(w, es[0]) { EpochRunIff(Step(w, es[0]), es[1..]); }
    }
  }

  /**
   The keys in use between two removals are one and the same throughout a run, whichever
   tabs use them, exactly when no reply of the run overwrites.
   */
  lemma {:induction false} OneKeyAlwaysIff(storage: Intents, es: seq<Event>)
    ensures AlwaysOneKey(Start(storage), es) <==> NoneOverwrites(Start(storage), es)
  {
    assert Claims(Start(storage)) == {};
    EpochRunIff(Start(storage), es);
  }

  /** Then all keys sent for a scope between two removals are the same. */
  lemma {:induction false} RetriesShareKey(storage: Intents, es: seq<Event>)
    requires NoneOverwrites(Start(storage), es)
    ensures var sent := Run(Start(storage), es).sent;
      forall x, y :: x in sent && y in sent && x.scope == y.scope && x.epoch == y.epoch ==> x.key == y.key
  {
    assert Claims(Start(storage)) == {};
    EpochRunIff(Start(storage), es);
    var w := Run(Start(storage), es);
    assert w.sent <= Claims(w);
  }

  // ---- an order releases its scope at most once

  /** A key minted for a scope was never stored for it, and the shop answers each key with its own order, always the same one. */
  ghost predicate Fresh(w: World, e: Event) {
    e.Load? && e.slot.scope !in w.storage ==> (e.slot.scope, e.proposed) !in w.written
  }

  ghost predicate Honest(w: World, e: Event, answer: map<Key, Quote>) {
    e.Reply? && e.slot in w.running && w.running[e.slot].Posting? ==>
      w.running[e.slot].saved.key in answer && e.quote == answer[w.running[e.slot].saved.key]
  }

  ghost predicate Injective(answer: map<Key, Quote>) {
    forall a, b :: a in answer && b in answer && answer[a] == answer[b] ==> a == b
  }

  ghost predicate QuotesHonest(w: World, answer: map<Key, Quote>) {
    forall s :: s in w.storage && w.storage[s].quoteId.Some? ==>
      w.storage[s].key in answer && answer[w.storage[s].key] == w.storage[s].quoteId.value
  }

  /** A reply that puts the key of an order already released from the scope over another key. */
  predicate Revives(w: World, e: Event) {
    e.Reply? && e.slot in w.running && w.running[e.slot].Posting?
    && e.slot.scope in w.storage && w.storage[e.slot.scope].key != w.running[e.slot].saved.key
    && (e.slot.scope, e.quote) in w.retired
  }

  function RetiredFor(w: World, s: Text): set<Quote> {
    set p | p in w.retired && p.0 == s :: p.1
  }

  /** Every order released from a scope is the answer to a key once stored for it. */
  ghost predicate RetiredWritten(w: World, answer: map<Key, Quote>) {
    forall s, q :: (s, q) in w.retired ==> WrittenFor(w, answer, s, q)
  }

  ghost predicate WrittenFor(w: World, answer: map<Key, Quote>, s: Text, q: Quote) {
    exists k :: k in answer && answer[k] == q && (s, k) in w.written
  }

  /** The scope has no key, or one whose order was already released. */
  ghost predicate Spent(w: World, answer: map<Key, Quote>, s: Text) {
    s in w.storage ==> w.storage[s].key in answer && (s, answer[w.storage[s].key]) in w.retired
  }

  /** Each decision and each released order pays for one key, and an unspent key is already paid for. */
  ghost predicate PaidFor(w: World, answer: map<Key, Quote>, s: Text) {
    |WrittenKeys(w, s)| + (if Spent(w, answer, s) then 1 else 0) <= 1 + Count(w.forgotten, s) + |RetiredFor(w, s)|
  }

  ghost predicate RotationInv(w: World, answer: map<Key, Quote>, s: Text) {
    KeysWritten(w) && QuotesHonest(w, answer) && RetiredWritten(w, answer) && PaidFor(w, answer, s)
  }

  lemma {:induction false} QuotesHonestStep(w: World, e: Event, answer: map<Key, Quote>)
    requires Honest(w, e, answer) && QuotesHonest(w, answer)
    ensures QuotesHonest(Step(w, e), answer)
  {
  }

  lemma {:induction false} RetiredOrigin(w: World, e: Event, s: Text, q: Quote)
    requires (s, q) in Step(w, e).retired
    ensures (s, q) in w.retired || s in Holding(w.storage, q)
  {
  }

  lemma {:induction false} WrittenGrows(w: World, e: Event)
    ensures w.written <= Step(w, e).written
  {
  }

  lemma {:induction false} RetiredWrittenStep(w: World, e: Event, answer: map<Key, Quote>)
    requires KeysWritten(w) && QuotesHonest(w, answer) && RetiredWritten(w, answer)
    ensures RetiredWritten(Step(w, e), answer)
  {
    var w' := Step(w, e);
    WrittenGrows(w, e);
    forall s, q | (s, q) in w'.retired ensures WrittenFor(w', answer, s, q) {
      RetiredOrigin(w, e, s, q);
      var k: Key;
      if (s, q) in w.retired {
        assert WrittenFor(w, answer, s, q);
        k :| k in answer && answer[k] == q && (s, k) in w.written;
      } else {
        k := w.storage[s].key;
        assert (s, k) in w.written;
      }
      assert k in answer && answer[k] == q && (s, k) in w'.written;
    }
  }

  lemma {:induction false} PaidDrop(w: World, answer: map<Key, Quote>, quote: Quote, s: Text)
    requires QuotesHonest(w, answer) && PaidFor(w, answer, s)
    ensures PaidFor(Drop(w, quote), answer, s)
  {
    var w' := Drop(w, quote);
    assert WrittenKeys(w', s) == WrittenKeys(w, s);
    if s in Holding(w.storage, quote) {
      assert RetiredFor(w', s) == RetiredFor(w, s) + {quote};
      assert quote == answer[w.storage[s].key];
      if Spent(w, answer, s) { assert quote in RetiredFor(w, s); }
    } else {
      assert RetiredFor(w', s) == RetiredFor(w, s);
      assert s in w.storage ==> w'.storage[s] == w.storage[s];
      assert (s, quote) in w'.retired ==> (s, quote) in w.retired;
    }
  }

  lemma {:induction false} PaidForget(w: World, answer: map<Key, Quote>, slot: Slot, s: Text)
    requires PaidFor(w, answer, s)
    ensures PaidFor(DoForget(w, slot), answer, s)
  {
    WrittenSame(w, DoForget(w, slot), s);
    assert RetiredFor(DoForget(w, slot), s) == RetiredFor(w, s);
  }

  /** The order of a key never stored for a scope was not released from it. */
  lemma {:induction false} UnwrittenUnspent(w: World, answer: map<Key, Quote>, s: Text, key: Key)
    requires Injective(answer) && RetiredWritten(w, answer) && (s, key) !in w.written
    ensures key in answer ==> (s, answer[key]) !in w.retired
  {
    forall q | (s, q) in w.retired ensures key in answer ==> q != answer[key] {
      assert WrittenFor(w, answer, s, q);
      var k :| k in answer && answer[k] == q && (s, k) in w.written;
      assert k != key;
    }
  }

  lemma {:induction false} PaidMint(w: World, w': World, answer: map<Key, Quote>, scope: Text, proposed: Key, s: Text)
    requires Injective(answer) && KeysWritten(w) && RetiredWritten(w, answer) && PaidFor(w, answer, s)
    requires scope !in w.storage ==> (scope, proposed) !in w.written
    requires w'.storage == Loaded(w.storage, scope, proposed) && w'.forgotten == w.forgotten && w'.retired == w.retired
    requires w'.written == w.written + {(scope, w'.storage[scope].key)}
    ensures PaidFor(w', answer, s)
  {
    var key := w'.storage[scope].key;
    assert RetiredFor(w', s) == RetiredFor(w, s);
    if s == scope {
      assert WrittenKeys(w', s) == WrittenKeys(w, s) + {key};
      if scope in w.storage {
        assert (scope, key) in w.written;
        assert WrittenKeys(w', s) == WrittenKeys(w, s);
      } else {
        UnwrittenUnspent(w, answer, s, key);
      }
    } else {
      assert WrittenKeys(w', s) == WrittenKeys(w, s);
    }
  }

  lemma {:induction false} PaidLoad(w: World, answer: map<Key, Quote>, slot: Slot, proposed: Key, look: bool, s: Text)
    requires Injective(answer) && KeysWritten(w) && RetiredWritten(w, answer) && PaidFor(w, answer, s)
    requires slot.scope !in w.storage ==> (slot.scope, proposed) !in w.written
    ensures PaidFor(DoLoad(w, slot, proposed, look), answer, s)
  {
    PaidMint(w, DoLoad(w, slot, proposed, look), answer, slot.scope, proposed, s);
  }

  /** The history of a scope is the same, and its key is not newly spent. */
  lemma {:induction false} PaidSame(w: World, w': World, answer: map<Key, Quote>, s: Text)
    requires PaidFor(w, answer, s) && w'.written == w.written && w'.forgotten == w.forgotten && w'.retired == w.retired
    requires Spent(w', answer, s) ==> Spent(w, answer, s)
    ensures PaidFor(w', answer, s)
  {
    WrittenSame(w, w', s);
    assert RetiredFor(w', s) == RetiredFor(w, s);
  }

  lemma {:induction false} PaidReply(w: World, answer: map<Key, Quote>, e: Event, s: Text)
    requires e.Reply? && Honest(w, e, answer) && !Revives(w, e) && PaidFor(w, answer, s)
    ensures PaidFor(Step(w, e), answer, s)
  {
    PaidSame(w, Step(w, e), answer, s);
  }

  lemma {:induction false} PaidRelease(w: World, answer: map<Key, Quote>, slot: Slot, s: Text)
    requires QuotesHonest(w, answer) && PaidFor(w, answer, s)
    ensures PaidFor(Step(w, Release(slot)), answer, s)
  {
    if slot in w.running && w.running[slot].Releasing? {
      var quote := w.running[slot].quote;
      PaidDrop(w, answer, quote, s);
      PaidSame(Drop(w, quote), Goto(Drop(w, quote), slot, Reloading), answer, s);
    }
  }

  /** The other steps touch neither storage nor its history. */
  lemma {:induction false} QuietStep(w: World, e: Event)
    requires !e.Load? && !e.Forget? && !e.Release? && !e.Rebuy? && !e.Reply?
    ensures var w' := Step(w, e);
      w'.storage == w.storage && w'.written == w.written && w'.forgotten == w.forgotten && w'.retired == w.retired
  {
  }

  lemma {:induction false} PaidStep(w: World, e: Event, answer: map<Key, Quote>, s: Text)
    requires Injective(answer) && RotationInv(w, answer, s) && Fresh(w, e) && Honest(w, e, answer) && !Revives(w, e)
    ensures PaidFor(Step(w, e), answer, s)
  {
    if e.Load? {
      PaidLoad(w, answer, e.slot, e.proposed, true, s);
      PaidLoad(w, answer, e.slot, e.proposed, false, s);
    } else if e.Reply? {
      PaidReply(w, answer, e, s);
    } else {
      PaidRest(w, answer, e, s);
    }
  }

  lemma {:induction false} PaidRest(w: World, answer: map<Key, Quote>, e: Event, s: Text)
    requires QuotesHonest(w, answer) && PaidFor(w, answer, s) && !e.Load? && !e.Reply?
    ensures PaidFor(Step(w, e), answer, s)
  {
    match e
    case Forget(slot) => PaidForget(w, answer, slot, s);
    case Release(slot) => PaidRelease(w, answer, slot, s);
    case Rebuy(quote) => PaidDrop(w, answer, quote, s);
    case _ =>
      QuietStep(w, e);
      PaidSame(w, Step(w, e), answer, s);
  }

  ghost predicate HonestRun(w: World, es: seq<Event>, answer: map<Key, Quote>)
    decreases es
  {
    es == [] || (Fresh(w, es[0]) && Honest(w, es[0], answer) && HonestRun(Step(w, es[0]), es[1..], answer))
  }

  ghost predicate NoneRevives(w: World, es: seq<Event>)
    decreases es
  {
    es == [] || (!Revives(w, es[0]) && NoneRevives(Step(w, es[0]), es[1..]))
  }

  lemma {:induction false} RotationRun(w: World, es: seq<Event>, answer: map<Key, Quote>, s: Text)
    requires Injective(answer) && RotationInv(w, answer, s) && HonestRun(w, es, answer) && NoneRevives(w, es)
    ensures RotationInv(Run(w, es), answer, s)
    decreases es
  {
    if es != [] {
      var e := es[0];
      KeysWrittenStep(w, e);
      QuotesHonestStep(w, e, answer);
      RetiredWrittenStep(w, e, answer);
      PaidStep(w, e, answer, s);
      RotationRun(Step(w, e), es[1..], answer, s);
    }
  }

  /**
   Tabs converge: however many of them see one settled order, it rotates the key of
   a scope once. The keys sent for a scope number at most one, plus its effective
   fresh decisions, plus the distinct settled orders that released it.
   */
  lemma {:induction false} SettledOrdersRotateOnce(storage: Intents, es: seq<Event>, answer: map<Key, Quote>, s: Text)
    requires Injective(answer) && QuotesHonest(Start(storage), answer)
    requires HonestRun(Start(storage), es, answer) && NoneRevives(Start(storage), es)
    ensures var w := Run(Start(storage), es);
      |SentKeys(w, s)| <= 1 + Count(w.forgotten, s) + |RetiredFor(w, s)|
  {
    var w0 := Start(storage);
    StartWritten(storage, s);
    assert RetiredFor(w0, s) == {};
    RotationRun(w0, es, answer, s);
    KeysBounded(storage, es, s);
    var w := Run(w0, es);
    SubsetSize(SentKeys(w, s), WrittenKeys(w, s));
  }

  lemma {:induction false} StartWritten(storage: Intents, s: Text)
    ensures WrittenKeys(Start(storage), s) == if s in storage then {storage[s].key} else {}
  {
    var w0 := Start(storage);
    if s in storage { assert (s, storage[s].key) in w0.written; }
  }

  // ---- what a stale reply does

  const CART: Text := []
  const K1 := "11111111111111111111"
  const K2 := "22222222222222222222"
  const K3 := "33333333333333333333"

  const A := Slot(1, CART)
  const B := Slot(2, CART)

  function Checkout(slot: Slot, proposed: Key): seq<Event> { [Call(slot, false), Load(slot, proposed)] }

  /**
   Tab 1 retries under K1 because its lookup failed. Meanwhile tab 2 learns that order
   Q1 is settled, rotates to K2 and gets order Q2. Then tab 1's answer arrives.
   */
  function RetryThenRotate(): seq<Event> {
    Checkout(A, K2) + [Verdict(A, false), Send(A)] + Rotate(B, K2) + [Reply(B, "Q2")]
  }

  function Rotate(slot: Slot, proposed: Key): seq<Event> {
    Checkout(slot, proposed) + [Verdict(slot, true), Release(slot), Load(slot, proposed), Send(slot)]
  }

  function StaleRun(): seq<Event> { RetryThenRotate() + [Reply(A, "Q1")] + Rotate(B, K3) }

  lemma {:induction false} RunNext(w: World, e: Event, es: seq<Event>)
    ensures Run(w, [e] + es) == Run(Step(w, e), es)
  {
    assert ([e] + es)[1..] == es;
  }

  lemma {:induction false} RunConcat(w: World, a: seq<Event>, b: seq<Event>)
    ensures Run(w, a + b) == Run(Run(w, a), b)
    decreases a
  {
    if a == [] {
      assert a + b == b;
    } else {
      var e, rest := a[0], a[1..];
      assert a == [e] + rest && a + b == [e] + (rest + b);
      RunNext(w, e, rest);
      RunNext(w, e, rest + b);
      RunConcat(Step(w, e), rest, b);
    }
  }

  lemma {:induction false} Run1(w: World, e: Event)
    ensures Run(w, [e]) == Step(w, e)
  {
    assert [e][1..] == [];
  }

  lemma {:induction false} Run2(w: World, e: Event, f: Event)
    ensures Run(w, [e, f]) == Step(Step(w, e), f)
  {
    assert [e, f][1..] == [f];
    Run1(Step(w, e), f);
  }

  ghost predicate Idle(w: World, slot: Slot, prior: Key, quote: Quote) {
    slot !in w.running && slot.scope == CART && |prior| >= MIN_KEY_LENGTH
    && w.storage == map[CART := Intent(prior, Some(quote))]
  }

  function Looked(w: World, slot: Slot, prior: Key, quote: Quote): World {
    w.(running := w.running[slot := Looking(Intent(prior, Some(quote)), Epoch(w, CART))], written := w.written + {(CART, prior)})
  }

  function Reset(w: World, slot: Slot, quote: Quote): World {
    w.(storage := map[], running := w.running[slot := Reloading], removed := Bump(w.removed, {CART}),
       retired := w.retired + {(CART, quote)})
  }

  function Minted(w: World, slot: Slot, proposed: Key): World {
    w.(storage := map[CART := Intent(proposed, None)],
       running := w.running[slot := Posting(Intent(proposed, None), Epoch(w, CART))],
       written := w.written + {(CART, proposed)},
       sent := w.sent + {Sent(CART, Epoch(w, CART), proposed)})
  }

  lemma {:induction false} CheckoutLooks(w: World, slot: Slot, proposed: Key, prior: Key, quote: Quote)
    requires Idle(w, slot, prior, quote)
    ensures Run(w, Checkout(slot, proposed)) == Looked(w, slot, prior, quote)
  {
    Run2(w, Call(slot, false), Load(slot, proposed));
  }

  lemma {:induction false} DropAlone(w: World, prior: Key, quote: Quote)
    requires w.storage == map[CART := Intent(prior, Some(quote))]
    ensures Drop(w, quote) == w.(storage := map[], removed := Bump(w.removed, {CART}), retired := w.retired + {(CART, quote)})
  {
    assert Holding(w.storage, quote) == {CART};
    assert Released(w.storage, quote) == map[];
  }

  lemma {:induction false} ReleaseResets(w: World, slot: Slot, prior: Key, quote: Quote)
    requires slot.scope == CART && w.storage == map[CART := Intent(prior, Some(quote))]
    requires slot in w.running && w.running[slot].Looking? && w.running[slot].saved.quoteId == Some(quote)
    ensures Run(w, [Verdict(slot, true), Release(slot)]) == Reset(w, slot, quote)
  {
    var w1 := Step(w, Verdict(slot, true));
    assert w1 == Goto(w, slot, Releasing(quote));
    DropAlone(w1, prior, quote);
    assert Step(w1, Release(slot)) == Goto(Drop(w1, quote), slot, Reloading);
    Run2(w, Verdict(slot, true), Release(slot));
  }

  lemma {:induction false} MintSends(w: World, slot: Slot, proposed: Key)
    requires slot.scope == CART && w.storage == map[] && slot in w.running && w.running[slot] == Reloading
    ensures Run(w, [Load(slot, proposed), Send(slot)]) == Minted(w, slot, proposed)
  {
    Run2(w, Load(slot, proposed), Send(slot));
  }

  function Rotated(w: World, slot: Slot, proposed: Key, prior: Key, quote: Quote): World {
    Minted(Reset(Looked(w, slot, prior, quote), slot, quote), slot, proposed)
  }

  /** From an idle slot and a stored key whose order is settled: one rotation. */
  lemma {:induction false} RotateSends(w: World, slot: Slot, proposed: Key, prior: Key, quote: Quote)
    requires Idle(w, slot, prior, quote)
    ensures Run(w, Rotate(slot, proposed)) == Rotated(w, slot, proposed, prior, quote)
  {
    var a, b, c := Checkout(slot, proposed), [Verdict(slot, true), Release(slot)], [Load(slot, proposed), Send(slot)];
    assert Rotate(slot, proposed) == a + b + c;
    RunThree(w, a, b, c);
    CheckoutLooks(w, slot, proposed, prior, quote);
    var w1 := Looked(w, slot, prior, quote);
    ReleaseResets(w1, slot, prior, quote);
    MintSends(Reset(w1, slot, quote), slot, proposed);
  }

  lemma {:induction false} RunThree(w: World, a: seq<Event>, b: seq<Event>, c: seq<Event>)
    ensures Run(w, a + b + c) == Run(Run(Run(w, a), b), c)
  {
    RunConcat(w, a + b, c);
    RunConcat(w, a, b);
  }

  const INITIAL: Intents := map[CART := Intent(K1, Some("Q1"))]

  /** Tab 1's retry under K1 is in flight. */
  function Retrying(): World {
    World(INITIAL, map[A := Posting(Intent(K1, Some("Q1")), 0)], {(CART, K1)}, {Sent(CART, 0, K1)}, map[], map[], {})
  }

  lemma {:induction false} RetryStarts()
    ensures Run(Start(INITIAL), Checkout(A, K2) + [Verdict(A, false), Send(A)]) == Retrying()
  {
    var w0 := Start(INITIAL);
    assert w0.written == {(CART, K1)} by {
      assert CART in INITIAL && INITIAL[CART].key == K1;
      assert forall s :: s in INITIAL <==> s == CART;
      assert (CART, INITIAL[CART].key) in w0.written;
    }
    CheckoutLooks(w0, A, K2, K1, "Q1");
    var w1 := Looked(w0, A, K1, "Q1");
    RunConcat(w0, Checkout(A, K2), [Verdict(A, false), Send(A)]);
    Run2(w1, Verdict(A, false), Send(A));
    var w2 := Step(w1, Verdict(A, false));
    assert w1.running[A] == Looking(Intent(K1, Some("Q1")), 0);
    assert w2 == Goto(w1, A, Sending(Intent(K1, Some("Q1")), 0));
    assert w2.running == map[A := Sending(Intent(K1, Some("Q1")), 0)];
    assert Step(w2, Send(A)) == Retrying();
  }

  /** Tab 2 has rotated to K2 and stored its order Q2. */
  function Overtaken(): World {
    Step(Rotated(Retrying(), B, K2, K1, "Q1"), Reply(B, "Q2"))
  }

  lemma {:induction false} OvertakenFields()
    ensures var w := Overtaken();
      && w.storage == map[CART := Intent(K2, Some("Q2"))]
      && w.running == map[A := Posting(Intent(K1, Some("Q1")), 0)]
      && w.sent == {Sent(CART, 0, K1), Sent(CART, 1, K2)}
      && w.forgotten == map[] && w.retired == {(CART, "Q1")}
  {
    var w := Rotated(Retrying(), B, K2, K1, "Q1");
    assert w.running[B] == Posting(Intent(K2, None), 1);
    assert Finish(w, B).running == map[A := Posting(Intent(K1, Some("Q1")), 0)];
  }

  lemma {:induction false} RetryThenRotateEnds()
    ensures Run(Start(INITIAL), RetryThenRotate()) == Overtaken()
  {
    var a := Checkout(A, K2) + [Verdict(A, false), Send(A)];
    RunThree(Start(INITIAL), a, Rotate(B, K2), [Reply(B, "Q2")]);
    RetryStarts();
    RotateSends(Retrying(), B, K2, K1, "Q1");
    Run1(Rotated(Retrying(), B, K2, K1, "Q1"), Reply(B, "Q2"));
  }

  /** The stale answer of tab 1 puts K1 back, and the next checkout of tab 2 rotates again. */
  function TwiceRotated(): World {
    Rotated(Step(Overtaken(), Reply(A, "Q1")), B, K3, K1, "Q1")
  }

  lemma {:induction false} TwiceRotatedFields()
    ensures Idle(Step(Overtaken(), Reply(A, "Q1")), B, K1, "Q1")
    ensures var w := TwiceRotated();
      && w.forgotten == map[] && w.retired == {(CART, "Q1")}
      && exists n :: w.sent == {Sent(CART, 0, K1), Sent(CART, 1, K2), Sent(CART, n, K3)}
  {
    OvertakenFields();
    var w := Step(Overtaken(), Reply(A, "Q1"));
    assert w == Finish(Overtaken(), A).(storage := w.storage) && w.storage == INITIAL;
    assert TwiceRotated().sent == {Sent(CART, 0, K1), Sent(CART, 1, K2), Sent(CART, Epoch(w, CART) + 1, K3)};
  }

  /**
   The guards are needed: with a stale reply one settled order and no fresh decision
   lead to three keys, because the reply under K1 overwrites K2 and its open order.
   */
  lemma {:induction false} StaleReplyCostsAKey()
    ensures var w := Run(Start(INITIAL), RetryThenRotate()); Overwrites(w, Reply(A, "Q1")) && Revives(w, Reply(A, "Q1"))
    ensures var w := Run(Start(INITIAL), StaleRun());
      && {K1, K2, K3} <= SentKeys(w, CART)
      && w.forgotten == map[] && RetiredFor(w, CART) == {"Q1"}
  {
    RetryThenRotateEnds();
    OvertakenFields();
    StaleReply();
    StaleRunEnds();
    TwiceRotatedFields();
    ThreeKeys(TwiceRotated());
  }

  lemma {:induction false} StaleReply()
    ensures Overwrites(Overtaken(), Reply(A, "Q1")) && Revives(Overtaken(), Reply(A, "Q1"))
  {
    OvertakenFields();
    var x := Sent(CART, 1, K2);
    assert x in Claims(Overtaken());
    assert Epoch(Overtaken(), CART) == 1;
  }

  lemma {:induction false} StaleRunEnds()
    ensures Run(Start(INITIAL), StaleRun()) == TwiceRotated()
  {
    RetryThenRotateEnds();
    RunThree(Start(INITIAL), RetryThenRotate(), [Reply(A, "Q1")], Rotate(B, K3));
    Run1(Overtaken(), Reply(A, "Q1"));
    TwiceRotatedFields();
    RotateSends(Step(Overtaken(), Reply(A, "Q1")), B, K3, K1, "Q1");
  }

  lemma {:induction false} ThreeKeys(w: World)
    requires exists n :: w.sent == {Sent(CART, 0, K1), Sent(CART, 1, K2), Sent(CART, n, K3)}
    requires w.retired == {(CART, "Q1")}
    ensures {K1, K2, K3} <= SentKeys(w, CART) && RetiredFor(w, CART) == {"Q1"}
  {
    var n :| w.sent == {Sent(CART, 0, K1), Sent(CART, 1, K2), Sent(CART, n, K3)};
    assert Sent(CART, 0, K1) in w.sent && Sent(CART, 1, K2) in w.sent && Sent(CART, n, K3) in w.sent;
  }
}
