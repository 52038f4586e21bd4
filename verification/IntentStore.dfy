/**
 Browser storage as the checkout uses it: `loadOrCreateIntent`, `saveIntentQuote`,
 `forgetIntent` and the downward loop of `releaseIntentForQuote`. Storage is an
 ordered list of entries, because the loop walks it by position.
 */
module IntentStore {
  import opened Common
  import opened Utf16

  type Key = string
  type Quote = string
  datatype Result<T> = Ok(value: T) | Invalid

  /** `quoteId` is the order the key produced, once the shop has answered. */
  datatype Intent = Intent(key: Key, quoteId: Option<Quote>)

  /** `Checkout(scope)` is the fixed prefix followed by the SHA-256 of the scope, taken to be injective. */
  datatype StorageKey = Checkout(scope: Text) | Foreign(name: string)
  datatype Entry = CheckoutEntry(scope: Text, intent: Intent) | ForeignEntry(name: string, text: string)

  function KeyOf(e: Entry): StorageKey {
    match e
    case CheckoutEntry(scope, _) => Checkout(scope)
    case ForeignEntry(name, _) => Foreign(name)
  }

  const MIN_KEY_LENGTH := 16

  // ---- the effect of each operation on the checkout entries, as a map

  type Intents = map<Text, Intent>

  function Loaded(m: Intents, scope: Text, proposed: Key): Intents {
    if scope in m then m else m[scope := Intent(proposed, None)]
  }

  function Saved(m: Intents, scope: Text, intent: Intent, quote: Quote): Intents {
    m[scope := intent.(quoteId := Some(quote))]
  }

  function Forgotten(m: Intents, scope: Text): Intents { m - {scope} }

  function Released(m: Intents, quote: Quote): Intents {
    map scope | scope in m && m[scope].quoteId != Some(quote) :: m[scope]
  }

  // ---- lists of entries

  ghost predicate Distinct(es: seq<Entry>) {
    forall i, j :: 0 <= i < j < |es| ==> KeyOf(es[i]) != KeyOf(es[j])
  }

  function Position(es: seq<Entry>, k: StorageKey): (i: nat)
    ensures i <= |es|
    ensures i < |es| ==> KeyOf(es[i]) == k
    ensures forall j :: 0 <= j < i ==> KeyOf(es[j]) != k
  {
    if es == [] then 0 else if KeyOf(es[0]) == k then 0 else 1 + Position(es[1..], k)
  }

  /** The checkout entries of a list, as a map. */
  ghost function IntentsOf(es: seq<Entry>): Intents {
    if es == [] then map[]
    else
      var rest := IntentsOf(es[1..]);
      match es[0]
      case CheckoutEntry(scope, intent) => rest[scope := intent]
      case ForeignEntry(_, _) => rest
  }

  lemma {:induction false} IntentsMember(es: seq<Entry>)
    requires Distinct(es)
    ensures forall s :: s in IntentsOf(es) ==> CheckoutEntry(s, IntentsOf(es)[s]) in es
    ensures forall e :: e in es && e.CheckoutEntry? ==> e.scope in IntentsOf(es) && IntentsOf(es)[e.scope] == e.intent
  {
    if es != [] {
      IntentsMember(es[1..]);
      forall e | e in es && e.CheckoutEntry?
        ensures e.scope in IntentsOf(es) && IntentsOf(es)[e.scope] == e.intent
      {
        if e != es[0] {
          var j :| 1 <= j < |es| && es[j] == e;
          assert es[1..][j - 1] == e;
          assert KeyOf(es[0]) != KeyOf(es[j]);
        }
      }
    }
  }

  /** Two distinct lists with the same checkout entries mean the same map. */
  lemma {:induction false} SameIntents(es: seq<Entry>, m: Intents)
    requires Distinct(es)
    requires forall s, i :: CheckoutEntry(s, i) in es <==> s in m && m[s] == i
    ensures IntentsOf(es) == m
  {
    IntentsMember(es);
    forall s | s in m ensures s in IntentsOf(es) && IntentsOf(es)[s] == m[s] {
      assert CheckoutEntry(s, m[s]) in es;
    }
    forall s | s in IntentsOf(es) ensures s in m {
      assert CheckoutEntry(s, IntentsOf(es)[s]) in es;
    }
  }

  /** What a release leaves behind: every entry but the checkouts of that order. */
  function Surviving(es: seq<Entry>, quote: Quote): seq<Entry> {
    if es == [] then []
    else
      (if es[0].CheckoutEntry? && es[0].intent.quoteId == Some(quote) then [] else [es[0]]) + Surviving(es[1..], quote)
  }

  lemma {:induction false} SurvivingMembers(es: seq<Entry>, quote: Quote)
    ensures forall e :: e in Surviving(es, quote) <==> e in es && !(e.CheckoutEntry? && e.intent.quoteId == Some(quote))
  {
    if es != [] { SurvivingMembers(es[1..], quote); }
  }

  lemma {:induction false} SurvivingDistinct(es: seq<Entry>, quote: Quote)
    requires Distinct(es)
    ensures Distinct(Surviving(es, quote))
  {
    if es != [] {
      SurvivingDistinct(es[1..], quote);
      SurvivingMembers(es[1..], quote);
      var rest := Surviving(es[1..], quote);
      forall j | 0 <= j < |rest| ensures KeyOf(rest[j]) != KeyOf(es[0]) {
        assert rest[j] in es[1..];
      }
    }
  }

  lemma {:induction false} SurvivingReleases(es: seq<Entry>, quote: Quote)
    requires Distinct(es)
    ensures IntentsOf(Surviving(es, quote)) == Released(IntentsOf(es), quote)
  {
    SurvivingDistinct(es, quote);
    SurvivingMembers(es, quote);
    IntentsMember(es);
    var m := Released(IntentsOf(es), quote);
    forall s, i ensures CheckoutEntry(s, i) in Surviving(es, quote) <==> s in m && m[s] == i {
      assert CheckoutEntry(s, i) in es <==> s in IntentsOf(es) && IntentsOf(es)[s] == i;
    }
    SameIntents(Surviving(es, quote), m);
  }

  /** Writing an entry over the one with its key, or at the end. */
  function Put(es: seq<Entry>, e: Entry): seq<Entry> {
    var p := Position(es, KeyOf(e));
    if p < |es| then es[p := e] else es + [e]
  }

  lemma {:induction false} PutMembers(es: seq<Entry>, e: Entry)
    requires Distinct(es)
    ensures Distinct(Put(es, e))
    ensures forall f :: f in Put(es, e) <==> f == e || (f in es && KeyOf(f) != KeyOf(e))
  {
    var p, after := Position(es, KeyOf(e)), Put(es, e);
    assert after[p] == e;
    forall f | f in es && KeyOf(f) != KeyOf(e) ensures f in after {
      var j :| 0 <= j < |es| && es[j] == f;
      assert after[j] == f;
    }
  }

  lemma {:induction false} PutMeans(es: seq<Entry>, e: Entry)
    requires Distinct(es) && e.CheckoutEntry?
    ensures Distinct(Put(es, e)) && IntentsOf(Put(es, e)) == IntentsOf(es)[e.scope := e.intent]
    ensures forall f :: f in Put(es, e) && f.ForeignEntry? <==> f in es && f.ForeignEntry?
  {
    PutMembers(es, e);
    IntentsMember(es);
    SameIntents(Put(es, e), IntentsOf(es)[e.scope := e.intent]);
  }

  /** The list while the walk has position i behind it: untouched up to i, survivors from there. */
  function Walked(es: seq<Entry>, i: nat, quote: Quote): seq<Entry>
    requires i <= |es|
  {
    es[..i] + Surviving(es[i..], quote)
  }

  lemma {:induction false} ReleaseStep(es: seq<Entry>, i: nat, quote: Quote)
    requires i < |es|
    ensures var all := Walked(es, i + 1, quote);
      i < |all| && all[i] == es[i] &&
      Walked(es, i, quote) ==
        if es[i].CheckoutEntry? && es[i].intent.quoteId == Some(quote) then all[..i] + all[i + 1..] else all
  {
    assert Walked(es, i + 1, quote) == es[..i] + ([es[i]] + Surviving(es[i + 1..], quote));
  }

  class BrowserStorage {
    var entries: seq<Entry>

    ghost predicate Valid()
      reads this
    {
      Distinct(entries)
    }

    ghost function Checkouts(): Intents
      reads this
    {
      IntentsOf(entries)
    }

    constructor ()
      ensures Valid() && entries == []
    {
      entries := [];
    }

    method SetItem(e: Entry)
      requires Valid() && e.CheckoutEntry?
      modifies this
      ensures Valid() && Checkouts() == old(Checkouts())[e.scope := e.intent]
      ensures forall f :: f in entries && f.ForeignEntry? <==> f in old(entries) && f.ForeignEntry?
    {
      var p := Position(entries, KeyOf(e));
      PutMeans(entries, e);
      entries := if p < |entries| then entries[p := e] else entries + [e];
    }

    method RemoveItem(k: StorageKey)
      requires Valid()
      modifies this
      ensures Valid()
      ensures var p := Position(old(entries), k);
        entries == if p < |old(entries)| then old(entries)[..p] + old(entries)[p + 1..] else old(entries)
    {
      var p := Position(entries, k);
      if p < |entries| {
        entries := entries[..p] + entries[p + 1..];
      }
    }

    /** The stored key of the scope, minted and written first when there is none. */
    method LoadOrCreate(scope: Text, proposed: Key) returns (r: Result<Intent>)
      requires Valid()
      modifies this
      ensures Valid() && Checkouts() == Loaded(old(Checkouts()), scope, proposed)
      ensures scope in Checkouts()
      ensures scope in old(Checkouts()) ==> entries == old(entries)
      ensures r == if scope in old(Checkouts()) && |Checkouts()[scope].key| < MIN_KEY_LENGTH then Invalid
                   else Ok(Checkouts()[scope])
    {
      IntentsMember(entries);
      var p := Position(entries, Checkout(scope));
      if p < |entries| {
        assert entries[p] in entries;
        var intent := entries[p].intent;
        if |intent.key| < MIN_KEY_LENGTH {
          return Invalid;
        }
        return Ok(intent);
      }
      assert scope !in Checkouts();
      var intent := Intent(proposed, None);
      SetItem(CheckoutEntry(scope, intent));
      return Ok(intent);
    }

    method SaveQuote(scope: Text, intent: Intent, quote: Quote)
      requires Valid()
      modifies this
      ensures Valid() && Checkouts() == Saved(old(Checkouts()), scope, intent, quote)
    {
      SetItem(CheckoutEntry(scope, intent.(quoteId := Some(quote))));
    }

    method Forget(scope: Text)
      requires Valid()
      modifies this
      ensures Valid() && Checkouts() == Forgotten(old(Checkouts()), scope)
    {
      ghost var before := entries;
      IntentsMember(before);
      RemoveItem(Checkout(scope));
      ghost var m := Forgotten(IntentsOf(before), scope);
      forall s, i ensures CheckoutEntry(s, i) in entries <==> s in m && m[s] == i {
        var p := Position(before, Checkout(scope));
        RemovedMembers(before, p, CheckoutEntry(s, i));
        assert CheckoutEntry(s, i) in before <==> s in IntentsOf(before) && IntentsOf(before)[s] == i;
      }
      SameIntents(entries, m);
    }

    /** Walks the storage from its end, so removing an entry never skips another. */
    method ReleaseForQuote(quote: Quote)
      requires Valid()
      modifies this
      ensures Valid() && entries == Surviving(old(entries), quote)
      ensures Checkouts() == Released(old(Checkouts()), quote)
    {
      ghost var before := entries;
      SurvivingDistinct(before, quote);
      SurvivingReleases(before, quote);
      var i := |entries|;
      while i > 0
        invariant 0 <= i <= |before| && Valid()
        invariant entries == Walked(before, i, quote)
      {
        i := i - 1;
        var e := entries[i];
        ReleaseStep(before, i, quote);
        if e.CheckoutEntry? && e.intent.quoteId == Some(quote) {
          RemoveItem(KeyOf(e));
        }
      }
      assert before[0..] == before;
    }
  }

  lemma {:induction false} RemovedMembers(es: seq<Entry>, p: nat, e: Entry)
    requires Distinct(es) && p <= |es|
    ensures p < |es| ==> (e in es[..p] + es[p + 1..] <==> e in es && KeyOf(e) != KeyOf(es[p]))
  {
    if p < |es| && e in es && KeyOf(e) != KeyOf(es[p]) {
      var j :| 0 <= j < |es| && es[j] == e;
      assert j < p ==> es[..p][j] == e;
      assert j > p ==> es[p + 1..][j - p - 1] == e;
    }
  }
}
