/** Every interleaving of recording, sending, acknowledging and reloading, over any number of tabs. */
module PaymentRuns {
  import opened Common
  import opened PaymentQueue

  /** Shared storage, the memory of each tab, and every pair that was sent to the server. */
  datatype World = World(stored: Entries, memory: nat -> Entries, sent: set<Submission>)

  datatype Event =
    | Remember(tab: nat, v: Submission)
    | Send(tab: nat, k: Key)
    | Ack(tab: nat, saved: Submission)
    | Reload(tab: nat)

  const START: World := World(map[], (t: nat) => map[], {})

  function Update(m: nat -> Entries, t: nat, e: Entries): nat -> Entries { (u: nat) => if u == t then e else m(u) }

  /** The server acknowledges only what was sent to it. */
  function Step(w: World, e: Event): World {
    match e
    case Remember(t, v) =>
      if Verdict(w.memory(t), w.stored, v).Recorded? then
        var next := Merged(w.memory(t), w.stored, v);
        World(w.stored[KeyOf(v) := next], Update(w.memory, t, w.memory(t)[KeyOf(v) := next]), w.sent)
      else w
    case Send(t, k) =>
      (match Seen(w.memory(t), w.stored, k)
       case None => w
       case Some(c) => w.(sent := w.sent + {c}))
    case Ack(t, saved) =>
      if saved in w.sent && Removes(w.memory(t), w.stored, saved) then
        World(w.stored - {KeyOf(saved)}, Update(w.memory, t, w.memory(t) - {KeyOf(saved)}), w.sent)
      else w
    case Reload(t) => w.(memory := Update(w.memory, t, map[]))
  }

  function Run(events: seq<Event>): World {
    if events == [] then START else Step(Run(events[..|events| - 1]), events[|events| - 1])
  }

  /** For the order with this key the caller supplies identifiers that reading storage back accepts. */
  predicate WellSupplied(e: Event, k: Key) { e.Remember? && KeyOf(e.v) == k ==> WellFormed(e.v) }

  /** What storage and every memory hold under the key reads back. */
  ghost predicate Sound(w: World, k: Key) {
    (k in w.stored ==> Readable(k, w.stored[k], k.owner)) && (forall t: nat :: k in w.memory(t) ==> Readable(k, w.memory(t)[k], k.owner))
  }

  lemma {:induction false} SeenSound(w: World, t: nat, k: Key)
    requires Sound(w, k)
    ensures k in w.stored ==> Seen(w.memory(t), w.stored, k) == Some(w.stored[k])
    ensures Seen(w.memory(t), w.stored, k).Some? ==> Readable(k, Seen(w.memory(t), w.stored, k).value, k.owner)
  {
  }

  lemma {:induction false} StepSound(w: World, e: Event, k: Key)
    requires Sound(w, k) && WellSupplied(e, k)
    ensures Sound(Step(w, e), k)
  {
    if e.Remember? && KeyOf(e.v) == k { SeenSound(w, e.tab, k); }
  }

  lemma {:induction false} RunSound(events: seq<Event>, k: Key)
    requires forall i :: 0 <= i < |events| ==> WellSupplied(events[i], k)
    ensures Sound(Run(events), k)
  {
    if events != [] {
      RunSound(events[..|events| - 1], k);
      StepSound(Run(events[..|events| - 1]), events[|events| - 1], k);
    }
  }

  lemma {:induction false} PrefixSound(events: seq<Event>, n: nat, k: Key)
    requires n <= |events| && forall i :: 0 <= i < |events| ==> WellSupplied(events[i], k)
    ensures Sound(Run(events[..n]), k)
  {
    RunSound(events[..n], k);
  }

  // ---- what one step may do to a stored entry

  /** The later entry has every identifier the earlier one had. */
  predicate Extends(later: Submission, earlier: Submission) {
    (earlier.hash != "" ==> later.hash == earlier.hash) && (earlier.swapId != "" ==> later.swapId == earlier.swapId)
  }

  /** An acknowledgement of exactly the identifiers stored under the key, which were sent before. */
  predicate Acknowledges(w: World, e: Event, k: Key) {
    e.Ack? && e.saved in w.sent && KeyOf(e.saved) == k && k in w.stored
    && e.saved.hash == w.stored[k].hash && e.saved.swapId == w.stored[k].swapId
  }

  /** A stored entry leaves storage exactly by an acknowledgement of its own pair; otherwise it only grows. */
  lemma {:induction false} StepKeepsIff(w: World, e: Event, k: Key)
    requires Sound(w, k) && WellSupplied(e, k) && k in w.stored
    ensures k !in Step(w, e).stored <==> Acknowledges(w, e, k)
    ensures k in Step(w, e).stored ==> Extends(Step(w, e).stored[k], w.stored[k])
  {
    SeenSound(w, e.tab, k);
  }

  /** A conflicting identifier is refused by every tab, and nothing changes. */
  lemma {:induction false} ConflictRefused(w: World, t: nat, v: Submission)
    requires Sound(w, KeyOf(v)) && KeyOf(v) in w.stored && v.owner != "" && v.id != ""
    requires Clash(w.stored[KeyOf(v)].hash, v.hash) || Clash(w.stored[KeyOf(v)].swapId, v.swapId)
    ensures Verdict(w.memory(t), w.stored, v) == Conflict && Step(w, Remember(t, v)) == w
  {
    SeenSound(w, t, KeyOf(v));
  }

  // ---- whole runs

  predicate RecordedAt(events: seq<Event>, i: nat)
    requires i < |events|
  {
    events[i].Remember? && Verdict(Run(events[..i]).memory(events[i].tab), Run(events[..i]).stored, events[i].v).Recorded?
  }

  /** Between i and n an acknowledgement of an entry carrying the identifiers of v. */
  predicate AcknowledgedIn(events: seq<Event>, i: nat, n: nat, v: Submission)
    requires n <= |events|
  {
    exists j :: i <= j < n && AckOf(events, j, v)
  }

  predicate AckOf(events: seq<Event>, j: nat, v: Submission)
    requires j < |events|
  {
    Acknowledges(Run(events[..j]), events[j], KeyOf(v)) && Extends(events[j].saved, v)
  }

  /** Every tab shows an entry that carries the identifiers of v. */
  ghost predicate Visible(w: World, v: Submission) {
    forall t: nat :: ShownBy(w, t, v)
  }

  predicate ShownBy(w: World, t: nat, v: Submission) {
    var c := Seen(w.memory(t), w.stored, KeyOf(v));
    c.Some? && Extends(c.value, v)
  }

  lemma {:induction false} HeldOrAcknowledged(events: seq<Event>, i: nat, n: nat)
    requires i < n <= |events| && RecordedAt(events, i)
    requires forall j :: 0 <= j < |events| ==> WellSupplied(events[j], KeyOf(events[i].v))
    ensures Held(Run(events[..n]), events[i].v) || AcknowledgedIn(events, i + 1, n, events[i].v)
    decreases n
  {
    var v := events[i].v;
    PrefixSound(events, n - 1, KeyOf(v));
    if i == n - 1 {
      RecordedHeld(events, i);
    } else {
      HeldOrAcknowledged(events, i, n - 1);
      if AcknowledgedIn(events, i + 1, n - 1, v) {
        AckStays(events, i + 1, n, v);
      } else {
        HeldStep(events, n, v);
        if AckOf(events, n - 1, v) { AckLast(events, i + 1, n, v); }
      }
    }
  }

  lemma {:induction false} AckStays(events: seq<Event>, i: nat, n: nat, v: Submission)
    requires 0 < n <= |events| && AcknowledgedIn(events, i, n - 1, v)
    ensures AcknowledgedIn(events, i, n, v)
  {
    var j :| i <= j < n - 1 && AckOf(events, j, v);
    assert i <= j < n && AckOf(events, j, v);
  }

  lemma {:induction false} AckLast(events: seq<Event>, i: nat, n: nat, v: Submission)
    requires i < n <= |events| && AckOf(events, n - 1, v)
    ensures AcknowledgedIn(events, i, n, v)
  {
  }

  lemma {:induction false} RecordedHeld(events: seq<Event>, i: nat)
    requires i < |events| && RecordedAt(events, i) && Sound(Run(events[..i]), KeyOf(events[i].v))
    ensures Held(Run(events[..i + 1]), events[i].v)
  {
    RunSnoc(events, i + 1);
    SeenSound(Run(events[..i]), events[i].tab, KeyOf(events[i].v));
  }

  lemma {:induction false} HeldStep(events: seq<Event>, n: nat, v: Submission)
    requires 0 < n <= |events| && WellSupplied(events[n - 1], KeyOf(v))
    requires Sound(Run(events[..n - 1]), KeyOf(v)) && Held(Run(events[..n - 1]), v)
    ensures Held(Run(events[..n]), v) || AckOf(events, n - 1, v)
  {
    RunSnoc(events, n);
    StepKeepsIff(Run(events[..n - 1]), events[n - 1], KeyOf(v));
  }

  /**
   Over every run that is well supplied for one order, whatever other orders record, the
   identifiers of its accepted record are either in what every tab shows, unchanged, or were
   acknowledged by the server as sent.
   */
  lemma {:induction false} IdentifiersNeverLost(events: seq<Event>, i: nat)
    requires i < |events| && RecordedAt(events, i)
    requires forall j :: 0 <= j < |events| ==> WellSupplied(events[j], KeyOf(events[i].v))
    ensures Visible(Run(events), events[i].v) || AcknowledgedIn(events, i + 1, |events|, events[i].v)
  {
    assert events[..|events|] == events;
    HeldOrAcknowledged(events, i, |events|);
    RunSound(events, KeyOf(events[i].v));
    if Held(Run(events), events[i].v) { StoredVisible(Run(events), events[i].v); }
  }

  /** Storage holds an entry that carries the identifiers of v. */
  predicate Held(w: World, v: Submission) { KeyOf(v) in w.stored && Extends(w.stored[KeyOf(v)], v) }

  lemma {:induction false} RunSnoc(events: seq<Event>, n: nat)
    requires 0 < n <= |events|
    ensures Run(events[..n]) == Step(Run(events[..n - 1]), events[n - 1])
  {
    assert events[..n][..n - 1] == events[..n - 1];
  }

  lemma {:induction false} StoredVisible(w: World, v: Submission)
    requires Sound(w, KeyOf(v)) && Held(w, v)
    ensures Visible(w, v)
  {
    forall t: nat ensures ShownBy(w, t, v) { SeenSound(w, t, KeyOf(v)); }
  }

  // ---- the identifiers must be well formed

  /** A recorded entry survives a reload of its tab exactly when reading storage accepts it. */
  lemma {:induction false} SurvivesReloadIff(w: World, t: nat, v: Submission)
    requires Verdict(w.memory(t), w.stored, v).Recorded?
    ensures var w' := Step(Step(w, Remember(t, v)), Reload(t));
      Seen(w'.memory(t), w'.stored, KeyOf(v)).Some? <==> WellFormed(Merged(w.memory(t), w.stored, v))
  {
  }

  /** A malformed hash recorded in one tab is overwritten from another, and the first tab then shows the other one. */
  lemma {:induction false} MalformedIsLost()
    ensures var first := Submission("o", "q", "not a hash", "", 1);
      var second := Submission("o", "q", "", "swap", 2);
      RecordedAt([Remember(0, first), Remember(1, second)], 0) &&
      Seen(Run([Remember(0, first), Remember(1, second)]).memory(0), Run([Remember(0, first), Remember(1, second)]).stored, Key("o", "q"))
        == Some(second)
  {
    var first, second := Submission("o", "q", "not a hash", "", 1), Submission("o", "q", "", "swap", 2);
    var events := [Remember(0, first), Remember(1, second)];
    assert events[..0] == [] && events[..1] == [Remember(0, first)] && events[..1][..0] == [];
    assert !IsHash("not a hash");
    var w := Run(events[..1]);
    assert Run([]) == START && w == Step(Run([]), Remember(0, first));
    assert Verdict(w.memory(1), w.stored, second) == Recorded;
    assert Run(events) == Step(w, Remember(1, second));
  }
}
