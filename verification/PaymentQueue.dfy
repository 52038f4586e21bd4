/** The durable queue of payment identifiers: one memory per tab in front of one shared storage. */
module PaymentQueue {
  import opened Common

  datatype Submission = Submission(owner: string, id: string, hash: string, swapId: string, recordedAt: int)

  /**
   A storage key. The text of a key escapes owner and id, so it decides both; an absent
   swap id is the empty string.
   */
  datatype Key = Key(owner: string, id: string)

  type Entries = map<Key, Submission>

  function KeyOf(v: Submission): Key { Key(v.owner, v.id) }

  predicate IsHex(c: char) { '0' <= c <= '9' || 'a' <= c <= 'f' || 'A' <= c <= 'F' }

  predicate HexDigits(d: string) { |d| == 64 && forall i :: 0 <= i < 64 ==> IsHex(d[i]) }

  /** Sixty-four hexadecimal digits, with or without 0x. */
  predicate IsHash(h: string) {
    HexDigits(if |h| >= 2 && h[0] == '0' && (h[1] == 'x' || h[1] == 'X') then h[2..] else h)
  }

  predicate WellFormed(v: Submission) { (v.hash == "" || IsHash(v.hash)) && |v.swapId| <= 256 }

  /** What reading an entry of storage accepts. */
  predicate Readable(k: Key, v: Submission, owner: string) {
    k.owner == owner && v.owner == owner && k == KeyOf(v) && WellFormed(v)
  }

  /** The entries one tab sees for an owner: storage over memory. */
  function View(memory: Entries, stored: Entries, owner: string): (r: Entries)
    ensures forall k :: k in stored && Readable(k, stored[k], owner) ==> k in r && r[k] == stored[k]
    ensures forall k :: k in memory && memory[k].owner == owner && !(k in stored && Readable(k, stored[k], owner)) ==> k in r && r[k] == memory[k]
    ensures forall k :: k in r ==> (k in stored && Readable(k, stored[k], owner)) || (k in memory && memory[k].owner == owner)
  {
    Selected(memory, Owned(memory, owner)) + Selected(stored, Accepted(stored, owner))
  }

  function Selected(source: Entries, accept: Key -> bool): Entries {
    map k | k in source && accept(k) :: source[k]
  }

  function Owned(memory: Entries, owner: string): Key -> bool { k => k in memory && memory[k].owner == owner }

  function Accepted(stored: Entries, owner: string): Key -> bool { k => k in stored && Readable(k, stored[k], owner) }

  function Seen(memory: Entries, stored: Entries, k: Key): Option<Submission> {
    var view := View(memory, stored, k.owner);
    if k in view then Some(view[k]) else None
  }

  predicate Clash(a: string, b: string) { a != "" && b != "" && a != b }

  function Or(a: string, b: string): string { if a != "" then a else b }

  datatype Outcome = Recorded | Ignored | Conflict

  function Verdict(memory: Entries, stored: Entries, v: Submission): Outcome {
    if v.owner == "" || v.id == "" || (v.hash == "" && v.swapId == "") then Ignored
    else match Seen(memory, stored, KeyOf(v))
      case None => Recorded
      case Some(p) => if Clash(p.hash, v.hash) || Clash(p.swapId, v.swapId) then Conflict else Recorded
  }

  /** The entry a recorded value becomes. */
  function Merged(memory: Entries, stored: Entries, v: Submission): Submission {
    match Seen(memory, stored, KeyOf(v))
    case None => v
    case Some(p) => v.(hash := Or(v.hash, p.hash), swapId := Or(v.swapId, p.swapId),
                       recordedAt := if p.recordedAt != 0 then p.recordedAt else v.recordedAt)
  }

  /** Whether an acknowledgement of saved removes the entry: only when it is what the tab sees. */
  predicate Removes(memory: Entries, stored: Entries, saved: Submission) {
    match Seen(memory, stored, KeyOf(saved))
    case None => false
    case Some(c) => c.hash == saved.hash && c.swapId == saved.swapId
  }

  // ---- the objects of the browser

  /** Goes over the entries of one source and puts the accepted ones over what is already there. */
  method Select(source: Entries, accept: Key -> bool, base: Entries) returns (entries: Entries)
    ensures entries == base + Selected(source, accept)
  {
    entries := base;
    var rest := source.Keys;
    while exists k :: k in rest
      decreases rest
      invariant rest <= source.Keys
      invariant entries == base + (map k | k in source && k !in rest && accept(k) :: source[k])
    {
      var k :| k in rest;
      if accept(k) { entries := entries[k := source[k]]; }
      rest := rest - {k};
    }
  }

  class SharedStorage {
    var entries: Entries
    constructor ()
      ensures entries == map[]
    {
      entries := map[];
    }
  }

  class Tab {
    const storage: SharedStorage
    var memory: Entries

    constructor (storage: SharedStorage)
      ensures this.storage == storage && memory == map[]
    {
      this.storage := storage;
      memory := map[];
    }

    method PendingSubmissions(owner: string) returns (entries: Entries)
      ensures entries == View(memory, storage.entries, owner)
    {
      entries := Select(memory, Owned(memory, owner), map[]);
      assert entries == Selected(memory, Owned(memory, owner));
      entries := Select(storage.entries, Accepted(storage.entries, owner), entries);
    }

    method RememberSubmission(v: Submission) returns (outcome: Outcome)
      modifies this, storage
      ensures outcome == Verdict(old(memory), old(storage.entries), v)
      ensures outcome.Recorded? ==>
        var next := Merged(old(memory), old(storage.entries), v);
        memory == old(memory)[KeyOf(v) := next] && storage.entries == old(storage.entries)[KeyOf(v) := next]
      ensures !outcome.Recorded? ==> memory == old(memory) && storage.entries == old(storage.entries)
    {
      if v.owner == "" || v.id == "" || (v.hash == "" && v.swapId == "") { return Ignored; }
      var key := KeyOf(v);
      var pending := PendingSubmissions(v.owner);
      var next := v;
      if key in pending {
        var previous := pending[key];
        if (previous.hash != "" && v.hash != "" && previous.hash != v.hash)
          || (previous.swapId != "" && v.swapId != "" && previous.swapId != v.swapId) {
          return Conflict;
        }
        next := v.(hash := Or(v.hash, previous.hash), swapId := Or(v.swapId, previous.swapId),
                   recordedAt := if previous.recordedAt != 0 then previous.recordedAt else v.recordedAt);
      }
      memory := memory[key := next];
      storage.entries := storage.entries[key := next];
      outcome := Recorded;
    }

    method ForgetSubmission(saved: Submission)
      modifies this, storage
      ensures Removes(old(memory), old(storage.entries), saved) ==>
        memory == old(memory) - {KeyOf(saved)} && storage.entries == old(storage.entries) - {KeyOf(saved)}
      ensures !Removes(old(memory), old(storage.entries), saved) ==> memory == old(memory) && storage.entries == old(storage.entries)
    {
      var pending := PendingSubmissions(saved.owner);
      var key := KeyOf(saved);
      if key !in pending || pending[key].hash != saved.hash || pending[key].swapId != saved.swapId { return; }
      memory := memory - {key};
      storage.entries := storage.entries - {key};
    }
  }
}
