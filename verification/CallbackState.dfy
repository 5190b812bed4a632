/** Single-use, expiring, purpose-bound callback states kept in one file. */
module CallbackState {
  import opened Wrappers

  const MAX_PENDING_STATES := 20
  const MAX_STATE_LENGTH := 256

  /** The SHA-256 digest of a state, as an injective wrapper. */
  datatype Digest = Digest(of: string)

  /**
   One stored entry. The file may have been edited by hand, so each field may be missing or of the
   wrong type: no purpose matches none, no data reads as empty, no expiry reads as minus infinity.
   */
  datatype Entry = Entry(purpose: Option<string>, data: Option<map<string, string>>, expiry: Option<real>)

  /** What the file holds; a missing or malformed file holds nothing. */
  type File = map<Digest, Entry>

  datatype Error = BlankPurpose | NotSaved

  predicate Expired(e: Entry, now: real) {
    e.expiry.None? || e.expiry.value <= now
  }

  /** `a` expires no later than `b`. */
  predicate NoLater(a: Entry, b: Entry) {
    a.expiry.None? || (b.expiry.Some? && a.expiry.value <= b.expiry.value)
  }

  /** The data handed back with an honoured state. */
  function Carried(e: Entry): map<string, string> {
    match e.data
    case None => map[]
    case Some(data) => data
  }

  function Live(entries: File, now: real): File {
    map d | d in entries && !Expired(entries[d], now) :: entries[d]
  }

  predicate Refused(state: string) {
    state == "" || |state| > MAX_STATE_LENGTH
  }

  /** A read that fails shows no entries. */
  function Read(file: File, readable: bool): File {
    if readable then file else map[]
  }

  // ---- what one call does to the file ----

  /** `kept` is `entries` without its first expiries, down to the cap; on a tie the entry just added stays. */
  ghost predicate Evicted(entries: File, added: Digest, kept: File, max: nat) {
    && kept.Keys <= entries.Keys && (forall d | d in kept :: kept[d] == entries[d])
    && |kept| == (if |entries| > max then max else |entries|)
    && forall d, k | d in entries && d !in kept && k in kept ::
         NoLater(entries[d], kept[k]) && (d == added ==> !NoLater(kept[k], entries[d]))
  }

  ghost predicate IssueStep(before: File, after: File, state: string, entry: Entry, now: real, readable: bool,
                            saved: bool) {
    if saved then
      Evicted(Live(Read(before, readable), now)[Digest(state) := entry], Digest(state), after, MAX_PENDING_STATES)
    else after == before
  }

  function AfterConsume(before: File, state: string, now: real, readable: bool, saved: bool): File {
    if Refused(state) || !readable || !saved then before else Live(before - {Digest(state)}, now)
  }

  /** The consume is honoured: its state was stored for this purpose, unexpired, and its removal was saved. */
  predicate Honoured(before: File, purpose: string, state: string, checked: real, readable: bool, saved: bool) {
    var d := Digest(state);
    !Refused(state) && readable && saved && d in before && before[d].purpose == Some(purpose)
        && !Expired(before[d], checked)
  }

  /** The store; two stores over one file share a lock, so every call below is one step on the file. */
  class Store {
    const ttl: real
    var file: File

    constructor (ttl: real, file: File)
      requires ttl > 0.0
      ensures this.ttl == ttl && this.file == file
    {
      this.ttl := ttl;
      this.file := file;
    }

    /**
     Creates and stores `state`, a fresh random value. `asked` and `now` are the two clock readings;
     `readable` and `saved` say whether the file could be read and written.
     */
    method Issue(purpose: string, data: map<string, string>, state: string, asked: real, now: real, readable: bool,
                 saved: bool)
      returns (r: Result<string, Error>)
      requires Digest(state) !in file
      modifies this`file
      ensures purpose == "" ==> r == Err(BlankPurpose) && file == old(file)
      ensures purpose != "" ==> r == (if saved then Ok(state) else Err(NotSaved))
      ensures purpose != "" ==> IssueStep(old(file), file, state, Entry(Some(purpose), Some(data), Some(asked + ttl)),
        now, readable, saved)
    {
      if purpose == "" { return Err(BlankPurpose); }
      var d, entry := Digest(state), Entry(Some(purpose), Some(data), Some(asked + ttl));
      var entries := Live(Read(file, readable), now)[d := entry];
      ghost var all := entries;
      if |entries| > MAX_PENDING_STATES {
        entries := DropOldest(entries, d, MAX_PENDING_STATES);
      }
      if !saved { return Err(NotSaved); }
      file := entries;
      r := Ok(state);
    }

    /** Deletes the first expiries until `max` entries are left. */
    method DropOldest(entries: File, added: Digest, max: nat) returns (kept: File)
      requires |entries| > max
      ensures Evicted(entries, added, kept, max)
    {
      kept := entries;
      while |kept| > max
        invariant |kept| >= max
        invariant Evicted(entries, added, kept, |kept|)
        decreases |kept|
      {
        OldestExists(kept, kept.Keys, added);
        var oldest :| IsOldest(kept, kept.Keys, oldest, added);
        EvictOne(entries, added, kept, oldest);
        kept := kept - {oldest};
      }
    }

    /**
     Removes `state` and returns its data when it was issued for `purpose` and has not expired.
     `now` and `checked` are the clock readings before and after the file is written.
     */
    method Consume(purpose: string, state: string, now: real, checked: real, readable: bool, saved: bool)
      returns (r: Option<map<string, string>>)
      modifies this`file
      ensures file == AfterConsume(old(file), state, now, readable, saved)
      ensures r.Some? <==> Honoured(old(file), purpose, state, checked, readable, saved)
      ensures r.Some? <==>
                && 0 < |state| <= 256 && readable && saved && Digest(state) in old(file)
                && var entry := old(file)[Digest(state)];
                entry.purpose == Some(purpose) && entry.expiry.Some? && checked < entry.expiry.value
      ensures r.Some? ==>
                var entry := old(file)[Digest(state)];
                r.value == if entry.data.Some? then entry.data.value else map[]
    {
      if Refused(state) { return None; }
      var d := Digest(state);
      var all := Read(file, readable);
      var entries := all - {d};
      var live := Live(entries, now);
      if d in all || |live| != |entries| {
        if !saved { return None; }
        file := live;
      } else {
        NothingExpired(entries, now);
        assert entries == all;
      }
      if d !in all || all[d].purpose != Some(purpose) { return None; }
      if Expired(all[d], checked) { return None; }
      r := Some(Carried(all[d]));
    }
  }

  predicate IsOldest(entries: File, among: set<Digest>, d: Digest, added: Digest)
    requires among <= entries.Keys
  {
    d in among && forall k | k in among && k != d ::
        NoLater(entries[d], entries[k]) && (d == added ==> !NoLater(entries[k], entries[d]))
  }

  lemma {:induction false} OldestExists(entries: File, among: set<Digest>, added: Digest)
    requires among <= entries.Keys && among != {}
    ensures exists d :: IsOldest(entries, among, d, added)
    decreases |among|
  {
    var one :| one in among;
    var rest := among - {one};
    if rest == {} {
      assert forall k | k in among && k != one :: k in rest;
      assert IsOldest(entries, among, one, added);
    } else {
      OldestExists(entries, rest, added);
      var d :| IsOldest(entries, rest, d, added);
      var first := if !NoLater(entries[d], entries[one]) || (NoLater(entries[one], entries[d]) && d == added)
        then one else d;
      assert IsOldest(entries, among, first, added);
    }
  }

  lemma EvictOne(entries: File, added: Digest, kept: File, oldest: Digest)
    requires Evicted(entries, added, kept, |kept|) && IsOldest(kept, kept.Keys, oldest, added) && |kept| <= |entries|
    ensures Evicted(entries, added, kept - {oldest}, |kept| - 1)
  {
    var fewer := kept - {oldest};
    assert fewer.Keys == kept.Keys - {oldest};
  }

  lemma NothingExpired(entries: File, now: real)
    requires |Live(entries, now)| == |entries|
    ensures Live(entries, now) == entries
  {
    SameSizeSubset(Live(entries, now).Keys, entries.Keys);
  }

  lemma SameSizeSubset<T>(a: set<T>, b: set<T>)
    requires a <= b && |a| == |b|
    ensures a == b
  {
    if x :| x in b && x !in a {
      SubsetSize(a, b - {x});
    }
  }

  lemma {:induction false} SubsetSize<T>(a: set<T>, b: set<T>)
    requires a <= b
    ensures |a| <= |b|
    decreases |a|
  {
    if x :| x in a {
      SubsetSize(a - {x}, b - {x});
    }
  }
}
