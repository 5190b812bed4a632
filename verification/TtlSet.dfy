/** The webhook replay guard: a pruned set of recent keys that decides as the full history would. */
module TtlSet {
  datatype Entry = Entry(key: string, stamp: real)

  predicate Ordered(a: seq<Entry>) {
    forall i, j | 0 <= i < j < |a| :: a[i].stamp <= a[j].stamp
  }

  predicate DistinctKeys(a: seq<Entry>) {
    forall i, j | 0 <= i < j < |a| :: a[i].key != a[j].key
  }

  /** Stable sort by stamp, as the overflow branch asks for. */
  function SortByStamp(a: seq<Entry>): seq<Entry> {
    if a == [] then [] else Insert(a[0], SortByStamp(a[1..]))
  }

  function Insert(e: Entry, sorted: seq<Entry>): seq<Entry> {
    if sorted == [] || e.stamp <= sorted[0].stamp then [e] + sorted else [sorted[0]] + Insert(e, sorted[1..])
  }

  lemma {:induction false} SortOrdered(a: seq<Entry>)
    requires Ordered(a)
    ensures SortByStamp(a) == a
    decreases |a|
  {
    hide Ordered;
    if a != [] {
      var rest := a[1..];
      assert a == [a[0]] + rest;
      OrderedCons(a[0], rest);
      SortOrdered(rest);
      assert rest != [] ==> a[0].stamp <= rest[0].stamp;
    }
  }

  lemma OrderedCons(first: Entry, rest: seq<Entry>)
    ensures Ordered([first] + rest) <==> Ordered(rest) && forall i | 0 <= i < |rest| :: first.stamp <= rest[i].stamp
  {
    var a := [first] + rest;
    assert forall i | 0 <= i < |rest| :: a[i + 1] == rest[i];
    if Ordered(a) {
      forall i, j | 0 <= i < j < |rest| ensures rest[i].stamp <= rest[j].stamp {
        assert a[i + 1].stamp <= a[j + 1].stamp;
      }
      forall i | 0 <= i < |rest| ensures first.stamp <= rest[i].stamp { assert a[0].stamp <= a[i + 1].stamp; }
    }
    if Ordered(rest) && forall i | 0 <= i < |rest| :: first.stamp <= rest[i].stamp {
      forall i, j | 0 <= i < j < |a| ensures a[i].stamp <= a[j].stamp {
        assert a[j] == rest[j - 1] && (i > 0 ==> a[i] == rest[i - 1]);
      }
    }
  }

  lemma {:induction false} InsertAdds(e: Entry, sorted: seq<Entry>)
    ensures multiset(Insert(e, sorted)) == multiset{e} + multiset(sorted)
    decreases |sorted|
  {
    if sorted != [] && e.stamp > sorted[0].stamp {
      InsertAdds(e, sorted[1..]);
      assert sorted == [sorted[0]] + sorted[1..];
    }
  }

  lemma {:induction false} InsertKeepsOrder(e: Entry, sorted: seq<Entry>)
    requires Ordered(sorted)
    ensures Ordered(Insert(e, sorted))
    decreases |sorted|
  {
    hide Ordered;
    if sorted == [] || e.stamp <= sorted[0].stamp {
      FirstIsLeast(sorted);
      OrderedCons(e, sorted);
    } else {
      var first, rest := sorted[0], sorted[1..];
      assert sorted == [first] + rest;
      OrderedCons(first, rest);
      InsertKeepsOrder(e, rest);
      var grown := Insert(e, rest);
      forall j | 0 <= j < |grown| ensures first.stamp <= grown[j].stamp {
        InsertMember(e, rest, grown[j]);
      }
      OrderedCons(first, grown);
    }
  }

  lemma FirstIsLeast(a: seq<Entry>)
    requires Ordered(a)
    ensures forall i | 0 <= i < |a| :: a[0].stamp <= a[i].stamp
  {
    forall i | 0 <= i < |a| ensures a[0].stamp <= a[i].stamp { assert i > 0 ==> a[0].stamp <= a[i].stamp; }
  }

  lemma {:induction false} SortSorts(a: seq<Entry>)
    ensures Ordered(SortByStamp(a)) && multiset(SortByStamp(a)) == multiset(a)
    decreases |a|
  {
    if a != [] {
      SortSorts(a[1..]);
      InsertKeepsOrder(a[0], SortByStamp(a[1..]));
      InsertAdds(a[0], SortByStamp(a[1..]));
      assert a == [a[0]] + a[1..];
    }
  }

  /**
   The reference decision over the whole history of accepted keys: a key is a replay when an
   acceptance of it lies within the time to live and among the last `max` acceptances.
   */
  predicate Replay(accepted: seq<Entry>, key: string, now: real, ttl: real, max: int) {
    exists i :: 0 <= i < |accepted| && accepted[i].key == key && now - accepted[i].stamp <= ttl && |accepted| - i <= max
  }

  /** Every acceptance in the history was no replay of what came before it. */
  predicate Lawful(accepted: seq<Entry>, ttl: real, max: int) {
    forall j | 0 <= j < |accepted| :: !Replay(accepted[..j], accepted[j].key, accepted[j].stamp, ttl, max)
  }

  /** The first `k` entries no longer matter: too old, or too many came after them. */
  ghost predicate Forgettable(a: seq<Entry>, k: nat, now: real, ttl: real, max: int) {
    k <= |a| && forall i | 0 <= i < k :: now - a[i].stamp > ttl || |a| - i > max
  }

  // ---- pruning ----

  /** The entries still inside the time to live. */
  function Fresh(a: seq<Entry>, now: real, ttl: real): seq<Entry> {
    if a == [] then [] else (if now - a[0].stamp > ttl then [] else [a[0]]) + Fresh(a[1..], now, ttl)
  }

  /** Keys to delete because their time is over. */
  function ExpiredKeys(a: seq<Entry>, now: real, ttl: real): seq<string> {
    if a == [] then [] else (if now - a[0].stamp > ttl then [a[0].key] else []) + ExpiredKeys(a[1..], now, ttl)
  }

  function KeysOf(a: seq<Entry>): (keys: seq<string>)
    ensures |keys| == |a| && forall i | 0 <= i < |a| :: keys[i] == a[i].key
  {
    if a == [] then [] else [a[0].key] + KeysOf(a[1..])
  }

  /** `del` for each of the keys. */
  function DropKeys(a: seq<Entry>, keys: seq<string>): seq<Entry> {
    if a == [] then [] else (if a[0].key in keys then [] else [a[0]]) + DropKeys(a[1..], keys)
  }

  function Removed(a: seq<Entry>, key: string): seq<Entry> {
    if a == [] then [] else (if a[0].key == key then [] else [a[0]]) + Removed(a[1..], key)
  }

  /** How many entries are over the cap. */
  function Excess(a: seq<Entry>, max: int): nat {
    if |a| <= max then 0 else if max < 0 then |a| else |a| - max
  }

  /** The entries left when the earliest are dropped down to the cap. */
  function Capped(a: seq<Entry>, max: int): seq<Entry> {
    SortSorts(a);
    assert |SortByStamp(a)| == |multiset(SortByStamp(a))| == |multiset(a)| == |a|;
    DropKeys(a, KeysOf(SortByStamp(a)[..Excess(a, max)]))
  }

  function Pruned(a: seq<Entry>, now: real, ttl: real, max: int): seq<Entry> {
    Capped(Fresh(a, now, ttl), max)
  }

  predicate HasKey(a: seq<Entry>, key: string) {
    exists i :: 0 <= i < |a| && a[i].key == key
  }

  /** `seen` is the history without acceptances that no longer matter. */
  ghost predicate InStep(seen: seq<Entry>, accepted: seq<Entry>, dropped: nat, clock: real, ttl: real, max: int) {
    && Ordered(accepted) && (forall e | e in accepted :: e.stamp <= clock)
    && Lawful(accepted, ttl, max)
    && Forgettable(accepted, dropped, clock, ttl, max) && seen == accepted[dropped..]
  }

  class Guard {
    const ttl: real
    const max: int
    /** Keys and stamps in insertion order. */
    var seen: seq<Entry>
    /**
     Every acceptance of a non-empty key so far, how many of them `seen` has dropped, the last clock
     reading, and whether the readings have never gone backwards.
     */
    ghost var accepted: seq<Entry>
    ghost var dropped: nat
    ghost var clock: real
    ghost var steady: bool

    ghost predicate Valid()
      reads this
    {
      DistinctKeys(seen) && (steady ==> InStep(seen, accepted, dropped, clock, ttl, max))
    }

    constructor (ttl: real, max: int, ghost now: real)
      ensures Valid() && this.ttl == ttl && this.max == max && seen == [] && accepted == [] && clock == now && steady
    {
      this.ttl := ttl;
      this.max := max;
      this.seen := [];
      this.accepted := [];
      this.dropped := 0;
      this.clock := now;
      this.steady := true;
    }

    /** Deletes the expired keys. */
    method DropExpired(now: real)
      requires DistinctKeys(seen)
      modifies this`seen
      ensures seen == Fresh(old(seen), now, ttl)
    {
      ghost var before := seen;
      var expired := ExpiredKeys(seen, now, ttl);
      DropNothing(before);
      assert expired[..0] == [];
      for i := 0 to |expired|
        invariant seen == DropKeys(before, expired[..i])
      {
        DropOneMore(before, expired, i);
        seen := Removed(seen, expired[i]);
      }
      assert expired[..|expired|] == expired;
      DropExpiredIsFresh(before, now, ttl);
    }

    /** Deletes the oldest keys while there are more than the cap allows. */
    method DropOverflow()
      modifies this`seen
      ensures seen == Capped(old(seen), max)
    {
      ghost var before := seen;
      var overflow := |seen| - max;
      DropNothing(before);
      if overflow > 0 {
        SortedLength(seen);
        var byAge := SortByStamp(seen);
        var n := if overflow < |byAge| then overflow else |byAge|;
        ghost var keys := KeysOf(byAge[..n]);
        assert keys[..0] == [];
        for i := 0 to n
          invariant seen == DropKeys(before, keys[..i])
        {
          DropOneMore(before, keys, i);
          seen := Removed(seen, byAge[i].key);
        }
        assert keys[..n] == keys;
      } else {
        assert SortByStamp(before)[..0] == [];
      }
    }

    /** Drops expired keys, then the oldest while over the cap. */
    method Prune(now: real)
      requires DistinctKeys(seen)
      modifies this`seen
      ensures seen == Pruned(old(seen), now, ttl, max)
    {
      DropExpired(now);
      DropOverflow();
    }

    /**
     Records the key and returns True unless a pruned `seen` still holds it; an empty key is always new.
     While the readings have not gone backwards that is exactly being no replay of the full history.
     */
    method AddIfAbsent(key: string, now: real) returns (isNew: bool)
      requires Valid()
      modifies this
      ensures Valid()
      ensures key == "" ==>
                && isNew && seen == old(seen) && accepted == old(accepted)
                && steady == old(steady) && clock == old(clock)
      ensures key != "" ==>
                var kept := Pruned(old(seen), now, ttl, max);
                && (isNew <==> !HasKey(kept, key))
                && seen == (if isNew then Pruned(kept + [Entry(key, now)], now, ttl, max) else kept)
                && |seen| <= (if max < 0 then 0 else max)
                && accepted == (if isNew then old(accepted) + [Entry(key, now)] else old(accepted))
                && clock == now && (steady <==> old(steady) && old(clock) <= now)
                && (steady ==> (isNew <==> !Replay(old(accepted), key, now, ttl, max)))
    {
      hide Pruned, Replay, InStep, DistinctKeys, HasKey;
      if key == "" {
        return true;
      }
      PrunedKeepsDistinct(seen, now, ttl, max);
      steady := steady && clock <= now;
      if steady {
        dropped := PrunedInStep(seen, accepted, dropped, clock, now, ttl, max);
        PresentIsReplay(seen, accepted, dropped, key, now, ttl, max);
      }
      clock := now;
      Prune(now);
      if HasKey(seen, key) {
        return false;
      }
      AddKeepsDistinct(seen, key, now);
      if steady {
        AcceptedInStep(seen, accepted, dropped, key, now, ttl, max);
      }
      seen := seen + [Entry(key, now)];
      accepted := accepted + [Entry(key, now)];
      PrunedKeepsDistinct(seen, now, ttl, max);
      if steady {
        dropped := PrunedInStep(seen, accepted, dropped, now, now, ttl, max);
      }
      Prune(now);
      isNew := true;
    }
  }

  // ---- deleting keys one by one ----

  lemma {:induction false} DropNothing(a: seq<Entry>)
    ensures DropKeys(a, []) == a
    decreases |a|
  {
    if a != [] { DropNothing(a[1..]); }
  }

  lemma RemovedCons(first: Entry, rest: seq<Entry>, key: string)
    ensures Removed([first] + rest, key) == (if first.key == key then [] else [first]) + Removed(rest, key)
  {
    assert ([first] + rest)[1..] == rest;
  }

  lemma {:induction false} DropOneMore(a: seq<Entry>, keys: seq<string>, i: nat)
    requires i < |keys|
    ensures Removed(DropKeys(a, keys[..i]), keys[i]) == DropKeys(a, keys[..i + 1])
    decreases |a|
  {
    if a != [] {
      var first, few := a[0], DropKeys(a[1..], keys[..i]);
      DropOneMore(a[1..], keys, i);
      assert keys[..i + 1] == keys[..i] + [keys[i]];
      assert first.key in keys[..i + 1] <==> first.key in keys[..i] || first.key == keys[i];
      RemovedCons(first, few, keys[i]);
      assert [] + few == few && [] + Removed(few, keys[i]) == Removed(few, keys[i]);
    }
  }

  lemma {:induction false} ExpiredIff(a: seq<Entry>, now: real, ttl: real, key: string)
    ensures key in ExpiredKeys(a, now, ttl) <==> exists i :: 0 <= i < |a| && a[i].key == key && now - a[i].stamp > ttl
    decreases |a|
  {
    if a != [] {
      ExpiredIff(a[1..], now, ttl, key);
      assert forall i | 1 <= i < |a| :: a[i] == a[1..][i - 1];
    }
  }

  lemma DropExpiredIsFresh(a: seq<Entry>, now: real, ttl: real)
    requires DistinctKeys(a)
    ensures DropKeys(a, ExpiredKeys(a, now, ttl)) == Fresh(a, now, ttl)
  {
    forall i | 0 <= i < |a| ensures a[i].key in ExpiredKeys(a, now, ttl) <==> now - a[i].stamp > ttl {
      ExpiredIff(a, now, ttl, a[i].key);
    }
    DropIsFresh(a, ExpiredKeys(a, now, ttl), now, ttl);
  }

  lemma {:induction false} DropIsFresh(a: seq<Entry>, keys: seq<string>, now: real, ttl: real)
    requires forall i | 0 <= i < |a| :: a[i].key in keys <==> now - a[i].stamp > ttl
    ensures DropKeys(a, keys) == Fresh(a, now, ttl)
    decreases |a|
  {
    if a != [] {
      assert forall i | 0 <= i < |a| - 1 :: a[1..][i] == a[i + 1];
      DropIsFresh(a[1..], keys, now, ttl);
    }
  }

  // ---- what pruning keeps ----

  /** An entry is kept exactly when it is there and its key is not dropped. */
  lemma {:induction false} DropIff(a: seq<Entry>, keys: seq<string>, e: Entry)
    ensures e in DropKeys(a, keys) <==> e in a && e.key !in keys
    decreases |a|
  {
    if a != [] {
      DropIff(a[1..], keys, e);
      assert a == [a[0]] + a[1..];
    }
  }

  lemma {:induction false} FreshIff(a: seq<Entry>, now: real, ttl: real, e: Entry)
    ensures e in Fresh(a, now, ttl) <==> e in a && now - e.stamp <= ttl
    decreases |a|
  {
    if a != [] {
      FreshIff(a[1..], now, ttl, e);
      assert a == [a[0]] + a[1..];
    }
  }

  predicate Absent(a: seq<Entry>, key: string) {
    forall i | 0 <= i < |a| :: a[i].key != key
  }

  lemma DistinctCons(e: Entry, rest: seq<Entry>)
    ensures DistinctKeys([e] + rest) <==> DistinctKeys(rest) && Absent(rest, e.key)
  {
    var a := [e] + rest;
    assert forall i | 0 <= i < |rest| :: a[i + 1] == rest[i];
    if DistinctKeys(a) {
      forall i | 0 <= i < |rest| ensures rest[i].key != e.key { assert a[0] == e && a[i + 1] == rest[i]; }
      forall i, j | 0 <= i < j < |rest| ensures rest[i].key != rest[j].key {
        assert a[i + 1] == rest[i] && a[j + 1] == rest[j];
      }
    }
    if DistinctKeys(rest) && Absent(rest, e.key) {
      forall i, j | 0 <= i < j < |a| ensures a[i].key != a[j].key {
        assert a[j] == rest[j - 1] && (i > 0 ==> a[i] == rest[i - 1]);
      }
    }
  }

  lemma DropAbsent(a: seq<Entry>, keys: seq<string>, key: string)
    requires Absent(a, key)
    ensures Absent(DropKeys(a, keys), key)
  {
    var kept := DropKeys(a, keys);
    forall i | 0 <= i < |kept| ensures kept[i].key != key {
      DropIff(a, keys, kept[i]);
    }
  }

  lemma {:induction false} DropKeepsDistinct(a: seq<Entry>, keys: seq<string>)
    requires DistinctKeys(a)
    ensures DistinctKeys(DropKeys(a, keys))
    decreases |a|
  {
    if a != [] {
      assert a == [a[0]] + a[1..];
      DistinctCons(a[0], a[1..]);
      DropKeepsDistinct(a[1..], keys);
      DropAbsent(a[1..], keys, a[0].key);
      DistinctCons(a[0], DropKeys(a[1..], keys));
    }
  }

  lemma PrunedKeepsDistinct(a: seq<Entry>, now: real, ttl: real, max: int)
    requires DistinctKeys(a)
    ensures var p := Pruned(a, now, ttl, max); DistinctKeys(p) && |p| <= if max < 0 then 0 else max
  {
    hide Fresh, ExpiredKeys, DropKeys, KeysOf, SortByStamp, DistinctKeys;
    DropExpiredIsFresh(a, now, ttl);
    DropKeepsDistinct(a, ExpiredKeys(a, now, ttl));
    var b := Fresh(a, now, ttl);
    SortedLength(b);
    DropKeepsDistinct(b, KeysOf(SortByStamp(b)[..Excess(b, max)]));
    CappedSize(b, max);
  }

  lemma AddKeepsDistinct(a: seq<Entry>, key: string, now: real)
    requires DistinctKeys(a) && !HasKey(a, key)
    ensures DistinctKeys(a + [Entry(key, now)])
  {
  }

  lemma SortedMember(a: seq<Entry>, e: Entry)
    ensures e in SortByStamp(a) <==> e in a
  {
    SortSorts(a);
    assert e in multiset(SortByStamp(a)) <==> e in multiset(a);
  }

  lemma {:induction false} InsertMember(e: Entry, sorted: seq<Entry>, x: Entry)
    ensures x in Insert(e, sorted) <==> x == e || x in sorted
    decreases |sorted|
  {
    if sorted != [] && e.stamp > sorted[0].stamp {
      assert sorted == [sorted[0]] + sorted[1..];
      InsertMember(e, sorted[1..], x);
    }
  }

  lemma {:induction false} InsertDistinct(e: Entry, sorted: seq<Entry>)
    requires DistinctKeys(sorted) && Absent(sorted, e.key)
    ensures DistinctKeys(Insert(e, sorted))
    decreases |sorted|
  {
    DistinctCons(e, sorted);
    if sorted != [] && e.stamp > sorted[0].stamp {
      var first, rest := sorted[0], sorted[1..];
      assert sorted == [first] + rest;
      DistinctCons(first, rest);
      InsertDistinct(e, rest);
      var grown := Insert(e, rest);
      forall i | 0 <= i < |grown| ensures grown[i].key != first.key {
        InsertMember(e, rest, grown[i]);
      }
      DistinctCons(first, grown);
    }
  }

  lemma {:induction false} SortedDistinct(a: seq<Entry>)
    requires DistinctKeys(a)
    ensures DistinctKeys(SortByStamp(a))
    decreases |a|
  {
    if a != [] {
      var rest := a[1..];
      assert a == [a[0]] + rest;
      DistinctCons(a[0], rest);
      SortedDistinct(rest);
      var sorted := SortByStamp(rest);
      forall i | 0 <= i < |sorted| ensures sorted[i].key != a[0].key {
        SortedMember(rest, sorted[i]);
      }
      InsertDistinct(a[0], sorted);
    }
  }

  // ---- how many are kept, and which ----

  ghost function KeySet(a: seq<Entry>): set<string> {
    set e | e in a :: e.key
  }

  lemma {:induction false} KeySetSize(a: seq<Entry>)
    requires DistinctKeys(a)
    ensures |KeySet(a)| == |a|
    decreases |a|
  {
    if a != [] {
      var rest := a[1..];
      assert a == [a[0]] + rest;
      DistinctCons(a[0], rest);
      KeySetSize(rest);
      assert KeySet(a) == {a[0].key} + KeySet(rest);
    }
  }

  lemma DroppedKeySet(a: seq<Entry>, keys: seq<string>)
    ensures KeySet(DropKeys(a, keys)) == KeySet(a) - set k | k in keys
  {
    forall e ensures e in DropKeys(a, keys) <==> e in a && e.key !in keys { DropIff(a, keys, e); }
  }

  lemma SortedLength(a: seq<Entry>)
    ensures |SortByStamp(a)| == |a|
  {
    SortSorts(a);
    assert |SortByStamp(a)| == |multiset(SortByStamp(a))| == |multiset(a)|;
  }

  lemma KeysAreKeySet(a: seq<Entry>)
    ensures (set k | k in KeysOf(a)) == KeySet(a)
  {
    forall k ensures k in KeysOf(a) <==> k in KeySet(a) {
      if k in KeysOf(a) {
        var i :| 0 <= i < |a| && KeysOf(a)[i] == k;
        assert a[i] in a;
      }
      if e :| e in a && e.key == k {
        var i :| 0 <= i < |a| && a[i] == e;
        assert KeysOf(a)[i] == k;
      }
    }
  }

  /** Capping keeps all there is, down to the cap. */
  lemma CappedSize(a: seq<Entry>, max: int)
    requires DistinctKeys(a)
    ensures |Capped(a, max)| == |a| - Excess(a, max)
  {
    SortedLength(a);
    SortedDistinct(a);
    hide SortByStamp, DropKeys, KeysOf;
    var sorted := SortByStamp(a);
    var first := sorted[..Excess(a, max)];
    var keys := KeysOf(first);
    KeysAreKeySet(first);
    KeySetSize(first);
    KeySetSize(a);
    forall e | e in first ensures e in a {
      assert e in sorted;
      SortedMember(a, e);
    }
    assert KeySet(first) <= KeySet(a);
    DroppedKeySet(a, keys);
    DropKeepsDistinct(a, keys);
    KeySetSize(DropKeys(a, keys));
  }

  /** What is dropped for the cap is no later than anything kept. */
  lemma CappedKeepsLatest(a: seq<Entry>, max: int, gone: Entry, kept: Entry)
    requires DistinctKeys(a) && gone in a && gone !in Capped(a, max) && kept in Capped(a, max)
    ensures gone.stamp <= kept.stamp && gone.key != kept.key
  {
    hide SortByStamp, DropKeys, KeysOf, DistinctKeys;
    SortSorts(a);
    SortedLength(a);
    var sorted := SortByStamp(a);
    var n := Excess(a, max);
    var keys := KeysOf(sorted[..n]);
    DropIff(a, keys, gone);
    DropIff(a, keys, kept);
    SortedMember(a, gone);
    SortedMember(a, kept);
    var i :| 0 <= i < |sorted| && sorted[i] == gone;
    var j :| 0 <= j < |sorted| && sorted[j] == kept;
    var x :| 0 <= x < n && keys[x] == gone.key;
    assert forall y | 0 <= y < n :: keys[y] == sorted[y].key;
    assert sorted[x].key == sorted[i].key;
    SortedDistinct(a);
    SameKeySamePlace(sorted, x, i);
    assert j >= n;
  }

  lemma SameKeySamePlace(a: seq<Entry>, x: nat, i: nat)
    requires DistinctKeys(a) && x < |a| && i < |a| && a[x].key == a[i].key
    ensures x == i
  {
  }

  /** An entry that pruning drops was expired, or the cap is filled with other keys that are no earlier. */
  lemma DroppedWhy(a: seq<Entry>, now: real, ttl: real, max: int, e: Entry)
    requires DistinctKeys(a) && e in a && e !in Pruned(a, now, ttl, max)
    ensures now - e.stamp > ttl || Crowded(Pruned(a, now, ttl, max), max, e)
  {
    var b := Fresh(a, now, ttl);
    FreshIff(a, now, ttl, e);
    if now - e.stamp <= ttl {
      DropExpiredIsFresh(a, now, ttl);
      DropKeepsDistinct(a, ExpiredKeys(a, now, ttl));
      CappedSize(b, max);
      SomethingOver(b, max, e);
      forall x | x in Capped(b, max) ensures e.stamp <= x.stamp && e.key != x.key {
        CappedKeepsLatest(b, max, e, x);
      }
    }
  }

  lemma SomethingOver(b: seq<Entry>, max: int, e: Entry)
    requires e in b && e !in Capped(b, max)
    ensures |b| > max
  {
    if |b| <= max {
      assert SortByStamp(b)[..0] == [];
      DropNothing(b);
    }
  }

  /** As many entries as the cap allows, all of other keys and none earlier than this one. */
  ghost predicate Crowded(p: seq<Entry>, max: int, e: Entry) {
    |p| == (if max < 0 then 0 else max) && forall x | x in p :: e.stamp <= x.stamp && e.key != x.key
  }

  // ---- readings that never go backwards ----

  predicate AllFresh(a: seq<Entry>, now: real, ttl: real) {
    forall i | 0 <= i < |a| :: now - a[i].stamp <= ttl
  }

  lemma {:induction false} FreshIsAll(a: seq<Entry>, now: real, ttl: real)
    requires AllFresh(a, now, ttl)
    ensures Fresh(a, now, ttl) == a
    decreases |a|
  {
    if a != [] {
      assert forall i | 0 <= i < |a| - 1 :: a[1..][i] == a[i + 1];
      FreshIsAll(a[1..], now, ttl);
      assert a == [a[0]] + a[1..];
    }
  }

  lemma OrderedAllFresh(a: seq<Entry>, now: real, ttl: real)
    requires Ordered(a) && (a != [] ==> now - a[0].stamp <= ttl)
    ensures AllFresh(a, now, ttl)
  {
    forall i | 0 <= i < |a| ensures now - a[i].stamp <= ttl { assert i > 0 ==> a[0].stamp <= a[i].stamp; }
  }

  lemma {:induction false} FreshIsSuffix(a: seq<Entry>, now: real, ttl: real) returns (m: nat)
    requires Ordered(a)
    ensures m <= |a| && Fresh(a, now, ttl) == a[m..] && AllFresh(a[m..], now, ttl)
    ensures forall i | 0 <= i < m :: now - a[i].stamp > ttl
    decreases |a|
  {
    if a != [] && now - a[0].stamp > ttl {
      var rest := a[1..];
      SliceOrdered(a, 1);
      var k := FreshIsSuffix(rest, now, ttl);
      m := k + 1;
      assert rest[k..] == a[m..];
      forall i | 0 <= i < m ensures now - a[i].stamp > ttl { assert i > 0 ==> a[i] == rest[i - 1]; }
    } else {
      m := 0;
      OrderedAllFresh(a, now, ttl);
      FreshIsAll(a, now, ttl);
      assert a[0..] == a;
    }
  }

  lemma {:induction false} DropConcat(a: seq<Entry>, b: seq<Entry>, keys: seq<string>)
    ensures DropKeys(a + b, keys) == DropKeys(a, keys) + DropKeys(b, keys)
    decreases |a|
  {
    if a == [] {
      assert a + b == b;
    } else {
      assert (a + b)[1..] == a[1..] + b;
      DropConcat(a[1..], b, keys);
    }
  }

  lemma {:induction false} DropAll(a: seq<Entry>, keys: seq<string>)
    requires forall i | 0 <= i < |a| :: a[i].key in keys
    ensures DropKeys(a, keys) == []
    decreases |a|
  {
    if a != [] { DropAll(a[1..], keys); }
  }

  lemma {:induction false} DropNone(a: seq<Entry>, keys: seq<string>)
    requires forall i | 0 <= i < |a| :: a[i].key !in keys
    ensures DropKeys(a, keys) == a
    decreases |a|
  {
    if a != [] { DropNone(a[1..], keys); }
  }

  lemma CappedIsSuffix(b: seq<Entry>, max: int)
    requires Ordered(b) && DistinctKeys(b)
    ensures Capped(b, max) == b[Excess(b, max)..]
  {
    var n := Excess(b, max);
    SortOrdered(b);
    var keys := KeysOf(b[..n]);
    assert b == b[..n] + b[n..];
    DropConcat(b[..n], b[n..], keys);
    forall i | 0 <= i < n ensures b[..n][i].key in keys { assert keys[i] == b[i].key; }
    DropAll(b[..n], keys);
    forall i | 0 <= i < |b[n..]| ensures b[n..][i].key !in keys {
      assert b[n..][i] == b[n + i];
      assert forall x | 0 <= x < n :: keys[x] == b[x].key;
    }
    DropNone(b[n..], keys);
  }

  /** Pruning what is kept of an ordered history drops a prefix that no longer matters. */
  lemma PrunedInStep(seen: seq<Entry>, accepted: seq<Entry>, cut: nat, earlier: real, now: real, ttl: real, max: int)
                     returns (further: nat)
    requires InStep(seen, accepted, cut, earlier, ttl, max) && DistinctKeys(seen) && earlier <= now
    ensures InStep(Pruned(seen, now, ttl, max), accepted, further, now, ttl, max)
    ensures AllFresh(Pruned(seen, now, ttl, max), now, ttl)
  {
    SliceOrdered(accepted, cut);
    var k := PrunedIsSuffix(seen, now, ttl, max);
    further := cut + k;
    ForgetMore(accepted, cut, k, earlier, now, ttl, max);
    assert forall e | e in accepted :: e.stamp <= earlier;
  }

  lemma PrunedIsSuffix(seen: seq<Entry>, now: real, ttl: real, max: int) returns (k: nat)
    requires Ordered(seen) && DistinctKeys(seen)
    ensures k <= |seen| && Pruned(seen, now, ttl, max) == seen[k..]
    ensures AllFresh(Pruned(seen, now, ttl, max), now, ttl) && Forgettable(seen, k, now, ttl, max)
  {
    hide Fresh, Capped;
    var m := FreshIsSuffix(seen, now, ttl);
    var b := seen[m..];
    SliceOrdered(seen, m);
    assert forall i | 0 <= i < |b| :: b[i] == seen[m + i];
    CappedIsSuffix(b, max);
    k := m + Excess(b, max);
    assert b[Excess(b, max)..] == seen[k..];
    assert forall i | 0 <= i < |seen[k..]| :: seen[k..][i] == b[Excess(b, max) + i];
  }

  /** A new key keeps the history in step. */
  lemma AcceptedInStep(seen: seq<Entry>, accepted: seq<Entry>, cut: nat, key: string, now: real, ttl: real, max: int)
    requires InStep(seen, accepted, cut, now, ttl, max) && !Replay(accepted, key, now, ttl, max)
    ensures InStep(seen + [Entry(key, now)], accepted + [Entry(key, now)], cut, now, ttl, max)
  {
    LawfulGrows(accepted, Entry(key, now), ttl, max);
    StillForgettable(accepted, Entry(key, now), cut, now, ttl, max);
    assert forall i | 0 <= i < |accepted| :: accepted[i] in accepted;
  }

  /** Forgetting a prefix of what is kept forgets a longer prefix of the history. */
  lemma ForgetMore(accepted: seq<Entry>, cut: nat, k: nat, earlier: real, now: real, ttl: real, max: int)
    requires earlier <= now && Forgettable(accepted, cut, earlier, ttl, max)
    requires Forgettable(accepted[cut..], k, now, ttl, max)
    ensures Forgettable(accepted, cut + k, now, ttl, max) && accepted[cut..][k..] == accepted[cut + k..]
  {
    assert forall i | cut <= i < cut + k :: accepted[cut..][i - cut] == accepted[i];
  }

  lemma SliceOrdered(accepted: seq<Entry>, cut: nat)
    requires Ordered(accepted) && cut <= |accepted|
    ensures Ordered(accepted[cut..])
  {
  }

  lemma StillForgettable(accepted: seq<Entry>, e: Entry, cut: nat, now: real, ttl: real, max: int)
    requires Forgettable(accepted, cut, now, ttl, max)
    ensures Forgettable(accepted + [e], cut, now, ttl, max)
  {
    assert forall i | 0 <= i < cut :: (accepted + [e])[i] == accepted[i];
  }

  /** Looking the key up in what is kept decides exactly as the whole history. */
  lemma PresentIsReplay(seen: seq<Entry>, accepted: seq<Entry>, from: nat, key: string, now: real, ttl: real, max: int)
    requires DistinctKeys(seen) && InStep(Pruned(seen, now, ttl, max), accepted, from, now, ttl, max)
    requires AllFresh(Pruned(seen, now, ttl, max), now, ttl)
    ensures HasKey(Pruned(seen, now, ttl, max), key) <==> Replay(accepted, key, now, ttl, max)
  {
    hide Pruned;
    var kept := Pruned(seen, now, ttl, max);
    PrunedKeepsDistinct(seen, now, ttl, max);
    if i :| 0 <= i < |kept| && kept[i].key == key {
      assert accepted[from + i] == kept[i];
    }
    if Replay(accepted, key, now, ttl, max) {
      var i :| 0 <= i < |accepted| && accepted[i].key == key && now - accepted[i].stamp <= ttl && |accepted| - i <= max;
      assert kept[i - from] == accepted[i];
    }
  }

  lemma LawfulGrows(accepted: seq<Entry>, e: Entry, ttl: real, max: int)
    requires Lawful(accepted, ttl, max) && !Replay(accepted, e.key, e.stamp, ttl, max)
    ensures Lawful(accepted + [e], ttl, max)
  {
    var grown := accepted + [e];
    assert grown[..|accepted|] == accepted;
    assert forall j | 0 <= j < |accepted| :: grown[..j] == accepted[..j] && grown[j] == accepted[j];
  }

  /**
   A key is accepted twice only after its time to live, or after at least `max` other
   distinct keys were accepted in between: the `max` acceptances just before the second one.
   */
  lemma AcceptedTwice(accepted: seq<Entry>, i: nat, j: nat, ttl: real, max: nat)
    requires Lawful(accepted, ttl, max) && Ordered(accepted) && max >= 1
    requires i < j < |accepted| && accepted[i].key == accepted[j].key
    ensures accepted[j].stamp - accepted[i].stamp > ttl
            || (j - max > i && |set x | j - max <= x < j :: accepted[x].key| == max
                && forall x | j - max <= x < j :: accepted[x].key != accepted[i].key)
    decreases j - i
  {
    if accepted[j].stamp - accepted[i].stamp <= ttl {
      NotReplayed(accepted, i, j, ttl, max);
      forall x | j - max <= x < j ensures accepted[x].key != accepted[i].key {
        if accepted[x].key == accepted[i].key {
          NotReplayed(accepted, x, j, ttl, max);
        }
      }
      forall x, y | j - max <= x < y < j ensures accepted[x].key != accepted[y].key {
        if accepted[x].key == accepted[y].key {
          NotReplayed(accepted, x, y, ttl, max);
        }
      }
      CountDistinct(accepted, j - max, j);
    }
  }

  /** Two acceptances of one key lie outside the window or more than `max` acceptances apart. */
  lemma NotReplayed(accepted: seq<Entry>, i: nat, j: nat, ttl: real, max: int)
    requires Lawful(accepted, ttl, max) && i < j < |accepted| && accepted[i].key == accepted[j].key
    ensures accepted[j].stamp - accepted[i].stamp > ttl || j - i > max
  {
    assert accepted[..j][i] == accepted[i];
  }

  lemma {:induction false} CountDistinct(a: seq<Entry>, lo: nat, hi: nat)
    requires lo <= hi <= |a| && forall x, y | lo <= x < y < hi :: a[x].key != a[y].key
    ensures |set x | lo <= x < hi :: a[x].key| == hi - lo
    decreases hi
  {
    var keys := set x | lo <= x < hi :: a[x].key;
    if lo < hi {
      CountDistinct(a, lo, hi - 1);
      var fewer := set x | lo <= x < hi - 1 :: a[x].key;
      assert keys == fewer + {a[hi - 1].key};
      assert a[hi - 1].key !in fewer;
    }
  }

  // ---- any readings whatsoever ----

  datatype Call = Call(key: string, now: real)

  predicate Accepts(seen: seq<Entry>, c: Call, ttl: real, max: int) {
    c.key == "" || !HasKey(Pruned(seen, c.now, ttl, max), c.key)
  }

  /** What is seen after one call. */
  function Next(seen: seq<Entry>, c: Call, ttl: real, max: int): seq<Entry> {
    var kept := Pruned(seen, c.now, ttl, max);
    if c.key == "" then seen else if HasKey(kept, c.key) then kept
        else Pruned(kept + [Entry(c.key, c.now)], c.now, ttl, max)
  }

  /** The entries before, between and after the calls; clock readings may come in any order. */
  ghost predicate History(seens: seq<seq<Entry>>, calls: seq<Call>, ttl: real, max: int) {
    && |seens| == |calls| + 1 && DistinctKeys(seens[0])
    && forall i | 0 <= i < |calls| :: seens[i + 1] == Next(seens[i], calls[i], ttl, max)
  }

  /** This call may forget the entry: its reading is past the time to live, or one of its prunes is crowded. */
  ghost predicate Forgets(seen: seq<Entry>, c: Call, ttl: real, max: int, e: Entry) {
    var kept := Pruned(seen, c.now, ttl, max);
    c.key != "" && (c.now - e.stamp > ttl || Crowded(kept, max, e)
        || Crowded(Pruned(kept + [Entry(c.key, c.now)], c.now, ttl, max), max, e))
  }

  lemma NextKeepsDistinct(seen: seq<Entry>, c: Call, ttl: real, max: int)
    requires DistinctKeys(seen)
    ensures DistinctKeys(Next(seen, c, ttl, max))
  {
    hide Pruned;
    PrunedKeepsDistinct(seen, c.now, ttl, max);
    var kept := Pruned(seen, c.now, ttl, max);
    if !HasKey(kept, c.key) {
      AddKeepsDistinct(kept, c.key, c.now);
      PrunedKeepsDistinct(kept + [Entry(c.key, c.now)], c.now, ttl, max);
    }
  }

  /** An entry leaves only in a call that may forget it. */
  lemma LeavesOnlyForgotten(seen: seq<Entry>, c: Call, ttl: real, max: int, e: Entry)
    requires DistinctKeys(seen) && e in seen && e !in Next(seen, c, ttl, max)
    ensures Forgets(seen, c, ttl, max, e)
  {
    hide Pruned, Crowded;
    var kept := Pruned(seen, c.now, ttl, max);
    PrunedKeepsDistinct(seen, c.now, ttl, max);
    if e !in kept {
      DroppedWhy(seen, c.now, ttl, max, e);
    } else if !HasKey(kept, c.key) {
      AddKeepsDistinct(kept, c.key, c.now);
      DroppedWhy(kept + [Entry(c.key, c.now)], c.now, ttl, max, e);
    }
  }

  /** From where it is present, an entry is still there or some call since may have forgotten it. */
  lemma {:induction false} StaysOrForgotten(seens: seq<seq<Entry>>, calls: seq<Call>, ttl: real, max: int, e: Entry,
                                            i: nat, n: nat)
    requires History(seens, calls, ttl, max) && i <= n <= |calls| && e in seens[i]
    ensures DistinctKeys(seens[n])
    ensures e in seens[n] || exists m :: i <= m < n && Forgets(seens[m], calls[m], ttl, max, e)
    decreases n
  {
    hide Next, Forgets;
    AllDistinct(seens, calls, ttl, max, n);
    if i < n {
      StaysOrForgotten(seens, calls, ttl, max, e, i, n - 1);
      if e in seens[n - 1] && e !in seens[n] {
        assert seens[n] == Next(seens[n - 1], calls[n - 1], ttl, max);
        LeavesOnlyForgotten(seens[n - 1], calls[n - 1], ttl, max, e);
      }
    }
  }

  lemma {:induction false} AllDistinct(seens: seq<seq<Entry>>, calls: seq<Call>, ttl: real, max: int, n: nat)
    requires History(seens, calls, ttl, max) && n <= |calls|
    ensures DistinctKeys(seens[n])
    decreases n
  {
    if n > 0 {
      AllDistinct(seens, calls, ttl, max, n - 1);
      NextKeepsDistinct(seens[n - 1], calls[n - 1], ttl, max);
      assert seens[n] == Next(seens[n - 1], calls[n - 1], ttl, max);
    }
  }

  /**
   In whatever order threads read the clock and take the lock: a key accepted twice means that some call
   from the first to the second read a time past the first's time to live, or held a full cap of other
   keys none of which is stamped earlier.
   */
  lemma AcceptedTwiceAnyClock(seens: seq<seq<Entry>>, calls: seq<Call>, ttl: real, max: int, i: nat, j: nat)
    requires History(seens, calls, ttl, max) && i < j < |calls| && calls[i].key == calls[j].key != ""
    requires Accepts(seens[i], calls[i], ttl, max) && Accepts(seens[j], calls[j], ttl, max)
    ensures exists m :: i <= m <= j && Forgets(seens[m], calls[m], ttl, max, Entry(calls[i].key, calls[i].now))
  {
    hide Pruned, Crowded;
    var e := Entry(calls[i].key, calls[i].now);
    AllDistinct(seens, calls, ttl, max, i);
    AllDistinct(seens, calls, ttl, max, j);
    assert seens[i + 1] == Next(seens[i], calls[i], ttl, max);
    var kept := Pruned(seens[i], calls[i].now, ttl, max);
    PrunedKeepsDistinct(seens[i], calls[i].now, ttl, max);
    if e !in seens[i + 1] {
      AddKeepsDistinct(kept, calls[i].key, calls[i].now);
      DroppedWhy(kept + [e], calls[i].now, ttl, max, e);
      assert Forgets(seens[i], calls[i], ttl, max, e);
    } else {
      StaysOrForgotten(seens, calls, ttl, max, e, i + 1, j);
      if e in seens[j] {
        NotHad(Pruned(seens[j], calls[j].now, ttl, max), e);
        DroppedWhy(seens[j], calls[j].now, ttl, max, e);
        assert Forgets(seens[j], calls[j], ttl, max, e);
      }
    }
  }

  lemma NotHad(p: seq<Entry>, e: Entry)
    ensures !HasKey(p, e.key) ==> e !in p
  {
  }

  // ---- what is refused and what is not ----

  /** A key that was never accepted is no replay. */
  lemma UnseenIsNew(accepted: seq<Entry>, key: string, now: real, ttl: real, max: int)
    requires forall i | 0 <= i < |accepted| :: accepted[i].key != key
    ensures !Replay(accepted, key, now, ttl, max)
  {
  }

  /** A key accepted within the time to live is one, as long as fewer than the cap were accepted after it. */
  lemma RecentIsReplay(accepted: seq<Entry>, i: nat, now: real, ttl: real, max: int)
    requires i < |accepted| && now <= accepted[i].stamp + ttl && |accepted| - i - 1 < max
    ensures Replay(accepted, accepted[i].key, now, ttl, max)
  {
    assert accepted[i].key == accepted[i].key && |accepted| - i <= max;
  }

  /**
   With readings in any order: a recorded key within its time to live is refused while the guard is not
   over its cap.
   */
  lemma RecordedIsRefused(seen: seq<Entry>, e: Entry, now: real, ttl: real, max: int)
    requires DistinctKeys(seen) && e in seen && now <= e.stamp + ttl && |seen| <= max && e.key != ""
    ensures !Accepts(seen, Call(e.key, now), ttl, max)
  {
    hide Pruned;
    var kept := Pruned(seen, now, ttl, max);
    PrunedKeepsDistinct(seen, now, ttl, max);
    KeptUnderCap(seen, e, now, ttl, max);
    assert exists i :: 0 <= i < |kept| && kept[i] == e;
  }

  lemma KeptUnderCap(seen: seq<Entry>, e: Entry, now: real, ttl: real, max: int)
    requires e in seen && now <= e.stamp + ttl && |seen| <= max
    ensures e in Pruned(seen, now, ttl, max)
  {
    hide SortByStamp, KeysOf;
    var recent := Fresh(seen, now, ttl);
    FreshIff(seen, now, ttl, e);
    FreshIsShorter(seen, now, ttl);
    SortedLength(recent);
    assert SortByStamp(recent)[..0] == [];
    assert KeysOf([]) == [];
    DropNothing(recent);
  }

  lemma {:induction false} FreshIsShorter(a: seq<Entry>, now: real, ttl: real)
    ensures |Fresh(a, now, ttl)| <= |a|
    decreases |a|
  {
    if a != [] { FreshIsShorter(a[1..], now, ttl); }
  }

  /** A key the guard holds nothing of is accepted. */
  lemma UnrecordedIsAccepted(seen: seq<Entry>, key: string, now: real, ttl: real, max: int)
    requires DistinctKeys(seen) && forall e | e in seen :: e.key != key
    ensures Accepts(seen, Call(key, now), ttl, max)
  {
    var kept := Pruned(seen, now, ttl, max);
    forall i | 0 <= i < |kept| ensures kept[i].key != key {
      var recent := Fresh(seen, now, ttl);
      DropIff(recent, KeysOf(SortByStampCut(recent, max)), kept[i]);
      FreshIff(seen, now, ttl, kept[i]);
    }
  }

  function SortByStampCut(a: seq<Entry>, max: int): seq<Entry> {
    SortedLength(a);
    SortByStamp(a)[..Excess(a, max)]
  }
}
