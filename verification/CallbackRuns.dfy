/** Callback states over whole runs: accepted at most once, and only while genuinely pending. */
module CallbackRuns {
  import opened Wrappers
  import opened CallbackState

  /** One call on the file, with its clock readings and the outcome of its read and of its write. */
  datatype Call =
    | Issue(purpose: string, data: map<string, string>, state: string, expiry: real, now: real, readable: bool,
        saved: bool)
    | Consume(purpose: string, state: string, now: real, checked: real, readable: bool, saved: bool)

  ghost predicate Step(before: File, call: Call, after: File) {
    match call
    case Issue("", _, _, _, _, _, _) => after == before
    case Issue(_, _, state, _, now, readable, saved) =>
        IssueStep(before, after, state, IssuedEntry(call), now, readable, saved)
    case Consume(_, state, now, _, readable, saved) => after == AfterConsume(before, state, now, readable, saved)
  }

  function IssuedEntry(call: Call): Entry
    requires call.Issue?
  {
    Entry(Some(call.purpose), Some(call.data), Some(call.expiry))
  }

  /** `files[i]` is the file before `calls[i]`. No clock assumption: readings may even go backwards. */
  ghost predicate Run(files: seq<File>, calls: seq<Call>) {
    |files| == |calls| + 1 && forall i | 0 <= i < |calls| :: Step(files[i], calls[i], files[i + 1])
  }

  predicate Issues(call: Call, d: Digest) {
    call.Issue? && Digest(call.state) == d
  }

  /** Random states are new: never issued twice, never in the file the run starts from. */
  ghost predicate FreshStates(files: seq<File>, calls: seq<Call>)
    requires files != []
  {
    && (forall i, j, d | 0 <= i < j < |calls| && Issues(calls[i], d) :: !Issues(calls[j], d))
    && (forall i, d | 0 <= i < |calls| && Issues(calls[i], d) :: d !in files[0])
  }

  /** Call `i` accepts `state`. */
  predicate Accepts(files: seq<File>, calls: seq<Call>, i: nat, state: string)
    requires |files| == |calls| + 1 && i < |calls|
  {
    var c := calls[i];
    c.Consume? && c.state == state && Honoured(files[i], c.purpose, state, c.checked, c.readable, c.saved)
  }

  /** `d` stays in the file with this entry from step `from` to step `to`. */
  ghost predicate Held(files: seq<File>, d: Digest, e: Entry, from: nat, to: nat)
    requires to < |files|
  {
    forall m | from <= m <= to :: d in files[m] && files[m][d] == e
  }

  /** Call `k` stored `d`, and it has been there since. */
  ghost predicate StoredBy(files: seq<File>, calls: seq<Call>, d: Digest, k: nat, n: nat)
    requires |files| == |calls| + 1 && k < n <= |calls|
  {
    Issues(calls[k], d) && calls[k].saved && calls[k].purpose != "" && Held(files, d, IssuedEntry(calls[k]), k + 1, n)
  }

  /** Whatever is in the file was there from the start or was stored by one issue, and was never evicted since. */
  lemma {:induction false} Traced(files: seq<File>, calls: seq<Call>, d: Digest, n: nat)
    requires Run(files, calls) && n <= |calls| && d in files[n]
    ensures Held(files, d, files[n][d], 0, n) || exists k: nat :: k < n && StoredBy(files, calls, d, k, n)
    decreases n
  {
    if n > 0 {
      var c := calls[n - 1];
      assert Step(files[n - 1], c, files[n]);
      if Issues(c, d) && c.saved && c.purpose != "" {
        assert StoredBy(files, calls, d, n - 1, n);
      } else {
        OnlyIssuesAdd(files[n - 1], c, files[n], d);
        Traced(files, calls, d, n - 1);
        if !Held(files, d, files[n - 1][d], 0, n - 1) {
          var k: nat :| k < n - 1 && StoredBy(files, calls, d, k, n - 1);
          assert files[n - 1][d] == IssuedEntry(calls[k]);
          assert StoredBy(files, calls, d, k, n);
        }
      }
    }
  }

  lemma OnlyIssuesAdd(before: File, c: Call, after: File, d: Digest)
    requires Step(before, c, after) && d in after && !(Issues(c, d) && c.saved && c.purpose != "")
    ensures d in before && after[d] == before[d]
  {
  }

  /** Acceptance takes the state out of the file for good. */
  lemma AcceptanceRemoves(files: seq<File>, calls: seq<Call>, i: nat, state: string)
    requires Run(files, calls) && i < |calls| && Accepts(files, calls, i, state)
    ensures Digest(state) in files[i] && Digest(state) !in files[i + 1]
  {
    assert Step(files[i], calls[i], files[i + 1]);
  }

  lemma NotReissued(files: seq<File>, calls: seq<Call>, d: Digest, i: nat, k: nat)
    requires Run(files, calls) && FreshStates(files, calls) && i <= k < |calls| && d in files[i]
    ensures !Issues(calls[k], d)
  {
    Traced(files, calls, d, i);
    if Held(files, d, files[i][d], 0, i) {
      assert d in files[0];
    } else {
      var was: nat :| was < i && StoredBy(files, calls, d, was, i);
      assert Issues(calls[was], d);
    }
  }

  lemma StoredAfterGone(files: seq<File>, calls: seq<Call>, d: Digest, k: nat, i: nat, j: nat)
    requires |files| == |calls| + 1 && k < j <= |calls| && i < j
    requires StoredBy(files, calls, d, k, j) && d !in files[i + 1]
    ensures i < k
  {
    var gone := files[i + 1];
  }

  /** Once a state is out of the file after having been in it, it never comes back. */
  lemma GoneForGood(files: seq<File>, calls: seq<Call>, d: Digest, i: nat, j: nat)
    requires Run(files, calls) && FreshStates(files, calls) && i < j <= |calls|
    requires d in files[i] && d !in files[i + 1]
    ensures d !in files[j]
  {
    if d in files[j] {
      Traced(files, calls, d, j);
      assert !Held(files, d, files[j][d], 0, j) by { assert d !in files[i + 1]; }
      var k: nat :| k < j && StoredBy(files, calls, d, k, j);
      StoredAfterGone(files, calls, d, k, i, j);
      NotReissued(files, calls, d, i, k);
    }
  }

  /** Each state is accepted at most once, whatever reads and writes fail and whatever the clock does. */
  lemma AcceptedAtMostOnce(files: seq<File>, calls: seq<Call>, i: nat, j: nat, state: string)
    requires Run(files, calls) && FreshStates(files, calls)
    requires i < |calls| && j < |calls| && Accepts(files, calls, i, state) && Accepts(files, calls, j, state)
    ensures i == j
  {
    var first, second := if i < j then i else j, if i < j then j else i;
    if first < second {
      AcceptanceRemoves(files, calls, first, state);
      GoneForGood(files, calls, Digest(state), first, second);
    }
  }

  /**
   An accepted state was issued for the purpose it is accepted for, was saved, was never evicted, had
   not expired, and its removal is on disk. A run that starts from an empty file leaves no other case.
   */
  lemma AcceptedWasPending(files: seq<File>, calls: seq<Call>, i: nat, state: string)
    requires Run(files, calls) && i < |calls| && Accepts(files, calls, i, state)
    requires Digest(state) !in files[0]
    ensures Digest(state) !in files[i + 1]
    ensures exists k: nat :: k < i && StoredBy(files, calls, Digest(state), k, i)
                          && calls[k].purpose == calls[i].purpose && calls[i].checked < calls[k].expiry
                          && Carried(files[i][Digest(state)]) == calls[k].data
  {
    var d := Digest(state);
    AcceptanceRemoves(files, calls, i, state);
    Traced(files, calls, d, i);
    assert !Held(files, d, files[i][d], 0, i) by { assert d !in files[0]; }
    var k: nat :| k < i && StoredBy(files, calls, d, k, i);
    assert files[i][d] == IssuedEntry(calls[k]);
  }

  /**
   A pending state is accepted: presented in time and for its purpose, with the file read and its removal
   saved, it hands back what it was issued with, whatever else the file holds.
   */
  lemma PendingIsAccepted(files: seq<File>, calls: seq<Call>, k: nat, i: nat)
    requires Run(files, calls) && k < i < |calls| && calls[k].Issue? && calls[i].Consume?
    requires StoredBy(files, calls, Digest(calls[k].state), k, i) && calls[i].state == calls[k].state
    requires calls[i].purpose == calls[k].purpose && calls[i].checked < calls[k].expiry
    requires 0 < |calls[i].state| <= 256 && calls[i].readable && calls[i].saved
    ensures Accepts(files, calls, i, calls[i].state)
    ensures var entry := files[i][Digest(calls[i].state)];
      entry.purpose == Some(calls[k].purpose) && entry.data == Some(calls[k].data)
          && entry.expiry == Some(calls[k].expiry)
  {
    assert files[i][Digest(calls[i].state)] == IssuedEntry(calls[k]);
  }

  /** What one call does to a live entry it is not about: nothing, unless it stores over the cap or could not read. */
  lemma OthersAreSpared(before: File, c: Call, after: File, d: Digest)
    requires Step(before, c, after) && d in before && before[d].expiry.Some? && c.now < before[d].expiry.value
    requires d != Digest(c.state) && (c.Issue? ==> c.readable && |before| < 20)
    ensures d in after && after[d] == before[d]
  {
    if c.Issue? && c.purpose != "" && c.saved {
      var entries := Live(before, c.now)[Digest(c.state) := IssuedEntry(c)];
      SubsetSize(Live(before, c.now).Keys, before.Keys);
      assert entries.Keys == Live(before, c.now).Keys + {Digest(c.state)};
      SameSizeSubset(after.Keys, entries.Keys);
    }
  }

  /**
   A stored state stays pending: as long as it has not expired, is not presented, every issue reads the file
   and the file is below its cap.
   */
  lemma {:induction false} StaysPending(files: seq<File>, calls: seq<Call>, d: Digest, k: nat, n: nat)
    requires Run(files, calls) && k < n <= |calls| && Issues(calls[k], d) && calls[k].saved && calls[k].purpose != ""
    requires d in files[k + 1] && files[k + 1][d] == IssuedEntry(calls[k])
    requires forall m | k < m < n :: Digest(calls[m].state) != d && calls[m].now < calls[k].expiry
    requires forall m | k < m < n :: calls[m].Issue? ==> calls[m].readable && |files[m]| < 20
    ensures StoredBy(files, calls, d, k, n)
    decreases n
  {
    if n > k + 1 {
      StaysPending(files, calls, d, k, n - 1);
      assert Step(files[n - 1], calls[n - 1], files[n]);
      OthersAreSpared(files[n - 1], calls[n - 1], files[n], d);
    }
  }

  /** Presenting a pending state once, even for the wrong purpose or too late, uses it up if the removal is saved. */
  lemma PresentedIsBurned(files: seq<File>, calls: seq<Call>, i: nat, j: nat, state: string)
    requires Run(files, calls) && FreshStates(files, calls) && i < j < |calls|
    requires calls[i].Consume? && calls[i].state == state && !Refused(state) && calls[i].readable && calls[i].saved
    requires Digest(state) in files[i]
    ensures !Accepts(files, calls, j, state)
  {
    assert Step(files[i], calls[i], files[i + 1]);
    GoneForGood(files, calls, Digest(state), i, j);
  }

  /** A presentation whose removal is not saved is refused and leaves the file as it was. */
  lemma UnsavedIsRefused(files: seq<File>, calls: seq<Call>, i: nat, state: string)
    requires Run(files, calls) && i < |calls| && calls[i].Consume? && calls[i].state == state && !calls[i].saved
    ensures !Accepts(files, calls, i, state) && files[i + 1] == files[i]
  {
    assert Step(files[i], calls[i], files[i + 1]);
  }

  // ---- what an issue can cost ----

  function Outlasting(entries: File, e: Entry): File {
    map d | d in entries && !NoLater(entries[d], e) :: entries[d]
  }

  /** A saved issue keeps the new state unless the cap is already filled with states that expire strictly later. */
  lemma IssuedIsStoredIff(before: File, after: File, state: string, entry: Entry, now: real, readable: bool)
    requires IssueStep(before, after, state, entry, now, readable, true) && Digest(state) !in before
    ensures Digest(state) in after <==> |Outlasting(Live(Read(before, readable), now), entry)| < 20
    ensures Digest(state) in after ==> after[Digest(state)] == entry
    ensures |after| <= 20
  {
    var d := Digest(state);
    var live := Live(Read(before, readable), now);
    var entries := live[d := entry];
    var later := Outlasting(live, entry);
    assert entries.Keys == live.Keys + {d};
    if d in after {
      if |entries| <= MAX_PENDING_STATES {
        SubsetSize(later.Keys, live.Keys);
      } else {
        assert later.Keys <= after.Keys - {d} by {
          forall k | k in later ensures k in after.Keys - {d} { assert entries[k] == live[k]; }
        }
        SubsetSize(later.Keys, after.Keys - {d});
      }
    } else {
      assert after.Keys <= later.Keys by {
        forall k | k in after ensures k in later { assert k != d && entries[k] == live[k]; }
      }
      SubsetSize(after.Keys, later.Keys);
      if |entries| <= MAX_PENDING_STATES {
        SameSizeSubset(after.Keys, entries.Keys);
        assert false;
      }
    }
  }

  /** With one lifetime and a clock that has not gone backwards, a saved issue is always stored. */
  lemma SteadyClockStores(before: File, after: File, state: string, entry: Entry, now: real, readable: bool)
    requires IssueStep(before, after, state, entry, now, readable, true) && Digest(state) !in before
    requires forall d | d in before :: NoLater(before[d], entry)
    ensures Digest(state) in after
  {
    IssuedIsStoredIff(before, after, state, entry, now, readable);
    assert Outlasting(Live(Read(before, readable), now), entry) == map[];
  }

  /** A saved call clears what has expired: all that is left is live, but for a state that was issued expired. */
  lemma SavedHoldsLive(before: File, c: Call, after: File, d: Digest)
    requires Step(before, c, after) && c.saved && c.readable && d in after
    requires c.Issue? ==> c.purpose != "" && d != Digest(c.state)
    requires c.Consume? ==> !Refused(c.state)
    ensures after[d].expiry.Some? && c.now < after[d].expiry.value
  {
  }
}
