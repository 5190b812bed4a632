/** The sliding-window rate limiter: pruned buckets of timestamps that decide as the full history would. */
module RateLimiter {
  import opened Wrappers
  import opened PyText

  /** One accepted request. */
  datatype Hit = Hit(key: string, at: real)

  /** Timestamps later than `start`, in order. */
  function Later(stamps: seq<real>, start: real): seq<real> {
    if stamps == [] then []
    else if stamps[0] > start then [stamps[0]] + Later(stamps[1..], start)
    else Later(stamps[1..], start)
  }

  /** The accepted timestamps of one key, in order. */
  function Of(history: seq<Hit>, key: string): seq<real> {
    if history == [] then []
    else
      var last := history[|history| - 1];
      Of(history[..|history| - 1], key) + if last.key == key then [last.at] else []
  }

  /** The reference decision: fewer than `limit` accepted requests of the key in the last window. */
  predicate Admits(history: seq<Hit>, key: string, now: real, window: real, limit: int) {
    |Later(Of(history, key), now - window)| < limit
  }

  predicate AdmittedAt(history: seq<Hit>, n: nat, window: real, limit: int)
    requires n < |history|
  {
    Admits(history[..n], history[n].key, history[n].at, window, limit)
  }

  /** Every request in the history was admitted by what came before it. */
  predicate Lawful(history: seq<Hit>, window: real, limit: int) {
    forall n | 0 <= n < |history| :: AdmittedAt(history, n, window, limit)
  }

  predicate Sorted(stamps: seq<real>) {
    forall i, j | 0 <= i < j < |stamps| :: stamps[i] <= stamps[j]
  }

  function Bucket(requests: map<string, seq<real>>, key: string): seq<real> {
    if key in requests then requests[key] else []
  }

  predicate Idle(stamps: seq<real>, start: real) {
    stamps == [] || stamps[|stamps| - 1] <= start
  }

  predicate OrderedUpTo(stamps: seq<real>, clock: real) {
    Sorted(stamps) && forall t | t in stamps :: t <= clock
  }

  ghost predicate BucketsOrdered(requests: map<string, seq<real>>, clock: real) {
    forall k | k in requests :: OrderedUpTo(requests[k], clock)
  }

  /** After `start` every bucket shows what the history shows. */
  ghost predicate Shows(requests: map<string, seq<real>>, history: seq<Hit>, start: real) {
    forall k :: Later(Bucket(requests, k), start) == Later(Of(history, k), start)
  }

  // ---- which requests are limited, and under which key ----

  predicate StartsWith(s: string, prefix: string) {
    |prefix| <= |s| && s[..|prefix|] == prefix
  }

  const LIMITED_PREFIXES := ["/webhooks/", "/api/v1/", "/pubsub/"]

  predicate IsLimited(path: string) {
    exists i | 0 <= i < |LIMITED_PREFIXES| :: StartsWith(path, LIMITED_PREFIXES[i])
  }

  /** The request path with the prefix the application is mounted under removed. */
  function RoutePath(path: string, root: string): string {
    if root == "" || !StartsWith(path, root) then path
    else if path == root then "/"
    else if path[|root|] == '/' then path[|root|..]
    else path
  }

  function UpToComma(s: string): string {
    if s == "" || s[0] == ',' then "" else [s[0]] + UpToComma(s[1..])
  }

  /** The left-most forwarded address if it is trusted and present, else the peer's, else a common one. */
  function ClientKey(trusted: bool, forwarded: string, host: Option<string>): string {
    var first := Strip(UpToComma(forwarded));
    if trusted && first != "" then first
    else match host case Some(name) => name case None => "unknown"
  }

  /** Mounting the application under a prefix changes no decision about its own paths. */
  lemma MountingChangesNothing(root: string, path: string)
    requires path != "" && path[0] == '/'
    ensures RoutePath(root + path, root) == path
  {
    assert (root + path)[..|root|] == root && (root + path)[|root|..] == path;
    if root != "" { assert (root + path)[|root|] == path[0]; }
  }

  /** Any other root changes nothing: the root must be the whole path or end at a slash of it. */
  lemma OtherRootsAreIgnored(path: string, root: string)
    ensures RoutePath(root, root) == (if root == "" then "" else "/")
    ensures path == root || (root <= path && path[|root|] == '/') || RoutePath(path, root) == path
  {
    if root <= path { assert path[..|root|] == root; }
  }

  /** Exactly the paths under the three prefixes are limited. */
  lemma LimitedIff(path: string)
    ensures IsLimited(path) <==> "/webhooks/" <= path || "/api/v1/" <= path || "/pubsub/" <= path
  {
    assert LIMITED_PREFIXES[0] == "/webhooks/" && LIMITED_PREFIXES[1] == "/api/v1/"
        && LIMITED_PREFIXES[2] == "/pubsub/";
    assert forall p: string :: StartsWith(path, p) <==> p <= path;
    if IsLimited(path) {
      var i :| 0 <= i < |LIMITED_PREFIXES| && StartsWith(path, LIMITED_PREFIXES[i]);
      assert LIMITED_PREFIXES[i] <= path;
    }
  }

  lemma {:induction false} CommaEnds(first: string, rest: string)
    requires ',' !in first && (rest == "" || rest[0] == ',')
    ensures UpToComma(first + rest) == first
    decreases |first|
  {
    if first == "" {
      assert first + rest == rest;
    } else {
      assert first[0] in first && (first + rest)[1..] == first[1..] + rest;
      CommaEnds(first[1..], rest);
    }
  }

  /** Without trust the forwarded header plays no part: the peer decides. */
  lemma UntrustedHeaderIsIgnored(forwarded: string, peer: string)
    ensures ClientKey(false, forwarded, Some(peer)) == peer && ClientKey(false, forwarded, None) == "unknown"
  {
  }

  /** With trust the first forwarded address is the client, without the blanks around it, whatever follows. */
  lemma FirstForwardedIsTheClient(a: string, t: string, b: string, rest: string, host: Option<string>)
    requires Blanks(a) && Tight(t) && Blanks(b) && ',' !in a + t + b && (rest == "" || rest[0] == ',')
    ensures ClientKey(true, a + t + b + rest, host) == if t != "" then t else ClientKey(false, "", host)
  {
    CommaEnds(a + t + b, rest);
    StripIs(a, t, b);
  }

  /** The requests of the key after `start`. */
  ghost function Hits(history: seq<Hit>, key: string, start: real): set<nat> {
    set i: nat | i < |history| && history[i].key == key && history[i].at > start
  }

  /** What a decision counts is the requests of the key that were accepted in the window. */
  lemma {:induction false} LaterCountsHits(history: seq<Hit>, key: string, start: real)
    ensures |Later(Of(history, key), start)| == |Hits(history, key, start)|
    decreases |history|
  {
    hide Hits;
    if history == [] {
      NoHits(key, start);
    } else {
      var n := |history| - 1;
      var last := history[n];
      LaterCountsHits(history[..n], key, start);
      OneMoreHit(history, key, start);
      var more: seq<real> := if last.key == key then [last.at] else [];
      LaterConcat(Of(history[..n], key), more, start);
      assert Later(more, start) == if last.key == key && last.at > start then [last.at] else [];
    }
  }

  lemma NoHits(key: string, start: real)
    ensures Hits([], key, start) == {}
  {
  }

  lemma OneMoreHit(history: seq<Hit>, key: string, start: real)
    requires history != []
    ensures var n := |history| - 1;
      |Hits(history, key, start)|
      == |Hits(history[..n], key, start)| + if history[n].key == key && history[n].at > start then 1 else 0
  {
    var n: nat := |history| - 1;
    var before := Hits(history[..n], key, start);
    assert forall i: nat | i < n :: history[..n][i] == history[i];
    assert Hits(history, key, start) == if history[n].key == key && history[n].at > start then before + {n} else before;
  }

  /** A request is admitted exactly when fewer than the limit of its key were accepted in the window before it. */
  lemma AdmittedIff(history: seq<Hit>, key: string, now: real, window: real, limit: int)
    ensures Admits(history, key, now, window, limit) <==> |Hits(history, key, now - window)| < limit
  {
    LaterCountsHits(history, key, now - window);
  }

  class Limiter {
    const limit: int
    const window: real
    const trusted: bool
    var requests: map<string, seq<real>>
    /** Every accepted request so far, and the clock at the last call. */
    ghost var history: seq<Hit>
    ghost var clock: real

    /** In every window still to come, each bucket shows what the history shows. */
    ghost predicate Valid()
      reads this
    {
      && Lawful(history, window, limit)
      && BucketsOrdered(requests, clock)
      && Shows(requests, history, clock - window)
    }

    constructor (limit: int, window: real, trusted: bool, ghost now: real)
      ensures Valid() && this.limit == limit && this.window == window && this.trusted == trusted && history == []
        && clock == now
    {
      this.limit := limit;
      this.window := window;
      this.trusted := trusted;
      this.requests := map[];
      this.history := [];
      this.clock := now;
    }

    /** The timestamps of a bucket inside the window. */
    method Recent(stamps: seq<real>, start: real) returns (recent: seq<real>)
      ensures recent == Later(stamps, start)
    {
      recent := [];
      var i := 0;
      while i < |stamps|
        invariant 0 <= i <= |stamps|
        invariant recent + Later(stamps[i..], start) == Later(stamps, start)
      {
        assert stamps[i..][1..] == stamps[i + 1..];
        if stamps[i] > start {
          recent := recent + [stamps[i]];
        }
        i := i + 1;
      }
    }

    /**
     Decides one request: True when it may proceed, False for a 429. A path outside the limited prefixes
     always proceeds and leaves no trace; on any other the full history of the client's key decides.
     */
    method Dispatch(path: string, root: string, forwarded: string, host: Option<string>, now: real) returns (ok: bool)
      requires Valid() && clock <= now
      modifies this
      ensures Valid()
      ensures !IsLimited(RoutePath(path, root)) ==> ok && requests == old(requests) && history == old(history)
      ensures IsLimited(RoutePath(path, root)) ==>
                var key := ClientKey(trusted, forwarded, host);
                && (ok <==> Admits(old(history), key, now, window, limit))
                && history == if ok then old(history) + [Hit(key, now)] else old(history)
    {
      hide RoutePath, IsLimited, ClientKey, Later, Of, Shows, BucketsOrdered, Lawful;
      if !IsLimited(RoutePath(path, root)) { return true; }
      ok := Admit(ClientKey(trusted, forwarded, host), now);
    }

    /** Decides one request of a client. */
    method Admit(key: string, now: real) returns (ok: bool)
      requires Valid() && clock <= now
      modifies this
      ensures Valid() && clock == now
      ensures ok <==> Admits(old(history), key, now, window, limit)
      ensures history == if ok then old(history) + [Hit(key, now)] else old(history)
      ensures ok ==> forall k | k in requests :: !Idle(requests[k], now - window)
      ensures !ok ==> requests == old(requests)[key := Later(Bucket(old(requests), key), now - window)]
    {
      hide Later, Of, Lawful, OrderedUpTo;
      var start := now - window;
      ClockAdvances(requests, history, clock - window, start);
      OrderedLater(requests, clock, now);
      assert Later(Bucket(requests, key), start) == Later(Of(history, key), start);
      var stamps := Recent(Bucket(requests, key), start);
      clock := now;
      if |stamps| >= limit {
        RejectingShows(requests, history, key, start);
        RejectingOrdered(requests, key, start, now);
        requests := requests[key := stamps];
        return false;
      }
      AcceptingShows(requests, history, key, now, start);
      AcceptingOrdered(requests, key, now, start);
      LawfulGrows(history, Hit(key, now), window, limit);
      requests := requests[key := stamps + [now]];
      history := history + [Hit(key, now)];
      EvictIdle(start);
      ok := true;
    }

    /** Drops buckets whose most recent request fell out of the window; no later decision changes. */
    method EvictIdle(start: real)
      requires Shows(requests, history, start) && BucketsOrdered(requests, clock)
      modifies this`requests
      ensures Shows(requests, history, start) && BucketsOrdered(requests, clock)
      ensures forall k | k in old(requests) :: var stamps := old(requests)[k];
        && (k in requests <==> stamps != [] && start < stamps[|stamps| - 1])
        && (k in requests ==> requests[k] == stamps)
      ensures requests.Keys <= old(requests).Keys
      ensures requests == map k | k in old(requests) && !Idle(old(requests)[k], start) :: old(requests)[k]
    {
      hide Later, Of, OrderedUpTo;
      ghost var before := requests;
      var stale := set k | k in requests && Idle(requests[k], start);
      ghost var all := stale;
      while stale != {}
        invariant stale <= all
        invariant requests == map k | k in before && k !in all - stale :: before[k]
        decreases stale
      {
        var k :| k in stale;
        requests := requests - {k};
        stale := stale - {k};
      }
      EvictingIdle(before, history, start, clock);
    }
  }

  // ---- windows ----

  lemma {:induction false} LaterTwice(stamps: seq<real>, start: real, later: real)
    requires start <= later
    ensures Later(Later(stamps, start), later) == Later(stamps, later)
    decreases |stamps|
  {
    if stamps != [] {
      LaterTwice(stamps[1..], start, later);
      assert ([stamps[0]] + Later(stamps[1..], start))[1..] == Later(stamps[1..], start);
    }
  }

  lemma {:induction false} LaterConcat(a: seq<real>, b: seq<real>, start: real)
    ensures Later(a + b, start) == Later(a, start) + Later(b, start)
    decreases |a|
  {
    if a == [] {
      assert a + b == b;
    } else {
      assert (a + b)[1..] == a[1..] + b;
      LaterConcat(a[1..], b, start);
    }
  }

  /** Filtering keeps order and invents nothing. */
  lemma {:induction false} LaterSub(stamps: seq<real>, start: real)
    ensures forall t | t in Later(stamps, start) :: t in stamps
    ensures Sorted(stamps) ==> Sorted(Later(stamps, start))
    decreases |stamps|
  {
    if stamps != [] {
      var rest := stamps[1..];
      LaterSub(rest, start);
      if Sorted(stamps) {
        assert forall i, j | 0 <= i < j < |rest| :: rest[i] == stamps[i + 1] && rest[j] == stamps[j + 1];
        var kept := Later(rest, start);
        assert forall i | 0 <= i < |kept| :: kept[i] in kept && kept[i] in rest;
        assert forall i | 0 <= i < |rest| :: stamps[0] <= rest[i];
      }
    }
  }

  /** Agreement in one window is agreement in every later one. */
  lemma ClockAdvances(requests: map<string, seq<real>>, history: seq<Hit>, start: real, later: real)
    requires Shows(requests, history, start) && start <= later
    ensures Shows(requests, history, later)
  {
    forall k ensures Later(Bucket(requests, k), later) == Later(Of(history, k), later) {
      assert Later(Bucket(requests, k), start) == Later(Of(history, k), start);
      LaterTwice(Bucket(requests, k), start, later);
      LaterTwice(Of(history, k), start, later);
    }
  }

  lemma OrderedLater(requests: map<string, seq<real>>, clock: real, now: real)
    requires BucketsOrdered(requests, clock) && clock <= now
    ensures BucketsOrdered(requests, now)
  {
    forall k | k in requests ensures OrderedUpTo(requests[k], now) {
      assert OrderedUpTo(requests[k], clock);
    }
  }

  /** Storing the pruned bucket changes nothing later windows see. */
  lemma RejectingShows(requests: map<string, seq<real>>, history: seq<Hit>, key: string, start: real)
    requires Shows(requests, history, start)
    ensures Shows(requests[key := Later(Bucket(requests, key), start)], history, start)
  {
    var after := requests[key := Later(Bucket(requests, key), start)];
    forall k ensures Later(Bucket(after, k), start) == Later(Of(history, k), start) {
      LaterTwice(Bucket(requests, k), start, start);
      assert Later(Bucket(requests, k), start) == Later(Of(history, k), start);
    }
  }

  lemma RejectingOrdered(requests: map<string, seq<real>>, key: string, start: real, clock: real)
    requires BucketsOrdered(requests, clock)
    ensures BucketsOrdered(requests[key := Later(Bucket(requests, key), start)], clock)
  {
    LaterSub(Bucket(requests, key), start);
  }

  lemma AppendOrdered(stamps: seq<real>, now: real, start: real)
    requires OrderedUpTo(stamps, now)
    ensures OrderedUpTo(Later(stamps, start) + [now], now)
  {
    var kept := Later(stamps, start);
    LaterSub(stamps, start);
    assert forall i | 0 <= i < |kept| :: kept[i] in kept;
  }

  lemma OfGrown(history: seq<Hit>, hit: Hit, k: string)
    ensures Of(history + [hit], k) == Of(history, k) + if hit.key == k then [hit.at] else []
  {
    assert (history + [hit])[..|history|] == history;
  }

  /** Storing the pruned bucket with the new timestamp matches the history with the new hit. */
  lemma AcceptingShows(requests: map<string, seq<real>>, history: seq<Hit>, key: string, now: real, start: real)
    requires Shows(requests, history, start)
    ensures Shows(requests[key := Later(Bucket(requests, key), start) + [now]], history + [Hit(key, now)], start)
  {
    var stamps := Bucket(requests, key);
    var after := requests[key := Later(stamps, start) + [now]];
    var grown := history + [Hit(key, now)];
    forall k ensures Later(Bucket(after, k), start) == Later(Of(grown, k), start) {
      OfGrown(history, Hit(key, now), k);
      assert Later(Bucket(requests, k), start) == Later(Of(history, k), start);
      if k == key {
        LaterConcat(Later(stamps, start), [now], start);
        LaterTwice(stamps, start, start);
        LaterConcat(Of(history, key), [now], start);
      } else {
        assert Of(history, k) + [] == Of(history, k);
      }
    }
  }

  lemma AcceptingOrdered(requests: map<string, seq<real>>, key: string, now: real, start: real)
    requires BucketsOrdered(requests, now)
    ensures BucketsOrdered(requests[key := Later(Bucket(requests, key), start) + [now]], now)
  {
    AppendOrdered(Bucket(requests, key), now, start);
  }

  lemma {:induction false} IdleIsInvisible(stamps: seq<real>, start: real)
    requires Sorted(stamps) && Idle(stamps, start)
    ensures Later(stamps, start) == []
    decreases |stamps|
  {
    if stamps != [] {
      var rest := stamps[1..];
      assert forall i, j | 0 <= i < j < |rest| :: rest[i] == stamps[i + 1] && rest[j] == stamps[j + 1];
      IdleIsInvisible(rest, start);
    }
  }

  /** A bucket that is gone reads as empty, which is all an idle one showed. */
  lemma EvictingIdle(requests: map<string, seq<real>>, history: seq<Hit>, start: real, clock: real)
    requires Shows(requests, history, start) && BucketsOrdered(requests, clock)
    ensures Shows(map k | k in requests && !Idle(requests[k], start) :: requests[k], history, start)
    ensures BucketsOrdered(map k | k in requests && !Idle(requests[k], start) :: requests[k], clock)
  {
    var kept := map k | k in requests && !Idle(requests[k], start) :: requests[k];
    forall k ensures Later(Bucket(kept, k), start) == Later(Of(history, k), start) {
      assert Later(Bucket(requests, k), start) == Later(Of(history, k), start);
      if k in requests && Idle(requests[k], start) { IdleIsInvisible(requests[k], start); }
    }
  }

  lemma LawfulGrows(history: seq<Hit>, hit: Hit, window: real, limit: int)
    requires Lawful(history, window, limit) && Admits(history, hit.key, hit.at, window, limit)
    ensures Lawful(history + [hit], window, limit)
  {
    var grown := history + [hit];
    forall n | 0 <= n < |grown| ensures AdmittedAt(grown, n, window, limit) {
      if n < |history| {
        assert AdmittedAt(history, n, window, limit);
        assert grown[..n] == history[..n];
      } else {
        assert grown[..n] == history;
      }
    }
  }

  lemma LawfulPrefix(history: seq<Hit>, window: real, limit: int)
    requires Lawful(history, window, limit) && history != []
    ensures Lawful(history[..|history| - 1], window, limit)
  {
    var init := history[..|history| - 1];
    forall n | 0 <= n < |init| ensures AdmittedAt(init, n, window, limit) {
      assert AdmittedAt(history, n, window, limit);
      assert init[..n] == history[..n];
    }
  }

  // ---- the bound the limiter is for ----

  /** Accepted requests of a key after `from` and up to `to`. */
  function Between(stamps: seq<real>, from: real, to: real): nat {
    if stamps == [] then 0
    else Between(stamps[..|stamps| - 1], from, to) + if from < stamps[|stamps| - 1] <= to then 1 else 0
  }

  /** The same with the start included and the end excluded. */
  function BetweenClosedOpen(stamps: seq<real>, from: real, to: real): nat {
    if stamps == [] then 0
    else BetweenClosedOpen(stamps[..|stamps| - 1], from, to) + if from <= stamps[|stamps| - 1] < to then 1 else 0
  }

  lemma {:induction false} BetweenIsLater(stamps: seq<real>, from: real, to: real, start: real)
    ensures start <= from ==> Between(stamps, from, to) <= |Later(stamps, start)|
    ensures start < from ==> BetweenClosedOpen(stamps, from, to) <= |Later(stamps, start)|
    decreases |stamps|
  {
    if stamps != [] {
      var init, last := stamps[..|stamps| - 1], stamps[|stamps| - 1];
      assert stamps == init + [last];
      LaterConcat(init, [last], start);
      BetweenIsLater(init, from, to, start);
    }
  }

  /** No half-open interval of one window length ever holds more than `limit` accepted requests of one key. */
  lemma {:induction false} WindowNeverExceedsLimit(history: seq<Hit>, key: string, from: real, window: real, limit: int)
    requires Lawful(history, window, limit)
    ensures Between(Of(history, key), from, from + window) <= if limit < 0 then 0 else limit
    ensures BetweenClosedOpen(Of(history, key), from, from + window) <= if limit < 0 then 0 else limit
    decreases |history|
  {
    if history != [] {
      var init, last := history[..|history| - 1], history[|history| - 1];
      LawfulPrefix(history, window, limit);
      WindowNeverExceedsLimit(init, key, from, window, limit);
      if last.key == key {
        assert AdmittedAt(history, |init|, window, limit);
        OneMore(Of(init, key), last.at, from, window, limit);
      } else {
        assert Of(history, key) == Of(init, key);
      }
    }
  }

  /** An admitted timestamp inside an interval leaves room: the interval starts no earlier than its window. */
  lemma OneMore(stamps: seq<real>, at: real, from: real, window: real, limit: int)
    requires |Later(stamps, at - window)| < limit
    requires Between(stamps, from, from + window) <= limit && BetweenClosedOpen(stamps, from, from + window) <= limit
    ensures Between(stamps + [at], from, from + window) <= limit
    ensures BetweenClosedOpen(stamps + [at], from, from + window) <= limit
  {
    assert (stamps + [at])[..|stamps|] == stamps;
    BetweenIsLater(stamps, from, from + window, at - window);
  }
}
