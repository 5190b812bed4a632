/**
 The timestamp strings of the merge queue: `datetime.now(UTC).isoformat()`, whose fraction
 is dropped when the microseconds are zero, compared as strings by the store and by the
 claim order. They compare exactly as the instants they denote.
 */
module IsoTime {
  import opened Wrappers
  import MergeStore

  /** Lexicographic string order by code point. */
  predicate Less(a: string, b: string) {
    b != "" && (a == "" || a[0] < b[0] || (a[0] == b[0] && Less(a[1..], b[1..])))
  }

  datatype DateTime = DateTime(year: nat, month: nat, day: nat, hour: nat, minute: nat, second: nat, micro: nat)
  {
    predicate Valid() {
      && 1 <= year <= 9999 && 1 <= month <= 12 && 1 <= day <= DaysInMonth(year, month)
      && hour < 24 && minute < 60 && second < 60 && micro < 1_000_000
    }
  }

  // ---- the calendar ----

  predicate Leap(y: nat) {
    y % 4 == 0 && (y % 100 != 0 || y % 400 == 0)
  }

  function DaysInMonth(y: nat, m: nat): nat {
    if m == 2 then (if Leap(y) then 29 else 28)
    else if m == 4 || m == 6 || m == 9 || m == 11 then 30
    else 31
  }

  function DaysInYear(y: nat): nat {
    if Leap(y) then 366 else 365
  }

  /** Days from the first of January of year 1 to the first of January of year `y`. */
  function DaysBeforeYear(y: nat): int {
    (y - 1) * 365 + (y - 1) / 4 - (y - 1) / 100 + (y - 1) / 400
  }

  function DaysBeforeMonth(y: nat, m: nat): nat {
    if m <= 1 then 0 else DaysBeforeMonth(y, m - 1) + DaysInMonth(y, m - 1)
  }

  function DayNumber(t: DateTime): int {
    DaysBeforeYear(t.year) + DaysBeforeMonth(t.year, t.month) + t.day
  }

  /** Microseconds from a fixed origin. */
  function Instant(t: DateTime): int {
    (((DayNumber(t) * 24 + t.hour) * 60 + t.minute) * 60 + t.second) * 1_000_000 + t.micro
  }

  // ---- the string ----

  function Digit(n: nat): char
    requires n < 10
  {
    '0' + n as char
  }

  /** Decimal, zero padded to `width`. */
  function Padded(n: nat, width: nat): string {
    if width == 0 then "" else Padded(n / 10, width - 1) + [Digit(n % 10)]
  }

  const WIDTHS: seq<nat> := [4, 2, 2, 2, 2, 2]
  const SEPARATORS: seq<string> := ["-", "-", "T", ":", ":", ""]

  function Fields(t: DateTime): seq<nat> {
    [t.year, t.month, t.day, t.hour, t.minute, t.second]
  }

  /** Fields `k` and later, each followed by its separator. */
  function Joined(fields: seq<nat>, k: nat): string
    requires |fields| == 6 && k <= 6
    decreases 6 - k
  {
    if k == 6 then "" else Padded(fields[k], WIDTHS[k]) + SEPARATORS[k] + Joined(fields, k + 1)
  }

  function Tail(micro: nat): string {
    (if micro == 0 then "" else "." + Padded(micro, 6)) + "+00:00"
  }

  function Iso(t: DateTime): string {
    Joined(Fields(t), 0) + Tail(t.micro)
  }

  // ---- string order of the parts ----

  lemma LessCons(c: char, a: string, b: string)
    requires Less(a, b)
    ensures Less([c] + a, [c] + b)
  {
    assert ([c] + a)[1..] == a && ([c] + b)[1..] == b;
  }

  lemma {:induction false} LessAfterPrefix(p: string, a: string, b: string)
    requires Less(a, b)
    ensures Less(p + a, p + b)
    decreases |p|
  {
    if p == "" {
      assert p + a == a && p + b == b;
    } else {
      LessAfterPrefix(p[1..], a, b);
      LessCons(p[0], p[1..] + a, p[1..] + b);
      assert p + a == [p[0]] + (p[1..] + a);
      assert p + b == [p[0]] + (p[1..] + b);
    }
  }

  lemma {:induction false} LessBeforeSuffix(a: string, b: string, x: string, y: string)
    requires |a| == |b| && Less(a, b)
    ensures Less(a + x, b + y)
    decreases |a|
  {
    assert (a + x)[1..] == a[1..] + x && (b + y)[1..] == b[1..] + y;
    if a[0] == b[0] {
      LessBeforeSuffix(a[1..], b[1..], x, y);
    }
  }

  lemma {:induction false} LessAsymmetric(a: string, b: string)
    requires Less(a, b)
    ensures !Less(b, a) && a != b
    decreases |a|
  {
    if a != "" && a[0] == b[0] {
      LessAsymmetric(a[1..], b[1..]);
    }
  }

  function Power10(k: nat): nat {
    if k == 0 then 1 else 10 * Power10(k - 1)
  }

  lemma {:induction false} PaddedLength(n: nat, width: nat)
    ensures |Padded(n, width)| == width
  {
    if width > 0 {
      PaddedLength(n / 10, width - 1);
    }
  }

  lemma {:induction false} PaddedLess(m: nat, n: nat, width: nat)
    requires m < n < Power10(width)
    ensures Less(Padded(m, width), Padded(n, width))
  {
    if width > 0 {
      PaddedLength(m / 10, width - 1);
      PaddedLength(n / 10, width - 1);
      if m / 10 < n / 10 {
        PaddedLess(m / 10, n / 10, width - 1);
        LessBeforeSuffix(Padded(m / 10, width - 1), Padded(n / 10, width - 1), [Digit(m % 10)], [Digit(n % 10)]);
      } else {
        LessAfterPrefix(Padded(m / 10, width - 1), [Digit(m % 10)], [Digit(n % 10)]);
      }
    }
  }

  lemma TailLess(m: nat, n: nat)
    requires m < n < 1_000_000
    ensures Less(Tail(m), Tail(n))
  {
    PaddedLength(n, 6);
    if m == 0 {
      assert Tail(m)[0] == '+' && Tail(n)[0] == '.';
    } else {
      PaddedLength(m, 6);
      assert Power10(6) == 1_000_000 by {
        assert Power10(3) == 1000;
      }
      PaddedLess(m, n, 6);
      LessBeforeSuffix(Padded(m, 6), Padded(n, 6), "+00:00", "+00:00");
      LessAfterPrefix(".", Padded(m, 6) + "+00:00", Padded(n, 6) + "+00:00");
      assert Tail(m) == "." + (Padded(m, 6) + "+00:00") && Tail(n) == "." + (Padded(n, 6) + "+00:00");
    }
  }

  /** Two field lists agree up to `k`, where the first is smaller. */
  predicate DiffersAt(a: seq<nat>, b: seq<nat>, k: nat) {
    |a| == 6 && |b| == 6 && k < 6 && a[..k] == b[..k] && a[k] < b[k] && b[k] < Power10(WIDTHS[k])
  }

  lemma {:induction false} JoinedLength(a: seq<nat>, b: seq<nat>, k: nat)
    requires |a| == 6 && |b| == 6 && k <= 6
    ensures |Joined(a, k)| == |Joined(b, k)|
    decreases 6 - k
  {
    if k < 6 {
      JoinedLength(a, b, k + 1);
      PaddedLength(a[k], WIDTHS[k]);
      PaddedLength(b[k], WIDTHS[k]);
    }
  }

  lemma {:induction false} JoinedLess(a: seq<nat>, b: seq<nat>, j: nat, k: nat)
    requires DiffersAt(a, b, k) && j <= k
    ensures Less(Joined(a, j), Joined(b, j))
    decreases k - j
  {
    hide Less, Padded;
    var p, q := Padded(a[j], WIDTHS[j]), Padded(b[j], WIDTHS[j]);
    var x, y := SEPARATORS[j] + Joined(a, j + 1), SEPARATORS[j] + Joined(b, j + 1);
    assert Joined(a, j) == p + x && Joined(b, j) == q + y;
    if j == k {
      PaddedLess(a[j], b[j], WIDTHS[j]);
      PaddedLength(a[j], WIDTHS[j]);
      PaddedLength(b[j], WIDTHS[j]);
      LessBeforeSuffix(p, q, x, y);
    } else {
      assert a[j] == a[..k][j] && b[j] == b[..k][j];
      JoinedLess(a, b, j + 1, k);
      LessAfterPrefix(SEPARATORS[j], Joined(a, j + 1), Joined(b, j + 1));
      LessAfterPrefix(p, x, y);
    }
  }

  // ---- order of the fields ----

  /** Fields in order, microseconds last. */
  predicate FieldsLess(a: DateTime, b: DateTime) {
    || (exists k | 0 <= k < 6 :: DiffersAt(Fields(a), Fields(b), k))
    || (Fields(a) == Fields(b) && a.micro < b.micro)
  }

  lemma FieldsTotal(a: DateTime, b: DateTime)
    requires a.Valid() && b.Valid()
    ensures a == b || FieldsLess(a, b) || FieldsLess(b, a)
  {
    var f, g := Fields(a), Fields(b);
    assert Power10(2) == 100 && Power10(4) == 10000 by {
      assert Power10(3) == 1000;
    }
    if f != g {
      assert exists i :: 0 <= i < 6 && f[i] != g[i];
      var k := FirstDifference(f, g, 0);
      assert f[k] < Power10(WIDTHS[k]) && g[k] < Power10(WIDTHS[k]);
      assert DiffersAt(f, g, k) || DiffersAt(g, f, k);
    }
  }

  lemma {:induction false} FirstDifference(f: seq<nat>, g: seq<nat>, from: nat) returns (k: nat)
    requires |f| == 6 && |g| == 6 && from < 6 && f[..from] == g[..from]
    requires exists i :: from <= i < 6 && f[i] != g[i]
    ensures k < 6 && f[..k] == g[..k] && f[k] != g[k]
    decreases 6 - from
  {
    if f[from] != g[from] {
      k := from;
    } else {
      assert f[..from + 1] == f[..from] + [f[from]] && g[..from + 1] == g[..from] + [g[from]];
      k := FirstDifference(f, g, from + 1);
    }
  }

  lemma FieldsLessIsLess(a: DateTime, b: DateTime)
    requires a.Valid() && b.Valid() && FieldsLess(a, b)
    ensures Less(Iso(a), Iso(b))
  {
    if k :| 0 <= k < 6 && DiffersAt(Fields(a), Fields(b), k) {
      JoinedLess(Fields(a), Fields(b), 0, k);
      JoinedLength(Fields(a), Fields(b), 0);
      LessBeforeSuffix(Joined(Fields(a), 0), Joined(Fields(b), 0), Tail(a.micro), Tail(b.micro));
    } else {
      TailLess(a.micro, b.micro);
      LessAfterPrefix(Joined(Fields(a), 0), Tail(a.micro), Tail(b.micro));
    }
  }

  lemma DivStep(n: nat, k: nat)
    requires n > 0 && k > 0
    ensures n / k - (n - 1) / k == if n % k == 0 then 1 else 0
  {
    var q, r := (n - 1) / k, (n - 1) % k;
    assert n == q * k + (r + 1);
    if r + 1 == k {
      assert n == (q + 1) * k;
      DivMod(n, k, q + 1, 0);
    } else {
      DivMod(n, k, q, r + 1);
    }
  }

  lemma DivMod(n: nat, k: nat, q: nat, r: nat)
    requires k > 0 && n == q * k + r && r < k
    ensures n / k == q && n % k == r
  {
    var d := n / k - q;
    assert d * k == r - n % k;
    SmallMultiple(d, k);
  }

  lemma SmallMultiple(d: int, k: int)
    requires -k < d * k < k
    ensures d == 0
  {
    assert d >= 1 ==> d * k >= k;
    assert d <= -1 ==> d * k <= -k;
  }

  lemma MultipleOfMultiple(y: nat, a: nat, b: nat)
    requires a > 0 && b > 0 && y % (a * b) == 0
    ensures y % a == 0
  {
    var q := y / (a * b);
    assert y == (b * q) * a;
    DivMod(y, a, b * q, 0);
  }

  lemma LeapCycle(y: nat)
    ensures y % 400 == 0 ==> y % 100 == 0
    ensures y % 100 == 0 ==> y % 4 == 0
  {
    if y % 400 == 0 { MultipleOfMultiple(y, 100, 4); }
    if y % 100 == 0 { MultipleOfMultiple(y, 4, 25); }
  }

  lemma YearStep(y: nat)
    requires y >= 1
    ensures DaysBeforeYear(y + 1) == DaysBeforeYear(y) + DaysInYear(y)
  {
    DivStep(y, 4);
    DivStep(y, 100);
    DivStep(y, 400);
    LeapCycle(y);
    var m := y - 1;
    var four, hundred, cycle := m / 4, m / 100, m / 400;
    assert DaysBeforeYear(y) == m * 365 + four - hundred + cycle;
    assert DaysBeforeYear(y + 1) == y * 365 + y / 4 - y / 100 + y / 400;
  }

  lemma {:induction false} YearsGrow(y: nat, z: nat)
    requires 1 <= y < z
    ensures DaysBeforeYear(y) + DaysInYear(y) <= DaysBeforeYear(z)
    decreases z
  {
    YearStep(z - 1);
    if y < z - 1 {
      YearsGrow(y, z - 1);
    }
  }

  lemma {:induction false} MonthsGrow(y: nat, m: nat, n: nat)
    requires 1 <= m < n
    ensures DaysBeforeMonth(y, m) + DaysInMonth(y, m) <= DaysBeforeMonth(y, n)
    decreases n
  {
    if m < n - 1 {
      MonthsGrow(y, m, n - 1);
    }
  }

  lemma YearHoldsMonths(y: nat)
    ensures DaysBeforeMonth(y, 13) == DaysInYear(y)
  {
    assert DaysBeforeMonth(y, 1) == 0;
    assert DaysBeforeMonth(y, 2) == 31;
    assert DaysBeforeMonth(y, 3) == 31 + DaysInMonth(y, 2);
    assert DaysBeforeMonth(y, 5) == DaysBeforeMonth(y, 3) + 61;
    assert DaysBeforeMonth(y, 7) == DaysBeforeMonth(y, 5) + 61;
    assert DaysBeforeMonth(y, 9) == DaysBeforeMonth(y, 7) + 62;
    assert DaysBeforeMonth(y, 11) == DaysBeforeMonth(y, 9) + 61;
    assert DaysBeforeMonth(y, 13) == DaysBeforeMonth(y, 11) + 61;
  }

  lemma DayInYear(t: DateTime)
    requires t.Valid()
    ensures 1 <= DaysBeforeMonth(t.year, t.month) + t.day <= DaysInYear(t.year)
  {
    YearHoldsMonths(t.year);
    MonthsGrow(t.year, t.month, 13);
  }

  lemma DaysMonotonic(a: DateTime, b: DateTime)
    requires a.Valid() && b.Valid()
    requires a.year < b.year || (a.year == b.year && (a.month < b.month || (a.month == b.month && a.day < b.day)))
    ensures DayNumber(a) < DayNumber(b)
  {
    if a.year < b.year {
      DayInYear(a);
      DayInYear(b);
      YearsGrow(a.year, b.year);
    } else if a.month < b.month {
      MonthsGrow(a.year, a.month, b.month);
    }
  }

  lemma AgreesBefore(f: seq<nat>, g: seq<nat>, k: nat, j: nat)
    requires j < k <= |f| && k <= |g| && f[..k] == g[..k]
    ensures f[j] == g[j]
  {
    assert f[..k][j] == f[j] && g[..k][j] == g[j];
  }

  lemma TimeOfDayLess(a: DateTime, b: DateTime)
    requires a.Valid() && b.Valid() && DayNumber(a) == DayNumber(b)
    requires a.hour < b.hour || (a.hour == b.hour
      && (a.minute < b.minute || (a.minute == b.minute && a.second < b.second)))
    ensures Instant(a) < Instant(b)
  {
  }

  lemma FieldsLessIsEarlier(a: DateTime, b: DateTime)
    requires a.Valid() && b.Valid() && FieldsLess(a, b)
    ensures Instant(a) < Instant(b)
  {
    var f, g := Fields(a), Fields(b);
    if k :| 0 <= k < 6 && DiffersAt(f, g, k) {
      if k > 0 { AgreesBefore(f, g, k, 0); }
      if k > 1 { AgreesBefore(f, g, k, 1); }
      if k > 2 { AgreesBefore(f, g, k, 2); }
      if k > 3 { AgreesBefore(f, g, k, 3); }
      if k > 4 { AgreesBefore(f, g, k, 4); }
      if k < 3 { DaysMonotonic(a, b); } else { TimeOfDayLess(a, b); }
    } else {
      SameFields(a, b);
    }
  }

  lemma SameFields(a: DateTime, b: DateTime)
    requires Fields(a) == Fields(b)
    ensures a.year == b.year && a.month == b.month && a.day == b.day
    ensures a.hour == b.hour && a.minute == b.minute && a.second == b.second
  {
    assert Fields(a)[0] == Fields(b)[0] && Fields(a)[1] == Fields(b)[1] && Fields(a)[2] == Fields(b)[2];
    assert Fields(a)[3] == Fields(b)[3] && Fields(a)[4] == Fields(b)[4] && Fields(a)[5] == Fields(b)[5];
  }

  /** Timestamp strings compare as strings exactly as the instants they denote. */
  lemma StringOrderIsTimeOrder(a: DateTime, b: DateTime)
    requires a.Valid() && b.Valid()
    ensures Less(Iso(a), Iso(b)) <==> Instant(a) < Instant(b)
    ensures Iso(a) == Iso(b) <==> Instant(a) == Instant(b)
    ensures Instant(a) == Instant(b) <==> a == b
  {
    FieldsTotal(a, b);
    if FieldsLess(a, b) {
      FieldsLessIsLess(a, b);
      FieldsLessIsEarlier(a, b);
      LessAsymmetric(Iso(a), Iso(b));
    } else if FieldsLess(b, a) {
      FieldsLessIsLess(b, a);
      FieldsLessIsEarlier(b, a);
      LessAsymmetric(Iso(b), Iso(a));
    } else {
      LessIrreflexive(Iso(a));
    }
  }

  lemma {:induction false} LessIrreflexive(a: string)
    ensures !Less(a, a)
    decreases |a|
  {
    if a != "" {
      LessIrreflexive(a[1..]);
    }
  }

  /** The store's string filter against the cutoff selects exactly the claims older than the TTL. */
  lemma StaleFilterIsAge(started: DateTime, now: DateTime, cutoff: DateTime)
    requires started.Valid() && now.Valid() && cutoff.Valid()
    requires Instant(cutoff) == Instant(now) - MergeStore.MERGING_TTL
    ensures Less(Iso(started), Iso(cutoff)) <==> Instant(now) - Instant(started) > MergeStore.MERGING_TTL
  {
    StringOrderIsTimeOrder(started, cutoff);
  }

  /** Comparing (timestamp string, id) pairs is the claim order on instants. */
  lemma ClaimOrderOnStrings(a: DateTime, i: nat, b: DateTime, j: nat)
    requires a.Valid() && b.Valid()
    ensures (Less(Iso(a), Iso(b)) || (Iso(a) == Iso(b) && i < j))
      <==> MergeStore.Before(Some(Instant(a)), i, Instant(b), j)
  {
    StringOrderIsTimeOrder(a, b);
  }

  /** The string, written out: fields of fixed width, and a fraction only where there is one. */
  lemma IsoText(t: DateTime)
    ensures Iso(t) ==
            (Padded(t.year, 4) + "-" + (Padded(t.month, 2) + "-" + (Padded(t.day, 2) + "T" + (Padded(t.hour, 2) + ":"
            + (Padded(t.minute, 2) + ":" + (Padded(t.second, 2) + "" + ""))))))
            + ((if t.micro == 0 then "" else "." + Padded(t.micro, 6)) + "+00:00")
  {
    hide Joined, Padded;
    var f := Fields(t);
    JoinedStep(f, 0);
    JoinedStep(f, 1);
    JoinedStep(f, 2);
    JoinedStep(f, 3);
    JoinedStep(f, 4);
    JoinedStep(f, 5);
    JoinedStep(f, 6);
  }

  lemma JoinedStep(f: seq<nat>, k: nat)
    requires |f| == 6 && k <= 6
    ensures Joined(f, k) == if k == 6 then "" else Padded(f[k], WIDTHS[k]) + SEPARATORS[k] + Joined(f, k + 1)
  {
  }

  /** What a padded field looks like: its last two digits follow the padding of the rest. */
  lemma PaddedPair(q: nat, tens: nat, ones: nat, width: nat)
    requires tens < 10 && ones < 10
    ensures Padded(100 * q + 10 * tens + ones, width + 2)
         == Padded(q, width) + ["0123456789"[tens], "0123456789"[ones]]
    ensures Padded(q, 0) == ""
  {
    hide Digit;
    DigitText(ones);
    DigitText(tens);
    var n := 100 * q + 10 * tens + ones;
    assert n / 10 == 10 * q + tens && n % 10 == ones;
    assert n / 10 / 10 == q && n / 10 % 10 == tens;
    assert Padded(n, width + 2) == Padded(n / 10, width + 1) + [Digit(ones)];
    assert Padded(n / 10, width + 1) == Padded(q, width) + [Digit(tens)];
  }

  lemma DigitText(d: nat)
    requires d < 10
    ensures Digit(d) == "0123456789"[d]
  {
  }

  /** The calendar: the months of a year, and the day after the last of a month or of a year. */
  lemma Calendar(t: DateTime)
    requires 1 <= t.month <= 12 && t.year >= 1
    ensures DaysInMonth(t.year, t.month)
         == [31, if Leap(t.year) then 29 else 28, 31, 30, 31, 30, 31, 31, 30, 31, 30, 31][t.month - 1]
    ensures t.day == DaysInMonth(t.year, t.month) && t.month < 12 ==>
              Instant(t.(month := t.month + 1, day := 1)) == Instant(t) + 86400 * 1_000_000
    ensures t.day == 31 && t.month == 12 ==>
              Instant(t.(year := t.year + 1, month := 1, day := 1)) == Instant(t) + 86400 * 1_000_000
  {
    var y := t.year;
    if t.month < 12 {
      assert DaysBeforeMonth(y, t.month + 1) == DaysBeforeMonth(y, t.month) + DaysInMonth(y, t.month);
    } else {
      YearHoldsMonths(y);
      YearStep(y);
      assert DaysBeforeMonth(y, 13) == DaysBeforeMonth(y, 12) + DaysInMonth(y, 12);
    }
  }

  /** Seconds, minutes, hours and days of an instant are what they are called. */
  lemma InstantSteps(t: DateTime)
    ensures Instant(t.(micro := t.micro + 1)) == Instant(t) + 1
    ensures Instant(t.(second := t.second + 1)) == Instant(t) + 1_000_000
    ensures Instant(t.(minute := t.minute + 1)) == Instant(t) + 60 * 1_000_000
    ensures Instant(t.(hour := t.hour + 1)) == Instant(t) + 3600 * 1_000_000
    ensures Instant(t.(day := t.day + 1)) == Instant(t) + 86400 * 1_000_000
  {
    hide DaysBeforeYear, DaysBeforeMonth;
  }
}
