/** MonthKey of internal/budget/budget.go: the counter key of a tenant in the UTC month of a time. */
module Month {
  import opened Sums

  const DAY := 24 * 60 * 60

  // --- Numbers as text ---

  function Digit(d: nat): char
    requires d < 10
  {
    '0' + d as char
  }

  predicate IsDigit(c: char) {
    '0' <= c <= '9'
  }

  function Digits(n: nat): string {
    if n < 10 then [Digit(n)] else Digits(n / 10) + [Digit(n % 10)]
  }

  function ParseNat(s: string): nat {
    if s == [] then 0
    else ParseNat(s[..|s| - 1]) * 10 + if IsDigit(s[|s| - 1]) then (s[|s| - 1] - '0') as nat else 0
  }

  lemma {:induction false} DigitsParse(n: nat)
    ensures ParseNat(Digits(n)) == n
    ensures forall i :: 0 <= i < |Digits(n)| ==> IsDigit(Digits(n)[i])
  {
    if n < 10 {
      assert [Digit(n)][..0] == [];
    } else {
      DigitsParse(n / 10);
      var s := Digits(n);
      assert s[..|s| - 1] == Digits(n / 10) && s[|s| - 1] == Digit(n % 10);
    }
  }

  /** Zero-padded to a width. */
  function Padded(n: nat, width: nat): string {
    if |Digits(n)| >= width then Digits(n) else Zeros(width - |Digits(n)|) + Digits(n)
  }

  function Zeros(n: nat): string {
    if n == 0 then "" else Zeros(n - 1) + "0"
  }

  lemma {:induction false} ZerosParse(n: nat, s: string)
    ensures ParseNat(Zeros(n) + s) == ParseNat(s)
    ensures forall i :: 0 <= i < |Zeros(n)| ==> Zeros(n)[i] == '0'
    decreases n + |s|
  {
    var t := Zeros(n) + s;
    if s != [] {
      ZerosParse(n, s[..|s| - 1]);
      assert t[..|t| - 1] == Zeros(n) + s[..|s| - 1];
    } else if n > 0 {
      ZerosParse(n - 1, []);
      assert Zeros(n - 1) + [] == Zeros(n - 1) == t[..|t| - 1];
    }
  }

  lemma PaddedParse(n: nat, width: nat)
    ensures ParseNat(Padded(n, width)) == n
    ensures forall i :: 0 <= i < |Padded(n, width)| ==> IsDigit(Padded(n, width)[i])
  {
    hide ParseNat, Digits, Zeros;
    DigitsParse(n);
    if |Digits(n)| < width {
      ZerosParse(width - |Digits(n)|, Digits(n));
    }
  }

  function IntText(n: int): string {
    if n < 0 then "-" + Digits(-n) else Digits(n)
  }

  function ParseInt(s: string): int {
    if s != [] && s[0] == '-' then 0 - ParseNat(s[1..]) else ParseNat(s) as int
  }

  lemma IntParse(n: int)
    ensures ParseInt(IntText(n)) == n
    ensures forall i :: 0 <= i < |IntText(n)| ==> IntText(n)[i] != ':'
  {
    hide ParseNat;
    if n < 0 {
      DigitsParse(-n);
      assert ("-" + Digits(-n))[1..] == Digits(-n);
    } else {
      DigitsParse(n);
      DigitsNotEmpty(n);
    }
  }

  lemma DigitsNotEmpty(n: nat)
    ensures Digits(n) != []
  {
  }

  // --- The calendar, in UTC seconds since 1970; month 0 is January 1970 ---

  function YearOf(m: nat): nat {
    1970 + m / 12
  }

  predicate Leap(year: nat) {
    year % 4 == 0 && (year % 100 != 0 || year % 400 == 0)
  }

  function Days(m: nat): nat
    ensures 28 <= Days(m) <= 31
  {
    match m % 12
    case 1 => if Leap(YearOf(m)) then 29 else 28
    case 3 | 5 | 8 | 10 => 30
    case _ => 31
  }

  /** The first second of a month. */
  function Start(m: nat): nat {
    if m == 0 then 0 else Start(m - 1) + Days(m - 1) * DAY
  }

  /** The month of a time, found by walking from month m, which starts no later. */
  function MonthFrom(m: nat, t: nat): nat
    requires Start(m) <= t
    decreases t - Start(m)
  {
    if t < Start(m + 1) then m else MonthFrom(m + 1, t)
  }

  function MonthOf(t: nat): nat {
    MonthFrom(0, t)
  }

  lemma {:induction false} MonthFromRight(m: nat, t: nat)
    requires Start(m) <= t
    ensures Start(MonthFrom(m, t)) <= t < Start(MonthFrom(m, t) + 1)
    decreases t - Start(m)
  {
    hide Days;
    if t >= Start(m + 1) {
      MonthFromRight(m + 1, t);
    }
  }

  /** Every time lies in its month. */
  lemma MonthOfRight(t: nat)
    ensures Start(MonthOf(t)) <= t < Start(MonthOf(t) + 1) <= Start(MonthOf(t)) + 31 * DAY
  {
    MonthFromRight(0, t);
  }

  lemma {:induction false} StartMonotone(m: nat, n: nat)
    requires m < n
    ensures Start(m) < Start(n)
    decreases n
  {
    if m < n - 1 {
      StartMonotone(m, n - 1);
    }
  }

  /** A time lies in one month only. */
  lemma MonthUnique(t: nat, m: nat)
    requires Start(m) <= t < Start(m + 1)
    ensures MonthOf(t) == m
  {
    hide Start, MonthOf;
    MonthOfRight(t);
    var n := MonthOf(t);
    if n < m {
      if n + 1 < m {
        StartMonotone(n + 1, m);
      }
    } else if m < n {
      if m + 1 < n {
        StartMonotone(m + 1, n);
      }
    }
  }

  // --- The calendar, said without Days, Leap and Start ---

  /** The leap years before a year, by the rule of 4, 100 and 400. */
  function LeapsBefore(year: nat): int
    requires year > 0
  {
    (year - 1) / 4 - (year - 1) / 100 + (year - 1) / 400
  }

  /** Days from 1 January 1970 to 1 January of the year. */
  function DaysBefore(year: nat): int
    requires year >= 1970
  {
    365 * (year - 1970) + LeapsBefore(year) - LeapsBefore(1970)
  }

  /** 366 days every fourth year but the hundreds that are no four hundreds, otherwise 365. */
  predicate LongYear(year: nat) {
    year % 400 == 0 || (year % 4 == 0 && year % 100 != 0)
  }

  function YearDays(year: nat): nat {
    if LongYear(year) then 366 else 365
  }

  /** Days from 1 January to the first of month i, counted from 0, in a common year. */
  function Cumulative(i: nat): nat
    requires i < 12
  {
    match i
    case 0 => 0
    case 1 => 31
    case 2 => 59
    case 3 => 90
    case 4 => 120
    case 5 => 151
    case 6 => 181
    case 7 => 212
    case 8 => 243
    case 9 => 273
    case 10 => 304
    case 11 => 334
  }

  /** The same in any year: one more from March on in a long one. */
  function FirstOf(year: nat, i: nat): nat
    requires i < 12
  {
    Cumulative(i) + if i >= 2 && LongYear(year) then 1 else 0
  }

  lemma MonthIndex(k: nat, i: nat)
    requires i < 12
    ensures (12 * k + i) % 12 == i && YearOf(12 * k + i) == 1970 + k
  {
  }

  lemma DaysIs(k: nat, i: nat)
    requires i < 12
    ensures Days(12 * k + i) == (if i < 11 then FirstOf(1970 + k, i + 1) else YearDays(1970 + k)) - FirstOf(1970 + k, i)
  {
    MonthIndex(k, i);
    hide YearOf;
  }

  lemma StartStep(m: nat)
    ensures Start(m + 1) == Start(m) + Days(m) * DAY
  {
    hide Days;
  }

  /** Where the months of a year begin. */
  lemma {:induction false} MonthStarts(k: nat, i: nat)
    requires i < 12
    ensures Start(12 * k + i) == Start(12 * k) + FirstOf(1970 + k, i) * DAY
  {
    hide Start, Days, FirstOf;
    if i == 0 {
      FirstIsZero(1970 + k);
    } else {
      MonthStarts(k, i - 1);
      StartStep(12 * k + (i - 1));
      DaysIs(k, i - 1);
      assert 12 * k + (i - 1) + 1 == 12 * k + i;
    }
  }

  lemma FirstIsZero(year: nat)
    ensures FirstOf(year, 0) == 0
  {
  }

  /** And how long the year is. */
  lemma YearLength(k: nat)
    ensures Start(12 * k + 12) == Start(12 * k) + YearDays(1970 + k) * DAY
  {
    hide Start, Days, FirstOf, YearDays;
    MonthStarts(k, 11);
    StartStep(12 * k + 11);
    DaysIs(k, 11);
  }

  lemma LeapsStep(year: nat)
    requires year >= 1970
    ensures DaysBefore(year + 1) == DaysBefore(year) + YearDays(year)
  {
    DividesStep(year, 4);
    DividesStep(year, 100);
    DividesStep(year, 400);
    assert year % 100 == 0 ==> year % 4 == 0;
    assert year % 400 == 0 ==> year % 100 == 0;
  }

  lemma DividesStep(n: nat, d: nat)
    requires n > 0 && (d == 4 || d == 100 || d == 400)
    ensures n / d == (n - 1) / d + if n % d == 0 then 1 else 0
  {
  }

  /** The years begin where the count of days and leap years says. */
  lemma {:induction false} YearStarts(k: nat)
    ensures Start(12 * k) == DaysBefore(1970 + k) * DAY
  {
    hide Start, DaysBefore, YearDays;
    if k == 0 {
      TheEpoch();
    } else {
      var j := k - 1;
      YearStarts(j);
      YearLength(j);
      LeapsStep(1970 + j);
      assert 12 * j + 12 == 12 * k && 1970 + j + 1 == 1970 + k;
    }
  }

  lemma TheEpoch()
    ensures Start(12 * 0) == 0 && DaysBefore(1970) == 0
  {
  }

  lemma CycleOfYears(year: nat)
    requires year >= 1970
    ensures DaysBefore(year + 400) == DaysBefore(year) + 146097 && LongYear(year + 400) == LongYear(year)
  {
    var y := year - 1;
    assert (y + 400) / 4 == y / 4 + 100 && (y + 400) / 100 == y / 100 + 4 && (y + 400) / 400 == y / 400 + 1;
  }

  /** The calendar repeats after 400 years, which are 146097 days. */
  lemma FourHundredYears(k: nat, i: nat)
    requires i < 12
    ensures Start(12 * (k + 400) + i) == Start(12 * k + i) + 146097 * DAY
  {
    hide Start, LongYear, DaysBefore, Cumulative;
    YearStarts(k);
    YearStarts(k + 400);
    MonthStarts(k, i);
    MonthStarts(k + 400, i);
    CycleOfYears(1970 + k);
    assert 1970 + (k + 400) == 1970 + k + 400;
  }

  // --- Keys ---

  /** The key of a tenant and a month: budget:{id}:{YYYY}-{MM}. */
  function KeyText(tenant: int, m: nat): string {
    "budget:" + (IntText(tenant) + ":" + (Padded(YearOf(m), 4) + "-" + Padded(m % 12 + 1, 2)))
  }

  function MonthKey(tenant: int, clock: nat): string {
    KeyText(tenant, MonthOf(clock))
  }

  /** The index of the first c in s, |s| if there is none. */
  function Find(s: string, c: char): (i: nat)
    ensures i <= |s|
    ensures forall j :: 0 <= j < i ==> s[j] != c
    ensures i < |s| ==> s[i] == c
  {
    if s == [] || s[0] == c then 0 else 1 + Find(s[1..], c)
  }

  lemma {:induction false} FindIn(a: string, c: char, b: string)
    requires forall i :: 0 <= i < |a| ==> a[i] != c
    ensures var s := a + [c] + b;
      Find(s, c) == |a| && s[..Find(s, c)] == a && s[Find(s, c) + 1..] == b
  {
    var s := a + [c] + b;
    assert s[..|a|] == a && s[|a|] == c;
    assert forall i :: 0 <= i < |a| ==> s[i] == a[i];
    assert Find(s, c) >= |a|;
  }

  /** Reads a key back: the tenant, the calendar year, and the month counted from 1. */
  function Decode(key: string): Option<(int, nat, nat)> {
    if |key| < 7 || key[..7] != "budget:" then None else
      var r := key[7..];
      var c := Find(r, ':');
      if c == |r| then None else
        var ym := r[c + 1..];
        var d := Find(ym, '-');
        if d == |ym| then None else Some((ParseInt(r[..c]), ParseNat(ym[..d]), ParseNat(ym[d + 1..])))
  }

  /** The key text determines the tenant, the year and the month. */
  lemma KeyRoundTrip(tenant: int, m: nat)
    ensures Decode(KeyText(tenant, m)) == Some((tenant, YearOf(m), m % 12 + 1))
  {
    hide ParseNat, ParseInt, IntText, Padded, Find;
    IntParse(tenant);
    PaddedParse(YearOf(m), 4);
    PaddedParse(m % 12 + 1, 2);
    var id, y, mo := IntText(tenant), Padded(YearOf(m), 4), Padded(m % 12 + 1, 2);
    var ym := y + "-" + mo;
    var key := KeyText(tenant, m);
    assert key == "budget:" + (id + ":" + ym);
    assert key[..7] == "budget:" && key[7..] == id + ":" + ym;
    FindIn(id, ':', ym);
    FindIn(y, '-', mo);
  }

  /** Different tenants or different months never share a counter. */
  lemma KeyInjective(tenant1: int, m1: nat, tenant2: int, m2: nat)
    requires KeyText(tenant1, m1) == KeyText(tenant2, m2)
    ensures tenant1 == tenant2 && m1 == m2
  {
    hide Decode, KeyText;
    KeyRoundTrip(tenant1, m1);
    KeyRoundTrip(tenant2, m2);
  }

  /** Midnight of a day of a month of a year, in seconds since 1970. */
  function Midnight(year: nat, i: nat, day: nat): int
    requires year >= 1970 && i < 12
  {
    (DaysBefore(year) + FirstOf(year, i) + day) * 86400
  }

  /** A time of a day of the civil calendar lies in that day's month. */
  lemma CivilMonth(k: nat, i: nat, day: nat, second: nat)
    requires i < 12 && second < 86400
    requires day < (if i < 11 then FirstOf(1970 + k, i + 1) else YearDays(1970 + k)) - FirstOf(1970 + k, i)
    ensures var clock := Midnight(1970 + k, i, day) + second;
      clock >= 0 && MonthOf(clock) == 12 * k + i
  {
    hide Start, Days, MonthOf, DaysBefore, FirstOf;
    YearStarts(k);
    MonthStarts(k, i);
    StartStep(12 * k + i);
    DaysIs(k, i);
    MonthUnique(Midnight(1970 + k, i, day) + second, 12 * k + i);
  }

  lemma Texts()
    ensures Digits(1970) == "1970" && Digits(2026) == "2026" && Digits(5) == "5" && Digits(1) == "1" && Digits(7) == "7"
  {
    assert Digits(19) == "19" && Digits(20) == "20";
    assert Digits(197) == "197" && Digits(202) == "202";
  }

  lemma KeyOfMonth(tenant: int, clock: nat, m: nat)
    requires MonthOf(clock) == m
    ensures MonthKey(tenant, clock) == KeyText(tenant, m)
  {
    hide MonthOf, KeyText;
  }

  lemma SomeMidnights()
    ensures Midnight(1970, 4, 0) == 10368000 && Midnight(2026, 0, 0) == 1767225600
    ensures Midnight(2026, 0, 30) + 86399 == 1769903999
    ensures FirstOf(1970, 5) - FirstOf(1970, 4) == 31 && FirstOf(2026, 1) - FirstOf(2026, 0) == 31
  {
  }

  /** 1 May 1970, 00:00 UTC, and the first and the last second of January 2026. */
  lemma KeysOfDates()
    ensures MonthKey(1, 10368000) == "budget:1:1970-05"
    ensures MonthKey(7, 1767225600) == "budget:7:2026-01" && MonthKey(7, 1769903999) == "budget:7:2026-01"
  {
    hide MonthOf, Midnight, MonthKey, KeyText, FirstOf;
    SomeMidnights();
    CivilMonth(0, 4, 0, 0);
    CivilMonth(56, 0, 0, 0);
    CivilMonth(56, 0, 30, 86399);
    KeyOfMonth(1, 10368000, 4);
    KeyOfMonth(7, 1767225600, 672);
    KeyOfMonth(7, 1769903999, 672);
    KeyOfText(1, 4);
    KeyOfText(7, 672);
  }

  lemma KeyOfText(tenant: int, m: nat)
    requires (tenant == 1 && m == 4) || (tenant == 7 && m == 672)
    ensures KeyText(tenant, m) == if m == 4 then "budget:1:1970-05" else "budget:7:2026-01"
  {
    Texts();
    hide Digits;
    assert Zeros(1) == "0";
  }
}
