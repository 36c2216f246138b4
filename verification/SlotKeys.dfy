/** The per-day quota keys of services/scheduling.py: how they print and parse, and the
    nightly purge of old ones. */
module SlotKeys {
  import opened Keys
  import opened Text
  import opened Wrappers

  /******* The calendar *******/

  datatype Date = Date(year: int, month: int, day: int)

  predicate Leap(year: int) {
    year % 4 == 0 && (year % 100 != 0 || year % 400 == 0)
  }

  function DaysInMonth(year: int, month: int): int {
    if month == 2 then if Leap(year) then 29 else 28
    else if month in {4, 6, 9, 11} then 30 else 31
  }

  /** The dates Python has. */
  predicate IsDate(d: Date) {
    1 <= d.year <= 9999 && 1 <= d.month <= 12 && 1 <= d.day <= DaysInMonth(d.year, d.month)
  }

  function DaysBeforeYear(year: int): int {
    (year - 1) * 365 + (year - 1) / 4 - (year - 1) / 100 + (year - 1) / 400
  }

  function DaysBeforeMonth(year: int, month: int): int
    decreases month
  {
    if month <= 1 then 0 else DaysBeforeMonth(year, month - 1) + DaysInMonth(year, month - 1)
  }

  /** The number of the day, 1 for the first day of year 1. */
  function Ordinal(d: Date): int {
    DaysBeforeYear(d.year) + DaysBeforeMonth(d.year, d.month) + d.day
  }

  function Yesterday(d: Date): Date {
    if d.day > 1 then d.(day := d.day - 1)
    else if d.month > 1 then Date(d.year, d.month - 1, DaysInMonth(d.year, d.month - 1))
    else Date(d.year - 1, 12, 31)
  }

  predicate Before(a: Date, b: Date) {
    a.year < b.year || (a.year == b.year && (a.month < b.month || (a.month == b.month && a.day < b.day)))
  }

  lemma YearLength(year: int)
    requires year >= 1
    ensures DaysBeforeYear(year + 1) == DaysBeforeYear(year) + if Leap(year) then 366 else 365
    ensures DaysBeforeMonth(year, 12) + 31 == if Leap(year) then 366 else 365
  {
    MonthsBefore(year);
    LeapSteps(year);
  }

  /** The calendar repeats after 400 years of 146097 days. */
  lemma GregorianCycle(d: Date)
    requires IsDate(d) && d.year + 400 <= 9999
    ensures var e := d.(year := d.year + 400); IsDate(e) && Ordinal(e) == Ordinal(d) + 146097
  {
    SameMonths(d.year, d.month);
    YearCycle(d.year - 1);
    assert DaysBeforeYear(d.year + 400) == DaysBeforeYear(d.year) + 146097;
  }

  lemma YearCycle(y: int)
    ensures (y + 400) / 4 == y / 4 + 100 && (y + 400) / 100 == y / 100 + 4 && (y + 400) / 400 == y / 400 + 1
  {
  }

  /** It counts as Python does, and 1900 is no leap year. */
  lemma KnownDays()
    ensures Ordinal(Date(1900, 3, 1)) == 693655 && Ordinal(Date(1970, 1, 1)) == 719163
    ensures Ordinal(Date(2000, 2, 29)) == 730179
    ensures !IsDate(Date(1900, 2, 29)) && IsDate(Date(2000, 2, 29)) && IsDate(Date(1904, 2, 29))
  {
    assert DaysBeforeMonth(2000, 2) == DaysBeforeMonth(2000, 1) + 31;
    assert DaysBeforeMonth(1900, 2) == DaysBeforeMonth(1900, 1) + 31;
    assert DaysBeforeMonth(1900, 3) == 59;
  }

  lemma {:induction false} SameMonths(year: int, month: int)
    ensures Leap(year + 400) == Leap(year)
    ensures DaysBeforeMonth(year + 400, month) == DaysBeforeMonth(year, month)
    decreases month
  {
    if month > 1 {
      SameMonths(year, month - 1);
    }
  }

  lemma LeapSteps(year: int)
    ensures year / 4 == (year - 1) / 4 + if year % 4 == 0 then 1 else 0
    ensures year / 100 == (year - 1) / 100 + if year % 100 == 0 then 1 else 0
    ensures year / 400 == (year - 1) / 400 + if year % 400 == 0 then 1 else 0
    ensures year % 400 == 0 ==> year % 100 == 0
    ensures year % 100 == 0 ==> year % 4 == 0
  {
  }

  lemma MonthsBefore(year: int)
    ensures DaysBeforeMonth(year, 12) == if Leap(year) then 335 else 334
  {
    assert DaysBeforeMonth(year, 4) == if Leap(year) then 91 else 90 by {
      assert DaysBeforeMonth(year, 2) == 31;
    }
    assert DaysBeforeMonth(year, 8) == DaysBeforeMonth(year, 4) + 122 by {
      assert DaysBeforeMonth(year, 6) == DaysBeforeMonth(year, 4) + 61;
    }
    assert DaysBeforeMonth(year, 10) == DaysBeforeMonth(year, 8) + 61;
  }

  lemma {:induction false} MonthStarts(year: int, month: int, later: int)
    requires 1 <= month < later <= 12
    ensures DaysBeforeMonth(year, month) + DaysInMonth(year, month) <= DaysBeforeMonth(year, later)
    decreases later
  {
    if month < later - 1 {
      MonthStarts(year, month, later - 1);
    }
  }

  lemma {:induction false} YearStarts(year: int, later: int)
    requires 1 <= year < later
    ensures DaysBeforeYear(year + 1) <= DaysBeforeYear(later)
    decreases later
  {
    if year + 1 < later {
      YearStarts(year, later - 1);
      YearLength(later - 1);
    }
  }

  lemma DayOfYearFits(d: Date)
    requires IsDate(d)
    ensures 1 <= DaysBeforeMonth(d.year, d.month) + d.day
    ensures Ordinal(d) <= DaysBeforeYear(d.year + 1)
  {
    YearLength(d.year);
    if d.month < 12 {
      MonthStarts(d.year, d.month, 12);
    }
    if d.month > 1 {
      MonthStarts(d.year, 1, d.month);
    }
  }

  lemma EarlierIsSmaller(a: Date, b: Date)
    requires IsDate(a) && IsDate(b) && Before(a, b)
    ensures Ordinal(a) < Ordinal(b)
  {
    if a.year < b.year {
      DayOfYearFits(a);
      DayOfYearFits(b);
      YearStarts(a.year, b.year);
    } else if a.month < b.month {
      MonthStarts(a.year, a.month, b.month);
    }
  }

  /** Field by field order is calendar order. */
  lemma BeforeIsCalendarOrder(a: Date, b: Date)
    requires IsDate(a) && IsDate(b)
    ensures Before(a, b) <==> Ordinal(a) < Ordinal(b)
  {
    if Before(a, b) {
      EarlierIsSmaller(a, b);
    } else if Before(b, a) {
      EarlierIsSmaller(b, a);
    }
  }

  lemma YesterdayIsOneDayBack(d: Date)
    requires IsDate(d) && d != Date(1, 1, 1)
    ensures IsDate(Yesterday(d)) && Ordinal(Yesterday(d)) == Ordinal(d) - 1
  {
    if d.day > 1 {
      BackInMonth(d);
    } else if d.month > 1 {
      BackOverMonth(d.year, d.month);
    } else {
      BackOverYear(d.year);
    }
  }

  lemma BackInMonth(d: Date)
    requires IsDate(d) && d.day > 1
    ensures IsDate(d.(day := d.day - 1)) && Ordinal(d.(day := d.day - 1)) == Ordinal(d) - 1
  {
  }

  lemma BackOverMonth(year: int, month: int)
    requires 1 <= year <= 9999 && 2 <= month <= 12
    ensures var last := Date(year, month - 1, DaysInMonth(year, month - 1));
      IsDate(last) && Ordinal(last) == Ordinal(Date(year, month, 1)) - 1
  {
  }

  lemma BackOverYear(year: int)
    requires 2 <= year <= 9999
    ensures IsDate(Date(year - 1, 12, 31)) && Ordinal(Date(year - 1, 12, 31)) == Ordinal(Date(year, 1, 1)) - 1
  {
    YearLength(year - 1);
  }

  /******* Printing *******/

  function Digit(n: int): char
    requires 0 <= n < 10
  {
    ['0', '1', '2', '3', '4', '5', '6', '7', '8', '9'][n]
  }

  predicate IsDigit(c: char) {
    '0' <= c <= '9'
  }

  /** The last `width` decimal digits of `n`, as zero-padded formatting prints them. */
  function Padded(n: int, width: nat): string
    requires n >= 0
  {
    if width == 0 then "" else Padded(n / 10, width - 1) + [Digit(n % 10)]
  }

  /** `date.isoformat()`. */
  function Iso(d: Date): string
    requires IsDate(d)
  {
    Padded(d.year, 4) + "-" + Padded(d.month, 2) + "-" + Padded(d.day, 2)
  }

  function Decimal(n: nat): string {
    if n < 10 then [Digit(n)] else Decimal(n / 10) + [Digit(n % 10)]
  }

  const SLOT_PREFIX := "sessions_used_"

  /** `_session_key`. */
  function SlotKey(user: nat, d: Date): string
    requires IsDate(d)
  {
    "sessions_used_" + Decimal(user) + "_" + Iso(d)
  }

  /******* String order is calendar order *******/

  lemma {:induction false} LessAfterEqual(p: string, s: string, t: string)
    ensures TextLess(p + s, p + t) <==> TextLess(s, t)
  {
    if p == "" {
      assert p + s == s && p + t == t;
    } else {
      assert (p + s)[1..] == p[1..] + s && (p + t)[1..] == p[1..] + t;
      LessAfterEqual(p[1..], s, t);
    }
  }

  /** Different prefixes of one length decide. */
  lemma {:induction false} LessByPrefix(p: string, q: string, s: string, t: string)
    requires |p| == |q| && p != q
    ensures TextLess(p + s, q + t) <==> TextLess(p, q)
  {
    assert (p + s)[1..] == p[1..] + s && (q + t)[1..] == q[1..] + t;
    assert p == [p[0]] + p[1..] && q == [q[0]] + q[1..];
    if p[0] == q[0] {
      LessByPrefix(p[1..], q[1..], s, t);
    }
  }

  lemma DigitOrder(a: int, b: int)
    requires 0 <= a < 10 && 0 <= b < 10
    ensures TextLess([Digit(a)], [Digit(b)]) <==> a < b
    ensures Digit(a) == Digit(b) <==> a == b
    ensures IsDigit(Digit(a))
  {
    assert [Digit(a)][1..] == "" && [Digit(b)][1..] == "";
  }

  function Pow10(width: nat): nat {
    if width == 0 then 1 else 10 * Pow10(width - 1)
  }

  lemma {:induction false} PaddedOrder(a: int, b: int, width: nat)
    requires 0 <= a < Pow10(width) && 0 <= b < Pow10(width)
    ensures |Padded(a, width)| == width && |Padded(b, width)| == width
    ensures TextLess(Padded(a, width), Padded(b, width)) <==> a < b
    ensures Padded(a, width) == Padded(b, width) <==> a == b
    ensures forall c <- Padded(a, width) :: IsDigit(c)
  {
    if width > 0 {
      var (p, q) := (Padded(a / 10, width - 1), Padded(b / 10, width - 1));
      PaddedOrder(a / 10, b / 10, width - 1);
      DigitOrder(a % 10, b % 10);
      if p == q {
        LessAfterEqual(p, [Digit(a % 10)], [Digit(b % 10)]);
      } else {
        LessByPrefix(p, q, [Digit(a % 10)], [Digit(b % 10)]);
      }
      assert Padded(a, width)[..width - 1] == p && Padded(b, width)[..width - 1] == q;
    }
  }

  lemma FieldWidths()
    ensures Pow10(2) == 100 && Pow10(4) == 10000
  {
    assert Pow10(1) == 10 && Pow10(3) == 1000;
  }

  /** On ISO dates (section 5.1 of RFC 3339) string order is calendar order, and
      printing is injective. */
  lemma IsoOrder(a: Date, b: Date)
    requires IsDate(a) && IsDate(b)
    ensures TextLess(Iso(a), Iso(b)) <==> Ordinal(a) < Ordinal(b)
    ensures Iso(a) == Iso(b) <==> a == b
  {
    FieldWidths();
    PaddedOrder(a.year, b.year, 4);
    PaddedOrder(a.month, b.month, 2);
    PaddedOrder(a.day, b.day, 2);
    BeforeIsCalendarOrder(a, b);
    var (ya, yb) := (Padded(a.year, 4) + "-", Padded(b.year, 4) + "-");
    var (ma, mb) := (Padded(a.month, 2) + "-", Padded(b.month, 2) + "-");
    var (da, db) := (Padded(a.day, 2), Padded(b.day, 2));
    assert Iso(a) == ya + (ma + da) && Iso(b) == yb + (mb + db);
    Dashed(Padded(a.year, 4), Padded(b.year, 4));
    Dashed(Padded(a.month, 2), Padded(b.month, 2));
    HeadDecides(ya, yb, ma + da, mb + db);
    HeadDecides(ma, mb, da, db);
  }

  /** Of two strings with heads of one length, the heads decide unless they are equal. */
  lemma HeadDecides(p: string, q: string, s: string, t: string)
    requires |p| == |q|
    ensures TextLess(p + s, q + t) <==> if p == q then TextLess(s, t) else TextLess(p, q)
    ensures p + s == q + t <==> p == q && s == t
  {
    assert (p + s)[..|p|] == p && (q + t)[..|p|] == q && (p + s)[|p|..] == s && (q + t)[|p|..] == t;
    if p == q {
      LessAfterEqual(p, s, t);
    } else {
      LessByPrefix(p, q, s, t);
    }
  }

  lemma Dashed(p: string, q: string)
    requires |p| == |q|
    ensures p + "-" == q + "-" <==> p == q
    ensures p != q ==> (TextLess(p + "-", q + "-") <==> TextLess(p, q))
  {
    assert (p + "-")[..|p|] == p && (q + "-")[..|q|] == q;
    if p != q {
      LessByPrefix(p, q, "-", "-");
    }
  }

  /******* Matching *******/

  /** The length of the run of digits at the head of `s`. */
  function DigitRun(s: string): (n: nat)
    ensures n <= |s| && (forall i :: 0 <= i < n ==> IsDigit(s[i])) && (n < |s| ==> !IsDigit(s[n]))
  {
    if s == "" || !IsDigit(s[0]) then 0 else 1 + DigitRun(s[1..])
  }

  predicate LooksLikeDate(s: string) {
    && |s| == 10 && s[4] == '-' && s[7] == '-'
    && forall i <- {0, 1, 2, 3, 5, 6, 8, 9} :: IsDigit(s[i])
  }

  /** The date at the end of a key; the final `$` also accepts a line break. */
  function FinalDate(tail: string): Option<string> {
    if LooksLikeDate(tail) then Some(tail)
    else if |tail| == 11 && tail[10] == '\n' && LooksLikeDate(tail[..10]) then Some(tail[..10])
    else None
  }

  /** `_SLOT_KEY_RE.match`: the two groups. */
  function MatchSlotKey(key: string): Option<(string, string)> {
    if !(SLOT_PREFIX <= key) then None
    else
      var rest := key[|SLOT_PREFIX|..];
      var n := DigitRun(rest);
      if n == 0 || n == |rest| || rest[n] != '_' then None
      else
        var date := FinalDate(rest[n + 1..]);
        if date.None? then None else Some((rest[..n], date.value))
  }

  lemma {:induction false} DecimalDigits(n: nat)
    ensures |Decimal(n)| >= 1 && forall c <- Decimal(n) :: IsDigit(c)
  {
    DigitOrder(n % 10, 0);
    if n >= 10 {
      DecimalDigits(n / 10);
    } else {
      DigitOrder(n, 0);
    }
  }

  function ParseDecimal(s: string): int
    requires forall c <- s :: IsDigit(c)
  {
    if s == "" then 0 else 10 * ParseDecimal(s[..|s| - 1]) + (s[|s| - 1] as int - '0' as int)
  }

  lemma {:induction false} DecimalParses(n: nat)
    ensures (forall c <- Decimal(n) :: IsDigit(c)) && ParseDecimal(Decimal(n)) == n
  {
    DecimalDigits(n);
    if n >= 10 {
      DecimalParses(n / 10);
      assert Decimal(n)[..|Decimal(n)| - 1] == Decimal(n / 10);
    } else {
      assert Decimal(n)[..0] == "";
    }
  }

  lemma {:induction false} RunOfDigits(digits: string, tail: string)
    requires (forall c <- digits :: IsDigit(c)) && tail != "" && !IsDigit(tail[0])
    ensures DigitRun(digits + tail) == |digits|
  {
    if digits == "" {
      assert digits + tail == tail;
    } else {
      assert (digits + tail)[1..] == digits[1..] + tail;
      RunOfDigits(digits[1..], tail);
    }
  }

  lemma FinalDateIs(tail: string, date: string)
    ensures FinalDate(tail) == Some(date) <==> LooksLikeDate(date) && (tail == date || tail == date + "\n")
  {
    assert LooksLikeDate(date) ==> (date + "\n")[..10] == date;
    assert |tail| == 11 && tail[10] == '\n' ==> tail == tail[..10] + "\n";
  }

  lemma DigitsThen(user: string, tail: string)
    requires forall c <- user :: IsDigit(c)
    ensures var rest := user + "_" + tail;
      DigitRun(rest) == |user| && rest[|user|] == '_' && rest[..|user|] == user && rest[|user| + 1..] == tail
  {
    RunOfDigits(user, "_" + tail);
    assert user + ("_" + tail) == user + "_" + tail;
  }

  /** Exactly the keys made of the prefix, digits, an underscore and a date match, with
      or without a line break at the end, and the groups are the digits and the date. */
  lemma MatchesExactlyWhen(key: string, user: string, date: string)
    ensures MatchSlotKey(key) == Some((user, date)) <==>
      && user != "" && (forall c <- user :: IsDigit(c)) && LooksLikeDate(date)
      && (key == "sessions_used_" + (user + "_" + date) || key == "sessions_used_" + (user + "_" + (date + "\n")))
  {
    if MatchSlotKey(key) == Some((user, date)) {
      MatchedIsWhole(key, user, date);
    } else if user != "" && (forall c <- user :: IsDigit(c)) && LooksLikeDate(date) {
      NoOtherKey(key, user, date, date);
      NoOtherKey(key, user, date, date + "\n");
    }
  }

  lemma MatchedIsWhole(key: string, user: string, date: string)
    requires MatchSlotKey(key) == Some((user, date))
    ensures user != "" && (forall c <- user :: IsDigit(c)) && LooksLikeDate(date)
    ensures key == SLOT_PREFIX + (user + "_" + date) || key == SLOT_PREFIX + (user + "_" + (date + "\n"))
  {
    var rest := key[|SLOT_PREFIX|..];
    var tail := rest[|user| + 1..];
    FinalDateIs(tail, date);
    assert key == SLOT_PREFIX + rest && rest == user + "_" + tail;
  }

  lemma NoOtherKey(key: string, user: string, date: string, tail: string)
    requires user != "" && (forall c <- user :: IsDigit(c)) && FinalDate(tail) == Some(date)
    ensures key == SLOT_PREFIX + (user + "_" + tail) ==> MatchSlotKey(key) == Some((user, date))
  {
    DigitsThen(user, tail);
    var rest := user + "_" + tail;
    assert (SLOT_PREFIX + rest)[|SLOT_PREFIX|..] == rest;
  }

  lemma IsoLooksLikeDate(d: Date)
    requires IsDate(d)
    ensures LooksLikeDate(Iso(d))
  {
    FieldWidths();
    PaddedOrder(d.year, d.year, 4);
    PaddedOrder(d.month, d.month, 2);
    PaddedOrder(d.day, d.day, 2);
    var (y, m, x) := (Padded(d.year, 4), Padded(d.month, 2), Padded(d.day, 2));
    var s := Iso(d);
    assert s == y + "-" + m + "-" + x;
    assert s[0] == y[0] && s[1] == y[1] && s[2] == y[2] && s[3] == y[3];
    assert s[5] == m[0] && s[6] == m[1] && s[8] == x[0] && s[9] == x[1];
  }

  /** Matching a printed key recovers its user and its date, and neither is ambiguous. */
  lemma SlotKeyRoundTrip(user: nat, d: Date)
    requires IsDate(d)
    ensures MatchSlotKey(SlotKey(user, d)) == Some((Decimal(user), Iso(d)))
    ensures (forall c <- Decimal(user) :: IsDigit(c)) && ParseDecimal(Decimal(user)) == user
    ensures forall e: Date :: IsDate(e) && Iso(e) == Iso(d) ==> e == d
  {
    DecimalParses(user);
    DecimalDigits(user);
    IsoLooksLikeDate(d);
    MatchesExactlyWhen(SlotKey(user, d), Decimal(user), Iso(d));
    assert SlotKey(user, d) == "sessions_used_" + (Decimal(user) + "_" + Iso(d));
    forall e: Date | IsDate(e) && Iso(e) == Iso(d) ensures e == d {
      IsoOrder(e, d);
    }
  }

  /******* The purge *******/

  /** A settings key the purge may touch: a slot key dated before yesterday. */
  predicate IsStale(key: string, today: Date)
    requires IsDate(today) && today != Date(1, 1, 1)
  {
    MatchSlotKey(key).Some? && BeforeYesterday(MatchSlotKey(key).value.1, today)
  }

  predicate BeforeYesterday(date: string, today: Date)
    requires IsDate(today) && today != Date(1, 1, 1)
  {
    YesterdayIsOneDayBack(today);
    TextLess(date, Iso(Yesterday(today)))
  }

  /** A user's key is stale exactly if it is at least two days old; in particular
      neither today's key, which the quota reads, nor yesterday's is. */
  lemma StaleIsTwoDaysOld(user: nat, d: Date, today: Date)
    requires IsDate(d) && IsDate(today) && today != Date(1, 1, 1)
    ensures IsStale(SlotKey(user, d), today) <==> Ordinal(d) <= Ordinal(today) - 2
  {
    SlotKeyRoundTrip(user, d);
    YesterdayIsOneDayBack(today);
    IsoOrder(d, Yesterday(today));
  }

  /** Staleness only grows with time. */
  lemma StaleStays(key: string, today: Date, later: Date)
    requires IsDate(today) && IsDate(later) && today != Date(1, 1, 1) && later != Date(1, 1, 1)
    requires IsStale(key, today) && Ordinal(today) <= Ordinal(later)
    ensures IsStale(key, later)
  {
    BeforeYesterdayStays(MatchSlotKey(key).value.1, today, later);
  }

  lemma BeforeYesterdayStays(date: string, today: Date, later: Date)
    requires IsDate(today) && IsDate(later) && today != Date(1, 1, 1) && later != Date(1, 1, 1)
    requires BeforeYesterday(date, today) && Ordinal(today) <= Ordinal(later)
    ensures BeforeYesterday(date, later)
  {
    YesterdayIsOneDayBack(today);
    YesterdayIsOneDayBack(later);
    IsoOrder(Yesterday(today), Yesterday(later));
    if Ordinal(today) < Ordinal(later) {
      TextLessTransitive(date, Iso(Yesterday(today)), Iso(Yesterday(later)));
    } else {
      BeforeIsCalendarOrder(Yesterday(today), Yesterday(later));
      BeforeIsCalendarOrder(Yesterday(later), Yesterday(today));
    }
  }

  /** The stale keys of a table. */
  function StaleIn(rows: map<string, string>, today: Date): set<string>
    requires IsDate(today) && today != Date(1, 1, 1)
  {
    set k | k in rows && IsStale(k, today)
  }

  lemma StaleInLess(rows: map<string, string>, gone: set<string>, today: Date)
    requires IsDate(today) && today != Date(1, 1, 1)
    ensures StaleIn(rows - gone, today) == StaleIn(rows, today) - gone
  {
  }

  class Settings {
    var rows: map<string, string>

    constructor (rows: map<string, string>)
      ensures this.rows == rows
    {
      this.rows := rows;
    }

    /** The stale keys, in whatever order the select yields them. */
    method SelectStale(today: Date) returns (stale: seq<string>)
      requires IsDate(today) && today != Date(1, 1, 1)
      ensures Distinct(stale) && KeySet(stale) == StaleIn(rows, today)
    {
      stale := [];
      var rest := rows.Keys;
      while rest != {}
        invariant rest <= rows.Keys && Distinct(stale)
        invariant KeySet(stale) == set k | k in rows && k !in rest && IsStale(k, today)
        decreases rest
      {
        var k :| k in rest;
        rest := rest - {k};
        if IsStale(k, today) {
          assert k !in KeySet(stale);
          assert KeySet(stale + [k]) == KeySet(stale) + {k};
          stale := stale + [k];
        }
      }
    }

    /** The chunk loop: the first `done` keys go, a whole number of chunks or all. */
    method DeleteChunks(stale: seq<string>, batch: int, deadline: Option<nat>) returns (done: nat, chunks: nat)
      requires batch != 0
      modifies this
      ensures done <= |stale| && rows == old(rows) - KeySet(stale[..done])
      ensures batch < 0 ==> done == 0
      ensures batch > 0 ==>
        done == |stale| || (deadline.Some? && done == chunks * batch && chunks >= deadline.value)
      ensures deadline.Some? ==> chunks <= deadline.value
    {
      done, chunks := 0, 0;
      assert stale[..0] == [];
      while batch > 0 && done < |stale|
        invariant done <= |stale| && (done == |stale| || done == chunks * batch)
        invariant batch < 0 ==> done == 0
        invariant deadline.Some? ==> chunks <= deadline.value
        invariant rows == old(rows) - KeySet(stale[..done])
        decreases |stale| - done
      {
        if deadline.Some? && deadline.value <= chunks {
          return;
        }
        var end := if done + batch <= |stale| then done + batch else |stale|;
        assert stale[..end] == stale[..done] + stale[done..end];
        assert KeySet(stale[..end]) == KeySet(stale[..done]) + KeySet(stale[done..end]);
        rows := rows - KeySet(stale[done..end]);
        done, chunks := end, chunks + 1;
      }
    }

    /** `purge_old_session_slot_keys`: None for the ValueError of a zero step. The
        clock check before chunk `i` finds the deadline passed exactly if
        `deadline <= i`. Only stale keys go, a whole number of chunks of them or all. */
    method PurgeOldSlotKeys(today: Date, batch: int, deadline: Option<nat>) returns (deleted: Option<nat>, chunks: nat)
      requires IsDate(today) && today != Date(1, 1, 1)
      modifies this
      ensures deleted.None? <==> batch == 0
      ensures batch <= 0 ==> rows == old(rows)
      ensures Purged(old(rows), rows, today, if deleted.Some? then deleted.value else 0)
      ensures batch > 0 ==>
        StaleIn(rows, today) == {} || (deadline.Some? && deleted.value == chunks * batch && chunks >= deadline.value)
      ensures deadline.Some? ==> chunks <= deadline.value
      ensures batch > 0 && (deadline.None? || deadline.value >= 1) ==> Night(old(rows), rows, today, batch)
    {
      if batch == 0 {
        PrefixGone(rows, [], 0, today);
        return None, 0;
      }
      var stale := SelectStale(today);
      var done;
      done, chunks := DeleteChunks(stale, batch, deadline);
      PrefixGone(old(rows), stale, done, today);
      deleted := Some(done);
      OneMoreChunk(chunks, batch);
    }
  }

  /** `after` is `before` less `n` of its stale keys. */
  predicate Purged(before: map<string, string>, after: map<string, string>, today: Date, n: nat)
    requires IsDate(today) && today != Date(1, 1, 1)
  {
    var gone := before.Keys - after.Keys;
    after == before - gone && gone <= StaleIn(before, today) && |gone| == n
  }

  lemma PrefixGone(rows: map<string, string>, stale: seq<string>, n: nat, today: Date)
    requires IsDate(today) && today != Date(1, 1, 1)
    requires Distinct(stale) && KeySet(stale) <= StaleIn(rows, today) && n <= |stale|
    ensures Purged(rows, rows - KeySet(stale[..n]), today, n)
    ensures n == |stale| && KeySet(stale) == StaleIn(rows, today) ==> StaleIn(rows - KeySet(stale[..n]), today) == {}
    ensures n == 0 ==> rows - KeySet(stale[..n]) == rows
  {
    var gone := KeySet(stale[..n]);
    SizeOfDistinct(stale[..n]);
    assert gone <= KeySet(stale);
    assert rows.Keys - (rows - gone).Keys == gone;
    StaleInLess(rows, gone, today);
    assert n == |stale| ==> stale[..n] == stale;
  }

  /** A run that gets through at least one chunk, or through everything. */
  predicate Night(before: map<string, string>, after: map<string, string>, today: Date, batch: int)
    requires IsDate(today) && today != Date(1, 1, 1)
  {
    var n := |before.Keys - after.Keys|;
    Purged(before, after, today, n) && (StaleIn(after, today) == {} || n >= batch)
  }

  /** One nightly run: the day, and the settings before and after. */
  datatype NightRun = NightRun(today: Date, before: map<string, string>, after: map<string, string>)

  predicate GoodNight(n: NightRun, batch: int) {
    IsDate(n.today) && n.today != Date(1, 1, 1) && Night(n.before, n.after, n.today, batch)
  }

  /** Between two runs days do not go back, and settings are written, not removed. */
  predicate Between(a: NightRun, b: NightRun)
    requires IsDate(a.today) && IsDate(b.today)
  {
    Ordinal(a.today) <= Ordinal(b.today) && a.after.Keys <= b.before.Keys
  }

  predicate Nightly(nights: seq<NightRun>, batch: int) {
    && nights != [] && (forall i :: 0 <= i < |nights| ==> GoodNight(nights[i], batch))
    && forall i :: 0 <= i < |nights| - 1 ==> Between(nights[i], nights[i + 1])
  }

  /** The keys stale at the second run that were not among those left by the first. */
  function Arrivals(a: NightRun, b: NightRun): set<string>
    requires IsDate(a.today) && a.today != Date(1, 1, 1) && IsDate(b.today) && b.today != Date(1, 1, 1)
  {
    StaleIn(b.before, b.today) - StaleIn(a.after, a.today)
  }

  /** No writer changes the row of `k` between two runs. */
  predicate Unwritten(nights: seq<NightRun>, k: string) {
    forall i :: 0 <= i < |nights| - 1 && k in nights[i].after && k in nights[i + 1].before ==>
      nights[i + 1].before[k] == nights[i].after[k]
  }

  /** A run leaves nothing stale or gets through a whole batch, and deletes no other key. */
  lemma NightStep(n: NightRun, batch: nat)
    requires GoodNight(n, batch)
    ensures var left := StaleIn(n.after, n.today);
      left == {} || |left| + batch <= |StaleIn(n.before, n.today)|
    ensures OthersKept(n.before, n.after, n.today)
  {
    PurgedLess(n.before, n.after, n.today, |n.before.Keys - n.after.Keys|);
  }

  lemma ArrivalStep(a: NightRun, b: NightRun)
    requires IsDate(a.today) && a.today != Date(1, 1, 1) && IsDate(b.today) && b.today != Date(1, 1, 1)
    ensures |StaleIn(b.before, b.today)| <= |StaleIn(a.after, a.today)| + |Arrivals(a, b)|
  {
    SizeOfUnion(StaleIn(a.after, a.today), Arrivals(a, b), StaleIn(b.before, b.today));
  }

  lemma EarlierNights(nights: seq<NightRun>, batch: int)
    requires Nightly(nights, batch)
    ensures GoodNight(nights[|nights| - 1], batch)
    ensures |nights| > 1 ==>
      && Nightly(nights[..|nights| - 1], batch) && GoodNight(nights[|nights| - 2], batch)
      && Between(nights[|nights| - 2], nights[|nights| - 1])
  {
  }

  lemma Shrink(runs: nat, batch: nat, arrivals: nat, before: nat, met: nat, left: nat, first: nat)
    requires arrivals <= batch && met <= before + arrivals
    requires before == 0 || before + batch + runs * (batch - arrivals) <= first
    requires left == 0 || left + batch <= met
    ensures left == 0 || left + batch + (runs + 1) * (batch - arrivals) <= first
  {
    assert (runs + 1) * (batch - arrivals) == runs * (batch - arrivals) + (batch - arrivals);
  }

  /** Runs that each make progress, on days that pass and with settings written between
      them, work off every backlog: from one run to the next it shrinks by the batch less
      the keys that have become stale, until it is gone. */
  lemma {:induction false} NightsDeleteAll(nights: seq<NightRun>, batch: nat, arrivals: nat)
    requires Nightly(nights, batch) && arrivals <= batch && FewArrivals(nights, batch, arrivals)
    ensures var left := LeftOver(nights, batch);
      left == {} ||
      |left| + batch + (|nights| - 1) * (batch - arrivals) <= |StaleIn(nights[0].before, nights[0].today)|
    decreases |nights|
  {
    var last := nights[|nights| - 1];
    EarlierNights(nights, batch);
    NightStep(last, batch);
    if |nights| > 1 {
      var (earlier, prev) := (nights[..|nights| - 1], nights[|nights| - 2]);
      NightsDeleteAll(earlier, batch, arrivals);
      ArrivalStep(prev, last);
      Shrink(|nights| - 2, batch, arrivals, |LeftOver(earlier, batch)|, |StaleIn(last.before, last.today)|,
             |LeftOver(nights, batch)|, |StaleIn(nights[0].before, nights[0].today)|);
    }
  }

  /** At most `arrivals` keys become stale from any run to the next. */
  predicate FewArrivals(nights: seq<NightRun>, batch: int, arrivals: nat)
    requires Nightly(nights, batch)
  {
    |nights| == 1 ||
    (EarlierNights(nights, batch);
     |Arrivals(nights[|nights| - 2], nights[|nights| - 1])| <= arrivals
     && FewArrivals(nights[..|nights| - 1], batch, arrivals))
  }

  /** What is stale after the last run. */
  function LeftOver(nights: seq<NightRun>, batch: int): set<string>
    requires Nightly(nights, batch)
  {
    var d := LastDay(nights, batch);
    StaleIn(nights[|nights| - 1].after, d)
  }

  /** A key that is not yet stale on the last day is never deleted, and only its writers
      change it. */
  lemma {:induction false} FreshKeysStay(nights: seq<NightRun>, batch: nat, k: string)
    requires Nightly(nights, batch) && k in nights[0].before && !IsStale(k, LastDay(nights, batch))
    ensures var last := nights[|nights| - 1];
      k in last.after && (Unwritten(nights, k) ==> last.after[k] == nights[0].before[k])
    decreases |nights|
  {
    var last := nights[|nights| - 1];
    EarlierNights(nights, batch);
    NightStep(last, batch);
    if |nights| > 1 {
      var (earlier, prev) := (nights[..|nights| - 1], nights[|nights| - 2]);
      if IsStale(k, prev.today) {
        StaleStays(k, prev.today, last.today);
      }
      FreshKeysStay(earlier, batch, k);
      UnwrittenEarlier(nights, k);
      assert k in last.before;
    }
  }

  lemma UnwrittenEarlier(nights: seq<NightRun>, k: string)
    requires |nights| > 1
    ensures Unwritten(nights, k) ==>
      && Unwritten(nights[..|nights| - 1], k)
      && var (prev, last) := (nights[|nights| - 2], nights[|nights| - 1]);
        k in prev.after && k in last.before ==> last.before[k] == prev.after[k]
  {
  }

  function LastDay(nights: seq<NightRun>, batch: int): (d: Date)
    requires Nightly(nights, batch)
    ensures IsDate(d) && d != Date(1, 1, 1)
  {
    assert GoodNight(nights[|nights| - 1], batch);
    nights[|nights| - 1].today
  }

  lemma SizeOfUnion(a: set<string>, b: set<string>, c: set<string>)
    requires c <= a + b
    ensures |c| <= |a| + |b|
  {
    SizeOfSubset(c, a + b);
    assert |a + b| <= |a| + |b|;
  }

  lemma {:induction false} SizeOfSubset(c: set<string>, d: set<string>)
    requires c <= d
    ensures |c| <= |d|
    decreases |c|
  {
    if c != {} {
      var k :| k in c;
      SizeOfSubset(c - {k}, d - {k});
    }
  }

  predicate OthersKept(before: map<string, string>, after: map<string, string>, today: Date)
    requires IsDate(today) && today != Date(1, 1, 1)
  {
    forall k <- before :: !IsStale(k, today) ==> k in after && after[k] == before[k]
  }

  lemma PurgedLess(before: map<string, string>, after: map<string, string>, today: Date, n: nat)
    requires IsDate(today) && today != Date(1, 1, 1) && Purged(before, after, today, n)
    ensures |StaleIn(after, today)| == |StaleIn(before, today)| - n
    ensures OthersKept(before, after, today)
  {
    var gone := before.Keys - after.Keys;
    StaleInLess(before, gone, today);
    assert forall k <- gone :: k in StaleIn(before, today);
  }

  lemma OneMoreChunk(chunks: nat, batch: int)
    ensures chunks >= 1 && batch > 0 ==> chunks * batch >= batch
  {
    if chunks >= 1 && batch > 0 {
      assert chunks * batch == batch + (chunks - 1) * batch;
    }
  }
}
