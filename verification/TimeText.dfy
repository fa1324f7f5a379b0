/** Timestamps as the store keeps them: RFC 3339 texts in UTC, compared byte by byte by the table indexes. */
module TimeText {
  import opened Types
  import opened Texts

  const MAX_YEAR := 9999

  datatype Instant = Instant(year: nat, month: nat, day: nat, hour: nat, minute: nat, second: nat, nano: nat)

  // The zero time of the program, which stands for an absent timestamp.
  const ZERO := Instant(1, 1, 1, 0, 0, 0, 0)

  predicate Leap(year: nat) {
    year % 4 == 0 && (year % 100 != 0 || year % 400 == 0)
  }

  function MonthDays(year: nat, month: nat): nat {
    if month == 2 then (if Leap(year) then 29 else 28)
    else if month in {4, 6, 9, 11} then 30
    else 31
  }

  predicate ValidDate(t: Instant) {
    t.year <= MAX_YEAR && 1 <= t.month <= 12 && 1 <= t.day <= MonthDays(t.year, t.month)
  }

  predicate Valid(t: Instant) {
    ValidDate(t) && t.hour < 24 && t.minute < 60 && t.second < 60 && t.nano < 1_000_000_000
  }

  // ---- Time as a number ----

  /** Days of the year before a month begins; month 13 gives the length of the year. */
  function DaysBeforeMonth(year: nat, month: nat): nat {
    if month <= 1 then 0 else DaysBeforeMonth(year, month - 1) + MonthDays(year, month - 1)
  }

  function DaysBeforeYear(year: nat): nat {
    if year == 0 then 0 else DaysBeforeYear(year - 1) + DaysBeforeMonth(year - 1, 13)
  }

  function DayNumber(t: Instant): int {
    DaysBeforeYear(t.year) + DaysBeforeMonth(t.year, t.month) + t.day - 1
  }

  function SecondNumber(t: Instant): int {
    ((DayNumber(t) * 24 + t.hour) * 60 + t.minute) * 60 + t.second
  }

  /** Nanoseconds since the start of year 0. */
  function Nanos(t: Instant): int {
    SecondNumber(t) * 1_000_000_000 + t.nano
  }

  // ---- The calendar ----

  /** The days before a year by the Gregorian rule: a leap day in every fourth year, but not in centuries, unless they
      divide by 400. */
  lemma DaysInYears(year: nat)
    ensures DaysBeforeYear(year) == 365 * year + (year + 3) / 4 - (year + 99) / 100 + (year + 399) / 400
  {
    hide DaysBeforeYear;
    CountedYears(year);
  }

  function Counted(year: nat): int {
    365 * year + (year + 3) / 4 - (year + 99) / 100 + (year + 399) / 400
  }

  lemma {:induction false} CountedYears(year: nat)
    ensures DaysBeforeYear(year) == Counted(year)
  {
    hide Counted, DaysBeforeMonth;
    if year == 0 {
      NoYears();
    } else {
      CountedYears(year - 1);
      YearCounted(year - 1);
    }
  }

  lemma NoYears()
    ensures Counted(0) == 0
  {
  }

  lemma YearCounted(year: nat)
    ensures Counted(year + 1) == Counted(year) + DaysBeforeMonth(year, 13)
  {
    hide Leap, DaysBeforeMonth;
    DaysInMonths(year);
    LeapRule(year);
    LeapDays(year);
  }

  /** The days of a year before each of its months, and of the whole year. */
  lemma DaysInMonths(year: nat)
    ensures var leap := if year % 400 == 0 || (year % 4 == 0 && year % 100 != 0) then 1 else 0;
      var days := [0, 31, 59 + leap, 90 + leap, 120 + leap, 151 + leap, 181 + leap, 212 + leap, 243 + leap, 273 + leap, 304 + leap,
                   334 + leap, 365 + leap];
      forall month :: 1 <= month <= 13 ==> DaysBeforeMonth(year, month) == days[month - 1]
  {
    hide Leap;
    assert DaysBeforeMonth(year, 3) == 31 + MonthDays(year, 2) by { assert DaysBeforeMonth(year, 2) == 31; }
    assert DaysBeforeMonth(year, 5) == DaysBeforeMonth(year, 3) + 61;
    assert DaysBeforeMonth(year, 7) == DaysBeforeMonth(year, 5) + 61;
    assert DaysBeforeMonth(year, 9) == DaysBeforeMonth(year, 7) + 62;
    assert DaysBeforeMonth(year, 11) == DaysBeforeMonth(year, 9) + 61;
    assert DaysBeforeMonth(year, 13) == DaysBeforeMonth(year, 11) + 61;
    LeapRule(year);
  }

  lemma LeapRule(year: nat)
    ensures Leap(year) <==> year % 400 == 0 || (year % 4 == 0 && year % 100 != 0)
  {
    CenturiesDivide(year);
  }

  lemma LeapDays(year: nat)
    ensures (year + 4) / 4 - (year + 100) / 100 + (year + 400) / 400
      == (year + 3) / 4 - (year + 99) / 100 + (year + 399) / 400 + if Leap(year) then 1 else 0
  {
    LeapRule(year);
    hide Leap;
    assert (year + 4) / 4 == (year + 3) / 4 + if year % 4 == 0 then 1 else 0;
    assert (year + 100) / 100 == (year + 99) / 100 + if year % 100 == 0 then 1 else 0;
    assert (year + 400) / 400 == (year + 399) / 400 + if year % 400 == 0 then 1 else 0;
    CenturiesDivide(year);
  }

  lemma CenturiesDivide(year: nat)
    ensures year % 400 == 0 ==> year % 100 == 0
    ensures year % 100 == 0 ==> year % 4 == 0
  {
    if year % 400 == 0 { Multiple(year, 100, 4 * (year / 400)); }
    if year % 100 == 0 { Multiple(year, 4, 25 * (year / 100)); }
  }

  lemma Multiple(year: nat, n: nat, k: nat)
    requires (n == 4 || n == 100) && year == n * k
    ensures year % n == 0
  {
  }

  /** Every day has its date: a year from 0 to 9999, a month and a day, counted as the calendar does. */
  lemma EveryDayHasADate(n: nat)
    requires n < 3652425
    ensures exists t: Instant :: ValidDate(t) && DayNumber(t) == n
  {
    hide DaysBeforeYear, DaysBeforeMonth, MonthDays;
    var end: nat := 10000;
    DaysInYears(end);
    var year := YearOf(n, end);
    var month := MonthOf(year, n - DaysBeforeYear(year), 13);
    var t := Instant(year, month, n - DaysBeforeYear(year) - DaysBeforeMonth(year, month) + 1, 0, 0, 0, 0);
    assert ValidDate(t) && DayNumber(t) == n;
  }

  lemma {:induction false} YearOf(n: nat, bound: nat) returns (year: nat)
    requires n < DaysBeforeYear(bound)
    ensures year < bound && DaysBeforeYear(year) <= n < DaysBeforeYear(year) + DaysBeforeMonth(year, 13)
  {
    hide DaysBeforeMonth;
    if DaysBeforeYear(bound - 1) <= n { return bound - 1; }
    year := YearOf(n, bound - 1);
  }

  lemma {:induction false} MonthOf(year: nat, n: nat, bound: nat) returns (month: nat)
    requires n < DaysBeforeMonth(year, bound) && bound <= 13
    ensures 1 <= month < bound && DaysBeforeMonth(year, month) <= n < DaysBeforeMonth(year, month) + MonthDays(year, month)
  {
    hide MonthDays;
    if bound == 2 || DaysBeforeMonth(year, bound - 1) <= n { return bound - 1; }
    month := MonthOf(year, n, bound - 1);
  }

  function Head(t: Instant): Instant {
    t.(nano := 0)
  }

  predicate DateBefore(a: Instant, b: Instant) {
    a.year < b.year || (a.year == b.year && (a.month < b.month || (a.month == b.month && a.day < b.day)))
  }

  predicate SameDate(a: Instant, b: Instant) {
    a.year == b.year && a.month == b.month && a.day == b.day
  }

  predicate ClockBefore(a: Instant, b: Instant) {
    a.hour < b.hour || (a.hour == b.hour && (a.minute < b.minute || (a.minute == b.minute && a.second < b.second)))
  }

  predicate SecondBefore(a: Instant, b: Instant) {
    DateBefore(a, b) || (SameDate(a, b) && ClockBefore(a, b))
  }

  lemma {:induction false} MonthsAdd(year: nat, from: nat, to: nat)
    requires 1 <= from < to <= 13
    ensures DaysBeforeMonth(year, from) + MonthDays(year, from) <= DaysBeforeMonth(year, to)
  {
    if from + 1 < to { MonthsAdd(year, from, to - 1); }
  }

  lemma {:induction false} YearsAdd(from: nat, to: nat)
    requires from < to
    ensures DaysBeforeYear(from) + DaysBeforeMonth(from, 13) <= DaysBeforeYear(to)
  {
    if from + 1 < to { YearsAdd(from, to - 1); }
  }

  lemma DateOrder(a: Instant, b: Instant)
    requires ValidDate(a) && ValidDate(b) && DateBefore(a, b)
    ensures DayNumber(a) < DayNumber(b)
  {
    if a.year < b.year {
      YearsAdd(a.year, b.year);
      MonthsAdd(a.year, a.month, 13);
    } else if a.month < b.month {
      MonthsAdd(a.year, a.month, b.month);
    }
  }

  lemma SecondOrder(a: Instant, b: Instant)
    requires Valid(a) && Valid(b) && SecondBefore(a, b)
    ensures SecondNumber(a) < SecondNumber(b)
  {
    if DateBefore(a, b) { DateOrder(a, b); }
  }

  /** The calendar fields, read from the year down, order instants as time does. */
  lemma TimeOrder(a: Instant, b: Instant)
    requires Valid(a) && Valid(b)
    ensures Nanos(a) < Nanos(b) <==> SecondBefore(a, b) || (Head(a) == Head(b) && a.nano < b.nano)
    ensures Nanos(a) == Nanos(b) ==> a == b
  {
    hide DaysBeforeYear, DaysBeforeMonth, MonthDays;
    if SecondBefore(a, b) {
      SecondOrder(a, b);
    } else if SecondBefore(b, a) {
      SecondOrder(b, a);
    }
  }

  // ---- Text ----

  function DigitChar(d: nat): char
    requires d < 10
  {
    '0' + d as char
  }

  /** A number written with exactly `width` decimal digits. */
  function Pad(n: nat, width: nat): (s: string)
    ensures |s| == width
    ensures AllDigits(s)
  {
    if width == 0 then "" else Pad(n / 10, width - 1) + [DigitChar(n % 10)]
  }

  function Power10(n: nat): nat {
    if n == 0 then 1 else 10 * Power10(n - 1)
  }

  function StripZeros(s: string): (r: string)
    ensures |r| <= |s| && r == s[..|r|]
    ensures |r| > 0 ==> r[|r| - 1] != '0'
    ensures forall i :: |r| <= i < |s| ==> s[i] == '0'
  {
    if s == "" || s[|s| - 1] != '0' then s else StripZeros(s[..|s| - 1])
  }

  /** The fraction of a second, dot included, without trailing zeros; nothing at all for a whole second. */
  function Fraction(nano: nat): string {
    if nano == 0 then "" else "." + StripZeros(Pad(nano, 9))
  }

  function HeadText(t: Instant, rest: string): string {
    Pad(t.year, 4) + (['-'] + (Pad(t.month, 2) + (['-'] + (Pad(t.day, 2) + (['T'] + ClockText(t, rest))))))
  }

  function ClockText(t: Instant, rest: string): string {
    Pad(t.hour, 2) + ([':'] + (Pad(t.minute, 2) + ([':'] + (Pad(t.second, 2) + rest))))
  }

  function FormatTime(t: Instant): string {
    HeadText(t, Fraction(t.nano) + "Z")
  }

  lemma PadStep(n: nat, width: nat, rest: string)
    requires width > 0
    ensures Pad(n, width) + rest == Pad(n / 10, width - 1) + ([DigitChar(n % 10)] + rest)
  {
  }

  /** Numbers of one width followed by anything compare as the numbers do, and by what follows when they are equal. */
  lemma {:induction false} PadOrder(n: nat, m: nat, width: nat, s: string, t: string)
    requires n < Power10(width) && m < Power10(width)
    ensures TextLess(Pad(n, width) + s, Pad(m, width) + t) <==> n < m || (n == m && TextLess(s, t))
  {
    if width == 0 {
      assert Pad(n, width) + s == s && Pad(m, width) + t == t;
    } else {
      var c, d := [DigitChar(n % 10)], [DigitChar(m % 10)];
      PadStep(n, width, s);
      PadStep(m, width, t);
      PadOrder(n / 10, m / 10, width - 1, c + s, d + t);
      assert (c + s)[1..] == s && (d + t)[1..] == t;
    }
  }

  lemma Powers()
    ensures Power10(2) == 100 && Power10(4) == 10_000 && Power10(9) == 1_000_000_000
  {
  }

  lemma ClockTextOrder(a: Instant, b: Instant, s: string, t: string)
    requires Valid(a) && Valid(b)
    ensures TextLess(ClockText(a, s), ClockText(b, t)) <==>
            ClockBefore(a, b) || (a.hour == b.hour && a.minute == b.minute && a.second == b.second && TextLess(s, t))
  {
    hide Pad, TextLess;
    Powers();
    var s1, t1 := Pad(a.second, 2) + s, Pad(b.second, 2) + t;
    var s2, t2 := Pad(a.minute, 2) + ([':'] + s1), Pad(b.minute, 2) + ([':'] + t1);
    PadOrder(a.second, b.second, 2, s, t);
    TextLessPrefix([':'], s1, t1);
    PadOrder(a.minute, b.minute, 2, [':'] + s1, [':'] + t1);
    TextLessPrefix([':'], s2, t2);
    PadOrder(a.hour, b.hour, 2, [':'] + s2, [':'] + t2);
  }

  lemma HeadTextOrder(a: Instant, b: Instant, s: string, t: string)
    requires Valid(a) && Valid(b)
    ensures TextLess(HeadText(a, s), HeadText(b, t)) <==> SecondBefore(a, b) || (Head(a) == Head(b) && TextLess(s, t))
  {
    hide Pad, TextLess, ClockText;
    Powers();
    var s0, t0 := ClockText(a, s), ClockText(b, t);
    var s1, t1 := Pad(a.day, 2) + (['T'] + s0), Pad(b.day, 2) + (['T'] + t0);
    var s2, t2 := Pad(a.month, 2) + (['-'] + s1), Pad(b.month, 2) + (['-'] + t1);
    ClockTextOrder(a, b, s, t);
    TextLessPrefix(['T'], s0, t0);
    PadOrder(a.day, b.day, 2, ['T'] + s0, ['T'] + t0);
    TextLessPrefix(['-'], s1, t1);
    PadOrder(a.month, b.month, 2, ['-'] + s1, ['-'] + t1);
    TextLessPrefix(['-'], s2, t2);
    PadOrder(a.year, b.year, 4, ['-'] + s2, ['-'] + t2);
  }

  // ---- Fractions ----

  function FirstDifference(a: string, b: string): (k: nat)
    requires |a| == |b| && a != b
    ensures k < |a| && a[..k] == b[..k] && a[k] != b[k]
  {
    if a[0] != b[0] then 0
    else
      assert a == [a[0]] + a[1..] && b == [b[0]] + b[1..];
      var k := FirstDifference(a[1..], b[1..]);
      assert a[..k + 1] == [a[0]] + a[1..][..k] && b[..k + 1] == [b[0]] + b[1..][..k];
      k + 1
  }

  lemma PaddedOrder(n: nat, m: nat)
    requires n < 1_000_000_000 && m < 1_000_000_000 && n != m
    ensures Pad(n, 9) != Pad(m, 9)
    ensures TextLess(Pad(n, 9), Pad(m, 9)) <==> n < m
  {
    Powers();
    assert Pad(n, 9) + "" == Pad(n, 9) && Pad(m, 9) + "" == Pad(m, 9);
    PadOrder(n, m, 9, "", "");
    PadOrder(m, n, 9, "", "");
  }

  lemma StrippedOrder(n: nat, m: nat)
    requires n < 1_000_000_000 && m < 1_000_000_000 && n != m
    ensures var a, b := StripZeros(Pad(n, 9)), StripZeros(Pad(m, 9));
            a != b && (a < b ==> n < m) && (!(a <= b) && !(b <= a) ==> (TextLess(a + "Z", b + "Z") <==> n < m))
  {
    hide Power10, Pad, StripZeros, TextLess;
    var pa, pb := Pad(n, 9), Pad(m, 9);
    var a, b := StripZeros(pa), StripZeros(pb);
    PaddedOrder(n, m);
    var k := FirstDifference(pa, pb);
    TextLessAt(pa, pb, k);
    assert forall i :: 0 <= i < |a| ==> a[i] == pa[i];
    assert forall i :: 0 <= i < |b| ==> b[i] == pb[i];
    assert forall i :: 0 <= i < k ==> pa[i] == pa[..k][i] && pb[i] == pb[..k][i];
    if !(a <= b) && !(b <= a) {
      assert k < |a| && k < |b|;
      TextLessAt(a + "Z", b + "Z", k);
    }
  }

  lemma PrefixReverses(a: string, b: string)
    requires a < b && (b[|a|] < 'Z')
    ensures TextLess(b + "Z", a + "Z") && !TextLess(a + "Z", b + "Z")
  {
    TextLessAt(a + "Z", b + "Z", |a|);
    TextLessAt(b + "Z", a + "Z", |a|);
  }

  predicate ProperPrefix(a: string, b: string) {
    a < b
  }

  lemma FractionOrder(n: nat, m: nat)
    requires n < 1_000_000_000 && m < 1_000_000_000 && n != m
    ensures Fraction(n) != Fraction(m)
    ensures ProperPrefix(Fraction(n), Fraction(m)) ==> n < m
    ensures TextLess(Fraction(n) + "Z", Fraction(m) + "Z") <==>
            ((n < m) != (ProperPrefix(Fraction(n), Fraction(m)) || ProperPrefix(Fraction(m), Fraction(n))))
  {
    hide Pad, TextLess;
    var f, g := Fraction(n), Fraction(m);
    var a, b := StripZeros(Pad(n, 9)), StripZeros(Pad(m, 9));
    StrippedOrder(n, m);
    StrippedOrder(m, n);
    if f < g {
      PrefixReverses(f, g);
      if n != 0 { assert a == f[1..] && b == g[1..]; }
    } else if g < f {
      PrefixReverses(g, f);
      if m != 0 { assert a == f[1..] && b == g[1..]; }
    } else {
      assert f + "Z" == "." + (a + "Z") && g + "Z" == "." + (b + "Z");
      assert f[1..] == a && g[1..] == b;
      TextLessPrefix(".", a + "Z", b + "Z");
    }
  }

  /** Two instants of one second whose fractions are such that one is the beginning of the other. */
  predicate Collide(a: Instant, b: Instant) {
    Head(a) == Head(b) && (ProperPrefix(Fraction(a.nano), Fraction(b.nano)) || ProperPrefix(Fraction(b.nano), Fraction(a.nano)))
  }

  /** The text order is the time order of two distinct instants exactly when they do not collide; otherwise it is the reverse. */
  lemma TextOrderIsTimeOrder(a: Instant, b: Instant)
    requires Valid(a) && Valid(b) && a != b
    ensures (TextLess(FormatTime(a), FormatTime(b)) <==> Nanos(a) < Nanos(b)) <==> !Collide(a, b)
    ensures Collide(a, b) ==> (TextLess(FormatTime(a), FormatTime(b)) <==> Nanos(b) < Nanos(a))
  {
    hide HeadText, Fraction, Nanos, SecondBefore, TextLess;
    TimeOrder(a, b);
    TimeOrder(b, a);
    HeadTextOrder(a, b, Fraction(a.nano) + "Z", Fraction(b.nano) + "Z");
    if Head(a) == Head(b) {
      assert a.nano != b.nano;
      SecondIrreflexive(a, b);
      FractionOrder(a.nano, b.nano);
    }
  }

  lemma SecondIrreflexive(a: Instant, b: Instant)
    requires Head(a) == Head(b)
    ensures !SecondBefore(a, b) && !SecondBefore(b, a)
  {
  }

  /** Ordering rows by their timestamp texts orders them by time, for any rows of which no two collide. */
  lemma OrderByText(rows: seq<Instant>)
    requires forall i :: 0 <= i < |rows| ==> Valid(rows[i])
    requires forall i, j :: 0 <= i < j < |rows| ==> !Collide(rows[i], rows[j])
    ensures (forall i, j :: 0 <= i < j < |rows| ==> !TextLess(FormatTime(rows[j]), FormatTime(rows[i]))) <==>
            (forall i, j :: 0 <= i < j < |rows| ==> Nanos(rows[i]) <= Nanos(rows[j]))
  {
    hide Collide, FormatTime, Nanos, TextLess;
    forall i, j | 0 <= i < j < |rows|
      ensures !TextLess(FormatTime(rows[j]), FormatTime(rows[i])) <==> Nanos(rows[i]) <= Nanos(rows[j])
    {
      if rows[i] == rows[j] {
        TextIrreflexive(FormatTime(rows[i]));
      } else {
        CollideSymmetric(rows[i], rows[j]);
        TextOrderIsTimeOrder(rows[j], rows[i]);
      }
    }
  }

  lemma CollideSymmetric(a: Instant, b: Instant)
    ensures Collide(a, b) <==> Collide(b, a)
  {
  }

  /** A whole second sorts after every later instant of the same second. */
  lemma WholeSecondSortsLast(t: Instant, later: Instant)
    requires Valid(t) && Valid(later) && Head(t) == Head(later) && t.nano == 0 < later.nano
    ensures Nanos(t) < Nanos(later) && TextLess(FormatTime(later), FormatTime(t))
  {
    hide FormatTime, Nanos, TextLess, SecondBefore;
    SecondIrreflexive(t, later);
    TimeOrder(t, later);
    assert Collide(later, t);
    TextOrderIsTimeOrder(later, t);
  }

  // ---- Reading a text back ----

  /** Nanoseconds from the digits after the dot; digits past the ninth are dropped. */
  function FractionNumber(digits: string): nat
    requires AllDigits(digits)
  {
    Number((digits + "000000000")[..9])
  }

  predicate Shaped(s: string) {
    && |s| >= 20 && s[4] == '-' && s[7] == '-' && s[10] == 'T' && s[13] == ':' && s[16] == ':' && s[|s| - 1] == 'Z'
    && AllDigits(s[..4]) && AllDigits(s[5..7]) && AllDigits(s[8..10])
    && AllDigits(s[11..13]) && AllDigits(s[14..16]) && AllDigits(s[17..19])
    && (|s| > 20 ==> |s| > 21 && s[19] == '.' && AllDigits(s[20..|s| - 1]))
  }

  function Reading(s: string): Instant
    requires Shaped(s)
  {
    Instant(Number(s[..4]), Number(s[5..7]), Number(s[8..10]), Number(s[11..13]), Number(s[14..16]), Number(s[17..19]),
            if |s| == 20 then 0 else FractionNumber(s[20..|s| - 1]))
  }

  /** The empty text stands for the zero time; anything else is read as a date and time, or refused. */
  function ParseTime(s: string): Option<Instant> {
    if s == "" then Some(ZERO)
    else if Shaped(s) && Valid(Reading(s)) then Some(Reading(s))
    else None
  }

  lemma {:induction false} NumberOfPad(n: nat, width: nat)
    requires n < Power10(width)
    ensures Number(Pad(n, width)) == n
  {
    if width > 0 {
      NumberOfPad(n / 10, width - 1);
      assert Pad(n, width)[..width - 1] == Pad(n / 10, width - 1);
    }
  }

  lemma FractionRoundTrip(nano: nat)
    requires 0 < nano < 1_000_000_000
    ensures var digits := StripZeros(Pad(nano, 9));
            AllDigits(digits) && digits != "" && FractionNumber(digits) == nano
  {
    hide Number, Power10;
    var padded := Pad(nano, 9);
    var digits := StripZeros(padded);
    assert (digits + "000000000")[..9] == padded;
    Powers();
    NumberOfPad(nano, 9);
    if digits == "" { PaddedOrder(0, nano); ZeroPad(9, padded); }
  }

  lemma ZeroPad(width: nat, s: string)
    requires |s| == width && forall i :: 0 <= i < width ==> s[i] == '0'
    ensures Pad(0, width) == s
  {
    if width > 0 { ZeroPad(width - 1, s[..width - 1]); }
  }

  lemma ClockTextFields(t: Instant, rest: string)
    ensures var c := ClockText(t, rest);
            && |c| == 8 + |rest| && c[2] == ':' && c[5] == ':'
            && c[..2] == Pad(t.hour, 2) && c[3..5] == Pad(t.minute, 2) && c[6..8] == Pad(t.second, 2) && c[8..] == rest
  {
    hide Pad;
    var sec := Pad(t.second, 2) + rest;
    var min := Pad(t.minute, 2) + ([':'] + sec);
    var c := ClockText(t, rest);
    assert c[3..] == min && c[..2] == Pad(t.hour, 2);
    assert min[3..] == sec && min[..2] == Pad(t.minute, 2);
    assert c[6..] == sec;
    assert sec[..2] == Pad(t.second, 2) && sec[2..] == rest;
    assert c[3..5] == c[3..][..2] && c[6..8] == c[6..][..2] && c[8..] == c[6..][2..];
  }

  /** Three fields and their separators in front of a rest. */
  lemma JoinedFields(a: string, x: char, b: string, y: char, c: string, z: char, rest: string)
    ensures var s := a + ([x] + (b + ([y] + (c + ([z] + rest)))));
            && |s| == |a| + |b| + |c| + 3 + |rest|
            && s[|a|] == x && s[|a| + 1 + |b|] == y && s[|a| + |b| + |c| + 2] == z
            && s[..|a|] == a && s[|a| + 1..][..|b|] == b && s[|a| + |b| + 2..][..|c|] == c
            && s[|a| + |b| + |c| + 3..] == rest
  {
    var s, month, day := a + ([x] + (b + ([y] + (c + ([z] + rest))))), b + ([y] + (c + ([z] + rest))), c + ([z] + rest);
    assert s[|a| + 1..] == month;
    assert s[|a| + |b| + 2..] == day;
  }

  lemma DateTextFields(t: Instant, rest: string)
    ensures var s := HeadText(t, rest);
            && |s| == 19 + |rest| && s[4] == '-' && s[7] == '-' && s[10] == 'T'
            && s[..4] == Pad(t.year, 4) && s[5..7] == Pad(t.month, 2) && s[8..10] == Pad(t.day, 2)
            && s[11..] == ClockText(t, rest)
  {
    hide Pad, ClockText;
    ClockTextFields(t, rest);
    JoinedFields(Pad(t.year, 4), '-', Pad(t.month, 2), '-', Pad(t.day, 2), 'T', ClockText(t, rest));
    var s := HeadText(t, rest);
    assert s[5..7] == s[5..][..2] && s[8..10] == s[8..][..2];
  }

  lemma HeadTextFields(t: Instant, rest: string)
    ensures var s := HeadText(t, rest);
            && |s| == 19 + |rest| && s[4] == '-' && s[7] == '-' && s[10] == 'T' && s[13] == ':' && s[16] == ':'
            && s[..4] == Pad(t.year, 4) && s[5..7] == Pad(t.month, 2) && s[8..10] == Pad(t.day, 2)
            && s[11..13] == Pad(t.hour, 2) && s[14..16] == Pad(t.minute, 2) && s[17..19] == Pad(t.second, 2)
            && s[19..] == rest
  {
    hide Pad, ClockText, HeadText;
    DateTextFields(t, rest);
    ClockTextFields(t, rest);
    var s := HeadText(t, rest);
    var c := s[11..];
    assert s[11..13] == c[..2] && s[14..16] == c[3..5] && s[17..19] == c[6..8] && s[19..] == c[8..];
    assert s[13] == c[2] && s[16] == c[5];
  }

  /** The digits, filled up with zeros to nine, are the nanoseconds. */
  predicate FractionText(digits: string, nano: nat) {
    |digits| <= 9 && AllDigits(digits) && Number(digits + "000000000"[..9 - |digits|]) == nano
  }

  /** The text of an instant: year, month and day, a T, hour, minute and second, each number in a fixed width; then, unless
      the second is whole, a dot and the digits of the fraction without trailing zeros; and a Z. */
  lemma FormatFields(t: Instant)
    requires Valid(t)
    ensures var s := FormatTime(t);
      && |s| >= 20 && s[4] == '-' && s[7] == '-' && s[10] == 'T' && s[13] == ':' && s[16] == ':' && s[|s| - 1] == 'Z'
      && AllDigits(s[..4]) && AllDigits(s[5..7]) && AllDigits(s[8..10]) && AllDigits(s[11..13]) && AllDigits(s[14..16]) && AllDigits(s[17..19])
      && Number(s[..4]) == t.year && Number(s[5..7]) == t.month && Number(s[8..10]) == t.day
      && Number(s[11..13]) == t.hour && Number(s[14..16]) == t.minute && Number(s[17..19]) == t.second
      && (|s| == 20 <==> t.nano == 0)
      && (t.nano > 0 ==> 22 <= |s| <= 30 && s[19] == '.' && s[|s| - 2] != '0' && FractionText(s[20..|s| - 1], t.nano))
  {
    hide HeadText, Pad, Number, StripZeros, FractionNumber;
    var rest := Fraction(t.nano) + "Z";
    var s := FormatTime(t);
    HeadTextFields(t, rest);
    Powers();
    NumberOfPad(t.year, 4);
    NumberOfPad(t.month, 2);
    NumberOfPad(t.day, 2);
    NumberOfPad(t.hour, 2);
    NumberOfPad(t.minute, 2);
    NumberOfPad(t.second, 2);
    assert s[|s| - 1] == rest[|rest| - 1];
    if t.nano > 0 {
      FractionRoundTrip(t.nano);
      FractionDigits(t.nano);
      var digits := StripZeros(Pad(t.nano, 9));
      assert s[19..] == "." + digits + "Z";
      assert s[20..|s| - 1] == digits && s[|s| - 2] == digits[|digits| - 1];
    }
  }

  lemma FractionDigits(nano: nat)
    requires 0 < nano < 1_000_000_000
    ensures var digits := StripZeros(Pad(nano, 9)); digits != "" && digits[|digits| - 1] != '0' && FractionText(digits, nano)
  {
    hide Number;
    FractionRoundTrip(nano);
    var digits := StripZeros(Pad(nano, 9));
    assert (digits + "000000000")[..9] == digits + "000000000"[..9 - |digits|];
  }

  /** Every instant is read back exactly from its text. */
  lemma ParseFormat(t: Instant)
    requires Valid(t)
    ensures ParseTime(FormatTime(t)) == Some(t)
  {
    hide HeadText, Pad, Number, StripZeros, FractionNumber;
    var rest := Fraction(t.nano) + "Z";
    var s := FormatTime(t);
    HeadTextFields(t, rest);
    Powers();
    NumberOfPad(t.year, 4);
    NumberOfPad(t.month, 2);
    NumberOfPad(t.day, 2);
    NumberOfPad(t.hour, 2);
    NumberOfPad(t.minute, 2);
    NumberOfPad(t.second, 2);
    if t.nano == 0 {
      assert s[19] == s[19..][0];
    } else {
      FractionRoundTrip(t.nano);
      var digits := StripZeros(Pad(t.nano, 9));
      assert s[19..] == "." + digits + "Z";
      assert s[20..|s| - 1] == digits;
      assert s[19] == s[19..][0] && s[|s| - 1] == s[19..][|s| - 20];
    }
  }
}
