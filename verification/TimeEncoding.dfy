/**
 * Instants as the text the database stores and compares
 * (encodeTime and parseTime in internal/storage/sqlite/db.go: RFC 3339 with
 * nanoseconds, trailing zeros of the fraction dropped). SQLite compares TEXT
 * columns byte by byte, so `starts_at < ends_at` is an order on these strings.
 */
module TimeEncoding {
  import opened Prelude

  // ----- Text order -----

  /** Byte-wise order of two texts, as SQLite's BINARY collation has it. */
  predicate Less(a: string, b: string) {
    b != [] && (a == [] || a[0] < b[0] || (a[0] == b[0] && Less(a[1..], b[1..])))
  }

  lemma {:induction false} LessConcat(a: string, b: string, x: string, y: string)
    requires |a| == |b|
    ensures Less(a + x, b + y) <==> Less(a, b) || (a == b && Less(x, y))
  {
    if a == [] {
      assert a + x == x && b + y == y;
    } else {
      assert (a + x)[1..] == a[1..] + x && (b + y)[1..] == b[1..] + y;
      LessConcat(a[1..], b[1..], x, y);
      assert a == b <==> a[0] == b[0] && a[1..] == b[1..];
    }
  }

  /** Texts that part before either ends are ordered by the point where they part. */
  lemma {:induction false} LessDiverging(a: string, b: string, x: string, y: string)
    requires !(a <= b) && !(b <= a)
    ensures Less(a + x, b + y) <==> Less(a, b)
  {
    assert (a + x)[1..] == a[1..] + x && (b + y)[1..] == b[1..] + y;
    if a[0] == b[0] {
      assert a == [a[0]] + a[1..] && b == [b[0]] + b[1..];
      LessDiverging(a[1..], b[1..], x, y);
    }
  }

  lemma {:induction false} LessIsStrict(a: string, b: string)
    ensures Less(a, b) ==> a != b && !Less(b, a)
    ensures a != b ==> Less(a, b) || Less(b, a)
  {
    if a != [] && b != [] && a[0] == b[0] {
      LessIsStrict(a[1..], b[1..]);
      assert a == [a[0]] + a[1..] && b == [b[0]] + b[1..];
    }
  }

  lemma {:induction false} LessTransitive(a: string, b: string, c: string)
    requires Less(a, b) && Less(b, c)
    ensures Less(a, c)
  {
    if a != [] && a[0] == b[0] == c[0] {
      LessTransitive(a[1..], b[1..], c[1..]);
    }
  }

  // ----- Decimal fields -----

  function Digit(d: nat): (c: char)
    requires d < 10
    ensures '0' <= c <= '9' && c as int == '0' as int + d
  {
    '0' + d as char
  }

  predicate IsDigit(c: char) { '0' <= c <= '9' }

  /** `n` in decimal, padded with zeros to at least `width` digits. */
  function Pad(n: nat, width: nat): string
    decreases n, width
  {
    if width == 0 && n == 0 then ""
    else Pad(n / 10, if width == 0 then 0 else width - 1) + [Digit(n % 10)]
  }

  function Power10(k: nat): nat {
    if k == 0 then 1 else 10 * Power10(k - 1)
  }

  lemma {:induction false} PadWidth(n: nat, width: nat)
    requires n < Power10(width)
    ensures |Pad(n, width)| == width
    decreases width
  {
    if width > 0 {
      PadWidth(n / 10, width - 1);
    }
  }

  lemma {:induction false} PadOrder(m: nat, n: nat, width: nat)
    requires m < Power10(width) && n < Power10(width)
    ensures Less(Pad(m, width), Pad(n, width)) <==> m < n
    ensures Pad(m, width) == Pad(n, width) <==> m == n
    decreases width
  {
    if width > 0 {
      PadOrder(m / 10, n / 10, width - 1);
      PadWidth(m / 10, width - 1);
      PadWidth(n / 10, width - 1);
      var (a, b) := (Pad(m / 10, width - 1), Pad(n / 10, width - 1));
      LessConcat(a, b, [Digit(m % 10)], [Digit(n % 10)]);
      assert Pad(m, width)[..width - 1] == a && Pad(n, width)[..width - 1] == b;
      assert Pad(m, width)[width - 1] == Digit(m % 10) && Pad(n, width)[width - 1] == Digit(n % 10);
    }
  }

  /** The number a field of digits denotes. */
  function Number(digits: string): Option<nat> {
    if digits == "" then Some(0)
    else
      var n := |digits| - 1;
      var high := Number(digits[..n]);
      if high.Some? && IsDigit(digits[n]) then Some(10 * high.value + (digits[n] as int - '0' as int)) else None
  }

  lemma {:induction false} NumberOfPad(n: nat, width: nat)
    ensures Number(Pad(n, width)) == Some(n)
    decreases n, width
  {
    if width > 0 || n > 0 {
      NumberOfPad(n / 10, if width == 0 then 0 else width - 1);
      var high := Pad(n / 10, if width == 0 then 0 else width - 1);
      assert Pad(n, width)[..|high|] == high;
    }
  }

  // ----- Calendar -----

  predicate Leap(year: nat) {
    year % 4 == 0 && (year % 100 != 0 || year % 400 == 0)
  }

  function YearLength(year: nat): nat { if Leap(year) then 366 else 365 }

  function MonthLength(month: nat, leap: bool): nat {
    if month == 2 then (if leap then 29 else 28)
    else if month == 4 || month == 6 || month == 9 || month == 11 then 30
    else 31
  }

  /** Days from 1 January of year 0 to 1 January of `year`. */
  function DaysBeforeYear(year: nat): nat {
    if year == 0 then 0 else DaysBeforeYear(year - 1) + YearLength(year - 1)
  }

  function DaysBeforeMonth(month: nat, leap: bool): nat {
    if month <= 1 then 0 else DaysBeforeMonth(month - 1, leap) + MonthLength(month - 1, leap)
  }

  /** The year that holds day number `day`, searching from `year`, and the day within it. */
  function FindYear(year: nat, day: nat): (r: (nat, nat))
    ensures r.0 >= year && r.1 < YearLength(r.0)
    ensures DaysBeforeYear(r.0) + r.1 == DaysBeforeYear(year) + day
    decreases day
  {
    if day < YearLength(year) then (year, day)
    else FindYear(year + 1, day - YearLength(year))
  }

  function FindMonth(month: nat, day: nat, leap: bool): (r: (nat, nat))
    requires 1 <= month <= 12 && DaysBeforeMonth(month, leap) + day < 366
    requires !leap ==> DaysBeforeMonth(month, leap) + day < 365
    ensures month <= r.0 <= 12 && r.1 < MonthLength(r.0, leap)
    ensures DaysBeforeMonth(r.0, leap) + r.1 == DaysBeforeMonth(month, leap) + day
    decreases 12 - month
  {
    MonthTable(leap);
    if day < MonthLength(month, leap) || month == 12 then (month, day)
    else FindMonth(month + 1, day - MonthLength(month, leap), leap)
  }

  lemma MonthTable(leap: bool)
    ensures DaysBeforeMonth(12, leap) + 31 == if leap then 366 else 365
  {
    var february := MonthLength(2, leap);
    assert DaysBeforeMonth(2, leap) == 31;
    assert DaysBeforeMonth(3, leap) == 31 + february;
    assert DaysBeforeMonth(5, leap) == 92 + february;
    assert DaysBeforeMonth(7, leap) == 153 + february;
    assert DaysBeforeMonth(9, leap) == 215 + february;
    assert DaysBeforeMonth(11, leap) == 276 + february;
  }

  datatype Date = Date(year: nat, month: nat, day: nat)

  /** One leap day in four years, but for centuries, but for every fourth of these. */
  lemma {:induction false} YearsCounted(year: nat)
    ensures DaysBeforeYear(year) == 365 * year + (year + 3) / 4 - (year + 99) / 100 + (year + 399) / 400
  {
    if year > 0 {
      var y := year - 1;
      YearsCounted(y);
      FoursCounted(y);
      CenturiesCounted(y);
      FourCenturiesCounted(y);
    }
  }

  lemma FoursCounted(y: nat)
    ensures (y + 4) / 4 == (y + 3) / 4 + (if y % 4 == 0 then 1 else 0)
  {
  }

  lemma CenturiesCounted(y: nat)
    ensures (y + 100) / 100 == (y + 99) / 100 + (if y % 100 == 0 then 1 else 0)
    ensures y % 100 == 0 ==> y % 4 == 0
  {
    var (q, r) := (y / 100, y % 100);
    assert y == 4 * (25 * q) + r;
    if r == 0 {
      assert (y + 99) / 100 == q;
    } else {
      assert (y + 99) / 100 == q + 1;
    }
  }

  lemma FourCenturiesCounted(y: nat)
    ensures (y + 400) / 400 == (y + 399) / 400 + (if y % 400 == 0 then 1 else 0)
    ensures y % 400 == 0 ==> y % 100 == 0
  {
    var (q, r) := (y / 400, y % 400);
    assert y == 100 * (4 * q) + r;
    if r == 0 {
      assert (y + 399) / 400 == q;
    } else {
      assert (y + 399) / 400 == q + 1;
    }
  }

  /** The civil date of a day number; months and days count from 1. */
  function DateOf(dayNumber: nat): (date: Date)
    ensures 1 <= date.month <= 12 && 1 <= date.day <= MonthLength(date.month, Leap(date.year)) <= 31
    ensures DayNumber(date) == dayNumber
  {
    var (year, dayOfYear) := FindYear(0, dayNumber);
    var (month, day) := FindMonth(1, dayOfYear, Leap(year));
    Date(year, month, day + 1)
  }

  function DayNumber(date: Date): int {
    DaysBeforeYear(date.year) + DaysBeforeMonth(date.month, Leap(date.year)) + date.day - 1
  }

  lemma {:induction false} YearsAreOrdered(a: nat, b: nat)
    requires a < b
    ensures DaysBeforeYear(a) + YearLength(a) <= DaysBeforeYear(b)
  {
    if a + 1 < b { YearsAreOrdered(a, b - 1); }
  }

  lemma {:induction false} MonthsAreOrdered(a: nat, b: nat, leap: bool)
    requires 1 <= a < b <= 12
    ensures DaysBeforeMonth(a, leap) + MonthLength(a, leap) <= DaysBeforeMonth(b, leap)
  {
    if a + 1 < b { MonthsAreOrdered(a, b - 1, leap); }
  }

  predicate DateLess(a: Date, b: Date) {
    || a.year < b.year
    || (a.year == b.year && a.month < b.month)
    || (a.year == b.year && a.month == b.month && a.day < b.day)
  }

  lemma DatesFollowDays(m: nat, n: nat)
    ensures DateLess(DateOf(m), DateOf(n)) <==> m < n
  {
    var a, b := DateOf(m), DateOf(n);
    if m < n { EarlierDate(a, b); }
    if n < m { EarlierDate(b, a); }
  }

  lemma EarlierDate(a: Date, b: Date)
    requires 1 <= a.month <= 12 && 1 <= a.day <= MonthLength(a.month, Leap(a.year))
    requires 1 <= b.month <= 12 && 1 <= b.day <= MonthLength(b.month, Leap(b.year))
    requires DayNumber(a) < DayNumber(b)
    ensures DateLess(a, b) && !DateLess(b, a)
  {
    if b.year < a.year {
      YearsAreOrdered(b.year, a.year);
      WithinYear(b);
    } else if a.year == b.year && b.month < a.month {
      MonthsAreOrdered(b.month, a.month, Leap(a.year));
    }
  }

  lemma WithinYear(date: Date)
    requires 1 <= date.month <= 12 && 1 <= date.day <= MonthLength(date.month, Leap(date.year))
    ensures DaysBeforeMonth(date.month, Leap(date.year)) + date.day <= YearLength(date.year)
  {
    MonthTable(Leap(date.year));
    if date.month < 12 { MonthsAreOrdered(date.month, 12, Leap(date.year)); }
  }

  // ----- The stored text -----

  function Seconds(t: Instant): nat { t / NANOS_PER_SECOND }
  function Nanos(t: Instant): nat { t % NANOS_PER_SECOND }

  function DateText(date: Date): string {
    Pad(date.year, 4) + ("-" + (Pad(date.month, 2) + ("-" + Pad(date.day, 2))))
  }

  function ClockText(secondOfDay: nat): string {
    Pad(secondOfDay / 3600, 2) + (":" + (Pad(secondOfDay / 60 % 60, 2) + (":" + Pad(secondOfDay % 60, 2))))
  }

  function SecondText(seconds: nat): string {
    DateText(DateOf(seconds / 86400)) + ("T" + ClockText(seconds % 86400))
  }

  function StripZeros(digits: string): (s: string)
    ensures s <= digits
  {
    if digits != "" && digits[|digits| - 1] == '0' then StripZeros(digits[..|digits| - 1]) else digits
  }

  /** The digits of the fraction of a second that are written down. */
  function FractionDigits(t: Instant): string { StripZeros(Pad(Nanos(t), 9)) }

  function FractionText(digits: string): string { if digits == "" then "" else "." + digits }

  /** encodeTime */
  function EncodeTime(t: Instant): string {
    SecondText(Seconds(t)) + (FractionText(FractionDigits(t)) + "Z")
  }

  /** How the database compares two stored instants. */
  predicate SqlLess(a: Instant, b: Instant) { Less(EncodeTime(a), EncodeTime(b)) }

  predicate SqlAtMost(a: Instant, b: Instant) { !SqlLess(b, a) }

  /** Years that four digits can hold. */
  predicate FourDigitYear(t: Instant) { FourDigits(Seconds(t) / 86400) }

  predicate FourDigits(dayNumber: nat) { DateOf(dayNumber).year < 10000 }

  /** Two instants whose texts are ordered like the instants themselves. */
  predicate Comparable(a: Instant, b: Instant) {
    Seconds(a) != Seconds(b) || (!(FractionDigits(a) < FractionDigits(b)) && !(FractionDigits(b) < FractionDigits(a)))
  }

  // ----- Order of the stored text -----

  lemma YearFits(dayNumber: nat)
    requires FourDigits(dayNumber)
    ensures DateOf(dayNumber).year < Power10(4)
    ensures |Pad(DateOf(dayNumber).year, 4)| == 4
  {
    var date := DateOf(dayNumber);
    assert Power10(4) == 10000 by { assert Power10(2) == 100; }
    PadWidth(date.year, 4);
  }

  lemma TwoDigits(n: nat)
    requires n < 100
    ensures n < Power10(2) && |Pad(n, 2)| == 2
  {
    assert Power10(2) == 100;
    PadWidth(n, 2);
  }

  /** One fixed-width decimal field in front of the rest of a text. */
  lemma FieldOrder(m: nat, n: nat, width: nat, x: string, y: string)
    requires m < Power10(width) && n < Power10(width)
    ensures Less(Pad(m, width) + x, Pad(n, width) + y) <==> m < n || (m == n && Less(x, y))
  {
    PadWidth(m, width);
    PadWidth(n, width);
    PadOrder(m, n, width);
    LessConcat(Pad(m, width), Pad(n, width), x, y);
  }

  lemma SeparatorOrder(separator: string, x: string, y: string)
    ensures Less(separator + x, separator + y) <==> Less(x, y)
  {
    LessConcat(separator, separator, x, y);
    LessIsStrict(separator, separator);
  }

  lemma DateTextOrder(m: nat, n: nat)
    requires FourDigits(m) && FourDigits(n)
    ensures |DateText(DateOf(m))| == |DateText(DateOf(n))| == 10
    ensures Less(DateText(DateOf(m)), DateText(DateOf(n))) <==> m < n
  {
    var a, b := DateOf(m), DateOf(n);
    YearFits(m);
    YearFits(n);
    TwoDigits(a.month);
    TwoDigits(b.month);
    TwoDigits(a.day);
    TwoDigits(b.day);
    var (x, y) := ("-" + Pad(a.day, 2), "-" + Pad(b.day, 2));
    PadOrder(a.day, b.day, 2);
    SeparatorOrder("-", Pad(a.day, 2), Pad(b.day, 2));
    FieldOrder(a.month, b.month, 2, x, y);
    SeparatorOrder("-", Pad(a.month, 2) + x, Pad(b.month, 2) + y);
    FieldOrder(a.year, b.year, 4, "-" + (Pad(a.month, 2) + x), "-" + (Pad(b.month, 2) + y));
    DatesFollowDays(m, n);
  }

  lemma ClockTextOrder(m: nat, n: nat)
    requires m < 86400 && n < 86400
    ensures |ClockText(m)| == |ClockText(n)| == 8
    ensures Less(ClockText(m), ClockText(n)) <==> m < n
  {
    TwoDigits(m / 3600);
    TwoDigits(n / 3600);
    TwoDigits(m / 60 % 60);
    TwoDigits(n / 60 % 60);
    TwoDigits(m % 60);
    TwoDigits(n % 60);
    var (x, y) := (":" + Pad(m % 60, 2), ":" + Pad(n % 60, 2));
    PadOrder(m % 60, n % 60, 2);
    SeparatorOrder(":", Pad(m % 60, 2), Pad(n % 60, 2));
    FieldOrder(m / 60 % 60, n / 60 % 60, 2, x, y);
    SeparatorOrder(":", Pad(m / 60 % 60, 2) + x, Pad(n / 60 % 60, 2) + y);
    FieldOrder(m / 3600, n / 3600, 2, ":" + (Pad(m / 60 % 60, 2) + x), ":" + (Pad(n / 60 % 60, 2) + y));
    ClockFields(m);
    ClockFields(n);
  }

  lemma ClockFields(s: nat)
    ensures s == s / 3600 * 3600 + s / 60 % 60 * 60 + s % 60
  {
    assert s / 60 / 60 == s / 3600;
  }

  lemma SecondTextOrder(m: nat, n: nat)
    requires FourDigits(m / 86400) && FourDigits(n / 86400)
    ensures |SecondText(m)| == |SecondText(n)| == 19
    ensures Less(SecondText(m), SecondText(n)) <==> m < n
    ensures SecondText(m) == SecondText(n) <==> m == n
  {
    DateTextOrder(m / 86400, n / 86400);
    ClockTextOrder(m % 86400, n % 86400);
    DateTextOrder(n / 86400, m / 86400);
    ClockTextOrder(n % 86400, m % 86400);
    var (a, b) := (DateText(DateOf(m / 86400)), DateText(DateOf(n / 86400)));
    LessIsStrict(a, b);
    SeparatorOrder("T", ClockText(m % 86400), ClockText(n % 86400));
    SeparatorOrder("T", ClockText(n % 86400), ClockText(m % 86400));
    LessConcat(a, b, "T" + ClockText(m % 86400), "T" + ClockText(n % 86400));
    LessConcat(b, a, "T" + ClockText(n % 86400), "T" + ClockText(m % 86400));
    LessIsStrict(SecondText(m), SecondText(n));
  }

  /** Dropping trailing zeros keeps the number: the dropped digits are all zeros. */
  lemma {:induction false} StripKeepsZeros(digits: string)
    ensures var s := StripZeros(digits);
            && (s != "" ==> s[|s| - 1] != '0')
            && forall i :: |s| <= i < |digits| ==> digits[i] == '0'
  {
    if digits != "" && digits[|digits| - 1] == '0' {
      StripKeepsZeros(digits[..|digits| - 1]);
    }
  }

  lemma StripIsInjective(a: string, b: string)
    requires |a| == |b| && StripZeros(a) == StripZeros(b)
    ensures a == b
  {
    StripKeepsZeros(a);
    StripKeepsZeros(b);
    var s := StripZeros(a);
    assert forall i :: 0 <= i < |a| ==> a[i] == if i < |s| then s[i] else '0';
    assert forall i :: 0 <= i < |b| ==> b[i] == if i < |s| then s[i] else '0';
  }

  /** A shorter fraction is the smaller number. */
  lemma PrefixIsSmaller(a: string, b: string)
    requires |a| == |b| && StripZeros(a) < StripZeros(b)
    requires forall i :: 0 <= i < |b| ==> IsDigit(b[i])
    ensures Less(a, b)
  {
    StripKeepsZeros(a);
    StripKeepsZeros(b);
    var (s, t) := (StripZeros(a), StripZeros(b));
    ZerosBelow(a[|s|..], b[|s|..], |t| - 1 - |s|);
    assert a == s + a[|s|..] && b == s + b[|s|..] by { assert b[..|s|] == s; }
    LessConcat(s, s, a[|s|..], b[|s|..]);
  }

  lemma {:induction false} ZerosBelow(zeros: string, digits: string, k: nat)
    requires |zeros| == |digits| && k < |digits| && digits[k] != '0'
    requires forall i :: 0 <= i < |zeros| ==> zeros[i] == '0' && IsDigit(digits[i])
    ensures Less(zeros, digits)
  {
    if digits[0] == '0' {
      ZerosBelow(zeros[1..], digits[1..], k - 1);
    }
  }

  lemma {:induction false} PadHasDigits(n: nat, width: nat)
    ensures forall i :: 0 <= i < |Pad(n, width)| ==> IsDigit(Pad(n, width)[i])
    decreases n, width
  {
    if width > 0 || n > 0 {
      PadHasDigits(n / 10, if width == 0 then 0 else width - 1);
    }
  }

  lemma NanosFit(t: Instant)
    ensures Nanos(t) < Power10(9) && |Pad(Nanos(t), 9)| == 9
  {
    assert Power10(3) == 1000;
    assert Power10(6) == 1_000_000;
    PadWidth(Nanos(t), 9);
  }

  /** The tails of two texts within one second. */
  function Tail(t: Instant): string { FractionText(FractionDigits(t)) + "Z" }

  lemma TailOrder(a: Instant, b: Instant)
    requires Nanos(a) < Nanos(b)
    ensures Less(Tail(a), Tail(b)) <==> !(FractionDigits(a) < FractionDigits(b))
    ensures !(FractionDigits(b) <= FractionDigits(a))
    ensures Tail(a) != Tail(b)
  {
    NanosFit(a);
    NanosFit(b);
    var (x, y) := (Pad(Nanos(a), 9), Pad(Nanos(b), 9));
    var (s, t) := (FractionDigits(a), FractionDigits(b));
    PadOrder(Nanos(a), Nanos(b), 9);
    PadHasDigits(Nanos(a), 9);
    PadHasDigits(Nanos(b), 9);
    LessIsStrict(x, y);
    if s == t { StripIsInjective(x, y); }
    if t < s { PrefixIsSmaller(y, x); }
    if s < t {
      ShorterFractionIsGreater(s, t);
      LessIsStrict(Tail(a), Tail(b));
    } else {
      assert !(s <= t) && !(t <= s);
      hide Less, Pad, StripZeros;
      DivergingTails(x, y, s, t);
      LessIsStrict(Tail(a), Tail(b));
    }
  }

  lemma DivergingTails(x: string, y: string, s: string, t: string)
    requires s <= x && t <= y && !(s <= t) && !(t <= s) && Less(x, y)
    ensures Less(FractionText(s) + "Z", FractionText(t) + "Z")
  {
    hide Less;
    assert x == s + x[|s|..] && y == t + y[|t|..];
    LessDiverging(s, t, x[|s|..], y[|t|..]);
    LessDiverging(s, t, "Z", "Z");
    assert FractionText(s) + "Z" == "." + (s + "Z") && FractionText(t) + "Z" == "." + (t + "Z");
    SeparatorOrder(".", s + "Z", t + "Z");
  }

  /** 'Z' comes after every digit and after the point, so the shorter fraction sorts last. */
  lemma ShorterFractionIsGreater(s: string, t: string)
    requires s < t && forall i :: 0 <= i < |t| ==> IsDigit(t[i])
    ensures Less(FractionText(t) + "Z", FractionText(s) + "Z")
  {
    if s == "" {
      assert (FractionText(t) + "Z")[0] == '.';
    } else {
      SomethingBeforeZ(t[|s|..]);
      hide Less;
      assert t == s + t[|s|..];
      assert FractionText(t) + "Z" == ("." + s) + (t[|s|..] + "Z");
      LessConcat("." + s, "." + s, t[|s|..] + "Z", "Z");
    }
  }

  lemma SomethingBeforeZ(digits: string)
    requires digits != "" && IsDigit(digits[0])
    ensures Less(digits + "Z", "Z")
  {
    assert (digits + "Z")[0] == digits[0];
  }

  /**
   * Text order is time order exactly when the instants are comparable: different
   * whole seconds, or neither written fraction is a proper prefix of the other.
   */
  lemma TextOrderIsTimeOrder(a: Instant, b: Instant)
    requires FourDigitYear(a) && FourDigitYear(b) && a != b
    ensures (SqlLess(a, b) <==> a < b) <==> Comparable(a, b)
    ensures EncodeTime(a) != EncodeTime(b)
  {
    SecondTextOrder(Seconds(a), Seconds(b));
    LessConcat(SecondText(Seconds(a)), SecondText(Seconds(b)), Tail(a), Tail(b));
    LessIsStrict(EncodeTime(a), EncodeTime(b));
    LessIsStrict(Tail(a), Tail(b));
    assert EncodeTime(a)[..19] == SecondText(Seconds(a)) && EncodeTime(b)[..19] == SecondText(Seconds(b));
    assert EncodeTime(a)[19..] == Tail(a) && EncodeTime(b)[19..] == Tail(b);
    if Seconds(a) == Seconds(b) {
      if Nanos(a) < Nanos(b) { TailOrder(a, b); } else { TailOrder(b, a); }
    } else {
      LessIsStrict(SecondText(Seconds(a)), SecondText(Seconds(b)));
    }
  }

  /** Comparable instants may be compared as text. */
  lemma ComparableOrder(a: Instant, b: Instant)
    requires FourDigitYear(a) && FourDigitYear(b) && Comparable(a, b)
    ensures SqlLess(a, b) <==> a < b
  {
    if a == b { LessIsStrict(EncodeTime(a), EncodeTime(b)); } else { TextOrderIsTimeOrder(a, b); }
  }

  /** Instants at whole seconds are comparable with each other. */
  lemma WholeSecondsCompare(a: Instant, b: Instant)
    requires Nanos(a) == 0 && Nanos(b) == 0
    ensures Comparable(a, b)
  {
  }

  // ----- Reading the text back -----

  /** The number in columns `from` up to `to`, if they are digits. */
  function Field(text: string, from: nat, to: nat): Option<nat>
    requires from <= to
  {
    if to <= |text| then Number(text[from..to]) else None
  }

  function ParseDate(text: string): Option<nat> {
    var (year, month, day) := (Field(text, 0, 4), Field(text, 5, 7), Field(text, 8, 10));
    if && year.Some? && month.Some? && day.Some? && text[4] == '-' && text[7] == '-'
       && 1 <= month.value <= 12 && 1 <= day.value <= MonthLength(month.value, Leap(year.value))
    then Some(DayNumber(Date(year.value, month.value, day.value)))
    else None
  }

  function ParseClock(text: string): Option<nat> {
    var (hour, minute, second) := (Field(text, 0, 2), Field(text, 3, 5), Field(text, 6, 8));
    if && hour.Some? && minute.Some? && second.Some? && text[2] == ':' && text[5] == ':'
       && hour.value < 24 && minute.value < 60 && second.value < 60
    then Some(hour.value * 3600 + minute.value * 60 + second.value)
    else None
  }

  /** At most nine digits after the point, read as nanoseconds. */
  function ParseFraction(text: string): Option<nat> {
    if text == "Z" then Some(0)
    else if |text| < 3 || |text| > 11 || text[0] != '.' || text[|text| - 1] != 'Z' then None
    else Number(text[1..|text| - 1] + seq(11 - |text|, i => '0'))
  }

  /** parseTime, on texts in UTC */
  function ParseTime(text: string): Option<Instant> {
    if |text| < 20 || text[10] != 'T' then None
    else
      var (date, clock, fraction) := (ParseDate(text[..10]), ParseClock(text[11..19]), ParseFraction(text[19..]));
      if date.Some? && clock.Some? && fraction.Some?
      then Some((date.value * 86400 + clock.value) * NANOS_PER_SECOND + fraction.value)
      else None
  }

  lemma ParsesDate(dayNumber: nat)
    requires FourDigits(dayNumber)
    ensures ParseDate(DateText(DateOf(dayNumber))) == Some(dayNumber)
  {
    var date := DateOf(dayNumber);
    var text := DateText(date);
    YearFits(dayNumber);
    TwoDigits(date.month);
    TwoDigits(date.day);
    NumberOfPad(date.year, 4);
    NumberOfPad(date.month, 2);
    NumberOfPad(date.day, 2);
    assert text[0..4] == Pad(date.year, 4) && text[5..7] == Pad(date.month, 2) && text[8..10] == Pad(date.day, 2);
  }

  lemma ParsesClock(s: nat)
    requires s < 86400
    ensures ParseClock(ClockText(s)) == Some(s)
  {
    var text := ClockText(s);
    var (hour, minute, second) := (s / 3600, s / 60 % 60, s % 60);
    TwoDigits(hour);
    TwoDigits(minute);
    TwoDigits(second);
    NumberOfPad(hour, 2);
    NumberOfPad(minute, 2);
    NumberOfPad(second, 2);
    ClockFields(s);
    assert text[0..2] == Pad(hour, 2) && text[3..5] == Pad(minute, 2) && text[6..8] == Pad(second, 2);
  }

  lemma ParsesFraction(t: Instant)
    ensures ParseFraction(Tail(t)) == Some(Nanos(t))
  {
    var (digits, full) := (FractionDigits(t), Pad(Nanos(t), 9));
    NanosFit(t);
    NumberOfPad(Nanos(t), 9);
    StripKeepsZeros(full);
    var zeros := seq(9 - |digits|, i => '0');
    assert full == digits + zeros;
    if digits == "" {
      assert zeros == full;
      NumberOfZeros(zeros);
    } else {
      assert Tail(t)[1..|Tail(t)| - 1] == digits;
    }
  }

  lemma {:induction false} NumberOfZeros(zeros: string)
    requires forall i :: 0 <= i < |zeros| ==> zeros[i] == '0'
    ensures Number(zeros) == Some(0)
  {
    if zeros != "" { NumberOfZeros(zeros[..|zeros| - 1]); }
  }

  lemma ParsesParts(date: string, clock: string, fraction: string, d: nat, c: nat, f: nat)
    requires |date| == 10 && |clock| == 8 && fraction != ""
    requires ParseDate(date) == Some(d) && ParseClock(clock) == Some(c) && ParseFraction(fraction) == Some(f)
    ensures ParseTime(date + ("T" + clock) + fraction) == Some((d * 86400 + c) * NANOS_PER_SECOND + f)
  {
    var text := date + ("T" + clock) + fraction;
    assert text[..10] == date && text[11..19] == clock && text[19..] == fraction;
  }

  lemma ParsesSecond(text: string, seconds: nat, fraction: string, nanos: nat)
    requires FourDigits(seconds / 86400) && fraction != "" && ParseFraction(fraction) == Some(nanos)
    requires text == SecondText(seconds) + fraction
    ensures ParseTime(text) == Some(seconds * NANOS_PER_SECOND + nanos)
  {
    hide ParseDate, ParseClock, ParseFraction, ParseTime, DateText, ClockText, DateOf, Less;
    var (day, second) := (seconds / 86400, seconds % 86400);
    DateTextOrder(day, day);
    ClockTextOrder(second, second);
    ParsesDate(day);
    ParsesClock(second);
    ParsesParts(DateText(DateOf(day)), ClockText(second), fraction, day, second, nanos);
  }

  lemma FourDigitsOf(t: Instant)
    ensures FourDigitYear(t) <==> FourDigits(Seconds(t) / 86400)
    ensures Seconds(t) * NANOS_PER_SECOND + Nanos(t) == t
  {
  }

  lemma EncodedParts(t: Instant) returns (tail: string)
    ensures EncodeTime(t) == SecondText(Seconds(t)) + tail
    ensures tail != "" && ParseFraction(tail) == Some(Nanos(t))
  {
    ParsesFraction(t);
    tail := Tail(t);
  }

  /** parseTime inverts encodeTime for every year that four digits can hold. */
  lemma ParseInvertsEncode(t: Instant)
    requires FourDigitYear(t)
    ensures ParseTime(EncodeTime(t)) == Some(t)
  {
    hide *;
    var tail := EncodedParts(t);
    FourDigitsOf(t);
    ParsesSecond(EncodeTime(t), Seconds(t), tail, Nanos(t));
  }
}
