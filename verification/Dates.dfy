// Calendar dates, `timedelta` in days, and `date.isoformat()`.
module Dates {
  import Lex

  datatype Date = Date(year: nat, month: nat, day: nat)

  predicate Leap(y: nat) {
    y % 4 == 0 && (y % 100 != 0 || y % 400 == 0)
  }

  function DaysIn(y: nat, m: nat): nat {
    if m == 2 then if Leap(y) then 29 else 28
    else if m == 4 || m == 6 || m == 9 || m == 11 then 30
    else 31
  }

  predicate Real(d: Date) {
    1 <= d.year && 1 <= d.month <= 12 && 1 <= d.day <= DaysIn(d.year, d.month)
  }

  // The years `date` can hold.
  predicate InRange(d: Date) {
    Real(d) && d.year <= 9999
  }

  predicate Earlier(a: Date, b: Date) {
    a.year < b.year || (a.year == b.year && (a.month < b.month || (a.month == b.month && a.day < b.day)))
  }

  predicate NotLater(a: Date, b: Date) {
    a == b || Earlier(a, b)
  }

  function NextDay(d: Date): (n: Date)
    requires Real(d)
    ensures Real(n) && Earlier(d, n)
  {
    if d.day < DaysIn(d.year, d.month) then d.(day := d.day + 1)
    else if d.month < 12 then Date(d.year, d.month + 1, 1)
    else Date(d.year + 1, 1, 1)
  }

  function AddDays(d: Date, days: nat): (r: Date)
    requires Real(d)
    ensures Real(r) && (days > 0 ==> Earlier(d, r))
    decreases days
  {
    if days == 0 then d else AddDays(NextDay(d), days - 1)
  }

  // The days of the months before this one, and of the years.
  function DaysBefore(y: nat, m: nat): nat
    requires m >= 1
  {
    if m == 1 then 0 else DaysBefore(y, m - 1) + DaysIn(y, m - 1)
  }

  function YearsBefore(y: nat): nat {
    if y <= 1 then 0 else YearsBefore(y - 1) + if Leap(y - 1) then 366 else 365
  }

  // The Gregorian calendar: a leap day every four years but for the centuries not divisible
  // by 400.
  lemma {:induction false} YearsBeforeIs(y: nat)
    requires y >= 1
    ensures YearsBefore(y) == 365 * (y - 1) + LeapDays(y - 1)
  {
    if y > 1 {
      YearsBeforeIs(y - 1);
      LeapDaysStep(y - 2);
    }
  }

  function LeapDays(years: int): int {
    years / 4 - years / 100 + years / 400
  }

  lemma LeapDaysStep(n: nat)
    ensures LeapDays(n + 1) == LeapDays(n) + if Leap(n + 1) then 1 else 0
  {
    NextQuotient(n, 4);
    NextQuotient(n, 100);
    NextQuotient(n, 400);
    Centuries(n + 1);
  }

  lemma NextQuotient(n: nat, k: nat)
    requires k in {4, 100, 400}
    ensures (n + 1) / k == n / k + if (n + 1) % k == 0 then 1 else 0
  {}

  lemma Centuries(y: nat)
    ensures y % 100 == 0 ==> y % 4 == 0
    ensures y % 400 == 0 ==> y % 100 == 0
  {
    if y % 100 == 0 {
      assert y == 4 * (25 * (y / 100));
    }
    if y % 400 == 0 {
      assert y == 100 * (4 * (y / 400));
    }
  }

  // `date.toordinal`: January 1 of year 1 is day 1.
  function Ordinal(d: Date): nat
    requires Real(d)
  {
    YearsBefore(d.year) + DaysBefore(d.year, d.month) + d.day
  }

  lemma YearLength(y: nat)
    ensures DaysBefore(y, 13) == if Leap(y) then 366 else 365
  {
    Quarter(y, 1);
    Quarter(y, 4);
    Quarter(y, 7);
    Quarter(y, 10);
  }

  lemma Quarter(y: nat, m: nat)
    requires m >= 1
    ensures DaysBefore(y, m + 3) == DaysBefore(y, m) + DaysIn(y, m) + DaysIn(y, m + 1) + DaysIn(y, m + 2)
  {
    assert DaysBefore(y, m + 1) == DaysBefore(y, m) + DaysIn(y, m);
    assert DaysBefore(y, m + 2) == DaysBefore(y, m + 1) + DaysIn(y, m + 1);
  }

  lemma NextDayIs(d: Date)
    requires Real(d)
    ensures Ordinal(NextDay(d)) == Ordinal(d) + 1
  {
    YearLength(d.year);
    if d.month == 12 {
      assert DaysBefore(d.year, 13) == DaysBefore(d.year, 12) + DaysIn(d.year, 12);
    }
  }

  // Adding days adds them.
  lemma {:induction false} AddDaysIs(d: Date, days: nat)
    requires Real(d)
    ensures Ordinal(AddDays(d, days)) == Ordinal(d) + days
    decreases days
  {
    if days > 0 {
      NextDayIs(d);
      AddDaysIs(NextDay(d), days - 1);
    }
  }

  // Between a day and the next there is none.
  lemma NothingBetween(a: Date, b: Date)
    requires Real(a) && Real(b) && Earlier(a, b)
    ensures NotLater(NextDay(a), b)
  {}

  // Shifting by days keeps the order.
  lemma {:induction false} AddDaysOrder(a: Date, b: Date, days: nat)
    requires Real(a) && Real(b)
    ensures Earlier(a, b) <==> Earlier(AddDays(a, days), AddDays(b, days))
    decreases days
  {
    if days > 0 {
      AddDaysOrder(NextDay(a), NextDay(b), days - 1);
      NextDayOrder(a, b);
    }
  }

  lemma NextDayOrder(a: Date, b: Date)
    requires Real(a) && Real(b)
    ensures Earlier(a, b) <==> Earlier(NextDay(a), NextDay(b))
  {
    if Earlier(a, b) {
      NothingBetween(a, b);
    } else if a != b {
      NothingBetween(b, a);
    }
  }

  function Digit(n: nat): char
    requires n < 10
  {
    '0' + n as char
  }

  // The last `width` decimal digits, padded with zeros.
  function Digits(n: nat, width: nat): (s: string)
    ensures |s| == width
  {
    if width == 0 then "" else Digits(n / 10, width - 1) + [Digit(n % 10)]
  }

  function Iso(d: Date): string {
    Digits(d.year, 4) + ("-" + (Digits(d.month, 2) + ("-" + (Digits(d.day, 2) + ""))))
  }

  function Power(width: nat): nat {
    if width == 0 then 1 else 10 * Power(width - 1)
  }

  lemma LeCons(c: char, s: string, d: char, t: string)
    ensures Lex.Le([c] + s, [d] + t) <==> c < d || (c == d && Lex.Le(s, t))
  {
    assert ([c] + s)[1..] == s && ([d] + t)[1..] == t;
  }

  // Equally wide numbers compare as numbers, and then by what follows them.
  lemma {:induction false} DigitsOrder(n: nat, m: nat, width: nat, s: string, t: string)
    requires n < Power(width) && m < Power(width)
    ensures Lex.Le(Digits(n, width) + s, Digits(m, width) + t) <==> n < m || (n == m && Lex.Le(s, t))
    decreases width
  {
    if width == 0 {
      assert "" + s == s && "" + t == t;
    } else {
      var a, b := [Digit(n % 10)] + s, [Digit(m % 10)] + t;
      assert Digits(n, width) + s == Digits(n / 10, width - 1) + a;
      assert Digits(m, width) + t == Digits(m / 10, width - 1) + b;
      DigitsOrder(n / 10, m / 10, width - 1, a, b);
      LeCons(Digit(n % 10), s, Digit(m % 10), t);
    }
  }

  // Comparing ISO strings compares the dates.
  lemma IsoOrder(a: Date, b: Date)
    requires InRange(a) && InRange(b)
    ensures Lex.Le(Iso(a), Iso(b)) <==> NotLater(a, b)
    ensures Iso(a) == Iso(b) <==> a == b
  {
    IsoOrderOneWay(a, b);
    IsoOrderOneWay(b, a);
    Lex.LeTotal(Iso(a), Iso(b));
    if Iso(a) == Iso(b) {
      assert NotLater(a, b) && NotLater(b, a);
    }
  }

  lemma IsoOrderOneWay(a: Date, b: Date)
    requires InRange(a) && InRange(b)
    ensures Lex.Le(Iso(a), Iso(b)) <==> NotLater(a, b)
  {
    assert Power(4) == 10000 && Power(2) == 100;
    var day, other := Digits(a.day, 2) + "", Digits(b.day, 2) + "";
    DigitsOrder(a.day, b.day, 2, "", "");
    LeCons('-', day, '-', other);
    var rest, otherRest := "-" + day, "-" + other;
    DigitsOrder(a.month, b.month, 2, rest, otherRest);
    LeCons('-', Digits(a.month, 2) + rest, '-', Digits(b.month, 2) + otherRest);
    DigitsOrder(a.year, b.year, 4, "-" + (Digits(a.month, 2) + rest), "-" + (Digits(b.month, 2) + otherRest));
  }
}
