/**
 * Calendar dates as the application handles them: Python `date` values on the
 * way in, stored as `date.isoformat()` text (`YYYY-MM-DD`), and compared as
 * text by SQLite's `BETWEEN` and `ORDER BY`.
 */
module Dates {
  import opened Collation

  datatype CalendarDate = CalendarDate(year: nat, month: nat, day: nat)

  predicate IsLeapYear(y: int)
  {
    y % 4 == 0 && (y % 100 != 0 || y % 400 == 0)
  }

  function DaysInMonth(y: int, m: int): int
    requires 1 <= m <= 12
  {
    if m == 2 then (if IsLeapYear(y) then 29 else 28)
    else if m == 4 || m == 6 || m == 9 || m == 11 then 30
    else 31
  }

  /** The dates a Python `date` can hold (years 1 to 9999). */
  predicate ValidDate(d: CalendarDate)
  {
    1 <= d.year <= 9999 && 1 <= d.month <= 12 && 1 <= d.day <= DaysInMonth(d.year, d.month)
  }

  /** Python's `date <= date`: by year, then month, then day. */
  predicate DateLe(a: CalendarDate, b: CalendarDate)
  {
    a.year < b.year || (a.year == b.year && (a.month < b.month || (a.month == b.month && a.day <= b.day)))
  }

  function Pow10(w: nat): nat
  {
    if w == 0 then 1 else 10 * Pow10(w - 1)
  }

  function DigitChar(n: int): char
    requires 0 <= n < 10
  {
    (48 + n) as char
  }

  /** The last `w` decimal digits of `n`, zero-padded (`%0wd` for `n < 10^w`). */
  function Digits(n: nat, w: nat): (s: string)
    ensures |s| == w
  {
    if w == 0 then [] else Digits(n / 10, w - 1) + [DigitChar(n % 10)]
  }

  /** `date.isoformat()`: `YYYY-MM-DD`. */
  function Iso(d: CalendarDate): (s: string)
    ensures |s| == 10
  {
    Digits(d.year, 4) + "-" + Digits(d.month, 2) + "-" + Digits(d.day, 2)
  }

  /** SQL `d BETWEEN lo AND hi` on TEXT: inclusive at both ends. */
  predicate Between(d: string, lo: string, hi: string)
  {
    LexLe(lo, d) && LexLe(d, hi)
  }

  /** Zero-padded numbers of one width compare as text exactly as they compare as numbers. */
  lemma {:induction false} DigitsOrder(x: nat, y: nat, w: nat)
    requires x < Pow10(w) && y < Pow10(w)
    ensures LexLe(Digits(x, w), Digits(y, w)) <==> x <= y
    ensures Digits(x, w) == Digits(y, w) <==> x == y
  {
    if w > 0 {
      var p, q := Digits(x / 10, w - 1), Digits(y / 10, w - 1);
      var cx, cy := DigitChar(x % 10), DigitChar(y % 10);
      DigitsOrder(x / 10, y / 10, w - 1);
      LexLeConcat(p, q, [cx], [cy]);
      assert Digits(x, w) == p + [cx] && Digits(y, w) == q + [cy];
      assert (p + [cx])[..w - 1] == p && (q + [cy])[..w - 1] == q;
      assert (p + [cx])[w - 1] == cx && (q + [cy])[w - 1] == cy;
      assert LexLe([cx], [cy]) <==> x % 10 <= y % 10 by {
        assert [cx][1..] == [] && [cy][1..] == [];
      }
    }
  }

  /** The ISO text of a valid date split at its first field. */
  lemma IsoParts(d: CalendarDate)
    ensures Iso(d) == Digits(d.year, 4) + ("-" + (Digits(d.month, 2) + ("-" + Digits(d.day, 2))))
  {
  }

  /** Text order on ISO dates is chronological order, and the text tells dates apart. */
  lemma IsoOrder(a: CalendarDate, b: CalendarDate)
    requires ValidDate(a) && ValidDate(b)
    ensures LexLe(Iso(a), Iso(b)) <==> DateLe(a, b)
    ensures Iso(a) == Iso(b) <==> a == b
  {
    IsoParts(a);
    IsoParts(b);
    var ya, yb := Digits(a.year, 4), Digits(b.year, 4);
    var ma, mb := Digits(a.month, 2), Digits(b.month, 2);
    var da, db := Digits(a.day, 2), Digits(b.day, 2);
    DigitsOrder(a.year, b.year, 4);
    DigitsOrder(a.month, b.month, 2);
    DigitsOrder(a.day, b.day, 2);
    LexLeConcat(ya, yb, "-" + (ma + ("-" + da)), "-" + (mb + ("-" + db)));
    LexLeConcat("-", "-", ma + ("-" + da), mb + ("-" + db));
    LexLeConcat(ma, mb, "-" + da, "-" + db);
    LexLeConcat("-", "-", da, db);
    SplitEq(ya, yb, "-" + (ma + ("-" + da)), "-" + (mb + ("-" + db)));
    SplitEq("-", "-", ma + ("-" + da), mb + ("-" + db));
    SplitEq(ma, mb, "-" + da, "-" + db);
    SplitEq("-", "-", da, db);
  }

  lemma SplitEq(p: string, q: string, x: string, y: string)
    requires |p| == |q|
    ensures p + x == q + y <==> p == q && x == y
  {
    if p + x == q + y {
      assert (p + x)[..|p|] == p && (q + y)[..|q|] == q;
      assert (p + x)[|p|..] == x && (q + y)[|q|..] == y;
    }
  }

  /** The calendar day after `d` (`d + timedelta(days=1)`). */
  function NextDay(d: CalendarDate): (r: CalendarDate)
    requires ValidDate(d)
    ensures !DateLe(r, d)
    ensures (d.year < 9999 || d.month < 12 || d.day < 31) ==> ValidDate(r)
  {
    if d.day < DaysInMonth(d.year, d.month) then CalendarDate(d.year, d.month, d.day + 1)
    else if d.month < 12 then CalendarDate(d.year, d.month + 1, 1)
    else CalendarDate(d.year + 1, 1, 1)
  }

  /** No valid date lies strictly between a day and the day after it. */
  lemma NoDateBetweenDays(c: CalendarDate, d: CalendarDate)
    requires ValidDate(c) && ValidDate(d)
    ensures DateLe(c, d) || DateLe(NextDay(d), c)
  {
  }

  /** For stored ISO dates, `BETWEEN` on text selects exactly the dates of the calendar range. */
  lemma BetweenIsChronological(d: CalendarDate, start: CalendarDate, end: CalendarDate)
    requires ValidDate(d) && ValidDate(start) && ValidDate(end)
    ensures Between(Iso(d), Iso(start), Iso(end)) <==> DateLe(start, d) && DateLe(d, end)
  {
    IsoOrder(start, d);
    IsoOrder(d, end);
  }
}
