/** Calendar dates of the proleptic Gregorian calendar, numbered as consecutive
    integers, and the ISO `YYYY-MM-DD` text that `str(datetime.date)` produces
    and `pd.to_datetime` reads. */
module Calendar {
  import opened Text

  /** A calendar day as an integer: day 0 is 0000-01-01, each next day is one more. */
  type Day = int

  predicate IsLeapYear(y: int)
  {
    y % 4 == 0 && (y % 100 != 0 || y % 400 == 0)
  }

  function DaysInYear(y: int): int
  {
    if IsLeapYear(y) then 366 else 365
  }

  function DaysInMonth(y: int, m: int): int
    requires 1 <= m <= 12
  {
    if m == 2 then (if IsLeapYear(y) then 29 else 28)
    else if m == 4 || m == 6 || m == 9 || m == 11 then 30
    else 31
  }

  /** Days of the year `y` that come before the first of month `m`. */
  function DaysBeforeMonth(y: int, m: int): int
    requires 1 <= m <= 12
  {
    var common :=
      if m == 1 then 0 else if m == 2 then 31 else if m == 3 then 59
      else if m == 4 then 90 else if m == 5 then 120 else if m == 6 then 151
      else if m == 7 then 181 else if m == 8 then 212 else if m == 9 then 243
      else if m == 10 then 273 else if m == 11 then 304 else 334;
    common + (if m > 2 && IsLeapYear(y) then 1 else 0)
  }

  /** How many multiples of k lie in [0, y). */
  function Multiples(y: nat, k: nat): int
    requires k > 0
  {
    (y + k - 1) / k
  }

  /** Days from 0000-01-01 up to the first of January of year `y`: 365 per year
      plus one per leap year in [0, y). */
  function DaysBeforeYear(y: nat): int
  {
    365 * y + Multiples(y, 4) - Multiples(y, 100) + Multiples(y, 400)
  }

  predicate ValidDate(y: int, m: int, d: int)
  {
    1 <= y <= 9999 && 1 <= m <= 12 && 1 <= d <= DaysInMonth(y, m)
  }

  function DayNumber(y: int, m: int, d: int): Day
    requires ValidDate(y, m, d)
  {
    DaysBeforeYear(y) + DaysBeforeMonth(y, m) + d - 1
  }

  /** The calendar date after (y, m, d). */
  function NextDate(y: int, m: int, d: int): (r: (int, int, int))
    requires ValidDate(y, m, d) && (y, m, d) != (9999, 12, 31)
    ensures ValidDate(r.0, r.1, r.2)
    ensures DayNumber(r.0, r.1, r.2) == DayNumber(y, m, d) + 1
  {
    if d < DaysInMonth(y, m) then (y, m, d + 1)
    else if m < 12 then (y, m + 1, 1)
    else
      YearStep(y);
      (y + 1, 1, 1)
  }

  /** One more year adds a multiple of k exactly when the year itself is one. */
  lemma MultiplesStep(y: nat, k: nat)
    requires k in {4, 100, 400}
    ensures Multiples(y + 1, k) == Multiples(y, k) + (if y % k == 0 then 1 else 0)
  {
    var q, r := y / k, y % k;
    assert y == k * q + r && 0 <= r < k;
    assert (y + k) / k == q + 1;
    assert (y + k - 1) / k == if r == 0 then q else q + 1;
  }

  /** A multiple of 400 is one of 100, and a multiple of 100 is one of 4. */
  lemma DivisorsChain(y: nat)
    ensures y % 400 == 0 ==> y % 100 == 0
    ensures y % 100 == 0 ==> y % 4 == 0
  {
    if y % 400 == 0 {
      var q := y / 400;
      assert y == 100 * (4 * q);
    }
    if y % 100 == 0 {
      var q := y / 100;
      assert y == 4 * (25 * q);
    }
  }

  lemma YearStep(y: nat)
    ensures DaysBeforeYear(y + 1) == DaysBeforeYear(y) + DaysInYear(y)
  {
    MultiplesStep(y, 4);
    MultiplesStep(y, 100);
    MultiplesStep(y, 400);
    DivisorsChain(y);
  }

  lemma {:induction false} YearsIncrease(y: nat, y': nat)
    requires y <= y'
    ensures DaysBeforeYear(y) + 365 * (y' - y) <= DaysBeforeYear(y')
    decreases y' - y
  {
    if y < y' {
      YearStep(y);
      YearsIncrease(y + 1, y');
    }
  }

  /** Later calendar dates (in the order year, month, day) have larger numbers. */
  lemma DayNumberIncreases(y: int, m: int, d: int, y': int, m': int, d': int)
    requires ValidDate(y, m, d) && ValidDate(y', m', d')
    requires y < y' || (y == y' && m < m') || (y == y' && m == m' && d < d')
    ensures DayNumber(y, m, d) < DayNumber(y', m', d')
  {
    assert DaysBeforeMonth(y, m) + DaysInMonth(y, m) <= DaysInYear(y);
    if y < y' {
      YearStep(y);
      YearsIncrease(y + 1, y');
    }
  }

  /** The value of a decimal digit character. */
  function Digit(c: char): int
  {
    c as int - '0' as int
  }

  /** The year, month and day-of-month fields of a `YYYY-MM-DD` text. */
  function Year(s: string): int
    requires |s| == 10
  {
    1000 * Digit(s[0]) + 100 * Digit(s[1]) + 10 * Digit(s[2]) + Digit(s[3])
  }

  function Month(s: string): int
    requires |s| == 10
  {
    10 * Digit(s[5]) + Digit(s[6])
  }

  function DayOfMonth(s: string): int
    requires |s| == 10
  {
    10 * Digit(s[8]) + Digit(s[9])
  }

  /** A date text as `str(datetime.date)` writes it: `YYYY-MM-DD`, a valid date. */
  predicate IsIsoDate(s: string)
  {
    && |s| == 10
    && IsDigit(s[0]) && IsDigit(s[1]) && IsDigit(s[2]) && IsDigit(s[3]) && s[4] == '-'
    && IsDigit(s[5]) && IsDigit(s[6]) && s[7] == '-' && IsDigit(s[8]) && IsDigit(s[9])
    && ValidDate(Year(s), Month(s), DayOfMonth(s))
  }

  /** The day an ISO date text names (what `pd.to_datetime` reads from it). */
  function DayOf(s: string): Day
    requires IsIsoDate(s)
  {
    DayNumber(Year(s), Month(s), DayOfMonth(s))
  }

  /** The fields of an ISO date text are its digit runs read as numbers. */
  lemma IsoFields(s: string)
    requires IsIsoDate(s)
    ensures AllDigits(s[..4]) && AllDigits(s[5..7]) && AllDigits(s[8..])
    ensures Year(s) == Number(s[..4]) && Month(s) == Number(s[5..7]) && DayOfMonth(s) == Number(s[8..])
  {
    forall k | 0 <= k < |s| && k != 4 && k != 7 ensures IsDigit(s[k]) {
      assert k in {0, 1, 2, 3, 5, 6, 8, 9};
    }
    assert s[..4][..3] == s[..3] && s[..3][..2] == s[..2] && s[..2][..1] == s[..1] && s[..1][..0] == [];
    assert Number(s[..1]) == Digit(s[0]);
    assert Number(s[..2]) == 10 * Digit(s[0]) + Digit(s[1]);
    assert Number(s[..3]) == 100 * Digit(s[0]) + 10 * Digit(s[1]) + Digit(s[2]);
    assert s[5..7][..1] == s[5..6] && s[5..6][..0] == [];
    assert s[8..][..1] == s[8..9] && s[8..9][..0] == [];
  }

  /** Comparing ISO date texts as strings compares the days they name. */
  lemma IsoOrder(s: string, t: string)
    requires IsIsoDate(s) && IsIsoDate(t)
    ensures Less(s, t) <==> DayOf(s) < DayOf(t)
    ensures s == t <==> DayOf(s) == DayOf(t)
  {
    IsoFields(s);
    IsoFields(t);
    var y, m, d := Year(s), Month(s), DayOfMonth(s);
    var y', m', d' := Year(t), Month(t), DayOfMonth(t);
    assert s == s[..4] + ([s[4]] + (s[5..7] + ([s[7]] + s[8..])));
    assert t == t[..4] + ([t[4]] + (t[5..7] + ([t[7]] + t[8..])));
    LessConcat(s[..4], [s[4]] + (s[5..7] + ([s[7]] + s[8..])), t[..4], [t[4]] + (t[5..7] + ([t[7]] + t[8..])));
    LessConcat([s[4]], s[5..7] + ([s[7]] + s[8..]), [t[4]], t[5..7] + ([t[7]] + t[8..]));
    LessConcat(s[5..7], [s[7]] + s[8..], t[5..7], [t[7]] + t[8..]);
    LessConcat([s[7]], s[8..], [t[7]], t[8..]);
    LessIrreflexive([s[4]]);
    LessIrreflexive([s[7]]);
    NumberOrder(s[..4], t[..4]);
    NumberOrder(s[5..7], t[5..7]);
    NumberOrder(s[8..], t[8..]);
    if y < y' || (y == y' && m < m') || (y == y' && m == m' && d < d') {
      DayNumberIncreases(y, m, d, y', m', d');
    } else if y' < y || (y == y' && m' < m) || (y == y' && m == m' && d' < d) {
      DayNumberIncreases(y', m', d', y, m, d);
    }
  }

  /** Distinct ISO date texts name distinct days. */
  lemma IsoInjective(s: string, t: string)
    requires IsIsoDate(s) && IsIsoDate(t) && DayOf(s) == DayOf(t)
    ensures s == t
  {
    IsoOrder(s, t);
  }

  /** Python's `s > '2020-03'` on an ISO date text: true exactly for the days
      from 2020-03-01 on. */
  lemma SinceMarchText(s: string)
    requires IsIsoDate(s)
    ensures Less("2020-03", s) <==> DayOf(s) >= DayNumber(2020, 3, 1)
  {
    IsoFields(s);
    var y, m, d := Year(s), Month(s), DayOfMonth(s);
    var cut: string := "2020-03";
    assert Number("2020") == 2020 && Number("03") == 3 by {
      assert "2020"[..3] == "202" && "202"[..2] == "20" && "20"[..1] == "2" && "2"[..0] == "";
      assert "03"[..1] == "0" && "0"[..0] == "";
    }
    assert cut == cut + [] && cut == "2020" + ("-" + "03");
    assert s == s[..7] + s[7..] && s[..7] == s[..4] + ([s[4]] + s[5..7]);
    LessConcat(cut, [], s[..7], s[7..]);
    assert Less([], s[7..]);
    LessConcat("2020", "-" + "03", s[..4], [s[4]] + s[5..7]);
    LessConcat("-", "03", [s[4]], s[5..7]);
    LessIrreflexive("-");
    NumberOrder("2020", s[..4]);
    NumberOrder("03", s[5..7]);
    assert Less(cut, s) <==> y > 2020 || (y == 2020 && m >= 3) by {
      if y == 2020 && m == 3 {
        assert s[..4] == "2020" && s[5..7] == "03";
        assert s[..7] == cut;
      }
    }
    if y > 2020 || (y == 2020 && m > 3) || (y == 2020 && m == 3 && d > 1) {
      DayNumberIncreases(2020, 3, 1, y, m, d);
    } else if y < 2020 || (y == 2020 && m < 3) {
      DayNumberIncreases(y, m, d, 2020, 3, 1);
    }
  }
}
