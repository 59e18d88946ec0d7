/** What `make_dataframe` promises about its result: for records dated after
    FIRST and up to today, every district seen gets one row per day from FIRST
    to today, and the row of day t counts that district's records dated on or
    before t. */
module PanelProperties {
  import opened Text
  import opened Calendar
  import opened Dataframe

  /** A today `make_dataframe` can anchor and resample to: a readable date
      before the last day a Timestamp holds. */
  predicate TodayInRange(today: string)
  {
    Readable(today) && DayOf(today) < MaxTimestampDay
  }

  /** The day FIRST names. */
  const FirstDay: Day := DayNumber(2020, 1, 28)

  lemma FirstIsIso()
    ensures IsIsoDate(FIRST) && DayOf(FIRST) == FirstDay
    ensures Readable(FIRST) && MinTimestampDay < FirstDay
  {
    DayNumberIncreases(1677, 9, 22, 2020, 1, 28);
    DayNumberIncreases(2020, 1, 28, 2262, 4, 11);
    assert |FIRST| == 10 && FIRST[0] == '2' && FIRST[1] == '0' && FIRST[2] == '2' && FIRST[3] == '0';
    assert FIRST[4] == '-' && FIRST[5] == '0' && FIRST[6] == '1' && FIRST[7] == '-' && FIRST[8] == '2' && FIRST[9] == '8';
    assert FIRST[..4] == "2020" && FIRST[5..7] == "01" && FIRST[8..] == "28";
    assert "2020"[..3] == "202" && "202"[..2] == "20" && "20"[..1] == "2" && "2"[..0] == "";
    assert "01"[..1] == "0" && "28"[..1] == "2" && "0"[..0] == "";
  }

  /** Every record's date key is an ISO date after FIRST and on or before `today`. */
  predicate WellDated(json: seq<Case>, today: string)
  {
    && TodayInRange(today)
    && forall i :: 0 <= i < |json| ==>
         Readable(DateKey(json[i])) && FirstDay < DayOf(DateKey(json[i])) <= DayOf(today)
  }

  /** Some record names district `p`. */
  predicate Seen(json: seq<Case>, p: string)
  {
    exists i :: 0 <= i < |json| && json[i].healthCareDistrict == p
  }

  function SeenDistricts(json: seq<Case>): set<string>
  {
    set c | c in json :: c.healthCareDistrict
  }

  /** No two rows share a (pvm, shp) index label. */
  predicate UniqueKeys(rows: seq<Row>)
  {
    forall i, j :: 0 <= i < j < |rows| ==> rows[i].pvm != rows[j].pvm || rows[i].shp != rows[j].shp
  }

  // ---------------------------------------------------------------------------
  // One district's grouped rows, read as days.

  /** Rows of one district, each an ISO date in (FIRST, today], no date twice, in (shp, pvm) order. */
  predicate GoodPart(part: seq<Entry>, p: string, today: string)
  {
    && TodayInRange(today)
    && part != []
    && StrictlySorted(part)
    && forall x :: x in part ==> x.shp == p && Readable(x.pvm) && FirstDay < DayOf(x.pvm) <= DayOf(today)
  }

  /** Dated rows of district `p`, on days in (first, last]. */
  predicate DatedIn(dated: seq<Row>, p: string, first: Day, last: Day)
  {
    forall i :: 0 <= i < |dated| ==> dated[i].shp == p && first < dated[i].pvm <= last
  }

  /** Days strictly increase along the rows. */
  predicate Increasing(dated: seq<Row>)
  {
    forall i, j :: 0 <= i < j < |dated| ==> dated[i].pvm < dated[j].pvm
  }

  /** The sum of `n` over the rows dated on or before day `t`. */
  function CountTo(rows: seq<Row>, t: Day): nat
  {
    if rows == [] then 0 else (if rows[0].pvm <= t then rows[0].n else 0) + CountTo(rows[1..], t)
  }

  lemma {:induction false} CountToAppend(a: seq<Row>, b: seq<Row>, t: Day)
    ensures CountTo(a + b, t) == CountTo(a, t) + CountTo(b, t)
  {
    if a == [] {
      assert a + b == b;
    } else {
      assert (a + b)[0] == a[0] && (a + b)[1..] == a[1..] + b;
      CountToAppend(a[1..], b, t);
    }
  }

  lemma CountToSplit(rows: seq<Row>, k: int, t: Day)
    requires 0 <= k <= |rows|
    ensures CountTo(rows, t) == CountTo(rows[..k], t) + CountTo(rows[k..], t)
  {
    assert rows == rows[..k] + rows[k..];
    CountToAppend(rows[..k], rows[k..], t);
  }

  lemma {:induction false} CountToNone(rows: seq<Row>, t: Day)
    requires forall i :: 0 <= i < |rows| ==> rows[i].pvm > t
    ensures CountTo(rows, t) == 0
  {
    if rows != [] {
      CountToNone(rows[1..], t);
    }
  }

  /** The count up to a day does not change across days on which no row is dated. */
  lemma {:induction false} CountToGap(rows: seq<Row>, a: Day, b: Day)
    requires a <= b
    requires forall i :: 0 <= i < |rows| ==> !(a < rows[i].pvm <= b)
    ensures CountTo(rows, a) == CountTo(rows, b)
  {
    if rows != [] {
      CountToGap(rows[1..], a, b);
    }
  }

  /** The running total of the first k rows, when all are dated on or before t. */
  lemma {:induction false} TotalIsCount(part: seq<Entry>, dated: seq<Row>, t: Day, k: nat)
    requires |dated| == |part| && k <= |part|
    requires forall i :: 0 <= i < |part| ==> dated[i].n == part[i].n
    requires forall i :: 0 <= i < k ==> dated[i].pvm <= t
    ensures Total(part[..k]) == CountTo(dated[..k], t)
  {
    if k > 0 {
      TotalIsCount(part, dated, t, k - 1);
      assert part[..k][..k - 1] == part[..k - 1];
      assert dated[..k] == dated[..k - 1] + [dated[k - 1]];
      CountToAppend(dated[..k - 1], [dated[k - 1]], t);
    }
  }

  /** On increasing days, the running total at row i is the count up to row i's day. */
  lemma {:induction false} CountAtRow(part: seq<Entry>, dated: seq<Row>, i: int)
    requires |dated| == |part| && 0 <= i < |part|
    requires forall k :: 0 <= k < |part| ==> dated[k].n == part[k].n
    requires Increasing(dated)
    ensures Total(part[..i + 1]) == CountTo(dated, dated[i].pvm)
  {
    var t := dated[i].pvm;
    TotalIsCount(part, dated, t, i + 1);
    CountToSplit(dated, i + 1, t);
    CountToNone(dated[i + 1..], t);
  }

  /** Within a district sorted by date, the days strictly increase. */
  lemma PartDaysIncrease(part: seq<Entry>, p: string, today: string, i: int, j: int)
    requires GoodPart(part, p, today) && 0 <= i < j < |part|
    ensures DayOf(part[i].pvm) < DayOf(part[j].pvm)
  {
    assert part[i] in part && part[j] in part;
    assert KeyLess(Key(part[i]), Key(part[j]));
    LessIrreflexive(p);
    IsoOrder(part[i].pvm, part[j].pvm);
  }

  /** A well-dated district reads as dated rows on increasing days in (FIRST, today]. */
  lemma DatedPartOf(part: seq<Entry>, p: string, today: string)
    requires GoodPart(part, p, today)
    ensures ToDatetime(part).Ok?
    ensures DatedIn(ToDatetime(part).value, p, FirstDay, DayOf(today))
    ensures Increasing(ToDatetime(part).value)
  {
    assert forall i :: 0 <= i < |part| ==> part[i] in part;
    var dated := ToDatetime(part).value;
    forall i, j | 0 <= i < j < |dated| ensures dated[i].pvm < dated[j].pvm {
      PartDaysIncrease(part, p, today, i, j);
    }
  }

  /** Counting the grouped rows by date text is counting the dated rows by day. */
  lemma {:induction false} CountToOf(part: seq<Entry>, p: string, t: Day)
    requires forall x :: x in part ==> x.shp == p && Readable(x.pvm)
    ensures ToDatetime(part).Ok? && SumWhere(part, UpTo(p, t)) == CountTo(ToDatetime(part).value, t)
  {
    assert forall i :: 0 <= i < |part| ==> part[i] in part;
    if part != [] {
      assert part[0] in part;
      CountToOf(part[1..], p, t);
      assert ToDatetime(part).value[1..] == ToDatetime(part[1..]).value;
    }
  }

  // ---------------------------------------------------------------------------
  // One pass of the loop on a well-dated district.

  /** The rows handed to resampling, as a well-dated district's pass produces
      them: no day twice, a row on `first`, a row on `last`, a row on the day of
      every dated row, and each carrying the count of `dated` up to its own day. */
  predicate SeriesRows(rows: seq<Row>, dated: seq<Row>, p: string, first: Day, last: Day)
  {
    DistinctDays(rows) && RowsCover(rows, dated, p, first, last)
  }

  /** SeriesRows without the distinct days: what forward filling needs. */
  predicate RowsCover(rows: seq<Row>, dated: seq<Row>, p: string, first: Day, last: Day)
  {
    && rows != []
    && (forall i :: 0 <= i < |rows| ==>
          rows[i].shp == p && first <= rows[i].pvm <= last && rows[i].n == CountTo(dated, rows[i].pvm))
    && HasDay(rows, first)
    && HasDay(rows, last)
    && Covers(rows, dated)
  }

  /** Some row is on day t. */
  predicate HasDay(rows: seq<Row>, t: Day)
  {
    exists i :: 0 <= i < |rows| && rows[i].pvm == t
  }

  /** The day of every dated row has a row. */
  predicate Covers(rows: seq<Row>, dated: seq<Row>)
  {
    forall k :: 0 <= k < |dated| ==> HasDay(rows, dated[k].pvm)
  }

  /** Reading the dates of rows that are all readable dates: row by row, each day the one its text names. */
  lemma ToDatetimeValue(d: seq<Entry>)
    requires AllReadable(d)
    ensures ToDatetime(d).Ok? && |ToDatetime(d).value| == |d|
    ensures forall i :: 0 <= i < |d| ==> ToDatetime(d).value[i] == Row(DayOf(d[i].pvm), d[i].shp, d[i].n)
  {
  }

  /** Reading dates row by row, joined parts read as the join of their readings. */
  lemma ToDatetimeAppend(a: seq<Entry>, b: seq<Entry>)
    requires ToDatetime(a).Ok? && ToDatetime(b).Ok?
    ensures ToDatetime(a + b) == Ok(ToDatetime(a).value + ToDatetime(b).value)
  {
    var ab := a + b;
    assert AllReadable(ab) by {
      forall i | 0 <= i < |ab| ensures Readable(ab[i].pvm) {
        if i < |a| { assert ab[i] == a[i]; } else { assert ab[i] == b[i - |a|]; }
      }
    }
    ToDatetimeValue(ab);
    ToDatetimeValue(a);
    ToDatetimeValue(b);
    var u, v := ToDatetime(ab).value, ToDatetime(a).value + ToDatetime(b).value;
    forall i | 0 <= i < |u| ensures u[i] == v[i] {
      if i < |a| { assert ab[i] == a[i]; } else { assert ab[i] == b[i - |a|]; }
    }
    assert u == v;
  }

  /** The running totals, read as days: each carries the count up to its own day. */
  lemma DatedTotals(part: seq<Entry>, p: string)
    requires ToDatetime(part).Ok?
    requires forall i :: 0 <= i < |part| ==> part[i].shp == p
    requires Increasing(ToDatetime(part).value)
    ensures ToDatetime(CumSum(part)).Ok?
    ensures var c, dated := ToDatetime(CumSum(part)).value, ToDatetime(part).value;
      && |c| == |dated|
      && forall i :: 0 <= i < |c| ==> c[i] == Row(dated[i].pvm, p, CountTo(dated, dated[i].pvm))
  {
    var d, dated := CumSum(part), ToDatetime(part).value;
    assert forall i :: 0 <= i < |d| ==> d[i].pvm == part[i].pvm;
    var c := ToDatetime(d).value;
    forall i | 0 <= i < |c| ensures c[i] == Row(dated[i].pvm, p, CountTo(dated, dated[i].pvm)) {
      CountAtRow(part, dated, i);
    }
  }

  /** `first_last` read as days: the zero row on FIRST and, unless today has a
      row, the last running total on today. */
  lemma AnchorRows(d: seq<Entry>, today: string)
    requires d != [] && Readable(today)
    ensures ToDatetime(Anchors(d, today)) ==
      Ok([Row(FirstDay, d[0].shp, 0)] +
         if exists i :: 0 <= i < |d| && d[i].pvm == today then [] else [Row(DayOf(today), d[0].shp, d[|d| - 1].n)])
  {
    FirstIsIso();
    var a := Anchors(d, today);
    assert AllReadable(a) by {
      forall i | 0 <= i < |a| ensures Readable(a[i].pvm) {
        assert i == 0 || i == 1;
      }
    }
    ToDatetimeValue(a);
    var want := [Row(FirstDay, d[0].shp, 0)] +
      if exists i :: 0 <= i < |d| && d[i].pvm == today then [] else [Row(DayOf(today), d[0].shp, d[|d| - 1].n)];
    assert ToDatetime(a).value == want;
  }

  /** Some grouped row is dated today exactly when some dated row is on today's day. */
  lemma TodayHasRow(part: seq<Entry>, today: string)
    requires ToDatetime(part).Ok? && Readable(today)
    ensures (exists i :: 0 <= i < |part| && part[i].pvm == today) <==>
            (exists i :: 0 <= i < |part| && ToDatetime(part).value[i].pvm == DayOf(today))
  {
    ToDatetimeValue(part);
    var dated := ToDatetime(part).value;
    if exists i :: 0 <= i < |part| && dated[i].pvm == DayOf(today) {
      var i :| 0 <= i < |part| && dated[i].pvm == DayOf(today);
      IsoInjective(part[i].pvm, today);
    }
    if exists i :: 0 <= i < |part| && part[i].pvm == today {
      var i :| 0 <= i < |part| && part[i].pvm == today;
      assert dated[i].pvm == DayOf(today);
    }
  }

  /** The `first_last` rows of a district, read as days. */
  lemma DatedAnchors(part: seq<Entry>, p: string, today: string)
    requires part != [] && part[0].shp == p && Readable(today)
    requires ToDatetime(part).Ok? && DatedIn(ToDatetime(part).value, p, FirstDay, DayOf(today))
    ensures ToDatetime(Anchors(CumSum(part), today)).Ok?
    ensures var a, dated := ToDatetime(Anchors(CumSum(part), today)).value, ToDatetime(part).value;
      && a != [] && a[0] == Row(FirstDay, p, CountTo(dated, FirstDay))
      && ((|a| == 1 && exists i :: 0 <= i < |dated| && dated[i].pvm == DayOf(today)) ||
          (|a| == 2 && a[1] == Row(DayOf(today), p, CountTo(dated, DayOf(today))) &&
           forall i :: 0 <= i < |dated| ==> dated[i].pvm != DayOf(today)))
  {
    var d, dated := CumSum(part), ToDatetime(part).value;
    AnchorRows(d, today);
    TodayHasRow(part, today);
    CountToNone(dated, FirstDay);
    var a := ToDatetime(Anchors(d, today)).value;
    if exists i :: 0 <= i < |d| && d[i].pvm == today {
      var i :| 0 <= i < |d| && d[i].pvm == today;
      assert part[i].pvm == today;
      assert |a| == 1;
    } else {
      forall i | 0 <= i < |part| ensures part[i].pvm != today {
        assert d[i].pvm == part[i].pvm;
      }
      LastTotal(part, dated, DayOf(today));
      assert a[1] == Row(DayOf(today), p, CountTo(dated, DayOf(today)));
    }
  }

  /** The last running total is the count up to any day on or after every row's. */
  lemma LastTotal(part: seq<Entry>, dated: seq<Row>, t: Day)
    requires part != [] && ToDatetime(part) == Ok(dated)
    requires forall i :: 0 <= i < |dated| ==> dated[i].pvm <= t
    ensures CumSum(part)[|part| - 1].n == CountTo(dated, t)
  {
    var n := |part|;
    ToDatetimeValue(part);
    assert part[..n] == part && dated[..n] == dated;
    TotalIsCount(part, dated, t, n);
  }

  /** Joined running totals and anchors have no day twice. */
  lemma JoinedDistinct(c: seq<Row>, a: seq<Row>, first: Day, last: Day)
    requires Increasing(c) && forall i :: 0 <= i < |c| ==> first < c[i].pvm <= last
    requires first < last && a != [] && a[0].pvm == first
    requires |a| == 1 || (|a| == 2 && a[1].pvm == last && forall i :: 0 <= i < |c| ==> c[i].pvm != last)
    ensures DistinctDays(c + a)
  {
    var rows := c + a;
    forall i, j | 0 <= i < j < |rows| ensures rows[i].pvm != rows[j].pvm {
      if j < |c| {
        assert rows[i] == c[i] && rows[j] == c[j];
      } else if i < |c| {
        assert rows[i] == c[i] && rows[j] == a[j - |c|];
        assert j - |c| == 0 || j - |c| == 1;
      } else {
        assert rows[i] == a[0] && rows[j] == a[1];
      }
    }
  }

  /** Joining the running totals and the anchors gives rows with the properties of SeriesRows. */
  lemma JoinedRows(c: seq<Row>, a: seq<Row>, dated: seq<Row>, p: string, first: Day, last: Day)
    requires first < last && DatedIn(dated, p, first, last) && Increasing(dated) && |c| == |dated|
    requires forall i :: 0 <= i < |c| ==> c[i] == Row(dated[i].pvm, p, CountTo(dated, dated[i].pvm))
    requires a != [] && a[0] == Row(first, p, CountTo(dated, first))
    requires (|a| == 1 && exists i :: 0 <= i < |dated| && dated[i].pvm == last) ||
      (|a| == 2 && a[1] == Row(last, p, CountTo(dated, last)) &&
       forall i :: 0 <= i < |dated| ==> dated[i].pvm != last)
    ensures SeriesRows(c + a, dated, p, first, last)
  {
    var rows := c + a;
    var n := |c|;
    assert Increasing(c);
    JoinedDistinct(c, a, first, last);
    assert rows[n] == a[0];
    if |a| == 1 {
      var i :| 0 <= i < |dated| && dated[i].pvm == last;
      assert rows[i] == c[i];
    } else {
      assert rows[n + 1] == a[1];
    }
    JoinedCovers(c, a, dated);
    JoinedValues(c, a, dated, p, first, last);
  }

  /** Every dated row's day has a joined row. */
  lemma JoinedCovers(c: seq<Row>, a: seq<Row>, dated: seq<Row>)
    requires |c| == |dated| && forall i :: 0 <= i < |c| ==> c[i].pvm == dated[i].pvm
    ensures Covers(c + a, dated)
  {
    var rows := c + a;
    forall k | 0 <= k < |dated| ensures HasDay(rows, dated[k].pvm) {
      assert rows[k] == c[k];
    }
  }

  /** Every joined row is of district `p`, in [first, last], and carries the count up to its day. */
  lemma JoinedValues(c: seq<Row>, a: seq<Row>, dated: seq<Row>, p: string, first: Day, last: Day)
    requires first < last && DatedIn(dated, p, first, last) && |c| == |dated|
    requires forall i :: 0 <= i < |c| ==> c[i] == Row(dated[i].pvm, p, CountTo(dated, dated[i].pvm))
    requires forall i :: 0 <= i < |a| ==> a[i].shp == p && first <= a[i].pvm <= last && a[i].n == CountTo(dated, a[i].pvm)
    ensures var rows := c + a; forall i :: 0 <= i < |rows| ==>
      rows[i].shp == p && first <= rows[i].pvm <= last && rows[i].n == CountTo(dated, rows[i].pvm)
  {
    var rows := c + a;
    forall i | 0 <= i < |rows|
      ensures rows[i].shp == p && first <= rows[i].pvm <= last && rows[i].n == CountTo(dated, rows[i].pvm)
    {
      if i < |c| { assert rows[i] == c[i]; } else { assert rows[i] == a[i - |c|]; }
    }
  }

  /** Row i is dated `first + i` and carries the count of `dated` up to that day. */
  predicate CountSeries(s: seq<Row>, dated: seq<Row>, p: string, first: Day)
  {
    forall i :: 0 <= i < |s| ==> s[i] == Row(first + i, p, CountTo(dated, first + i))
  }

  /** Forward filling such rows gives every day from `first` to `last` the count up to it. */
  lemma FilledRows(rows: seq<Row>, dated: seq<Row>, p: string, first: Day, last: Day)
    requires SeriesRows(rows, dated, p, first, last)
    ensures |ForwardFill(rows)| == last - first + 1 && CountSeries(ForwardFill(rows), dated, p, first)
  {
    RowsBounds(rows, dated, p, first, last);
    var s := ForwardFill(rows);
    forall i | 0 <= i < |s| ensures s[i] == Row(first + i, p, CountTo(dated, first + i)) {
      FillAtDay(rows, dated, p, first, last, first + i);
      FillRowAt(rows, first, i, Row(first + i, p, CountTo(dated, first + i)));
    }
  }

  /** Row i of the filled series is the row filled in on day `first + i`. */
  lemma FillRowAt(rows: seq<Row>, first: Day, i: int, x: Row)
    requires rows != [] && MinDay(rows) == first && 0 <= i <= MaxDay(rows) - first
    requires FillAt(rows, first + i) == x
    ensures ForwardFill(rows)[i] == x
  {
  }

  /** The earliest and the latest day of such rows are `first` and `last`. */
  lemma RowsBounds(rows: seq<Row>, dated: seq<Row>, p: string, first: Day, last: Day)
    requires RowsCover(rows, dated, p, first, last)
    ensures MinDay(rows) == first && MaxDay(rows) == last
  {
  }

  /** The filled row of a day from `first` on carries the count up to that day. */
  lemma FillAtDay(rows: seq<Row>, dated: seq<Row>, p: string, first: Day, last: Day, t: Day)
    requires RowsCover(rows, dated, p, first, last) && MinDay(rows) <= t
    ensures FillAt(rows, t) == Row(t, p, CountTo(dated, t))
  {
    var l := Latest(rows, t);
    forall k | 0 <= k < |dated| ensures !(l.pvm < dated[k].pvm <= t) {
      assert HasDay(rows, dated[k].pvm);
      var i :| 0 <= i < |rows| && rows[i].pvm == dated[k].pvm;
    }
    CountToGap(dated, l.pvm, t);
  }

  /** The rows a district's pass hands to resampling: its running totals and
      its `first_last` rows, read as days. */
  lemma PassRows(part: seq<Entry>, p: string, today: string)
    requires part != [] && Readable(today) && FirstDay < DayOf(today)
    requires forall i :: 0 <= i < |part| ==> part[i].shp == p
    requires ToDatetime(part).Ok? && DatedIn(ToDatetime(part).value, p, FirstDay, DayOf(today))
    requires Increasing(ToDatetime(part).value)
    ensures var d := CumSum(part); ToDatetime(d + Anchors(d, today)).Ok?
    ensures var d := CumSum(part);
      SeriesRows(ToDatetime(d + Anchors(d, today)).value, ToDatetime(part).value, p, FirstDay, DayOf(today))
  {
    var d, dated := CumSum(part), ToDatetime(part).value;
    DatedTotals(part, p);
    DatedAnchors(part, p, today);
    ToDatetimeAppend(d, Anchors(d, today));
    JoinedRows(ToDatetime(d).value, ToDatetime(Anchors(d, today)).value, dated, p, FirstDay, DayOf(today));
  }

  /** One row per day from FIRST to today, the row of day t carrying the sum of
      district `p`'s grouped rows dated on or before t. */
  predicate IsDistrictSeries(s: seq<Row>, part: seq<Entry>, p: string, today: string)
    requires Readable(today)
  {
    && |s| == DayOf(today) - FirstDay + 1
    && forall i :: 0 <= i < |s| ==> s[i] == Row(FirstDay + i, p, SumWhere(part, UpTo(p, FirstDay + i)))
  }

  /** Resampling the rows of a pass gives the district's series. */
  lemma ResampledSeries(rows: seq<Row>, part: seq<Entry>, p: string, today: string)
    requires TodayInRange(today) && ToDatetime(part).Ok?
    requires forall x :: x in part ==> x.shp == p && Readable(x.pvm)
    requires SeriesRows(rows, ToDatetime(part).value, p, FirstDay, DayOf(today))
    ensures Resample(rows).Ok? && IsDistrictSeries(Resample(rows).value, part, p, today)
  {
    FilledRows(rows, ToDatetime(part).value, p, FirstDay, DayOf(today));
    SeriesCounts(ForwardFill(rows), part, p, today);
  }

  /** The series of a district whose rows read as increasing days in (FIRST, today]. */
  lemma SeriesOf(part: seq<Entry>, p: string, today: string)
    requires part != [] && TodayInRange(today) && FirstDay < DayOf(today)
    requires forall x :: x in part ==> x.shp == p && Readable(x.pvm)
    requires ToDatetime(part).Ok? && DatedIn(ToDatetime(part).value, p, FirstDay, DayOf(today))
    requires Increasing(ToDatetime(part).value)
    ensures DistrictSeries(part, today).Ok? && IsDistrictSeries(DistrictSeries(part, today).value, part, p, today)
  {
    var d := CumSum(part);
    assert forall i :: 0 <= i < |part| ==> part[i] in part;
    PassRows(part, p, today);
    var rows := ToDatetime(d + Anchors(d, today)).value;
    ResampledSeries(rows, part, p, today);
    assert DistrictSeries(part, today) == Resample(rows);
  }

  /** A well-dated district's series: one row per day from FIRST to today, the
      row of day t counting the district's rows dated on or before t. */
  lemma PartSeries(part: seq<Entry>, p: string, today: string)
    requires GoodPart(part, p, today)
    ensures DistrictSeries(part, today).Ok? && IsDistrictSeries(DistrictSeries(part, today).value, part, p, today)
  {
    DatedPartOf(part, p, today);
    assert part[0] in part;
    SeriesOf(part, p, today);
  }

  /** Counts of the dated rows up to a day are the sums of the grouped rows up to it. */
  lemma SeriesCounts(s: seq<Row>, part: seq<Entry>, p: string, today: string)
    requires Readable(today) && |s| == DayOf(today) - FirstDay + 1
    requires forall x :: x in part ==> x.shp == p && Readable(x.pvm)
    requires ToDatetime(part).Ok? && CountSeries(s, ToDatetime(part).value, p, FirstDay)
    ensures IsDistrictSeries(s, part, p, today)
  {
    forall i | 0 <= i < |s| ensures s[i] == Row(FirstDay + i, p, SumWhere(part, UpTo(p, FirstDay + i))) {
      CountToOf(part, p, FirstDay + i);
    }
  }

  // ---------------------------------------------------------------------------
  // The loop over all districts.

  /** Grouped sums whose dates are all ISO dates in (FIRST, today]. */
  predicate GoodSums(sums: seq<Entry>, today: string)
  {
    && TodayInRange(today)
    && StrictlySorted(sums)
    && forall x :: x in sums ==> Readable(x.pvm) && FirstDay < DayOf(x.pvm) <= DayOf(today)
  }

  lemma PartIsGood(sums: seq<Entry>, today: string, i: int)
    requires GoodSums(sums, today) && 0 <= i < |Districts(sums)|
    ensures GoodPart(Parts(sums)[i], Districts(sums)[i], today)
  {
  }

  /** A row the loop may produce for districts `ds`: one of them, dated in
      [FIRST, last], carrying the district's sum up to its day. */
  predicate RowOk(x: Row, sums: seq<Entry>, ds: seq<string>, last: Day)
  {
    x.shp in ds && FirstDay <= x.pvm <= last && x.n == SumWhere(sums, UpTo(x.shp, x.pvm))
  }

  /** The series of district `p` over the grouped sums: row i is day FIRST + i. */
  predicate SumSeries(s: seq<Row>, sums: seq<Entry>, p: string, last: Day)
  {
    && |s| == last - FirstDay + 1
    && forall i :: 0 <= i < |s| ==> s[i] == Row(FirstDay + i, p, SumWhere(sums, UpTo(p, FirstDay + i)))
  }

  /** What the loop has built for districts `ds`: one row per district and day
      in [FIRST, last], each with its sum, no other rows and no label twice. */
  predicate PanelOf(v: seq<Row>, sums: seq<Entry>, ds: seq<string>, last: Day)
  {
    && |v| == |ds| * (last - FirstDay + 1)
    && UniqueKeys(v)
    && (forall i :: 0 <= i < |v| ==> RowOk(v[i], sums, ds, last))
    && (forall i, t :: 0 <= i < |ds| && FirstDay <= t <= last ==> Row(t, ds[i], SumWhere(sums, UpTo(ds[i], t))) in v)
  }

  /** Appending a new district's series keeps every label unique. */
  lemma AppendUnique(init: seq<Row>, s: seq<Row>, sums: seq<Entry>, ds: seq<string>, p: string, last: Day)
    requires UniqueKeys(init) && (forall i :: 0 <= i < |init| ==> RowOk(init[i], sums, ds, last)) && p !in ds
    requires SumSeries(s, sums, p, last)
    ensures UniqueKeys(init + s)
  {
    var v := init + s;
    forall i, j | 0 <= i < j < |v| ensures v[i].pvm != v[j].pvm || v[i].shp != v[j].shp {
      if j >= |init| {
        assert v[j] == s[j - |init|];
        if i >= |init| {
          assert v[i] == s[i - |init|];
        } else {
          assert v[i] == init[i];
          assert RowOk(init[i], sums, ds, last);
        }
      }
    }
  }

  /** Appending a new district's series keeps every row one the loop may produce. */
  lemma AppendRowsOk(init: seq<Row>, s: seq<Row>, sums: seq<Entry>, ds: seq<string>, p: string, last: Day)
    requires forall i :: 0 <= i < |init| ==> RowOk(init[i], sums, ds, last)
    requires SumSeries(s, sums, p, last)
    ensures var v := init + s; forall i :: 0 <= i < |v| ==> RowOk(v[i], sums, ds + [p], last)
  {
    var v := init + s;
    forall i | 0 <= i < |v| ensures RowOk(v[i], sums, ds + [p], last) {
      if i < |init| {
        assert v[i] == init[i] && RowOk(init[i], sums, ds, last);
      } else {
        assert v[i] == s[i - |init|];
      }
    }
  }

  /** Appending a new district's series leaves every earlier row present and adds the new district's. */
  lemma AppendPresent(init: seq<Row>, s: seq<Row>, sums: seq<Entry>, ds: seq<string>, p: string, last: Day)
    requires forall i, t :: 0 <= i < |ds| && FirstDay <= t <= last ==> Row(t, ds[i], SumWhere(sums, UpTo(ds[i], t))) in init
    requires SumSeries(s, sums, p, last)
    ensures var v, ds' := init + s, ds + [p];
      forall i, t :: 0 <= i < |ds'| && FirstDay <= t <= last ==> Row(t, ds'[i], SumWhere(sums, UpTo(ds'[i], t))) in v
  {
    var v, ds' := init + s, ds + [p];
    forall i, t | 0 <= i < |ds'| && FirstDay <= t <= last
      ensures Row(t, ds'[i], SumWhere(sums, UpTo(ds'[i], t))) in v
    {
      if i < |ds| {
        assert ds'[i] == ds[i];
        assert Row(t, ds[i], SumWhere(sums, UpTo(ds[i], t))) in init;
      } else {
        assert ds'[i] == p;
        assert v[|init| + (t - FirstDay)] == s[t - FirstDay];
      }
    }
  }

  /** One more pass of the loop, on a district not yet seen. */
  lemma PanelOfAppend(init: seq<Row>, s: seq<Row>, sums: seq<Entry>, ds: seq<string>, p: string, last: Day)
    requires PanelOf(init, sums, ds, last) && p !in ds && SumSeries(s, sums, p, last)
    ensures PanelOf(init + s, sums, ds + [p], last)
  {
    var length := last - FirstDay + 1;
    assert (|ds| + 1) * length == |ds| * length + length;
    AppendUnique(init, s, sums, ds, p, last);
    AppendRowsOk(init, s, sums, ds, p, last);
    AppendPresent(init, s, sums, ds, p, last);
  }

  /** A part's series, with its sums read over all grouped rows. */
  lemma PartSeriesSums(sums: seq<Entry>, s: seq<Row>, p: string, today: string)
    requires Readable(today) && IsDistrictSeries(s, Part(sums, p), p, today)
    ensures SumSeries(s, sums, p, DayOf(today))
  {
    forall i | 0 <= i < |s| ensures s[i] == Row(FirstDay + i, p, SumWhere(sums, UpTo(p, FirstDay + i))) {
      PartSum(sums, UpTo(p, FirstDay + i));
    }
  }

  /** Pass k of the loop on well-dated sums succeeds with district k's series. */
  lemma NextSeries(sums: seq<Entry>, today: string, k: nat)
    requires GoodSums(sums, today) && k < |Districts(sums)|
    ensures DistrictSeries(Parts(sums)[k], today).Ok?
    ensures SumSeries(DistrictSeries(Parts(sums)[k], today).value, sums, Districts(sums)[k], DayOf(today))
  {
    PartIsGood(sums, today, k);
    PartSeries(Parts(sums)[k], Districts(sums)[k], today);
    PartSeriesSums(sums, DistrictSeries(Parts(sums)[k], today).value, Districts(sums)[k], today);
  }

  /** A list with no element twice grows by an element it did not hold. */
  lemma DistinctPrefix(ds: seq<string>, k: nat)
    requires forall i, j :: 0 <= i < j < |ds| ==> ds[i] != ds[j]
    requires k < |ds|
    ensures ds[k] !in ds[..k] && ds[..k + 1] == ds[..k] + [ds[k]]
  {
  }

  /** PanelOfAppend, for a result and a district list already known to be the joins. */
  lemma PanelStep(v: seq<Row>, init: seq<Row>, s: seq<Row>, sums: seq<Entry>, ds': seq<string>, ds: seq<string>, p: string, last: Day)
    requires PanelOf(init, sums, ds, last) && p !in ds && SumSeries(s, sums, p, last)
    requires v == init + s && ds' == ds + [p]
    ensures PanelOf(v, sums, ds', last)
  {
    PanelOfAppend(init, s, sums, ds, p, last);
  }

  /** Concatenating passes that each gave their district's series, for
      districts with no name twice, builds the panel of those districts. */
  lemma {:induction false} ConcatSeries(rs: seq<Result<seq<Row>>>, sums: seq<Entry>, ds: seq<string>, last: Day)
    requires |rs| == |ds|
    requires forall i :: 0 <= i < |rs| ==> rs[i].Ok? && SumSeries(rs[i].value, sums, ds[i], last)
    requires forall i, j :: 0 <= i < j < |ds| ==> ds[i] != ds[j]
    ensures Concat(rs).Ok? && PanelOf(Concat(rs).value, sums, ds, last)
    decreases |rs|
  {
    if rs == [] {
      assert PanelOf([], sums, [], last);
    } else {
      var n := |rs| - 1;
      assert forall i :: 0 <= i < n ==> rs[..n][i] == rs[i] && ds[..n][i] == ds[i];
      ConcatSeries(rs[..n], sums, ds[..n], last);
      DistinctPrefix(ds, n);
      assert ds[..n + 1] == ds;
      var init, s := Concat(rs[..n]).value, rs[n].value;
      assert Concat(rs) == Ok(init + s);
      PanelStep(init + s, init, s, sums, ds, ds[..n], ds[n], last);
    }
  }

  /** The whole loop on well-dated sums. */
  lemma CollectGood(sums: seq<Entry>, today: string)
    requires GoodSums(sums, today)
    ensures Collect(Parts(sums), today).Ok?
    ensures PanelOf(Collect(Parts(sums), today).value, sums, Districts(sums), DayOf(today))
  {
    var parts, ds := Parts(sums), Districts(sums);
    var rs := Passes(parts, today);
    forall i | 0 <= i < |rs| ensures rs[i].Ok? && SumSeries(rs[i].value, sums, ds[i], DayOf(today)) {
      NextSeries(sums, today, i);
    }
    ConcatSeries(rs, sums, ds, DayOf(today));
  }

  lemma {:induction false} DistinctCard(s: seq<string>)
    requires forall i, j :: 0 <= i < j < |s| ==> s[i] != s[j]
    ensures |set x | x in s| == |s|
  {
    if s != [] {
      var init := s[..|s| - 1];
      assert s == init + [s[|s| - 1]];
      DistinctCard(init);
      assert (set x | x in s) == (set x | x in init) + {s[|s| - 1]};
      assert s[|s| - 1] !in init;
    }
  }

  // ---------------------------------------------------------------------------
  // The theorems about `make_dataframe`.

  /** For well-dated records the result is a table indexed by (pvm, shp) with no
      label twice: every district seen gets exactly one row for every day from
      FIRST to today, no other rows exist, and the row of day t counts that
      district's records dated on or before t. */
  lemma PanelWellDated(json: seq<Case>, today: string)
    requires WellDated(json, today)
    ensures Panel(json, today).Ok?
    ensures var r := Panel(json, today).value;
      && UniqueKeys(r)
      && |r| == |SeenDistricts(json)| * (DayOf(today) - FirstDay + 1)
      && (forall x :: x in r ==>
            Seen(json, x.shp) && FirstDay <= x.pvm <= DayOf(today) &&
            x.n == CountCases(json, UpTo(x.shp, x.pvm)))
      && (forall p, t :: Seen(json, p) && FirstDay <= t <= DayOf(today) ==>
            Row(t, p, CountCases(json, UpTo(p, t))) in r)
  {
    if json == [] {
      assert SeenDistricts(json) == {};
    } else {
      var sums := Group(Records(json));
      var ds := Districts(sums);
      GroupedDistricts(json);
      GroupedCounts(json);
      GroupedGood(json, today);
      CollectGood(sums, today);
      PanelCounts(Panel(json, today).value, json, sums, ds, DayOf(today));
    }
  }

  /** The districts of the grouped sums are the districts seen, each once. */
  lemma GroupedDistricts(json: seq<Case>)
    ensures var ds := Districts(Group(Records(json)));
      && (forall p :: p in ds <==> Seen(json, p))
      && |SeenDistricts(json)| == |ds|
  {
    var recs := Records(json);
    var sums := Group(recs);
    var ds := Districts(sums);
    forall p ensures p in ds <==> Seen(json, p) {
      if p in ds {
        var x :| x in sums && x.shp == p;
        assert Key(x) in Keys(recs);
        var y :| y in recs && Key(y) == Key(x);
        var i :| 0 <= i < |recs| && recs[i] == y;
      }
      if Seen(json, p) {
        var i :| 0 <= i < |json| && json[i].healthCareDistrict == p;
        assert recs[i] in recs;
        assert Key(recs[i]) in Keys(sums);
      }
    }
    assert SeenDistricts(json) == set x | x in ds;
    DistinctCard(ds);
  }
  /** `make_dataframe` raises only what one district's pass raises: an unreadable
      date, or a date given twice in the series of a district some record names. */
  lemma PanelErrors(json: seq<Case>, today: string)
    ensures Panel(json, today).Err? ==> exists p :: Seen(json, p) && PassError(Panel(json, today).error, p)
  {
    if Panel(json, today).Err? {
      var sums := Group(Records(json));
      var ds, parts := Districts(sums), Parts(sums);
      var rs := Passes(parts, today);
      var i :| 0 <= i < |rs| && rs[i] == Err(Panel(json, today).error);
      assert rs[i] == DistrictSeries(parts[i], today);
      assert parts[i][0] in Part(sums, ds[i]);
      GroupedDistricts(json);
      assert ds[i] in ds;
    }
  }


  /** Sums over the grouped records are counts of the records. */
  lemma GroupedCounts(json: seq<Case>)
    ensures forall p, t :: SumWhere(Group(Records(json)), UpTo(p, t)) == CountCases(json, UpTo(p, t))
  {
    forall p, t ensures SumWhere(Group(Records(json)), UpTo(p, t)) == CountCases(json, UpTo(p, t)) {
      GroupSum(Records(json), UpTo(p, t));
      RecordsCount(json, UpTo(p, t));
    }
  }

  /** Grouping well-dated records gives well-dated sums. */
  lemma GroupedGood(json: seq<Case>, today: string)
    requires WellDated(json, today)
    ensures GoodSums(Group(Records(json)), today)
  {
    var recs := Records(json);
    var sums := Group(recs);
    forall x | x in sums ensures Readable(x.pvm) && FirstDay < DayOf(x.pvm) <= DayOf(today) {
      assert Key(x) in Keys(recs);
      var y :| y in recs && Key(y) == Key(x);
      var i :| 0 <= i < |recs| && recs[i] == y;
    }
  }

  /** The panel of the grouped sums, read back as counts of the records. */
  lemma PanelCounts(r: seq<Row>, json: seq<Case>, sums: seq<Entry>, ds: seq<string>, last: Day)
    requires PanelOf(r, sums, ds, last)
    requires forall p :: p in ds <==> Seen(json, p)
    requires |SeenDistricts(json)| == |ds|
    requires forall p, t :: SumWhere(sums, UpTo(p, t)) == CountCases(json, UpTo(p, t))
    ensures UniqueKeys(r) && |r| == |SeenDistricts(json)| * (last - FirstDay + 1)
    ensures forall x :: x in r ==> Seen(json, x.shp) && FirstDay <= x.pvm <= last && x.n == CountCases(json, UpTo(x.shp, x.pvm))
    ensures forall p, t :: Seen(json, p) && FirstDay <= t <= last ==> Row(t, p, CountCases(json, UpTo(p, t))) in r
  {
    forall x | x in r ensures Seen(json, x.shp) && FirstDay <= x.pvm <= last && x.n == CountCases(json, UpTo(x.shp, x.pvm)) {
      var i :| 0 <= i < |r| && r[i] == x;
      assert RowOk(r[i], sums, ds, last);
    }
    forall p, t | Seen(json, p) && FirstDay <= t <= last ensures Row(t, p, CountCases(json, UpTo(p, t))) in r {
      var i :| 0 <= i < |ds| && ds[i] == p;
    }
  }

  /** Each district's count never decreases from one day to a later one. */
  lemma {:induction false} CountUpToMonotone(json: seq<Case>, p: string, a: Day, b: Day)
    requires a <= b
    ensures CountCases(json, UpTo(p, a)) <= CountCases(json, UpTo(p, b))
  {
    if json != [] {
      CountUpToMonotone(json[1..], p, a, b);
    }
  }

  /** Up to FIRST no well-dated record counts; up to today every one does. */
  lemma {:induction false} CountUpToBounds(json: seq<Case>, p: string, today: string)
    requires WellDated(json, today)
    ensures CountCases(json, UpTo(p, FirstDay)) == 0
    ensures CountCases(json, UpTo(p, DayOf(today))) == CountCases(json, InDistrict(p))
  {
    if json != [] {
      assert WellDated(json[1..], today) by {
        forall i | 0 <= i < |json[1..]| ensures Readable(DateKey(json[1..][i])) {
          assert json[1..][i] == json[i + 1];
        }
      }
      CountUpToBounds(json[1..], p, today);
    }
  }

  /** The cumulative series is non-decreasing within every district. */
  lemma PanelNonDecreasing(json: seq<Case>, today: string, x: Row, y: Row)
    requires WellDated(json, today) && Panel(json, today).Ok?
    requires x in Panel(json, today).value && y in Panel(json, today).value
    requires x.shp == y.shp && x.pvm <= y.pvm
    ensures x.n <= y.n
  {
    PanelWellDated(json, today);
    CountUpToMonotone(json, x.shp, x.pvm, y.pvm);
  }

  /** The row on FIRST is 0 and the row on today is the district's total count,
      whether or not today had records. */
  lemma PanelEnds(json: seq<Case>, today: string, x: Row)
    requires WellDated(json, today) && Panel(json, today).Ok? && x in Panel(json, today).value
    ensures x.pvm == FirstDay ==> x.n == 0
    ensures x.pvm == DayOf(today) ==> x.n == CountCases(json, InDistrict(x.shp))
    ensures x.n <= CountCases(json, InDistrict(x.shp))
  {
    PanelWellDated(json, today);
    CountUpToBounds(json, x.shp, today);
    CountUpToMonotone(json, x.shp, x.pvm, DayOf(today));
  }

  // ---------------------------------------------------------------------------
  // A record dated FIRST.

  /** A pass fails when the grouped rows already have a row on FIRST: the
      `first_last` anchor repeats that date, and resampling refuses it. */
  lemma FirstDatedPassFails(part: seq<Entry>, today: string, k: nat)
    requires k < |part| && part[k].pvm == FIRST
    ensures DistrictSeries(part, today).Err?
  {
    var d := CumSum(part);
    var e := d + Anchors(d, today);
    if ToDatetime(e).Ok? {
      assert AllReadable(e);
      ToDatetimeValue(e);
      var rows := ToDatetime(e).value;
      assert e[k] == d[k] && e[|d|] == Anchors(d, today)[0];
      assert rows[k].pvm == rows[|d|].pvm;
      assert !DistinctDays(rows);
    }
  }

  /** One failing pass makes the whole loop fail. */
  lemma {:induction false} ConcatFails(rs: seq<Result<seq<Row>>>, j: nat)
    requires j < |rs| && rs[j].Err?
    ensures Concat(rs).Err?
    decreases |rs|
  {
    var n := |rs| - 1;
    if j < n {
      assert rs[..n][j] == rs[j];
      ConcatFails(rs[..n], j);
    }
  }

  /** Every record's (date key, district) is the key of a grouped row. */
  lemma GroupedEntryOf(json: seq<Case>, i: nat)
    requires i < |json|
    ensures exists x :: x in Group(Records(json)) && x.pvm == DateKey(json[i]) && x.shp == json[i].healthCareDistrict
  {
    var recs := Records(json);
    assert recs[i] in recs;
    assert Key(recs[i]) in Keys(Group(recs));
    var x :| x in Group(recs) && Key(x) == Key(recs[i]);
  }

  /** A pass whose today is the last day a Timestamp holds fails: today is a
      day of its rows, either as a record's date or as the anchor, and the bin
      edge after it overflows (unless reading the dates fails first). */
  lemma PassLastDayFails(part: seq<Entry>, today: string)
    requires part != [] && Readable(today) && DayOf(today) == MaxTimestampDay
    ensures DistrictSeries(part, today).Err?
  {
    var d := CumSum(part);
    var a := Anchors(d, today);
    var e := d + a;
    if ToDatetime(e).Ok? {
      var rows := ToDatetime(e).value;
      if exists i :: 0 <= i < |d| && d[i].pvm == today {
        var i :| 0 <= i < |d| && d[i].pvm == today;
        assert e[i] == d[i];
        assert rows[i].pvm == DayOf(today);
      } else {
        assert e[|d| + 1] == a[1];
        assert rows[|d| + 1].pvm == DayOf(today);
      }
      assert DistrictSeries(part, today) == Resample(rows);
    }
  }

  /** With today the last day a Timestamp holds, `make_dataframe` raises on any
      record list with a record. */
  lemma PanelLastDay(json: seq<Case>, today: string)
    requires json != [] && Readable(today) && DayOf(today) == MaxTimestampDay
    ensures Panel(json, today).Err?
  {
    var recs := Records(json);
    var sums := Group(recs);
    assert recs[0] in recs && Key(recs[0]) in Keys(sums);
    var x :| x in sums && Key(x) == Key(recs[0]);
    var parts := Parts(sums);
    assert x.shp in Districts(sums);
    PassLastDayFails(parts[0], today);
    ConcatFails(Passes(parts, today), 0);
  }

  /** A record dated exactly FIRST makes `make_dataframe` raise: its district's
      grouped rows and its anchor share that date. */
  lemma PanelFirstDated(json: seq<Case>, today: string, i: nat)
    requires i < |json| && DateKey(json[i]) == FIRST
    ensures Panel(json, today).Err?
  {
    var sums := Group(Records(json));
    var p := json[i].healthCareDistrict;
    GroupedEntryOf(json, i);
    var x :| x in sums && x.pvm == FIRST && x.shp == p;
    var ds, parts := Districts(sums), Parts(sums);
    assert p in ds;
    var j :| 0 <= j < |ds| && ds[j] == p;
    assert x in parts[j];
    var k :| 0 <= k < |parts[j]| && parts[j][k] == x;
    FirstDatedPassFails(parts[j], today, k);
    ConcatFails(Passes(parts, today), j);
  }

  // ---------------------------------------------------------------------------
  // The shape of every result, well-dated or not.

  /** Rows of one district with no day twice. */
  predicate SeriesOfDistrict(s: seq<Row>, p: string)
  {
    DistinctDays(s) && forall i :: 0 <= i < |s| ==> s[i].shp == p
  }

  /** Filling rows of one district gives rows of that district, one per day. */
  lemma FilledShape(rows: seq<Row>, p: string)
    requires rows != [] && forall i :: 0 <= i < |rows| ==> rows[i].shp == p
    ensures SeriesOfDistrict(ForwardFill(rows), p)
  {
    var s, lo := ForwardFill(rows), MinDay(rows);
    forall i | 0 <= i < |s| ensures s[i].pvm == lo + i && s[i].shp == p {
      var j := LatestIndex(rows, lo + i, |rows|);
      assert s[i] == Row(lo + i, rows[j].shp, rows[j].n);
    }
  }

  /** Running totals of one district, with their anchors, are rows of that district. */
  lemma AnchoredShape(d: seq<Entry>, today: string, p: string)
    requires d != [] && forall i :: 0 <= i < |d| ==> d[i].shp == p
    ensures var e := d + Anchors(d, today); forall i :: 0 <= i < |e| ==> e[i].shp == p
  {
    var a, e := Anchors(d, today), d + Anchors(d, today);
    forall i | 0 <= i < |e| ensures e[i].shp == p {
      if i < |d| { assert e[i] == d[i]; } else { assert e[i] == a[i - |d|]; }
    }
  }

  /** A pass that succeeds on one district's rows gives a series of that district. */
  lemma PassShape(part: seq<Entry>, p: string, today: string)
    requires part != [] && (forall i :: 0 <= i < |part| ==> part[i].shp == p)
    requires DistrictSeries(part, today).Ok?
    ensures SeriesOfDistrict(DistrictSeries(part, today).value, p)
  {
    var d := CumSum(part);
    var e := d + Anchors(d, today);
    assert ToDatetime(e).Ok?;
    var rows := ToDatetime(e).value;
    assert DistrictSeries(part, today) == Resample(rows);
    AnchoredShape(d, today, p);
    assert forall i :: 0 <= i < |rows| ==> rows[i].shp == e[i].shp;
    FilledShape(rows, p);
  }

  /** A loop that succeeds had every pass succeed. */
  lemma ConcatOk(rs: seq<Result<seq<Row>>>, j: nat)
    requires j < |rs| && Concat(rs).Ok?
    ensures rs[j].Ok?
  {
    if rs[j].Err? {
      ConcatFails(rs, j);
    }
  }

  /** Concatenated series of distinct districts have no label twice, and each
      row belongs to one of the districts. */
  lemma {:induction false} ConcatUnique(rs: seq<Result<seq<Row>>>, ds: seq<string>)
    requires |rs| == |ds| && Concat(rs).Ok?
    requires forall i :: 0 <= i < |rs| ==> rs[i].Ok? && SeriesOfDistrict(rs[i].value, ds[i])
    requires forall i, j :: 0 <= i < j < |ds| ==> ds[i] != ds[j]
    ensures UniqueKeys(Concat(rs).value)
    ensures forall i :: 0 <= i < |Concat(rs).value| ==> Concat(rs).value[i].shp in ds
    decreases |rs|
  {
    if rs != [] {
      var n := |rs| - 1;
      assert forall i :: 0 <= i < n ==> rs[..n][i] == rs[i] && ds[..n][i] == ds[i];
      ConcatUnique(rs[..n], ds[..n]);
      DistinctPrefix(ds, n);
      var init, s := Concat(rs[..n]).value, rs[n].value;
      assert Concat(rs) == Ok(init + s);
      JoinUnique(init, s, ds[..n], ds[n]);
    }
  }

  /** Appending one new district's series to rows of other districts. */
  lemma JoinUnique(init: seq<Row>, s: seq<Row>, ds: seq<string>, p: string)
    requires UniqueKeys(init) && (forall i :: 0 <= i < |init| ==> init[i].shp in ds) && p !in ds
    requires SeriesOfDistrict(s, p)
    ensures UniqueKeys(init + s)
    ensures var v := init + s; forall i :: 0 <= i < |v| ==> v[i].shp in ds + [p]
  {
    var v := init + s;
    forall i, j | 0 <= i < j < |v| ensures v[i].pvm != v[j].pvm || v[i].shp != v[j].shp {
      if j >= |init| {
        assert v[j] == s[j - |init|];
        if i >= |init| { assert v[i] == s[i - |init|]; } else { assert v[i] == init[i]; }
      }
    }
    forall i | 0 <= i < |v| ensures v[i].shp in ds + [p] {
      if i < |init| { assert v[i] == init[i]; } else { assert v[i] == s[i - |init|]; }
    }
  }

  /** Whenever `make_dataframe` returns, no (pvm, shp) label occurs twice and
      every row's district is one some record names. */
  lemma PanelShape(json: seq<Case>, today: string)
    requires Panel(json, today).Ok?
    ensures UniqueKeys(Panel(json, today).value)
    ensures forall x :: x in Panel(json, today).value ==> Seen(json, x.shp)
  {
    if json != [] {
      var sums := Group(Records(json));
      var ds, parts := Districts(sums), Parts(sums);
      var rs := Passes(parts, today);
      forall i | 0 <= i < |rs| ensures rs[i].Ok? && SeriesOfDistrict(rs[i].value, ds[i]) {
        ConcatOk(rs, i);
        PartOfDistrict(sums, ds[i]);
        PassShape(parts[i], ds[i], today);
      }
      ConcatUnique(rs, ds);
      GroupedDistricts(json);
      var r := Panel(json, today).value;
      forall x | x in r ensures Seen(json, x.shp) {
        var i :| 0 <= i < |r| && r[i] == x;
      }
    }
  }

  /** Every row of a district's part is of that district. */
  lemma PartOfDistrict(sums: seq<Entry>, p: string)
    ensures forall i :: 0 <= i < |Part(sums, p)| ==> Part(sums, p)[i].shp == p
  {
    var part := Part(sums, p);
    forall i | 0 <= i < |part| ensures part[i].shp == p {
      assert part[i] in part;
    }
  }
}
