/** `make_dataframe` (app.py and wsgi.py hold the same code): from the case
    records of the data source to one dense daily cumulative series per
    health-care district, indexed by (pvm, shp). */
module Dataframe {
  import opened Text
  import opened Calendar

  /** A case record of the data source: its `date` timestamp and its `healthCareDistrict`. */
  datatype Case = Case(date: string, healthCareDistrict: string)

  /** A row whose date `pvm` is still text; `shp` is the district and `n` the count. */
  datatype Entry = Entry(pvm: string, shp: string, n: nat)

  /** A row whose date has been read as a day. */
  datatype Row = Row(pvm: Day, shp: string, n: nat)

  /** The exceptions pandas raises inside `make_dataframe`, and those the
      combination step raises when a column it names is missing. */
  datatype Error =
    | MalformedDate(text: string)    // `pd.to_datetime` cannot read a date text
    | OutOfBoundsDate(text: string)  // a date outside the range of a nanosecond Timestamp
    | DuplicateDate(shp: string)     // a district's series has some date twice, so it cannot be resampled
    | OutOfBoundsBin(shp: string)    // a district's last day is the last Timestamp day, so the bin edge after it overflows
    | MissingColumns                 // `drop(columns=['pvm', 'shp'])` names columns the frame lacks
    | MissingDateColumn              // `total['pvm']` on a frame with no `pvm` column

  datatype Result<T> = Ok(value: T) | Err(error: Error) {
    predicate IsFailure() { Err? }
    function PropagateFailure<U>(): Result<U> requires Err? { Err(error) }
    function Extract(): T requires Ok? { value }
  }

  /** The anchor date: every series is given a zero row on it. */
  const FIRST: string := "2020-01-28"

  // ---------------------------------------------------------------------------
  // Step 1: the record list comprehension.

  /** The date part of a record's timestamp: `case['date'].split('T')[0]`. */
  function DateKey(c: Case): string
  {
    SplitHead(c.date, 'T')
  }

  /** `cases`: one (pvm, shp, 1) row per record, in the records' order; each
      date text is cut before its first `'T'` and has none left. */
  function Records(json: seq<Case>): (r: seq<Entry>)
    ensures |r| == |json|
    ensures forall i :: 0 <= i < |r| ==>
      && r[i].n == 1 && r[i].shp == json[i].healthCareDistrict
      && r[i].pvm <= json[i].date && 'T' !in r[i].pvm
      && (|r[i].pvm| < |json[i].date| ==> json[i].date[|r[i].pvm|] == 'T')
  {
    seq(|json|, i requires 0 <= i < |json| => Entry(DateKey(json[i]), json[i].healthCareDistrict, 1))
  }

  /** Which rows a sum takes in: one (date text, district) key, one district's
      rows dated on or before a day, or all of one district's rows. */
  datatype Query = KeyIs(date: string, district: string) | UpTo(district: string, day: Day) | InDistrict(district: string)
  {
    function District(): string
    {
      match this
      case KeyIs(_, p) => p
      case UpTo(p, _) => p
      case InDistrict(p) => p
    }
  }

  predicate Matches(q: Query, pvm: string, shp: string)
  {
    match q
    case KeyIs(date, p) => pvm == date && shp == p
    case UpTo(p, t) => shp == p && IsIsoDate(pvm) && DayOf(pvm) <= t
    case InDistrict(p) => shp == p
  }

  /** How many case records a query takes in, each judged by its date key and district. */
  function CountCases(json: seq<Case>, q: Query): nat
  {
    if json == [] then 0
    else (if Matches(q, DateKey(json[0]), json[0].healthCareDistrict) then 1 else 0) + CountCases(json[1..], q)
  }

  /** The sum of `n` over the rows a query takes in. */
  function SumWhere(s: seq<Entry>, q: Query): nat
  {
    if s == [] then 0 else (if Matches(q, s[0].pvm, s[0].shp) then s[0].n else 0) + SumWhere(s[1..], q)
  }

  lemma {:induction false} SumWhereAppend(a: seq<Entry>, b: seq<Entry>, q: Query)
    ensures SumWhere(a + b, q) == SumWhere(a, q) + SumWhere(b, q)
  {
    if a == [] {
      assert a + b == b;
    } else {
      assert (a + b)[0] == a[0] && (a + b)[1..] == a[1..] + b;
      SumWhereAppend(a[1..], b, q);
    }
  }

  /** Each record contributes exactly 1 to every sum that takes it in. */
  lemma {:induction false} RecordsCount(json: seq<Case>, q: Query)
    ensures SumWhere(Records(json), q) == CountCases(json, q)
  {
    if json != [] {
      assert Records(json)[1..] == Records(json[1..]);
      RecordsCount(json[1..], q);
    }
  }

  // ---------------------------------------------------------------------------
  // Step 2: `groupby(['pvm', 'shp']).n.sum()` then `sort_values(by=['shp', 'pvm'])`.

  function Key(x: Entry): (string, string)
  {
    (x.pvm, x.shp)
  }

  function Keys(s: seq<Entry>): set<(string, string)>
  {
    set x | x in s :: Key(x)
  }

  /** The order of `sort_values(by=['shp', 'pvm'])` on keys (pvm, shp). */
  predicate KeyLess(a: (string, string), b: (string, string))
  {
    Less(a.1, b.1) || (a.1 == b.1 && Less(a.0, b.0))
  }

  /** Sorted by (shp, pvm) with no key twice. */
  predicate StrictlySorted(s: seq<Entry>)
  {
    forall i, j :: 0 <= i < j < |s| ==> KeyLess(Key(s[i]), Key(s[j]))
  }

  lemma KeyLessTransitive(a: (string, string), b: (string, string), c: (string, string))
    requires KeyLess(a, b) && KeyLess(b, c)
    ensures KeyLess(a, c)
  {
    if Less(a.1, b.1) && Less(b.1, c.1) {
      LessTransitive(a.1, b.1, c.1);
    } else if !Less(a.1, b.1) && !Less(b.1, c.1) {
      LessTransitive(a.0, b.0, c.0);
    }
  }

  lemma KeyLessTotal(a: (string, string), b: (string, string))
    ensures a != b <==> (KeyLess(a, b) || KeyLess(b, a))
    ensures !(KeyLess(a, b) && KeyLess(b, a))
  {
    LessTotal(a.0, b.0);
    LessTotal(a.1, b.1);
  }

  lemma SortedTail(s: seq<Entry>)
    requires StrictlySorted(s) && s != []
    ensures StrictlySorted(s[1..])
    ensures forall k :: k in Keys(s[1..]) ==> KeyLess(Key(s[0]), k)
  {
    forall i, j | 0 <= i < j < |s[1..]| ensures KeyLess(Key(s[1..][i]), Key(s[1..][j])) {
      assert s[1..][i] == s[i + 1] && s[1..][j] == s[j + 1];
    }
    forall k | k in Keys(s[1..]) ensures KeyLess(Key(s[0]), k) {
      var y :| y in s[1..] && Key(y) == k;
      var j :| 0 <= j < |s[1..]| && s[1..][j] == y;
      assert s[j + 1] == y;
    }
  }

  lemma SortedCons(x: Entry, t: seq<Entry>)
    requires StrictlySorted(t)
    requires forall k :: k in Keys(t) ==> KeyLess(Key(x), k)
    ensures StrictlySorted([x] + t)
    ensures Keys([x] + t) == {Key(x)} + Keys(t)
  {
    var r := [x] + t;
    forall i, j | 0 <= i < j < |r| ensures KeyLess(Key(r[i]), Key(r[j])) {
      assert r[j] == t[j - 1];
      assert Key(t[j - 1]) in Keys(t);
      if i > 0 { assert r[i] == t[i - 1]; }
    }
    assert forall y :: y in r <==> y == x || y in t;
  }

  /** Adds one row to the grouped sums: onto the row of its key, or as a new row
      at its place in the (shp, pvm) order. */
  function Tally(s: seq<Entry>, e: Entry): (r: seq<Entry>)
    requires StrictlySorted(s)
    ensures StrictlySorted(r)
    ensures Keys(r) == Keys(s) + {Key(e)}
    ensures e.n > 0 && (forall x :: x in s ==> x.n > 0) ==> forall x :: x in r ==> x.n > 0
  {
    if s == [] then
      assert Keys([e]) == {Key(e)} by { assert forall x :: x in [e] <==> x == e; }
      [e]
    else
      assert s == [s[0]] + s[1..];
      SortedTail(s);
      SortedCons(s[0], s[1..]);
      if KeyLess(Key(e), Key(s[0])) then
        forall k | k in Keys(s) ensures KeyLess(Key(e), k) {
          if k != Key(s[0]) { KeyLessTransitive(Key(e), Key(s[0]), k); }
        }
        SortedCons(e, s);
        [e] + s
      else if Key(e) == Key(s[0]) then
        var head := s[0].(n := s[0].n + e.n);
        SortedCons(head, s[1..]);
        [head] + s[1..]
      else
        KeyLessTotal(Key(e), Key(s[0]));
        var t := Tally(s[1..], e);
        SortedCons(s[0], t);
        assert forall x :: x in [s[0]] + t <==> x == s[0] || x in t;
        [s[0]] + t
  }

  /** Tallying a row adds its count to every sum that takes it in. */
  lemma {:induction false} TallySum(s: seq<Entry>, e: Entry, q: Query)
    requires StrictlySorted(s)
    ensures SumWhere(Tally(s, e), q) == SumWhere(s, q) + (if Matches(q, e.pvm, e.shp) then e.n else 0)
  {
    if s == [] {
    } else if KeyLess(Key(e), Key(s[0])) {
      assert ([e] + s)[1..] == s;
    } else if Key(e) == Key(s[0]) {
      var r := [s[0].(n := s[0].n + e.n)] + s[1..];
      assert r[1..] == s[1..];
    } else {
      TallySum(s[1..], e, q);
      assert ([s[0]] + Tally(s[1..], e))[1..] == Tally(s[1..], e);
    }
  }

  /** `sums`: one row per (pvm, shp) key of the records, sorted by (shp, pvm). */
  function Group(recs: seq<Entry>): (r: seq<Entry>)
    ensures StrictlySorted(r)
    ensures Keys(r) == Keys(recs)
    ensures (forall x :: x in recs ==> x.n > 0) ==> forall x :: x in r ==> x.n > 0
  {
    if recs == [] then []
    else
      var init := recs[..|recs| - 1];
      assert recs == init + [recs[|recs| - 1]];
      assert Keys(recs) == Keys(init) + {Key(recs[|recs| - 1])} by {
        assert forall x :: x in recs <==> x in init || x == recs[|recs| - 1];
      }
      Tally(Group(init), recs[|recs| - 1])
  }

  /** Grouping keeps every sum: each group's count is the sum of its records. */
  lemma {:induction false} GroupSum(recs: seq<Entry>, q: Query)
    ensures SumWhere(Group(recs), q) == SumWhere(recs, q)
  {
    if recs != [] {
      var init := recs[..|recs| - 1];
      assert recs == init + [recs[|recs| - 1]];
      GroupSum(init, q);
      TallySum(Group(init), recs[|recs| - 1], q);
      SumWhereAppend(init, [recs[|recs| - 1]], q);
    }
  }

  /** In rows with no key twice, the sum over one key is that key's row. */
  lemma {:induction false} SortedKeySum(s: seq<Entry>, x: Entry)
    requires StrictlySorted(s) && x in s
    ensures SumWhere(s, KeyIs(x.pvm, x.shp)) == x.n
  {
    if s[0] == x {
      NoMatchSum(s[1..], KeyIs(x.pvm, x.shp)) by {
        forall y | y in s[1..] ensures !Matches(KeyIs(x.pvm, x.shp), y.pvm, y.shp) {
          var j :| 0 <= j < |s[1..]| && s[1..][j] == y;
          assert KeyLess(Key(s[0]), Key(s[j + 1]));
          KeyLessTotal(Key(s[0]), Key(y));
        }
      }
    } else {
      assert StrictlySorted(s[1..]) by {
        forall i, j | 0 <= i < j < |s[1..]| ensures KeyLess(Key(s[1..][i]), Key(s[1..][j])) {
          assert s[1..][i] == s[i + 1] && s[1..][j] == s[j + 1];
        }
      }
      SortedKeySum(s[1..], x);
      assert !Matches(KeyIs(x.pvm, x.shp), s[0].pvm, s[0].shp) by {
        var j :| 0 <= j < |s| && s[j] == x;
        assert KeyLess(Key(s[0]), Key(s[j]));
        KeyLessTotal(Key(s[0]), Key(x));
      }
    }
  }

  lemma {:induction false} NoMatchSum(s: seq<Entry>, q: Query)
    requires forall y :: y in s ==> !Matches(q, y.pvm, y.shp)
    ensures SumWhere(s, q) == 0
  {
    if s != [] {
      NoMatchSum(s[1..], q);
    }
  }

  /** Each grouped row counts the records with its date key and district. */
  lemma GroupCounts(json: seq<Case>)
    ensures forall x :: x in Group(Records(json)) ==> x.n == CountCases(json, KeyIs(x.pvm, x.shp))
  {
    var recs := Records(json);
    forall x | x in Group(recs) ensures x.n == CountCases(json, KeyIs(x.pvm, x.shp)) {
      SortedKeySum(Group(recs), x);
      GroupSum(recs, KeyIs(x.pvm, x.shp));
      RecordsCount(json, KeyIs(x.pvm, x.shp));
    }
  }

  // ---------------------------------------------------------------------------
  // Step 3: `parts = [sums[sums.shp == p] for p in sums.shp.unique()]`.

  /** `sums.shp.unique()`: the districts, each once, in order of first appearance. */
  function Districts(s: seq<Entry>): (r: seq<string>)
    ensures forall p :: p in r <==> exists x :: x in s && x.shp == p
    ensures forall i, j :: 0 <= i < j < |r| ==> r[i] != r[j]
  {
    if s == [] then []
    else
      var init := s[..|s| - 1];
      assert s == init + [s[|s| - 1]];
      assert forall x :: x in s <==> x in init || x == s[|s| - 1];
      var r := Districts(init);
      if s[|s| - 1].shp in r then r else r + [s[|s| - 1].shp]
  }

  /** Some row before position `k` is of district `p`. */
  predicate SeenBefore(s: seq<Entry>, p: string, k: int)
  {
    exists k' :: 0 <= k' < k && k' < |s| && s[k'].shp == p
  }

  /** The districts come in the order they first appear: every row of a later
      district has a row of each earlier district before it. */
  lemma DistrictsInOrder(s: seq<Entry>)
    ensures var r := Districts(s);
      forall i, j, k :: 0 <= i < j < |r| && 0 <= k < |s| && s[k].shp == r[j] ==> SeenBefore(s, r[i], k)
  {
    var r := Districts(s);
    forall i, j, k | 0 <= i < j < |r| && 0 <= k < |s| && s[k].shp == r[j] ensures SeenBefore(s, r[i], k) {
      DistrictBefore(s, i, j, k);
    }
  }

  lemma {:induction false} DistrictBefore(s: seq<Entry>, i: int, j: int, k: int)
    requires 0 <= i < j < |Districts(s)| && 0 <= k < |s| && s[k].shp == Districts(s)[j]
    ensures SeenBefore(s, Districts(s)[i], k)
  {
    var init, last := s[..|s| - 1], s[|s| - 1];
    var r0, r := Districts(init), Districts(s);
    assert r == if last.shp in r0 then r0 else r0 + [last.shp];
    assert r[i] == r0[i] && r[i] in r0;
    if j < |r0| {
      assert r[j] == r0[j] && r0[j] in r0;
      var k0 := k;
      if k == |init| {
        var x :| x in init && x.shp == r0[j];
        k0 :| 0 <= k0 < |init| && init[k0] == x;
      } else {
        assert s[k] == init[k];
      }
      DistrictBefore(init, i, j, k0);
      var k' :| 0 <= k' < k0 && k' < |init| && init[k'].shp == r0[i];
      assert s[k'] == init[k'];
    } else {
      var x :| x in init && x.shp == r0[i];
      var k' :| 0 <= k' < |init| && init[k'] == x;
      assert s[k'] == init[k'];
    }
  }

  /** `sums[sums.shp == p]`: the rows of district `p`, in their order. */
  function Part(s: seq<Entry>, p: string): (r: seq<Entry>)
    ensures forall x :: x in r <==> x in s && x.shp == p
    ensures StrictlySorted(s) ==> StrictlySorted(r)
  {
    if s == [] then []
    else
      var rest := Part(s[1..], p);
      var r := (if s[0].shp == p then [s[0]] else []) + rest;
      assert StrictlySorted(s) ==> StrictlySorted(r) by {
        if StrictlySorted(s) {
          assert StrictlySorted(s[1..]) by {
            forall i, j | 0 <= i < j < |s[1..]| ensures KeyLess(Key(s[1..][i]), Key(s[1..][j])) {
              assert s[1..][i] == s[i + 1] && s[1..][j] == s[j + 1];
            }
          }
          if s[0].shp == p {
            forall i, j | 0 <= i < j < |r| ensures KeyLess(Key(r[i]), Key(r[j])) {
              if i == 0 {
                assert r[j] in s[1..];
                var k :| 0 <= k < |s[1..]| && s[1..][k] == r[j];
                assert s[k + 1] == r[j];
              } else {
                assert r[i] == rest[i - 1] && r[j] == rest[j - 1];
              }
            }
          } else {
            assert r == rest;
          }
        }
      }
      r
  }

  /** A sum over one district's rows is the same over its part as over all rows. */
  lemma {:induction false} PartSum(s: seq<Entry>, q: Query)
    ensures SumWhere(Part(s, q.District()), q) == SumWhere(s, q)
  {
    if s != [] {
      PartSum(s[1..], q);
      var p := q.District();
      var head := if s[0].shp == p then [s[0]] else [];
      SumWhereAppend(head, Part(s[1..], p), q);
    }
  }

  function Parts(s: seq<Entry>): (r: seq<seq<Entry>>)
    ensures |r| == |Districts(s)|
    ensures forall i :: 0 <= i < |r| ==> r[i] == Part(s, Districts(s)[i]) && r[i] != []
  {
    var ds := Districts(s);
    var r := seq(|ds|, i requires 0 <= i < |ds| => Part(s, ds[i]));
    assert forall i :: 0 <= i < |ds| ==> r[i] != [] by {
      forall i | 0 <= i < |ds| ensures r[i] != [] {
        assert ds[i] in ds;
        var x :| x in s && x.shp == ds[i];
        assert x in r[i];
      }
    }
    r
  }

  // ---------------------------------------------------------------------------
  // Step 4: inside the loop over the parts.

  /** The sum of `n` over the rows. */
  function Total(s: seq<Entry>): nat
  {
    if s == [] then 0 else Total(s[..|s| - 1]) + s[|s| - 1].n
  }

  /** `d.loc[:, 'n'] = p.n.cumsum()`: each row's count replaced by the running total. */
  function CumSum(s: seq<Entry>): (r: seq<Entry>)
    ensures |r| == |s|
    ensures forall i :: 0 <= i < |r| ==> r[i].pvm == s[i].pvm && r[i].shp == s[i].shp
    ensures r != [] ==> r[0].n == s[0].n
    ensures forall i :: 0 <= i < |r| ==> r[i].n >= s[i].n
  {
    assert s != [] ==> s[..1][..0] == [] && Total(s[..1]) == s[0].n;
    seq(|s|, i requires 0 <= i < |s| => s[i].(n := Total(s[..i + 1])))
  }
  /** Each running total adds its row's count to the one before it. */
  lemma CumSumStep(s: seq<Entry>, i: int)
    requires 0 < i < |s|
    ensures CumSum(s)[i].n == CumSum(s)[i - 1].n + s[i].n
  {
    assert s[..i + 1][..i] == s[..i];
  }


  /** `first_last`: the zero row on FIRST and, when `today` has no row, a row on
      `today` carrying the last running total `d.iat[-1, 2]`. */
  function Anchors(d: seq<Entry>, today: string): (r: seq<Entry>)
    requires d != []
    ensures 1 <= |r| <= 2 && r[0] == Entry(FIRST, d[0].shp, 0)
    ensures |r| == 2 <==> forall i :: 0 <= i < |d| ==> d[i].pvm != today
    ensures |r| == 2 ==> r[1] == Entry(today, d[0].shp, d[|d| - 1].n)
  {
    if exists i :: 0 <= i < |d| && d[i].pvm == today then [Entry(FIRST, d[0].shp, 0)]
    else [Entry(FIRST, d[0].shp, 0), Entry(today, d[0].shp, d[|d| - 1].n)]
  }

  /** The first and the last day a pandas Timestamp (64-bit nanoseconds from
      1970-01-01) holds at midnight: 1677-09-22 and 2262-04-11. */
  const MinTimestampDay: Day := DayNumber(1677, 9, 22)
  const MaxTimestampDay: Day := DayNumber(2262, 4, 11)

  /** A date text `pd.to_datetime` reads: an ISO date within the Timestamp range. */
  predicate Readable(s: string)
  {
    IsIsoDate(s) && MinTimestampDay <= DayOf(s) <= MaxTimestampDay
  }

  /** Every date text of the rows is readable. */
  predicate AllReadable(d: seq<Entry>)
  {
    forall i :: 0 <= i < |d| ==> Readable(d[i].pvm)
  }

  /** What `pd.to_datetime` raises on a text it cannot read. */
  function ReadError(s: string): Error
  {
    if IsIsoDate(s) then OutOfBoundsDate(s) else MalformedDate(s)
  }

  /** The first position from `k` on whose date text cannot be read. */
  function FirstUnreadable(d: seq<Entry>, k: nat): (i: nat)
    requires k <= |d| && exists j :: k <= j < |d| && !Readable(d[j].pvm)
    ensures k <= i < |d| && !Readable(d[i].pvm)
    ensures forall j :: k <= j < i ==> Readable(d[j].pvm)
    decreases |d| - k
  {
    if !Readable(d[k].pvm) then k else FirstUnreadable(d, k + 1)
  }

  /** `d.loc[:, 'pvm'] = pd.to_datetime(d['pvm'])`: every date text read as the
      day it names, row by row; or the error for the first text that cannot be
      read, malformed or outside the Timestamp range. */
  function ToDatetime(d: seq<Entry>): (r: Result<seq<Row>>)
    ensures r.Ok? <==> AllReadable(d)
    ensures r.Ok? ==> |r.value| == |d| && forall i :: 0 <= i < |d| ==> r.value[i] == Row(DayOf(d[i].pvm), d[i].shp, d[i].n)
    ensures r.Err? ==> exists i :: 0 <= i < |d| && r.error == ReadError(d[i].pvm) && !Readable(d[i].pvm)
                          && forall j :: 0 <= j < i ==> Readable(d[j].pvm)
  {
    if AllReadable(d) then Ok(seq(|d|, i requires 0 <= i < |d| && IsIsoDate(d[i].pvm) => Row(DayOf(d[i].pvm), d[i].shp, d[i].n)))
    else
      var k := FirstUnreadable(d, 0);
      Err(ReadError(d[k].pvm))
  }

  predicate DistinctDays(rows: seq<Row>)
  {
    forall i, j :: 0 <= i < j < |rows| ==> rows[i].pvm != rows[j].pvm
  }

  function MinDay(rows: seq<Row>): (m: Day)
    requires rows != []
    ensures exists i :: 0 <= i < |rows| && rows[i].pvm == m
    ensures forall i :: 0 <= i < |rows| ==> m <= rows[i].pvm
  {
    var n := |rows| - 1;
    if n == 0 then rows[0].pvm
    else
      var m := MinDay(rows[..n]);
      assert forall i :: 0 <= i < n ==> rows[..n][i] == rows[i];
      if rows[n].pvm < m then rows[n].pvm else m
  }

  function MaxDay(rows: seq<Row>): (m: Day)
    requires rows != []
    ensures exists i :: 0 <= i < |rows| && rows[i].pvm == m
    ensures forall i :: 0 <= i < |rows| ==> rows[i].pvm <= m
  {
    var n := |rows| - 1;
    if n == 0 then rows[0].pvm
    else
      var m := MaxDay(rows[..n]);
      assert forall i :: 0 <= i < n ==> rows[..n][i] == rows[i];
      if rows[n].pvm > m then rows[n].pvm else m
  }

  /** The position of the latest row among the first k dated on or before day
      `t`, or -1 when there is none. */
  function LatestIndex(rows: seq<Row>, t: Day, k: nat): (j: int)
    requires k <= |rows|
    ensures -1 <= j < k
    ensures j >= 0 ==> rows[j].pvm <= t
    ensures forall i :: 0 <= i < k && rows[i].pvm <= t ==> 0 <= j && rows[i].pvm <= rows[j].pvm
  {
    if k == 0 then -1
    else
      var j := LatestIndex(rows, t, k - 1);
      if rows[k - 1].pvm <= t && (j < 0 || rows[k - 1].pvm > rows[j].pvm) then k - 1 else j
  }

  /** The latest row dated on or before day `t` (what forward filling carries to `t`). */
  function Latest(rows: seq<Row>, t: Day): (r: Row)
    requires rows != [] && MinDay(rows) <= t
  {
    rows[LatestIndex(rows, t, |rows|)]
  }

  /** The row forward filling gives day `t`: dated `t`, with the columns of the
      latest row dated on or before it. */
  function FillAt(rows: seq<Row>, t: Day): Row
    requires rows != [] && MinDay(rows) <= t
  {
    var l := Latest(rows, t);
    Row(t, l.shp, l.n)
  }

  /** Row `x` carries the columns of a latest row of `rows` dated on or before
      its day: that row is on or before it, and no row on or before it is later. */
  predicate FilledFrom(rows: seq<Row>, x: Row)
  {
    exists j :: 0 <= j < |rows| && rows[j].pvm <= x.pvm && rows[j].shp == x.shp && rows[j].n == x.n
      && forall k :: 0 <= k < |rows| && rows[k].pvm <= x.pvm ==> rows[k].pvm <= rows[j].pvm
  }

  /** The filled row of a day is filled from a latest row on or before it. */
  lemma FillAtFrom(rows: seq<Row>, t: Day)
    requires rows != [] && MinDay(rows) <= t
    ensures FillAt(rows, t).pvm == t && FilledFrom(rows, FillAt(rows, t))
  {
    var j := LatestIndex(rows, t, |rows|);
    assert rows[j].pvm <= t;
  }

  /** With no day twice, the filled row of an observed day is the observed row. */
  lemma FillAtKeeps(rows: seq<Row>, k: int)
    requires DistinctDays(rows) && 0 <= k < |rows|
    ensures FillAt(rows, rows[k].pvm) == rows[k]
  {
    var j := LatestIndex(rows, rows[k].pvm, |rows|);
    assert rows[j].pvm == rows[k].pvm;
  }

  /** Forward filling: one row per day from the earliest date of `rows` to the
      latest, each carrying the columns of the latest row dated on or before it;
      with no day twice, every row of `rows` is kept on its own day. */
  function ForwardFill(rows: seq<Row>): (r: seq<Row>)
    requires rows != []
    ensures |r| == MaxDay(rows) - MinDay(rows) + 1
    ensures forall i :: 0 <= i < |r| ==> r[i] == FillAt(rows, MinDay(rows) + i)
  {
    var lo, hi := MinDay(rows), MaxDay(rows);
    seq(hi - lo + 1, i requires 0 <= i < hi - lo + 1 => FillAt(rows, lo + i))
  }

  /** Each filled row is on its own day, filled from a latest row on or before it. */
  lemma ForwardFillFrom(rows: seq<Row>)
    requires rows != []
    ensures var r := ForwardFill(rows);
      forall i :: 0 <= i < |r| ==> r[i].pvm == MinDay(rows) + i && FilledFrom(rows, r[i])
  {
    var r := ForwardFill(rows);
    forall i | 0 <= i < |r| ensures r[i].pvm == MinDay(rows) + i && FilledFrom(rows, r[i]) {
      FillAtFrom(rows, MinDay(rows) + i);
    }
  }

  /** With no day twice, forward filling keeps every row on its own day. */
  lemma ForwardFillKeeps(rows: seq<Row>)
    requires rows != [] && DistinctDays(rows)
    ensures var r := ForwardFill(rows);
      forall i, k :: 0 <= i < |r| && 0 <= k < |rows| && rows[k].pvm == r[i].pvm ==> r[i] == rows[k]
  {
    var r := ForwardFill(rows);
    forall i, k | 0 <= i < |r| && 0 <= k < |rows| && rows[k].pvm == r[i].pvm ensures r[i] == rows[k] {
      FillAtKeeps(rows, k);
    }
  }

  /** `set_index('pvm').resample('1D').ffill()`: forward filling. pandas puts
      the last bin edge one day after the latest date, which overflows when that
      date is the last day a Timestamp holds; and it refuses a series with some
      date twice. A resampled series has one row
      per day from the earliest date to the latest, each the latest row on or
      before its day, and keeps every row on its own day. */
  function Resample(rows: seq<Row>): (r: Result<seq<Row>>)
    requires rows != []
    ensures r.Ok? <==> DistinctDays(rows) && MaxDay(rows) < MaxTimestampDay
    ensures r.Ok? ==> r.value == ForwardFill(rows)
    ensures r.Ok? ==> |r.value| == MaxDay(rows) - MinDay(rows) + 1
    ensures r.Ok? ==> forall i :: 0 <= i < |r.value| ==> r.value[i].pvm == MinDay(rows) + i && FilledFrom(rows, r.value[i])
    ensures r.Ok? ==> forall i, k :: 0 <= i < |r.value| && 0 <= k < |rows| && rows[k].pvm == r.value[i].pvm ==> r.value[i] == rows[k]
    ensures MaxTimestampDay <= MaxDay(rows) ==> r == Err(OutOfBoundsBin(rows[0].shp))
    ensures r.Err? && MaxDay(rows) < MaxTimestampDay ==> r.error == DuplicateDate(rows[0].shp)
  {
    if MaxTimestampDay <= MaxDay(rows) then Err(OutOfBoundsBin(rows[0].shp))
    else if !DistinctDays(rows) then Err(DuplicateDate(rows[0].shp))
    else
      ForwardFillFrom(rows);
      ForwardFillKeeps(rows);
      Ok(ForwardFill(rows))
  }

  /** What one pass can raise for district `p`: an unreadable date, a date
      given twice in the district's series, or a bin edge past the last Timestamp. */
  predicate PassError(e: Error, p: string)
  {
    e.MalformedDate? || e.OutOfBoundsDate? || e == DuplicateDate(p) || e == OutOfBoundsBin(p)
  }

  /** One pass of the loop body: the district's dense cumulative series. It
      raises only what `to_datetime` and `resample` raise. */
  function DistrictSeries(part: seq<Entry>, today: string): (r: Result<seq<Row>>)
    requires part != []
    ensures r.Err? ==> PassError(r.error, part[0].shp)
  {
    var d := CumSum(part);
    var e := d + Anchors(d, today);
    assert e[0] == d[0];
    var rows :- ToDatetime(e);
    Resample(rows)
  }

  // ---------------------------------------------------------------------------
  // Step 5: `pd.concat(districts)` and the whole function.

  function Flatten(ds: seq<seq<Row>>): seq<Row>
  {
    if ds == [] then [] else Flatten(ds[..|ds| - 1]) + ds[|ds| - 1]
  }

  /** The result of each pass of the loop, one per part. */
  function Passes(parts: seq<seq<Entry>>, today: string): (r: seq<Result<seq<Row>>>)
    requires forall i :: 0 <= i < |parts| ==> parts[i] != []
  {
    seq(|parts|, i requires 0 <= i < |parts| => DistrictSeries(parts[i], today))
  }

  /** `pd.concat` of the passes' series, in order; the first pass that raised
      ends the loop with its error. */
  function Concat(rs: seq<Result<seq<Row>>>): (r: Result<seq<Row>>)
    ensures r.Ok? <==> forall i :: 0 <= i < |rs| ==> rs[i].Ok?
    ensures r.Err? ==> exists i :: 0 <= i < |rs| && rs[i] == Err(r.error) && forall j :: 0 <= j < i ==> rs[j].Ok?
  {
    if rs == [] then Ok([])
    else
      assert forall i :: 0 <= i < |rs| - 1 ==> rs[..|rs| - 1][i] == rs[i];
      var init :- Concat(rs[..|rs| - 1]);
      var last :- rs[|rs| - 1];
      Ok(init + last)
  }

  /** The loop over the parts, stopping at the first part pandas refuses. */
  function Collect(parts: seq<seq<Entry>>, today: string): Result<seq<Row>>
    requires forall i :: 0 <= i < |parts| ==> parts[i] != []
  {
    Concat(Passes(parts, today))
  }

  /** What `make_dataframe(json_list)` returns (or raises) when the date is `today`. */
  function Panel(json: seq<Case>, today: string): Result<seq<Row>>
  {
    if json == [] then Ok([]) else Collect(Parts(Group(Records(json))), today)
  }

  /** The passes of a prefix of the parts are a prefix of the passes. */
  lemma PassesPrefix(parts: seq<seq<Entry>>, k: nat, today: string)
    requires forall i :: 0 <= i < |parts| ==> parts[i] != []
    requires k <= |parts|
    ensures Passes(parts, today)[..k] == Passes(parts[..k], today)
  {
  }

  /** Once a pass has failed, the later passes change nothing. */
  lemma {:induction false} ConcatFailureFinal(rs: seq<Result<seq<Row>>>, k: nat)
    requires k <= |rs| && Concat(rs[..k]).Err?
    ensures Concat(rs) == Concat(rs[..k])
    decreases |rs|
  {
    if k < |rs| {
      var init := rs[..|rs| - 1];
      assert init[..k] == rs[..k];
      ConcatFailureFinal(init, k);
    } else {
      assert rs[..k] == rs;
    }
  }

  /** Once the loop has failed, the rest of the parts change nothing. */
  lemma CollectFailureFinal(parts: seq<seq<Entry>>, k: nat, today: string)
    requires forall i :: 0 <= i < |parts| ==> parts[i] != []
    requires k <= |parts| && Collect(parts[..k], today).Err?
    ensures Collect(parts, today) == Collect(parts[..k], today)
  {
    PassesPrefix(parts, k, today);
    ConcatFailureFinal(Passes(parts, today), k);
  }

  /** Pass k extends the result of the first k passes, or ends the loop with its error. */
  lemma CollectStep(parts: seq<seq<Entry>>, k: nat, today: string)
    requires forall i :: 0 <= i < |parts| ==> parts[i] != []
    requires k < |parts|
    ensures Collect(parts[..k + 1], today) ==
      (var init :- Collect(parts[..k], today); var last :- DistrictSeries(parts[k], today); Ok(init + last))
  {
    var rs := Passes(parts[..k + 1], today);
    assert rs[..k] == Passes(parts[..k], today);
    assert rs[..|rs| - 1] == rs[..k];
  }

  method MakeDataframe(json: seq<Case>, today: string) returns (r: Result<seq<Row>>)
    ensures r == Panel(json, today)
    ensures json == [] ==> r == Ok([])
  {
    var cases := Records(json);
    if |cases| == 0 {
      return Ok([]);
    }
    var sums := Group(cases);
    var districts: seq<seq<Row>> := [];
    var parts := Parts(sums);
    for k := 0 to |parts|
      invariant Collect(parts[..k], today) == Ok(Flatten(districts))
    {
      var d := CumSum(parts[k]);
      d := d + Anchors(d, today);
      var dated := ToDatetime(d);
      if dated.Err? {
        CollectStep(parts, k, today);
        CollectFailureFinal(parts, k + 1, today);
        return Err(dated.error);
      }
      var resampled := Resample(dated.value);
      if resampled.Err? {
        CollectStep(parts, k, today);
        CollectFailureFinal(parts, k + 1, today);
        return Err(resampled.error);
      }
      CollectStep(parts, k, today);
      assert (districts + [resampled.value])[..|districts|] == districts;
      districts := districts + [resampled.value];
    }
    assert parts[..|parts|] == parts;
    return Ok(Flatten(districts));
  }
}
