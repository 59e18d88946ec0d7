/** The table the dashboard animates: the confirmed, deaths and recovered
    series of `make_dataframe` joined on (pvm, shp), missing values read as 0,
    `active = confirmed - deaths - recovered`, the district's coordinates, and
    only the days from 2020-03-01 on. */
module Totals {
  import opened Calendar
  import opened Dataframe
  import opened Locations
  import opened PanelProperties

  /** An index label (pvm, shp). */
  type Label = (Day, string)

  /** A frame indexed by (pvm, shp), read as a map from its labels to its values;
      of two rows with one label the later one stays. */
  function Indexed(rows: seq<Row>): (m: map<Label, nat>)
    ensures forall k :: k in m <==> exists i :: 0 <= i < |rows| && rows[i].pvm == k.0 && rows[i].shp == k.1
    decreases |rows|
  {
    if rows == [] then map[]
    else
      var n := |rows| - 1;
      assert forall i :: 0 <= i < n ==> rows[..n][i] == rows[i];
      Indexed(rows[..n])[(rows[n].pvm, rows[n].shp) := rows[n].n]
  }

  /** With no label twice, each row's label maps to that row's value. */
  lemma {:induction false} IndexedAt(rows: seq<Row>, i: nat)
    requires UniqueKeys(rows) && i < |rows|
    ensures Indexed(rows)[(rows[i].pvm, rows[i].shp)] == rows[i].n
    decreases |rows|
  {
    var n := |rows| - 1;
    if i < n {
      var init := rows[..n];
      assert UniqueKeys(init) by {
        forall a, b | 0 <= a < b < |init| ensures init[a].pvm != init[b].pvm || init[a].shp != init[b].shp {
          assert init[a] == rows[a] && init[b] == rows[b];
        }
      }
      assert init[i] == rows[i];
      IndexedAt(init, i);
    }
  }

  /** `fillna(0)`: a series with no row on a label counts 0 there. */
  function Get(m: map<Label, nat>, k: Label): nat
  {
    if k in m then m[k] else 0
  }

  datatype Counts = Counts(confirmed: nat, deaths: nat, recovered: nat)

  /** A row of the table: the three counts, `active`, and the coordinates. */
  datatype TableRow = TableRow(confirmed: nat, deaths: nat, recovered: nat, active: int, lat: Option<real>, lon: Option<real>)

  /** `pd.concat([confirmed, deaths, recovered], axis=1).fillna(0)`: every label
      of any of the three series, with each series' value there or 0. */
  function Joined(c: map<Label, nat>, d: map<Label, nat>, r: map<Label, nat>): (m: map<Label, Counts>)
    ensures m.Keys == c.Keys + d.Keys + r.Keys
    ensures forall k :: k in m ==>
      && (if k in c then m[k].confirmed == c[k] else m[k].confirmed == 0)
      && (if k in d then m[k].deaths == d[k] else m[k].deaths == 0)
      && (if k in r then m[k].recovered == r[k] else m[k].recovered == 0)
  {
    map k | k in c.Keys + d.Keys + r.Keys :: Counts(Get(c, k), Get(d, k), Get(r, k))
  }

  /** The `active`, `lat` and `lon` columns. */
  function Tabulate(j: map<Label, Counts>, mapper: map<string, Coordinates>): (t: map<Label, TableRow>)
    ensures t.Keys == j.Keys
    ensures forall k :: k in t ==>
      && (t[k].confirmed, t[k].deaths, t[k].recovered) == (j[k].confirmed, j[k].deaths, j[k].recovered)
      && t[k].active + t[k].deaths + t[k].recovered == t[k].confirmed
      && (t[k].lat.Some? <==> k.1 in mapper) && (t[k].lon.Some? <==> k.1 in mapper)
  {
    map k | k in j ::
      TableRow(j[k].confirmed, j[k].deaths, j[k].recovered,
            j[k].confirmed - j[k].deaths - j[k].recovered,
            Lookup(mapper, k.1).0, Lookup(mapper, k.1).1)
  }

  const MarchFirst: Day := DayNumber(2020, 3, 1)

  /** `total[total['pvm'] > '2020-03']`: the days from 2020-03-01 on. The source
      compares the ISO text of each day with "2020-03"; Calendar.SinceMarchText
      shows that this comparison keeps exactly these days. */
  function SinceMarch(t: map<Label, TableRow>): (r: map<Label, TableRow>)
    ensures forall k :: k in r <==> k in t && MarchFirst <= k.0
    ensures forall k :: k in r ==> r[k] == t[k]
  {
    map k | k in t && k.0 >= MarchFirst :: t[k]
  }

  /** The table built from the three series, as frames of rows. */
  function Table(c: seq<Row>, d: seq<Row>, r: seq<Row>, mapper: map<string, Coordinates>): map<Label, TableRow>
  {
    SinceMarch(Tabulate(Joined(Indexed(c), Indexed(d), Indexed(r)), mapper))
  }

  /** The combination step on the three `make_dataframe` results: the first
      exception among them, or the table. When all three frames are empty they
      join into a frame whose index is unnamed, so `reset_index` names the
      column `index` and `total['pvm']` raises. A table it gives starts on
      2020-03-01 and has `active` as confirmed minus deaths minus recovered. */
  function Combine(pc: Result<seq<Row>>, pd: Result<seq<Row>>, pr: Result<seq<Row>>,
                   mapper: map<string, Coordinates>): (t: Result<map<Label, TableRow>>)
    ensures t.Err? ==>
      || t.error == MissingDateColumn
      || (pc.Err? && t.error == pc.error)
      || (pd.Err? && t.error == pd.error)
      || (pr.Err? && t.error == pr.error)
    ensures pc.Err? ==> t == Err(pc.error)
    ensures pc.Ok? && pd.Err? ==> t == Err(pd.error)
    ensures pc.Ok? && pd.Ok? && pr.Err? ==> t == Err(pr.error)
    ensures t == Err(MissingDateColumn) && pc.Ok? && pd.Ok? && pr.Ok? ==> pc.value == pd.value == pr.value == []
    ensures t.Ok? ==> forall k :: k in t.value ==>
      MarchFirst <= k.0 && t.value[k].active == t.value[k].confirmed - t.value[k].deaths - t.value[k].recovered
  {
    var c :- pc;
    var d :- pd;
    var r :- pr;
    if c == [] && d == [] && r == [] then Err(MissingDateColumn)
    else
      TableRows(c, d, r, mapper);
      Ok(Table(c, d, r, mapper))
  }

  /** What the script computes from the three record lists, or the exception
      the first failing `make_dataframe` raises. */
  function TotalsOf(confirmed: seq<Case>, deaths: seq<Case>, recovered: seq<Case>, today: string,
                    mapper: map<string, Coordinates>): (t: Result<map<Label, TableRow>>)
    ensures confirmed == [] && deaths == [] && recovered == [] ==> t == Err(MissingDateColumn)
  {
    Combine(Panel(confirmed, today), Panel(deaths, today), Panel(recovered, today), mapper)
  }

  /** The script's steps from its three `make_dataframe` calls to the filtered table. */
  method BuildTotals(confirmedJson: seq<Case>, deathsJson: seq<Case>, recoveredJson: seq<Case>, today: string,
                     mapper: map<string, Coordinates>) returns (r: Result<map<Label, TableRow>>)
    ensures r == TotalsOf(confirmedJson, deathsJson, recoveredJson, today, mapper)
  {
    var confirmed := MakeDataframe(confirmedJson, today);
    var deaths := MakeDataframe(deathsJson, today);
    var recovered := MakeDataframe(recoveredJson, today);
    r := CombineSteps(confirmed, deaths, recovered, mapper);
  }

  /** The script's steps after the three `make_dataframe` calls. */
  method CombineSteps(confirmed: Result<seq<Row>>, deaths: Result<seq<Row>>, recovered: Result<seq<Row>>,
                      mapper: map<string, Coordinates>) returns (r: Result<map<Label, TableRow>>)
    ensures r == Combine(confirmed, deaths, recovered, mapper)
  {
    if confirmed.Err? {
      return Err(confirmed.error);
    }
    if deaths.Err? {
      return Err(deaths.error);
    }
    if recovered.Err? {
      return Err(recovered.error);
    }
    if confirmed.value == [] && deaths.value == [] && recovered.value == [] {
      return Err(MissingDateColumn);
    }
    var joined := Joined(Indexed(confirmed.value), Indexed(deaths.value), Indexed(recovered.value));
    var total := Tabulate(joined, mapper);
    total := SinceMarch(total);
    return Ok(total);
  }

  // ---------------------------------------------------------------------------
  // What the table holds.

  /** Every row of the table: on or after 2020-03-01, with each series' value on
      its label or 0, `active` their difference, and the district's coordinates
      or (None, None). Its labels are those of the three series from 2020-03-01 on. */
  lemma TableRows(c: seq<Row>, d: seq<Row>, r: seq<Row>, mapper: map<string, Coordinates>)
    ensures var t := Table(c, d, r, mapper);
      forall k :: k in t <==> k.0 >= MarchFirst && (k in Indexed(c) || k in Indexed(d) || k in Indexed(r))
    ensures var t := Table(c, d, r, mapper);
      forall k :: k in t ==>
        && t[k].confirmed == Get(Indexed(c), k)
        && t[k].deaths == Get(Indexed(d), k)
        && t[k].recovered == Get(Indexed(r), k)
        && t[k].active == t[k].confirmed - t[k].deaths - t[k].recovered
        && (t[k].lat, t[k].lon) == Lookup(mapper, k.1)
  {
  }

  /** A district no record names counts 0 on every day. */
  lemma {:induction false} CountUnseen(json: seq<Case>, p: string, t: Day)
    requires !Seen(json, p)
    ensures CountCases(json, UpTo(p, t)) == 0
  {
    if json != [] {
      assert !Seen(json[1..], p) by {
        forall i | 0 <= i < |json[1..]| ensures json[1..][i].healthCareDistrict != p {
          assert json[1..][i] == json[i + 1];
        }
      }
      CountUnseen(json[1..], p, t);
    }
  }

  /** One series as a map: a label for each district seen and each day from
      FIRST to today, and on each of those days the district's count up to it. */
  lemma FrameCounts(json: seq<Case>, today: string, rows: seq<Row>)
    requires WellDated(json, today) && Panel(json, today) == Ok(rows)
    ensures forall k :: k in Indexed(rows) <==> FirstDay <= k.0 <= DayOf(today) && Seen(json, k.1)
    ensures forall k: Label :: FirstDay <= k.0 <= DayOf(today) ==> Get(Indexed(rows), k) == CountCases(json, UpTo(k.1, k.0))
  {
    PanelWellDated(json, today);
    var m := Indexed(rows);
    forall k: Label | k in m ensures FirstDay <= k.0 <= DayOf(today) && Seen(json, k.1) {
      var i :| 0 <= i < |rows| && rows[i].pvm == k.0 && rows[i].shp == k.1;
      assert rows[i] in rows;
    }
    forall k: Label | FirstDay <= k.0 <= DayOf(today)
      ensures (Seen(json, k.1) ==> k in m) && Get(m, k) == CountCases(json, UpTo(k.1, k.0))
    {
      if Seen(json, k.1) {
        var x := Row(k.0, k.1, CountCases(json, UpTo(k.1, k.0)));
        assert x in rows;
        var i :| 0 <= i < |rows| && rows[i] == x;
        IndexedAt(rows, i);
      } else {
        CountUnseen(json, k.1, k.0);
      }
    }
  }

  lemma MarchAfterFirst()
    ensures FirstDay < MarchFirst
  {
    DayNumberIncreases(2020, 1, 28, 2020, 3, 1);
  }

  /** The table the records promise: a row for every district named by some
      record and every day from 2020-03-01 to today, and no other; each count is
      the district's records dated on or before the day (0 in a list that never
      names it), `active` is confirmed minus deaths minus recovered, and the
      coordinates are those of the map, or none. */
  ghost predicate TableOfCases(t: map<Label, TableRow>, confirmed: seq<Case>, deaths: seq<Case>, recovered: seq<Case>,
                         today: string, mapper: map<string, Coordinates>)
    requires Readable(today)
  {
    && (forall k :: k in t <==>
         MarchFirst <= k.0 <= DayOf(today) && (Seen(confirmed, k.1) || Seen(deaths, k.1) || Seen(recovered, k.1)))
    && forall k :: k in t ==>
         && t[k].confirmed == CountCases(confirmed, UpTo(k.1, k.0))
         && t[k].deaths == CountCases(deaths, UpTo(k.1, k.0))
         && t[k].recovered == CountCases(recovered, UpTo(k.1, k.0))
         && t[k].active == t[k].confirmed - t[k].deaths - t[k].recovered
         && (t[k].lat, t[k].lon) == Lookup(mapper, k.1)
  }

  /** For well-dated record lists the script succeeds exactly when some list has
      a record (with none, it raises on the missing `pvm` column), and then its
      table is the one the records promise. */
  lemma TotalsWellDated(confirmed: seq<Case>, deaths: seq<Case>, recovered: seq<Case>, today: string,
                        mapper: map<string, Coordinates>)
    requires WellDated(confirmed, today) && WellDated(deaths, today) && WellDated(recovered, today)
    ensures TotalsOf(confirmed, deaths, recovered, today, mapper).Ok? <==> (confirmed != [] || deaths != [] || recovered != [])
    ensures confirmed == [] && deaths == [] && recovered == [] ==>
      TotalsOf(confirmed, deaths, recovered, today, mapper) == Err(MissingDateColumn)
    ensures TotalsOf(confirmed, deaths, recovered, today, mapper).Ok? ==>
      TableOfCases(TotalsOf(confirmed, deaths, recovered, today, mapper).value, confirmed, deaths, recovered, today, mapper)
  {
    PanelsEmpty(confirmed, deaths, recovered, today);
    var c, d, r := Panel(confirmed, today).value, Panel(deaths, today).value, Panel(recovered, today).value;
    if c != [] || d != [] || r != [] {
      assert TotalsOf(confirmed, deaths, recovered, today, mapper) == Ok(Table(c, d, r, mapper));
      TableWellDated(confirmed, deaths, recovered, today, mapper);
    }
  }

  /** The table of three well-dated series: its labels and its rows. */
  lemma TableWellDated(confirmed: seq<Case>, deaths: seq<Case>, recovered: seq<Case>, today: string,
                       mapper: map<string, Coordinates>)
    requires WellDated(confirmed, today) && WellDated(deaths, today) && WellDated(recovered, today)
    requires Panel(confirmed, today).Ok? && Panel(deaths, today).Ok? && Panel(recovered, today).Ok?
    ensures TableOfCases(Table(Panel(confirmed, today).value, Panel(deaths, today).value, Panel(recovered, today).value, mapper),
                         confirmed, deaths, recovered, today, mapper)
  {
    var c, d, r := Panel(confirmed, today).value, Panel(deaths, today).value, Panel(recovered, today).value;
    FrameCounts(confirmed, today, c);
    FrameCounts(deaths, today, d);
    FrameCounts(recovered, today, r);
    TableRows(c, d, r, mapper);
    MarchAfterFirst();
  }

  /** For well-dated record lists, the three series are all empty exactly when
      the three lists are. */
  lemma PanelsEmpty(confirmed: seq<Case>, deaths: seq<Case>, recovered: seq<Case>, today: string)
    requires WellDated(confirmed, today) && WellDated(deaths, today) && WellDated(recovered, today)
    ensures Panel(confirmed, today).Ok? && Panel(deaths, today).Ok? && Panel(recovered, today).Ok?
    ensures (Panel(confirmed, today).value == [] && Panel(deaths, today).value == [] && Panel(recovered, today).value == [])
        <==> (confirmed == [] && deaths == [] && recovered == [])
  {
    PanelWellDated(confirmed, today);
    PanelWellDated(deaths, today);
    PanelWellDated(recovered, today);
    if confirmed != [] {
      PanelNonEmpty(confirmed, today);
    }
    if deaths != [] {
      PanelNonEmpty(deaths, today);
    }
    if recovered != [] {
      PanelNonEmpty(recovered, today);
    }
  }

  // ---------------------------------------------------------------------------
  // `drop(columns=['pvm', 'shp'])` as written.

  /** The script as written: a series `make_dataframe` returns for records has
      `pvm` and `shp` in its index and the count as its only column, and only
      the empty frame returned for an empty list has columns `pvm` and `shp`;
      so the joined frame has those columns only when some series is empty,
      and otherwise `drop` raises. With all three empty, `total['pvm']` raises.
      It differs from the corrected script only by raising in `drop` where the
      corrected one gives the table. */
  function TotalsAsWritten(confirmed: seq<Case>, deaths: seq<Case>, recovered: seq<Case>, today: string,
                           mapper: map<string, Coordinates>): (t: Result<map<Label, TableRow>>)
    ensures t != Err(MissingColumns) ==> t == TotalsOf(confirmed, deaths, recovered, today, mapper)
    ensures t == Err(MissingColumns) ==> TotalsOf(confirmed, deaths, recovered, today, mapper).Ok?
  {
    var pc, pd, pr := Panel(confirmed, today), Panel(deaths, today), Panel(recovered, today);
    PanelErrors(confirmed, today);
    PanelErrors(deaths, today);
    PanelErrors(recovered, today);
    assert pc != Err(MissingColumns) && pd != Err(MissingColumns) && pr != Err(MissingColumns);
    var c :- pc;
    var d :- pd;
    var r :- pr;
    if c == [] && d == [] && r == [] then Err(MissingDateColumn)
    else if c != [] && d != [] && r != [] then Err(MissingColumns)
    else Ok(Table(c, d, r, mapper))
  }

  /** A series built from at least one well-dated record is not empty. */
  lemma PanelNonEmpty(json: seq<Case>, today: string)
    requires WellDated(json, today) && json != []
    ensures Panel(json, today).Ok? && Panel(json, today).value != []
  {
    PanelWellDated(json, today);
    var p := json[0].healthCareDistrict;
    assert Seen(json, p);
    assert Row(FirstDay, p, CountCases(json, UpTo(p, FirstDay))) in Panel(json, today).value by {
      FirstIsIso();
      assert FirstDay < DayOf(DateKey(json[0])) <= DayOf(today);
    }
  }

  /** As written, the script raises on three non-empty well-dated record lists,
      where the table is defined. */
  lemma AsWrittenRaises(confirmed: seq<Case>, deaths: seq<Case>, recovered: seq<Case>, today: string,
                        mapper: map<string, Coordinates>)
    requires WellDated(confirmed, today) && WellDated(deaths, today) && WellDated(recovered, today)
    requires confirmed != [] && deaths != [] && recovered != []
    ensures TotalsAsWritten(confirmed, deaths, recovered, today, mapper) == Err(MissingColumns)
    ensures TotalsOf(confirmed, deaths, recovered, today, mapper).Ok?
  {
    PanelNonEmpty(confirmed, today);
    PanelNonEmpty(deaths, today);
    PanelNonEmpty(recovered, today);
    TotalsWellDated(confirmed, deaths, recovered, today, mapper);
  }

  /** When some record list is empty the script as written does what the
      corrected one does: the table when another list has records, and the
      missing `pvm` column when none has. */
  lemma AsWrittenWithEmpty(confirmed: seq<Case>, deaths: seq<Case>, recovered: seq<Case>, today: string,
                           mapper: map<string, Coordinates>)
    requires confirmed == [] || deaths == [] || recovered == []
    ensures TotalsAsWritten(confirmed, deaths, recovered, today, mapper) == TotalsOf(confirmed, deaths, recovered, today, mapper)
  {
    var pc, pd, pr := Panel(confirmed, today), Panel(deaths, today), Panel(recovered, today);
    assert confirmed == [] ==> pc == Ok([]);
    assert deaths == [] ==> pd == Ok([]);
    assert recovered == [] ==> pr == Ok([]);
    if pc.Err? {
      assert TotalsOf(confirmed, deaths, recovered, today, mapper) == Err(pc.error);
    } else if pd.Err? {
      assert TotalsOf(confirmed, deaths, recovered, today, mapper) == Err(pd.error);
    } else if pr.Err? {
      assert TotalsOf(confirmed, deaths, recovered, today, mapper) == Err(pr.error);
    } else {
      assert pc.value == [] || pd.value == [] || pr.value == [];
    }
  }

  /** With three empty record lists both the script as written and the corrected
      one raise on the missing `pvm` column. */
  lemma EmptyListsRaise(today: string, mapper: map<string, Coordinates>)
    ensures TotalsAsWritten([], [], [], today, mapper) == Err(MissingDateColumn)
    ensures TotalsOf([], [], [], today, mapper) == Err(MissingDateColumn)
  {
  }
}
