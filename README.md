# Korona-animaatio: the daily case panel

The dashboard shows confirmed, death and recovered COVID-19 cases for each
Finnish health-care district (*sairaanhoitopiiri*) on a map, one frame per day.
Its logic lives in `make_dataframe` and in a short combination step, and this
project models both. `make_dataframe` turns a list of case records into a
dense cumulative series per district: one row `(pvm, shp, n)` per district and
per day from FIRST (2020-01-28) to today. The combination step joins the three
series on `(pvm, shp)`, reads a missing value as 0, computes
`active = confirmed - deaths - recovered`, and adds each district's
coordinates from `LOCATION_MAPPER`. It then keeps the days from 2020-03-01 on.

`app.py` and `wsgi.py` hold the same `make_dataframe` (app.py:44-99,
wsgi.py:93-148) and the same combination step (app.py:110-121,
wsgi.py:159-170). The two differ in how `LOCATION_MAPPER` is written:
`app.py` uses a dict literal, and `wsgi.py` zips three parallel lists. The
model proves that both maps hold the same twenty districts, and that four of
those districts get different coordinates from the two maps.

Modules:

- `Text` (text.dfy): `str.split('T')[0]`, and Python's string order.
- `Calendar` (calendar.dfy): proleptic Gregorian day numbers, ISO date text,
  and why sorting and comparing ISO texts sorts and compares days.
- `Dataframe` (dataframe.dfy): each step of `make_dataframe` as a function on
  sequences of rows, with the same pandas exceptions. The method
  `MakeDataframe` performs the per-district loop, appending to a sequence,
  and is proved equal to the function `Panel`.
- `PanelProperties` (panel_properties.dfy): what the series promises, covering
  both the well-dated case and the error cases.
- `Locations` (locations.dfy): the two `LOCATION_MAPPER`s and the
  `.get(p, (None, None))` lookup.
- `Totals` (totals.dfy): the join, `fillna(0)`, `active`, the coordinates and
  the date filter. `BuildTotals` performs the script's steps and is proved
  equal to the function `TotalsOf`.

How the model represents the source:

- Today is a parameter, written as the text that `str(datetime.date.today())`
  gives.
- Dates are the record's text up to its first `'T'`. They stay text through
  grouping and sorting, as in pandas. `pd.to_datetime` then reads them as day
  numbers.
- A well-dated record list is one in which every date key is an ISO date after
  FIRST and on or before today, and today is a pandas Timestamp day before
  the last one, 2262-04-11 (`PanelProperties.WellDated`, through
  `TodayInRange`). For such lists
  `make_dataframe` succeeds, and `PanelProperties.PanelWellDated` and
  `Totals.TotalsWellDated` state the whole result.
- Lists that are not well-dated are modelled too. A date key `pd.to_datetime`
  cannot read gives `MalformedDate`; an ISO date outside 1677-09-22 to
  2262-04-11, the days a nanosecond Timestamp holds, gives `OutOfBoundsDate`.
  A record dated FIRST gives a duplicate label, and resampling then raises
  `DuplicateDate`. A district whose latest day is 2262-04-11 makes resampling
  raise `OutOfBoundsBin`: the bin edge one day after it is no Timestamp.
  Two other cases raise nothing, and the model computes what the code does.
  A record dated before FIRST keeps its running total on its own day, and the
  `(FIRST, p, 0)` anchor then sets the series back to 0, so the series is not
  monotone. That is why `WellDated` asks for dates after FIRST. A record dated
  after today makes the rows run past today, and the row on today already
  counts it, because its running total is taken at the latest row.

Choices the code makes that the model follows:

- every series is cumulative;
- nothing is truncated;
- the `(FIRST, district, 0)` row is always added, so a record dated FIRST
  makes resampling fail;
- groups are formed from the district text as given.

## Model

| member | source | states |
|---|---|---|
| Text.SplitHead | app.py:47 | `split('T')[0]`: the result is a prefix of the date text, contains no `'T'`, and is followed by a `'T'` unless it is the whole text |
| Text.SplitHeadUnique | app.py:47 | those three facts determine the date key: any text meeting them is the key |
| Text.LessIrreflexive | app.py:61 | no text sorts before itself |
| Text.LessTransitive | app.py:61 | Python's string order, used by `sort_values`, is transitive |
| Text.LessTotal | app.py:61 | any two distinct texts are ordered exactly one way |
| Text.LessConcat | app.py:121 | two texts split into equal-length prefixes compare by prefix first, then by the rest |
| Text.NumberOrder | app.py:61 | digit strings of equal length compare as the numbers they spell |
| Calendar.NextDate | app.py:93 | the calendar date after a date is valid and has the next day number: `resample('1D')` steps one date at a time |
| Calendar.YearStep | app.py:93 | each year adds 366 days if it is a leap year, otherwise 365 |
| Calendar.DayNumberIncreases | app.py:91 | a later date (year, then month, then day) has a larger day number |
| Calendar.IsoFields | app.py:91 | the year, month and day of an ISO date text are its digit runs read as numbers |
| Calendar.IsoOrder | app.py:61 | comparing ISO date texts as strings compares their days; two texts are equal exactly when their days are |
| Calendar.IsoInjective | app.py:91 | two ISO texts naming the same day are the same text |
| Calendar.SinceMarchText | app.py:121 | `pvm > '2020-03'` holds for an ISO date text exactly when its day is 2020-03-01 or later |
| Dataframe.Records | app.py:45-53 | one row per record, in order: count 1, the record's district, and its date text cut before the first `'T'`, with no `'T'` left |
| Dataframe.SumWhereAppend | app.py:59 | counts of concatenated rows add up |
| Dataframe.RecordsCount | app.py:45-53 | every record becomes one `(date key, district, 1)` row, so the rows matching any query sum to the number of records matching it |
| Dataframe.Tally | app.py:59-61 | adding a record to sorted groups keeps them strictly sorted by (shp, pvm) and adds its key; counts stay positive |
| Dataframe.TallySum | app.py:59 | adding a record adds its count to every query it matches and to no other |
| Dataframe.Group | app.py:59-61 | `groupby(['pvm','shp']).sum()` then `sort_values(['shp','pvm'])` yields rows strictly sorted by (shp, pvm), so each key occurs once; the keys are the records' keys and every count is positive |
| Dataframe.GroupSum | app.py:59 | grouping keeps the sum of the rows matching any query: each (pvm, shp) count is the number of its records |
| Dataframe.SortedKeySum | app.py:59-61 | in rows with no key twice, the sum over one row's key is that row's count |
| Dataframe.GroupCounts | app.py:45-61 | every grouped row's count is the number of records with its date key and district |
| Dataframe.Districts | app.py:66 | `sums.shp.unique()` lists exactly the districts of the rows, each once |
| Dataframe.DistrictBefore | app.py:66 | a row of the j-th district has a row of each earlier district before it |
| Dataframe.DistrictsInOrder | app.py:66 | `unique()` lists the districts in the order of their first rows |
| Dataframe.Part | app.py:64 | `sums[sums.shp == p]` holds exactly the rows of district p, in sorted order |
| Dataframe.PartSum | app.py:63-67 | a district's part has that district's sums for every query |
| Dataframe.Parts | app.py:63-67 | one part per district, in `unique()` order, none empty |
| Dataframe.CumSum | app.py:74 | `cumsum` keeps every row's (pvm, shp); the first total is the first row's count, and no total is below its own row's count |
| Dataframe.CumSumStep | app.py:74 | each later running total is the one before it plus its own row's count |
| Dataframe.FirstUnreadable | app.py:91 | `pd.to_datetime` fails on the first date text it cannot read: every earlier text is a readable date |
| Dataframe.ToDatetime | app.py:91 | `pd.to_datetime` succeeds exactly when every date text is an ISO date from 1677-09-22 to 2262-04-11, and then gives each row the day its text names; otherwise it raises for the first unreadable text: `OutOfBoundsDate` for an ISO date outside that range, `MalformedDate` for anything else |
| Dataframe.FillAtFrom | app.py:93 | the row filled on a day at or after the earliest is on that day and carries (shp, n) of the latest row on or before it |
| Dataframe.FillAtKeeps | app.py:93 | with no day given twice, the row filled on a row's own day is that row |
| Dataframe.ForwardFillFrom | app.py:93 | the i-th filled row is on the earliest day plus i, with (shp, n) taken from a latest row on or before that day |
| Dataframe.ForwardFillKeeps | app.py:93 | with no day given twice, every row is kept unchanged on its own day |
| Dataframe.Resample | app.py:92-93 | resampling succeeds exactly when no day occurs twice and the latest day is before 2262-04-11; a latest day of 2262-04-11 raises `OutOfBoundsBin` before duplicates are looked at, otherwise a day given twice raises `DuplicateDate`; both errors name the district; on success it has one row per day from the earliest to the latest, row i on the earliest day plus i with (shp, n) of the latest row on or before it, and every row is kept on its own day |
| Dataframe.DistrictSeries | app.py:72-93 | a pass raises only an unreadable date (`MalformedDate`, `OutOfBoundsDate`) or `DuplicateDate` or `OutOfBoundsBin` naming its own district |
| Dataframe.Concat | app.py:72-96 | the loop succeeds exactly when every pass does; otherwise it raises the error of the first pass that fails |
| Dataframe.ConcatFailureFinal | app.py:72-94 | once the results of the first k passes hold an exception, that exception is the loop's result |
| Dataframe.CollectFailureFinal | app.py:72-94 | an exception in the first k district passes is the result of the whole loop |
| Dataframe.CollectStep | app.py:72-94 | one more pass appends its district's series, or raises its exception |
| Dataframe.MakeDataframe | app.py:44-99 | the loop computes `Panel`; an empty list gives the empty frame (the same code is wsgi.py:93-148) |
| PanelProperties.FirstIsIso | app.py:19 | FIRST is an ISO date text, names day `FirstDay`, and lies within the Timestamp range |
| PanelProperties.CountToSplit | app.py:74 | the count up to a day splits over concatenated rows |
| PanelProperties.TotalIsCount | app.py:74 | the sum of a district's first k grouped counts is the count of those rows up to any day on or after all of them |
| PanelProperties.DatedTotals | app.py:74 | after `cumsum`, each row carries the count of the district's records up to its day |
| PanelProperties.DatedAnchors | app.py:76-87 | the anchors: `(FIRST, p, 0)`, and if no row is dated today, `(today, p, last running total)`, which is the count up to today |
| PanelProperties.LastTotal | app.py:86 | `d.iat[-1, 2]`, the last running total, is the count of the district's rows up to any day no row comes after, today included |
| PanelProperties.JoinedValues | app.py:89 | after `append`, every row carries the count of the district up to its day |
| PanelProperties.FilledRows | app.py:93 | forward filling gives every day from FIRST to today one row, carrying the count up to that day |
| PanelProperties.PassRows | app.py:73-91 | the rows a pass hands to `resample` cover FIRST and today, with correct counts and no day twice |
| PanelProperties.ResampledSeries | app.py:92-93 | resampling those rows succeeds and yields the district's series |
| PanelProperties.SeriesOf | app.py:72-94 | one pass over a district's well-dated part yields one row per day from FIRST to today, holding the district's count of records up to that day |
| PanelProperties.PartSeries | app.py:63-94 | the same for the part of a well-dated grouped frame |
| PanelProperties.ConcatSeries | app.py:94-96 | concatenating the series of distinct districts gives unique labels and covers every (district, day) |
| PanelProperties.CollectGood | app.py:63-96 | on well-dated groups the loop succeeds, with one series per district |
| PanelProperties.GroupedDistricts | app.py:59-66 | the districts of the grouped frame are exactly those some record names |
| PanelProperties.PanelWellDated | app.py:44-99 | for well-dated records `make_dataframe` succeeds with unique (pvm, shp) labels and |districts| × days rows; each row counts its district's records dated on or before its day; every named district has a row on every day from FIRST to today; no other district appears |
| PanelProperties.CountUpToMonotone | app.py:74 | the count up to a day never decreases as the day grows |
| PanelProperties.CountUpToBounds | app.py:77-87 | no well-dated record is counted up to FIRST, and up to today every record is counted |
| PanelProperties.PanelNonDecreasing | app.py:74-93 | within a district the series never decreases from one day to a later one |
| PanelProperties.PanelEnds | app.py:76-87 | the series is 0 on FIRST and the district's total on today, whether or not today had records; it never exceeds that total |
| PanelProperties.FirstDatedPassFails | app.py:77-93 | a district with a record dated FIRST gets FIRST twice, so resampling raises |
| PanelProperties.ConcatFails | app.py:72-94 | a pass that raises makes the loop raise |
| PanelProperties.GroupedEntryOf | app.py:59 | every record's key is a row of the grouped frame |
| PanelProperties.PanelFirstDated | app.py:59-94 | any record dated FIRST makes `make_dataframe` raise |
| PanelProperties.PassLastDayFails | app.py:76-93 | with today the last Timestamp day, a pass raises: today is one of its days, so resampling overflows unless reading the dates already failed |
| PanelProperties.PanelLastDay | app.py:44-99 | with today 2262-04-11, `make_dataframe` raises on any list with a record |
| PanelProperties.PanelErrors | app.py:44-99 | `make_dataframe` raises only what a pass raises: an unreadable date, or `DuplicateDate` or `OutOfBoundsBin` for a district some record names |
| PanelProperties.FilledShape | app.py:93 | forward filling one district's rows gives rows of that district with no day twice |
| PanelProperties.AnchoredShape | app.py:76-89 | the running totals of one district with their anchors are all rows of that district |
| PanelProperties.PassShape | app.py:72-93 | a pass that succeeds gives rows of its own district with no day twice |
| PanelProperties.ConcatOk | app.py:72-94 | when the loop succeeds, every pass succeeded |
| PanelProperties.ConcatUnique | app.py:94-97 | concatenated series of distinct districts have unique (pvm, shp) labels |
| PanelProperties.PanelShape | app.py:63-97 | whenever `make_dataframe` returns, whatever the dates, its (pvm, shp) labels are unique and every row's district is one the records name |
| Locations.ZipMapper | wsgi.py:90 | the dict comprehension over `zip` has a key for each name among the first min-length triples, and no other |
| Locations.ZipMapperLast | wsgi.py:90 | a name maps to the pair at its last position among the zipped triples |
| Locations.ZipMapperAt | wsgi.py:90 | with no name given twice, the i-th name maps to (i-th lat, i-th lon) |
| Locations.NamesDistinct | wsgi.py:22-89 | the three lists have twenty entries each and name no district twice |
| Locations.WsgiMapperAt | wsgi.py:22-90 | each listed district maps to its own latitude and longitude |
| Locations.AppKeysListed | app.py:20-41 | every district of the literal map is one of the listed names |
| Locations.AppMapperAt | app.py:20-41 | the literal holds every listed district, with the listed coordinates except for Kymenlaakso, Pohjois-Pohjanmaa, Länsi-Pohja and Varsinais-Suomi |
| Locations.MappersCompared | app.py:20-41 | the two maps have the same twenty keys and differ exactly on those four districts |
| Locations.LookupOfMappers | app.py:119-120 | `LOCATION_MAPPER.get(p, (None, None))` (also wsgi.py:168-169): under the list-built map, the i-th listed district gets (Some(i-th lat), Some(i-th lon)); under the literal map, the same except for the four moved districts, which still get coordinates; a name not listed gets (None, None) under either map |
| Totals.Indexed | app.py:97 | `set_index(['pvm','shp'])`, read as a map, has exactly the rows' labels as keys |
| Totals.IndexedAt | app.py:97 | with unique labels, each label maps to its own row's count |
| Totals.Combine | app.py:114-121 | the combination step raises the exception of the first of the three results that failed (confirmed, then deaths, then recovered), or `total['pvm']`'s missing column, which it raises only when all three frames are empty; a table it gives starts on 2020-03-01 and has `active` as the difference |
| Totals.TotalsOf | app.py:110-121 | with three empty record lists the script raises on the missing `pvm` column (app.py:118) |
| Totals.CombineSteps | app.py:114-121 | the script's steps after the three calls compute `Combine` |
| Totals.BuildTotals | app.py:110-121 | the script's steps compute `TotalsOf`: the first exception of the three `make_dataframe` calls, or the filtered table (the same code is wsgi.py:159-170) |
| Totals.CountUnseen | app.py:114 | a district no record of a list names counts 0 in that series |
| Totals.FrameCounts | app.py:110-114 | one series as a map has each named district on each day from FIRST to today, and its value, with 0 filled in, is the count of records up to that day |
| Totals.MarchAfterFirst | app.py:121 | 2020-03-01 comes after FIRST |
| Totals.TableWellDated | app.py:110-121 | the table of three well-dated series has a row for each day from 2020-03-01 to today and each district named in any list, and no other; the counts are the records up to that day (0 where a list never names the district); `active` is the difference; the coordinates are the lookup |
| Totals.TotalsWellDated | app.py:110-121 | for well-dated lists the script succeeds exactly when some list has a record, and raises on the missing `pvm` column when none has; when it succeeds, its table is the one `TableWellDated` describes |
| Totals.PanelNonEmpty | app.py:54-57 | the frame built from at least one well-dated record is not empty |
| Totals.PanelsEmpty | app.py:54-57 | for well-dated lists, the three frames are all empty exactly when the three lists are |
| Totals.TotalsAsWritten | app.py:114-118 | the script as written differs from the corrected one only where `drop` raises, and there the corrected one gives the table |
| Totals.AsWrittenRaises | app.py:114 | as written, `drop(columns=['pvm','shp'])` raises on three non-empty well-dated lists, where the intended table exists |
| Totals.AsWrittenWithEmpty | app.py:114-118 | when some list is empty, the script as written does what the corrected one does: the table when another list has records (as pandas 1.0 and 1.1 join the index names), the missing `pvm` column when none has |
| Totals.EmptyListsRaise | app.py:114-118 | with three empty lists both the script as written and the corrected one raise on the missing `pvm` column |

## Left out

- The HTTP request and JSON decoding (app.py:102-108, wsgi.py:151-157) are external I/O. The three record lists are parameters, and each record holds only its `date` and `healthCareDistrict` texts.
- The Dash app, the Plotly map and the server (app.py:123 on, wsgi.py:172 on) are rendering.
- `datetime.date.today()` is a clock, so today is a parameter.
- Totals.TotalsOf, Totals.BuildTotals: they take one today for all three `make_dataframe` calls. The source reads the clock inside each call (app.py:70, called at app.py:110-112), so a run that spans midnight could build series ending on different days; the model does not capture that.
- Date spellings other than `YYYY-MM-DD` that `pd.to_datetime` would also read are not modelled: any other text raises `MalformedDate`. An ISO date outside 1677-09-22 to 2262-04-11 raises `OutOfBoundsDate`, as a date at midnight outside the nanosecond Timestamp range does.
- A record whose district is JSON `null` is dropped by `groupby` in pandas. The model gives every district a text, so this case does not arise.
- Floats: the coordinates are opaque reals. The counts are natural numbers, with no float conversion from `fillna(0)`, and `active` is an integer.
- Row order, column names, `rename`, `reset_index` and the `pvm` conversion back to text (app.py:117-118) are not modelled. The series as a map keyed by (pvm, shp) replaces them. `Totals.SinceMarch` therefore filters on day numbers, and `Calendar.SinceMarchText` states that the text comparison of app.py:121 keeps the same days.
- In-place mutation of frames inside the loop (`d.loc[:, 'n'] = ...`): each pass is a function of its part. The accumulation into `districts` is the loop in `Dataframe.MakeDataframe`.
- `Totals.TotalsOf`, `Totals.BuildTotals`: they model the evidently intended `drop`, which takes no effect when the columns are absent. Any input on which the script as written raises at app.py:114 is covered by the Findings row below.
- Totals.TotalsAsWritten, Totals.AsWrittenWithEmpty: when some list is empty and another is not, the model gives the table. In pandas the join then mixes the named (pvm, shp) index of a non-empty series with the unnamed empty index of the frame app.py:57 returns. pandas 1.0 and 1.1 keep the names there, and the model follows them. From pandas 1.2 on, the union may drop the names wherever the empty frame stands, so `reset_index` gives `level_0` and `level_1`, and `total['pvm']` may raise at app.py:118 instead. A common case is deaths empty while confirmed and recovered are not. The model does not settle which pandas version runs.

## Findings

| source | as written | input that shows it | evidently intended | confidence | as-written member | corrected member |
|---|---|---|---|---|---|---|
| app.py:114 (and wsgi.py:163) | `drop(columns=['pvm', 'shp'])` on the joined frame. Only an empty frame from `make_dataframe` still has columns `pvm` and `shp`; the non-empty series carry them in the index. | Three non-empty well-dated record lists, e.g. one record each, dated 2020-03-02, with today 2020-03-03: `drop` raises KeyError. | Drop those columns where present. With that, the joined table is built whenever some list has records; with none, `total['pvm']` still raises on the missing column. | medium, not executed | Totals.AsWrittenRaises | Totals.TotalsWellDated |
