# Formula 1 data scraper, modelled in Dafny

`Get-Data.py` downloads Formula 1 data from the Ergast-compatible API at
`https://api.jolpi.ca/ergast/f1`. This project models its acquisition core
and proves properties of that model:

- `safe_get_json`: a GET with five attempts. After HTTP 429 the wait
  doubles (the back-off); after every failed attempt the script sleeps.
- `fetch_paginated`: walks an endpoint in pages of 1000 records
  (`limit=1000&offset=k`).
- `get_races_for_season`: reads one season's race calendar.
- `fetch_race_data`: fetches one per-round dataset for every race — results,
  qualifying, sprint, pit stops or laps. Every nested item becomes one row,
  and the race's eight metadata columns are written onto it.
- `fetch_standings_per_round`: fetches the driver or constructor standings
  after every round. Each row is tagged with the season and the round.
- `fetch_all_years`: drives one dataset over a range of seasons and joins
  the non-empty per-season tables.
- `flatten`: renames the columns, doing `.` → `_` followed by five fixed
  substring renames.

The network is a parameter, `net(url, i)`: the outcome of the `i`-th attempt
of one call for `url`. Possible outcomes are an exception, or a status code
with a body that may fail to parse. Every function that touches the network
returns its data together with a trace of `Request(url)` and
`Sleep(seconds)` events. Those traces are real results, so the retry policy,
the page walk and the per-round pauses are all stated on them.

The modules:

| file | module | models |
|---|---|---|
| `config.dfy` | `Config` | `BASE_URL`, `BATCH_SIZE`, `RETRIES`, `DELAY` |
| `json.dfy` | `JsonValues` | parsed JSON, `bool(x)`, `.get`, iteration, `json_normalize` of one record |
| `decimal.dfy` | `Decimal` | `str(n)` inside the f-string URLs |
| `columns.dfy` | `Columns` | `flatten`, with Python's `str.replace` |
| `frames.dfy` | `Frames` | one-row frames: `flatten` on a row, `flat[k] = v` |
| `http.dfy` | `Http` | `safe_get_json` |
| `paginate.dfy` | `Paginate` | `fetch_paginated` |
| `season.dfy` | `Season` | `get_races_for_season`, round URLs, the per-round fetch oracle |
| `racedata.dfy` | `RaceData` | `fetch_race_data` |
| `standings.dfy` | `Standings` | `fetch_standings_per_round` |
| `years.dfy` | `Years` | `fetch_all_years` |
| `sequences.dfy`, `wrappers.dfy` | `Sequences`, `Wrappers` | `pd.concat` of row lists, `Option` |

Each loop of the script is a Dafny `method` with a `while` loop. The method
is proved equal to a specification function of its inputs, and the
properties are lemmas about those functions. The per-round loops of
`fetch_race_data` and `fetch_standings_per_round` make one call per round
for `RoundUrl(year, round, dataset)`. They are specified against
`RoundFetches`, which maps a race entry to the fetch of its round. The page
walk of `fetch_paginated` is specified the same way, against
`Pages(net, url, keyPath)`.

Behaviour of the code that is easy to misread, and that the model keeps:

- After a 429, the code sleeps `wait`, doubles it, and then sleeps the
  doubled value at the end of the attempt. A 429 therefore costs two
  sleeps, `w` then `2w`.
- After any other failure, the code sleeps the current `wait`. This is not
  a fixed delay: earlier 429s in the same call may already have doubled it.
- The code also sleeps after the last failed attempt.
- A round whose fetch brings no data is skipped with `continue`, so it gets
  no `DELAY` pause. Only rounds with data are followed by one.
- The renames are not anchored to the start of a column name or to the
  `.` boundary. Any `Time_` that appears after `.` → `_` is renamed, so
  `FastestLap.Time.time` becomes `FastestLap_time_time`.

## Model

| member | source | states |
|---|---|---|
| Columns.Flatten | Get-Data.py:38-47 | The new column list has as many names as the old one, in the same order; the name at position `i` is the old name at `i` renamed. |
| Columns.IndexFrom | Get-Data.py:40-44 | The search `str.replace` relies on: `-1`, or a position at or after `k` where the pattern occurs; no occurrence is skipped before the result. |
| Columns.ReplaceAllFirst | Get-Data.py:40-44 | `str.replace` works left to right: when no occurrence of the pattern starts inside `a`, the occurrence right after `a` is replaced and scanning resumes after it. |
| Columns.ReplaceAllNoMatch | Get-Data.py:40-44 | A string without the pattern is unchanged by `str.replace`. |
| Columns.ReplaceAllCreatesNone | Get-Data.py:40-44 | If the replacement cannot form a pattern `q` together with its surroundings, then after `replace` the string contains no `q`. This holds for `q` equal to the pattern replaced, and for any `q` absent beforehand. |
| Columns.RenamesSequential | Get-Data.py:40-44 | None of the six replacements can form its own pattern, or the pattern of an earlier step. |
| Columns.ApplyRenamesCleans | Get-Data.py:40-44 | Applying such a chain of replacements leaves the name free of every pattern in the chain. |
| Columns.ApplyRenamesFixes | Get-Data.py:40-44 | A name free of every pattern in the chain is unchanged by it. |
| Columns.FlattenNameClean | Get-Data.py:38-47 | A renamed column contains no `.` and none of the five prefixes. |
| Columns.FlattenNameFixedPoint | Get-Data.py:38-47 | A name is left unchanged exactly when it contains no `.` and none of `Driver_`, `Constructor_`, `Circuit_`, `Time_` or `AverageSpeed_`. |
| Columns.FlattenNameIdempotent | Get-Data.py:38-47 | Renaming a renamed column changes nothing. |
| Columns.FlattenIdempotent | Get-Data.py:38-47 | `flatten(flatten(df))` has the columns of `flatten(df)`, and none of them contains a `.`. |
| Columns.FlattenPlain | Get-Data.py:38-47 | A name made only of characters other than `.`, `D`, `C`, `T` and `A` is unchanged. |
| Columns.FlattenDriverField | Get-Data.py:38-47 | `Driver.` + a plain field (one with no `.`, `D`, `C`, `T` or `A`) becomes `driver_` + field, e.g. `Driver.familyName` → `driver_familyName`. |
| Columns.FlattenTimeField | Get-Data.py:38-47 | `Time.` + a plain field (one with no `.`, `D`, `C`, `T` or `A`) becomes `time_` + field, e.g. `Time.millis` → `time_millis`. |
| Columns.FlattenFastestLapTimeField | Get-Data.py:38-47 | The renames are not anchored: `FastestLap.Time.` + a plain field becomes `FastestLap_time_` + field. |
| Decimal.ParseIntToDecimal | Get-Data.py:101 | The decimal text of an integer, as `str(year)` writes it into a URL, reads back as that integer. |
| Decimal.IntToDecimalInjective | Get-Data.py:101 | Different years give different URL text. |
| Decimal.NatToDecimalInjective | Get-Data.py:67 | Different offsets give different URL text. |
| JsonValues.Lookup | Get-Data.py:71-73 | A key lookup in an object finds nothing exactly when no field has that key; otherwise it finds the value of the first field with that key. |
| JsonValues.Elements | Get-Data.py:72-76 | A list iterates over its items; an object or a string iterates over as many elements as it has; iteration is empty exactly when the value is falsy. |
| JsonValues.NormalizeLeaves | Get-Data.py:80 | `json_normalize` of a record leaves no nested object as a column value. |
| JsonValues.NormalizeFlat | Get-Data.py:80 | A record without nested objects keeps its fields as its columns, in order. |
| JsonValues.NormalizeNested | Get-Data.py:80 | A nested field becomes an `outer.inner` column. |
| JsonValues.NormalizeScalarsFirst | Get-Data.py:138 | The top-level scalar fields come before the columns of nested objects, even when a nested object comes first in the record: `{"Driver": {"code": v}, "grid": w}` gives `grid`, then `Driver.code`. |
| Frames.FlattenRow | Get-Data.py:81 | Renaming the columns of a row keeps its values and renames exactly as `flatten` renames the column list. |
| Frames.FlattenRowIdempotent | Get-Data.py:81 | Renaming a row twice is renaming it once. |
| Frames.SetColumnReads | Get-Data.py:140-141 | After `flat[k] = v`, `k` reads `v`, every other column reads what it read before, and existing columns keep their positions. |
| Frames.WithColumnsReads | Get-Data.py:140-141 | After assigning metadata with distinct keys, each key reads its metadata value. This overrides any item column of the same name. Every other column keeps its value and place. |
| Frames.AssignColumns | Get-Data.py:140-141 | The loop `for k, v in race_meta.items(): flat[k] = v` assigns the metadata columns in order. |
| Http.FirstSuccess | Get-Data.py:21-25 | The first attempt in a range that gets a 200 with a parsable body, if any: all earlier attempts failed, and none succeeds when there is no such attempt. |
| Http.SafeGetJson | Get-Data.py:18-35 | The retry loop returns the body and makes the requests and sleeps of `Fetch`: the body of the first successful attempt, with every earlier attempt's events, or `None` after all attempts. |
| Http.FetchRequests | Get-Data.py:21-23 | Every request goes to `url`. There are at most `retries` requests, at least one when `retries > 0`, and exactly `retries` when no attempt succeeds. |
| Http.FetchResult | Get-Data.py:21-36 | A body comes back exactly when some attempt succeeds, and it is the body of the first successful attempt. |
| Http.BackoffIsExponential | Get-Data.py:20-29 | The wait at attempt `i` is `DELAY · 2^m`, where `m` is the number of 429s among the earlier attempts. |
| Http.TwoTooManyThenOk | Get-Data.py:20-34 | 429, 429, 200 gives three requests and the sleeps 2, 4, 4, 8, then the body. |
| Http.PlainFailures | Get-Data.py:30-34 | Failures other than 429 keep the wait at `DELAY`; each is a request followed by one sleep of `DELAY`. |
| Http.AllRaise | Get-Data.py:32-35 | Five exceptions give five requests, each followed by a sleep of `DELAY`, and no body. |
| Http.FetchNoRetries | Get-Data.py:21-35 | With no attempts allowed, nothing is requested and `None` comes back. |
| Paginate.PagedUrlShape | Get-Data.py:66-67 | The page URL starts with `url`. The next character is `&` exactly when `url` contains `?`, and `?` otherwise. |
| Paginate.PagedUrlText | Get-Data.py:67 | The page URL is `url + sep + "limit=1000&offset=" + offset`. |
| Paginate.PagedUrlInjective | Get-Data.py:67 | Different offsets give different page URLs. |
| Paginate.FrameAppend | Get-Data.py:76-81 | Normalising the accumulated records is normalising each batch and stacking the frames: `all_data.extend` followed by one `json_normalize` loses no row and keeps the batch order. |
| Paginate.Extract | Get-Data.py:71-73 | The loop over `key_path` yields the item list under `MRData` and the key path. Missing keys default to `{}` and then `[]`. |
| Paginate.FetchPage | Get-Data.py:66-73 | One page fetch: its records, and its fetch's events. |
| Paginate.FetchPaginated | Get-Data.py:62-81 | The page loop returns the frame of the records of the pages walked, with all their events. It processes full pages until the first page that fails, is empty or is short. |
| Paginate.StopAt | Get-Data.py:69-79 | A page that fails, is empty or holds fewer than 1000 records ends the walk. It contributes its records, if it has any. |
| Paginate.GoOn | Get-Data.py:76-79 | A full page contributes its records and the walk continues at the next offset. |
| Paginate.PagesAreConsecutive | Get-Data.py:63-77 | The pages walked are 0, 1, 2, … Their offsets strictly increase. Every page but the last is full, and the last is not. |
| Paginate.WalkIsPages | Get-Data.py:65-79 | The records are the in-order concatenation of the walked pages' records, and the events the concatenation of their fetches' events. |
| Paginate.PageRequests | Get-Data.py:67-68 | Each page makes between 1 and 5 requests, all for its own URL. |
| Paginate.PagesTraceRequests | Get-Data.py:65-79 | Each request of the walk is for one of the walked pages, and there are between one and five per page. |
| Paginate.ShortFirstPage | Get-Data.py:78-79 | A first page shorter than 1000 records is the only page. Its records are the result, and every request is for offset 0 — exactly one request when its first attempt succeeds. |
| Paginate.FailedPageStops | Get-Data.py:69-70 | A page whose fetch brings no data ends the walk and contributes nothing. |
| Season.GetRacesForSeason | Get-Data.py:100-105 | The method fetches `BASE_URL/{year}.json` once through `safe_get_json` and returns `SeasonRaces` of the result, with that fetch's events. |
| Season.SeasonUrlInjective | Get-Data.py:101 | Different seasons are fetched from different URLs. |
| Season.NoDataNoRaces | Get-Data.py:103-104 | A failed season fetch gives no races. |
| Season.FetchRound | Get-Data.py:113-117 | The round's fetch is `safe_get_json` of the URL built from the year, the race's `round` and the dataset. |
| Season.RoundsTraceSnoc | Get-Data.py:112-143 | Each further race adds its round's fetch events, then one `DELAY` pause if the round had data and none if it was skipped. |
| RaceData.MetaShape | Get-Data.py:124-133 | The metadata has the eight columns `season`, `round`, `raceName`, `date`, `circuit_id`, `circuit_name`, `circuit_location` and `circuit_country`, in that order, with distinct names. |
| RaceData.AppendItems | Get-Data.py:137-142 | The loop `for item in r[key]` appends one row per item, in order: normalised, renamed, with the metadata. |
| RaceData.AppendEntry | Get-Data.py:134-142 | The loop over the nested keys appends the rows of every key the entry has, key by key. |
| RaceData.AddEntry | Get-Data.py:123-142 | One entry of a race: its metadata is built from the season listing's `round`, `raceName` and `date` and the entry's own circuit, and the entry's rows are appended. |
| RaceData.AppendRace | Get-Data.py:122-142 | The loop over the race entries of a round appends the rows of each entry, entry by entry. Each entry gets its own circuit metadata. |
| RaceData.AddRound | Get-Data.py:122-142 | A round response with data appends the rows of its race entries. |
| RaceData.ProcessRound | Get-Data.py:112-143 | One pass of `for race in races`: the round's fetch, then its rows and a `DELAY` pause. A round without data adds no rows and no pause. |
| RaceData.ProcessRaces | Get-Data.py:112-143 | The race loop produces the rows of every race in order, and every round's fetch and pause. |
| RaceData.FetchRaceData | Get-Data.py:108-147 | `fetch_race_data` is the season fetch followed by the race loop. An empty result is the empty table. |
| RaceData.RaceRowsAppend | Get-Data.py:112-143 | Races contribute their rows independently and in race order. |
| RaceData.SkippedRound | Get-Data.py:117-120 | A round whose fetch brings no data contributes no rows, and the rounds after it are still processed. |
| RaceData.FetchedRound | Get-Data.py:122-143 | A round with data contributes the rows of its race entries. |
| RaceData.EntryOrder | Get-Data.py:134-135 | The rows of an entry come key by key, in the order `Results`, `QualifyingResults`, `SprintResults`, `PitStops`, `Laps`. A key the entry lacks gives none. |
| RaceData.ItemRowReads | Get-Data.py:138-141 | Every metadata column of a row reads its metadata value, overwriting an item column of the same name. Every other column reads the item's renamed value. |
| RaceData.EntriesMeta | Get-Data.py:123-142 | Every row of a race reads the season's year, the race's `round`, `raceName` and `date`, and has all eight metadata columns. |
| RaceData.RaceRowsMeta | Get-Data.py:112-143 | Every row of a season's table reads the season's year and has all eight metadata columns. |
| RaceData.NoRacesNoRows | Get-Data.py:145-146 | A season without races, or one whose rounds all fail, gives the empty table. |
| Standings.StandingsKey | Get-Data.py:166 | The inner key is `DriverStandings` exactly when the dataset is `driverStandings`, and `ConstructorStandings` otherwise. |
| Standings.StandingRowsAt | Get-Data.py:168-173 | One row per standings item, in item order: the row at position i is the tagged, flattened item i. |
| Standings.AppendStandingItems | Get-Data.py:168-173 | The loop `for item in s.get(key_name, [])` appends one tagged row per item. |
| Standings.AddList | Get-Data.py:167-173 | One standings list appends the rows of the items under the dataset's key, `[]` when the key is missing. |
| Standings.AppendLists | Get-Data.py:167-173 | The loop over the standings lists appends the rows of each list, list by list. |
| Standings.AddRound | Get-Data.py:165-173 | A round response with data appends the rows of all its standings lists. |
| Standings.ProcessRound | Get-Data.py:157-174 | One pass of `for race in races`: the round's fetch, then its rows and a `DELAY` pause. A round without data adds no rows and no pause. |
| Standings.ProcessRaces | Get-Data.py:157-174 | The race loop produces the rows of every race in order, and every round's fetch and pause. |
| Standings.FetchStandingsPerRound | Get-Data.py:150-178 | `fetch_standings_per_round` stops after the season fetch when it finds no races. Otherwise it runs the race loop, and an empty result is the empty table. |
| Standings.StandingRowReads | Get-Data.py:169-172 | A standings row reads the year under `season` and the round under `round`. Every other column reads the item's renamed value. |
| Standings.StandingRowColumns | Get-Data.py:169-172 | A standings row has no columns except the item's own, `season` and `round`. |
| Standings.NoRacesNoStandings | Get-Data.py:152-154 | A season with no races gives the empty table, after the season fetch alone. |
| Standings.StandingsRowsAppend | Get-Data.py:157-174 | Races contribute their standings independently and in race order. |
| Standings.SkippedStandingsRound | Get-Data.py:161-163 | A round whose fetch brings no data contributes no rows, and the rounds after it are still processed. |
| Standings.ListsRowsTagged | Get-Data.py:167-172 | Every row of a round reads that season and that round. |
| Standings.StandingsRowsTagged | Get-Data.py:157-174 | Every row of a season's standings reads the season's year and the round of one of its races. |
| Years.YearsMembers | Get-Data.py:183 | `range(start_year, end_year + 1)` holds a year exactly when it lies between start and end inclusive, and its years strictly increase. |
| Years.FetchYear | Get-Data.py:184-187 | The two standings kinds go to `fetch_standings_per_round`, every other kind to `fetch_race_data`. |
| Years.FetchAllYears | Get-Data.py:181-192 | `fetch_all_years` joins, in year order, the seasons' tables that are not empty. Its events are the events of every season in turn. |
| Years.KeptNonEmpty | Get-Data.py:188-189 | Every kept table has rows, and at most one table is kept per year. |
| Years.KeptJoined | Get-Data.py:188-191 | Dropping the empty tables loses no row. The result is every season's rows, in year order. |
| Years.JoinedAppend | Get-Data.py:183-191 | The rows and events of a later range of years come after those of an earlier one. |
| Years.EmptyRange | Get-Data.py:190-192 | An empty range of years gives the empty table and fetches nothing. |
| Years.SingleYear | Get-Data.py:181-192 | A one-year range gives that year's table and events. |
| Years.YearRowsTagged | Get-Data.py:184-187 | Every row of a season's table reads that season's year under `season`, on both routes. |
| Years.AllYearsTagged | Get-Data.py:181-192 | Every row returned belongs to a season of the range. |

## Left out

- `requests.get`, its 60-second timeout and the exceptions it raises are
  replaced by the network parameter. The model does not say which URLs
  behave how: any outcome per call and attempt is allowed.
- `time.sleep` is a `Sleep` event in the trace. No time passes.
- `print` and the `tqdm` progress bar appear nowhere: they do not change
  any result.
- `save_csv`, `main`, `OUTPUT_DIR` and `os.makedirs` are not part of this
  model: file output and the dataset list of the pipeline.
- `fetch_all_seasons`, `fetch_all_drivers`, `fetch_all_constructors` and
  `fetch_all_circuits` (Get-Data.py:84-94) are not part of this model. Each
  is one call of `fetch_paginated` with a fixed URL and key path.
- pandas frames are lists of rows, each row an ordered list of
  (column, value) pairs. `pd.concat` concatenates the rows. Its union of the
  columns across rows and its `NaN` filling are not modelled.
- `df.empty` is modelled as "no rows". A frame whose rows have no columns
  would count as empty in pandas. No such table can reach `fetch_all_years`,
  because each row it sees carries the metadata or the `season`/`round` tag.
- `pd.json_normalize` is modelled one object record at a time. The
  top-level scalar fields come first, then the nested objects as dotted
  columns, and an empty nested object gives no column. A record that is not
  an object gives an empty row. Two columns that end up with the same name
  (a top-level `"a.b"` next to a nested `{"a": {"b": …}}`) are both kept,
  where pandas keeps one. pandas' other options and its union of columns
  across a list of records are not modelled.
- `fetch_all_years`'s default arguments `start_year=2024, end_year=2024`
  are not modelled: Years.FetchAllYears always takes both years as
  arguments.
- JSON numbers are integers. Floating point values are not modelled.
- Objects keep duplicate keys. A lookup takes the first match, where a
  Python dict would keep only the last value.
- `.get` on something that is not an object returns the default.
  `race["round"]` (Get-Data.py:158) is read like `.get("round")`. Python
  raises `AttributeError` or `KeyError` in those cases. Iterating over a
  number, `null` or a boolean yields nothing, where Python raises
  `TypeError`. These duck-typing errors are not modelled.
- `str(x)` of a list or an object inside a URL is written as the empty
  string. Python's rendering of containers, and of non-integer numbers, is
  not modelled.
- Paginate.FetchPaginated: the loop can only end when some page is not
  full. The method therefore takes a ghost bound `n` and requires that page
  `n` is not full. A walk where every page is full is outside the model.
- Http.SafeGetJson: each attempt's outcome depends only on the URL and the
  attempt number within that call. A server whose answers depend on earlier
  calls is outside the model.
