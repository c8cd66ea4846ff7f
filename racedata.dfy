/** `fetch_race_data`: for every race of a season, fetch one per-round
    dataset and turn every item under the nested keys into a row carrying
    the race's metadata. */
module RaceData {
  import opened Wrappers
  import opened JsonValues
  import opened Config
  import opened Decimal
  import opened Http
  import opened Frames
  import opened Season
  import opened Sequences

  /** The lists of a race entry that become rows, in this order. */
  const NestedKeys: seq<string> := ["Results", "QualifyingResults", "SprintResults", "PitStops", "Laps"]

  /** `race_meta` for race entry `r` of the race whose `round`, `raceName`
      and `date` were read from the season listing. */
  function Meta(year: int, round: Json, raceName: Json, date: Json, r: Json): (meta: Row)
    ensures |meta| == 8
  {
    var circuit := Get(r, "Circuit", JObj([]));
    var location := Get(circuit, "Location", JObj([]));
    [("season", JNum(year)),
     ("round", round),
     ("raceName", raceName),
     ("date", date),
     ("circuit_id", Get(circuit, "circuitId", JNull)),
     ("circuit_name", Get(circuit, "circuitName", JNull)),
     ("circuit_location", Get(location, "locality", JNull)),
     ("circuit_country", Get(location, "country", JNull))]
  }

  const MetaKeys: seq<string> :=
    ["season", "round", "raceName", "date", "circuit_id", "circuit_name", "circuit_location", "circuit_country"]

  lemma MetaShape(year: int, round: Json, raceName: Json, date: Json, r: Json)
    ensures Names(Meta(year, round, raceName, date, r)) == MetaKeys
    ensures DistinctKeys(Meta(year, round, raceName, date, r))
  {
  }

  /** The row of one item: normalised, flattened, then the metadata. */
  function ItemRow(item: Json, meta: Row): Row {
    WithColumns(FlattenRow(Normalize(item)), meta)
  }

  function ItemRows(items: seq<Json>, meta: Row): (rows: seq<Row>)
    ensures |rows| == |items|
    ensures forall i :: 0 <= i < |items| ==> rows[i] == ItemRow(items[i], meta)
  {
    seq(|items|, i requires 0 <= i < |items| => ItemRow(items[i], meta))
  }

  /** The rows for the nested keys `keys` of entry `r`, key by key; a key
      the entry lacks gives none. */
  function KeyRows(r: Json, meta: Row, keys: seq<string>): seq<Row> {
    if keys == [] then []
    else
      var key := keys[|keys| - 1];
      KeyRows(r, meta, keys[..|keys| - 1]) +
      (if HasKey(r, key) then ItemRows(Elements(Get(r, key, JNull)), meta) else [])
  }

  function EntryRows(year: int, race: Json, r: Json): seq<Row> {
    var meta := Meta(year, Get(race, "round", JNull), Get(race, "raceName", JNull), Get(race, "date", JNull), r);
    KeyRows(r, meta, NestedKeys)
  }

  function EntriesRows(year: int, race: Json, entries: seq<Json>): seq<Row> {
    if entries == [] then []
    else EntriesRows(year, race, entries[..|entries| - 1]) + EntryRows(year, race, entries[|entries| - 1])
  }

  lemma EntriesRowsSnoc(year: int, race: Json, entries: seq<Json>, j: nat)
    requires j < |entries|
    ensures EntriesRows(year, race, entries[..j + 1]) ==
            EntriesRows(year, race, entries[..j]) + EntryRows(year, race, entries[j])
  {
    assert entries[..j + 1][..j] == entries[..j];
  }

  /** The race entries of a round response. */
  function RoundEntries(data: Json): seq<Json> {
    Elements(Envelope(data, "RaceTable", "Races"))
  }

  /** The rows a round's fetch `f` gives: none without data. */
  function RoundRows(f: Fetched, year: int, race: Json): seq<Row> {
    if HasData(f.data) then EntriesRows(year, race, RoundEntries(f.data.value)) else []
  }

  /** The rows of the races `races`, race by race; a race whose fetch
      brings no data gives none. */
  function RaceRows(rounds: Rounds, year: int, races: seq<Json>): seq<Row> {
    if races == [] then []
    else
      var race := races[|races| - 1];
      var f := rounds(race);
      RaceRows(rounds, year, races[..|races| - 1]) +
      RoundRows(f, year, race)
  }

  lemma RaceRowsSnoc(rounds: Rounds, year: int, races: seq<Json>, i: nat)
    requires i < |races|
    ensures var f := rounds(races[i]);
            RaceRows(rounds, year, races[..i + 1]) ==
            RaceRows(rounds, year, races[..i]) +
            RoundRows(f, year, races[i])
  {
    assert races[..i + 1][..i] == races[..i];
  }

  /** The items of one nested list as rows (`for item in r[key]`). */
  method AppendItems(rows: seq<Row>, items: seq<Json>, meta: Row) returns (rows': seq<Row>)
    ensures rows' == rows + ItemRows(items, meta)
  {
    rows' := rows;
    var i := 0;
    while i < |items|
      invariant 0 <= i <= |items|
      invariant rows' == rows + ItemRows(items[..i], meta)
    {
      var flat := FlattenRow(Normalize(items[i]));
      flat := AssignColumns(flat, meta);
      assert ItemRows(items[..i + 1], meta) == ItemRows(items[..i], meta) + [flat];
      rows' := rows' + [flat];
      i := i + 1;
    }
    assert items[..|items|] == items;
  }

  /** The rows of one race entry (`for key in nested_keys`). */
  method AppendEntry(rows: seq<Row>, r: Json, meta: Row) returns (rows': seq<Row>)
    ensures rows' == rows + KeyRows(r, meta, NestedKeys)
  {
    var nestedKeys := ["Results", "QualifyingResults", "SprintResults", "PitStops", "Laps"];
    assert nestedKeys == NestedKeys;
    rows' := rows;
    var i := 0;
    while i < |nestedKeys|
      invariant 0 <= i <= |nestedKeys|
      invariant rows' == rows + KeyRows(r, meta, NestedKeys[..i])
    {
      var key := nestedKeys[i];
      assert NestedKeys[..i + 1] == NestedKeys[..i] + [key];
      KeyRowsSnoc(r, meta, NestedKeys[..i], key);
      Associate(rows, KeyRows(r, meta, NestedKeys[..i]), Block(r, meta, key));
      if HasKey(r, key) {
        rows' := AppendItems(rows', Elements(Get(r, key, JNull)), meta);
      } else {
        AppendEmpty(rows');
      }
      i := i + 1;
    }
    assert NestedKeys[..|NestedKeys|] == NestedKeys;
  }

  /** The rows of one race (`for r in race_data`). */
  method AppendRace(rows: seq<Row>, year: int, race: Json, roundNum: Json, raceName: Json, date: Json,
                    raceData: seq<Json>) returns (rows': seq<Row>)
    requires roundNum == Get(race, "round", JNull) && raceName == Get(race, "raceName", JNull)
    requires date == Get(race, "date", JNull)
    ensures rows' == rows + EntriesRows(year, race, raceData)
  {
    rows' := rows;
    var j := 0;
    while j < |raceData|
      invariant 0 <= j <= |raceData|
      invariant rows' == rows + EntriesRows(year, race, raceData[..j])
    {
      EntriesRowsSnoc(year, race, raceData, j);
      Associate(rows, EntriesRows(year, race, raceData[..j]), EntryRows(year, race, raceData[j]));
      rows' := AddEntry(rows', year, race, roundNum, raceName, date, raceData[j]);
      j := j + 1;
    }
    assert raceData[..|raceData|] == raceData;
  }

  /** One pass of `for r in race_data`: build `race_meta`, then add the
      entry's rows. */
  method AddEntry(rows: seq<Row>, year: int, race: Json, roundNum: Json, raceName: Json, date: Json, r: Json)
    returns (rows': seq<Row>)
    requires roundNum == Get(race, "round", JNull) && raceName == Get(race, "raceName", JNull)
    requires date == Get(race, "date", JNull)
    ensures rows' == rows + EntryRows(year, race, r)
  {
    var meta := Meta(year, roundNum, raceName, date, r);
    rows' := AppendEntry(rows, r, meta);
  }

  /** One pass of `for race in races`: fetch the round, skip it when no
      data comes back, otherwise add its rows and pause. */
  method ProcessRound(net: Network, year: int, dataset: string, race: Json, rows: seq<Row>)
    returns (rows': seq<Row>, events: seq<Event>)
    ensures var f := RoundFetches(net, year, dataset)(race);
            rows' == rows + RoundRows(f, year, race) &&
            events == f.trace + Pause(f)
  {
    var roundNum := Get(race, "round", JNull);
    var raceName := Get(race, "raceName", JNull);
    var date := Get(race, "date", JNull);
    var data;
    data, events := FetchRound(net, year, dataset, race);
    ghost var f := Fetched(data, events);
    if data.None? || !Truthy(data.value) {
      assert RoundRows(f, year, race) == [] && Pause(f) == [];
      AppendEmpty(rows);
      AppendEmpty(events);
      return rows, events;
    }
    assert RoundRows(f, year, race) == EntriesRows(year, race, RoundEntries(data.value));
    rows' := AddRound(rows, data.value, year, race, roundNum, raceName, date);
    events := events + [Sleep(Delay)];
  }

  /** The rows of a round response that has data. */
  method AddRound(rows: seq<Row>, data: Json, year: int, race: Json, roundNum: Json, raceName: Json, date: Json)
    returns (rows': seq<Row>)
    requires roundNum == Get(race, "round", JNull) && raceName == Get(race, "raceName", JNull)
    requires date == Get(race, "date", JNull)
    ensures rows' == rows + EntriesRows(year, race, RoundEntries(data))
  {
    var raceData := Elements(Get(Get(Get(data, "MRData", JObj([])), "RaceTable", JObj([])), "Races", JArr([])));
    rows' := AppendRace(rows, year, race, roundNum, raceName, date, raceData);
  }

  /** The loop `for race in races`. */
  method ProcessRaces(net: Network, year: int, dataset: string, races: seq<Json>)
    returns (rows: seq<Row>, trace: seq<Event>)
    ensures rows == RaceRows(RoundFetches(net, year, dataset), year, races)
    ensures trace == RoundsTrace(RoundFetches(net, year, dataset), races)
  {
    ghost var rounds := RoundFetches(net, year, dataset);
    rows, trace := [], [];
    var i := 0;
    while i < |races|
      invariant 0 <= i <= |races|
      invariant rows == RaceRows(rounds, year, races[..i])
      invariant trace == RoundsTrace(rounds, races[..i])
    {
      RaceRowsSnoc(rounds, year, races, i);
      RoundsTraceSnoc(rounds, races, i);
      var events;
      rows, events := ProcessRound(net, year, dataset, races[i], rows);
      Associate(trace, rounds(races[i]).trace, Pause(rounds(races[i])));
      trace := trace + events;
      i := i + 1;
    }
    assert races[..|races|] == races;
  }

  /** The table for a season whose listing fetch is `season` and whose
      round fetches are `rounds`. */
  function RaceTable(season: Fetched, rounds: Rounds, year: int): Table {
    var races := Elements(SeasonRaces(season.data));
    Table(RaceRows(rounds, year, races), season.trace + RoundsTrace(rounds, races))
  }

  method FetchRaceData(net: Network, year: int, dataset: string) returns (rows: seq<Row>, trace: seq<Event>)
    ensures Table(rows, trace) == RaceTable(SeasonFetch(net, year), RoundFetches(net, year, dataset), year)
  {
    var races, seasonTrace := GetRacesForSeason(net, year);
    var allRows, roundsTrace := ProcessRaces(net, year, dataset, Elements(races));
    trace := seasonTrace + roundsTrace;
    if allRows == [] {
      return [], trace;
    }
    rows := allRows;
  }

  /** Races contribute their rows independently, in race order. */
  lemma {:induction false} RaceRowsAppend(rounds: Rounds, year: int, a: seq<Json>, b: seq<Json>)
    decreases |b|
    ensures RaceRows(rounds, year, a + b) == RaceRows(rounds, year, a) + RaceRows(rounds, year, b)
  {
    if b == [] {
      assert a + b == a;
    } else {
      var b' := b[..|b| - 1];
      assert (a + b)[..|a + b| - 1] == a + b';
      RaceRowsAppend(rounds, year, a, b');
      var race := b[|b| - 1];
      var f := rounds(race);
      var last := RoundRows(f, year, race);
      Associate(RaceRows(rounds, year, a), RaceRows(rounds, year, b'), last);
    }
  }

  /** A round whose fetch brings no data contributes no rows, and the
      rounds after it are still processed. */
  lemma SkippedRound(rounds: Rounds, year: int, before: seq<Json>, race: Json, after: seq<Json>)
    requires !HasData(rounds(race).data)
    ensures RaceRows(rounds, year, before + [race] + after) ==
            RaceRows(rounds, year, before) + RaceRows(rounds, year, after)
  {
    RaceRowsAppend(rounds, year, before + [race], after);
    RaceRowsAppend(rounds, year, before, [race]);
    assert [race][..0] == [];
    assert RoundRows(rounds(race), year, race) == [];
    assert RaceRows(rounds, year, [race]) == [] + [];
    assert RaceRows(rounds, year, before) + [] == RaceRows(rounds, year, before);
  }

  /** A round with data contributes the rows of its race entries. */
  lemma FetchedRound(rounds: Rounds, year: int, race: Json)
    requires HasData(rounds(race).data)
    ensures RaceRows(rounds, year, [race]) == EntriesRows(year, race, RoundEntries(rounds(race).data.value))
  {
    assert [race][..0] == [];
  }

  function Block(r: Json, meta: Row, key: string): seq<Row> {
    if HasKey(r, key) then ItemRows(Elements(Get(r, key, JNull)), meta) else []
  }

  lemma KeyRowsSnoc(r: Json, meta: Row, keys: seq<string>, key: string)
    ensures KeyRows(r, meta, keys + [key]) == KeyRows(r, meta, keys) + Block(r, meta, key)
  {
    assert (keys + [key])[..|keys|] == keys;
  }

  lemma KeyRowsOne(r: Json, meta: Row, a: string)
    ensures KeyRows(r, meta, [a]) == Block(r, meta, a)
  {
    assert [a][..0] == [];
    AppendEmpty(Block(r, meta, a));
  }

  lemma KeyRowsFive(r: Json, meta: Row, a: string, b: string, c: string, d: string, e: string)
    ensures KeyRows(r, meta, [a, b, c, d, e]) ==
            Block(r, meta, a) + Block(r, meta, b) + Block(r, meta, c) + Block(r, meta, d) + Block(r, meta, e)
  {
    calc {
      KeyRows(r, meta, [a, b, c, d, e]);
    == { assert [a, b, c, d, e] == [a, b, c, d] + [e]; KeyRowsSnoc(r, meta, [a, b, c, d], e); }
      KeyRows(r, meta, [a, b, c, d]) + Block(r, meta, e);
    == { assert [a, b, c, d] == [a, b, c] + [d]; KeyRowsSnoc(r, meta, [a, b, c], d); }
      KeyRows(r, meta, [a, b, c]) + Block(r, meta, d) + Block(r, meta, e);
    == { assert [a, b, c] == [a, b] + [c]; KeyRowsSnoc(r, meta, [a, b], c); }
      KeyRows(r, meta, [a, b]) + Block(r, meta, c) + Block(r, meta, d) + Block(r, meta, e);
    == { assert [a, b] == [a] + [b]; KeyRowsSnoc(r, meta, [a], b); }
      KeyRows(r, meta, [a]) + Block(r, meta, b) + Block(r, meta, c) + Block(r, meta, d) + Block(r, meta, e);
    == { KeyRowsOne(r, meta, a); }
      Block(r, meta, a) + Block(r, meta, b) + Block(r, meta, c) + Block(r, meta, d) + Block(r, meta, e);
    }
  }

  /** Within a race entry the rows come key by key in the fixed order,
      then item by item. */
  lemma EntryOrder(r: Json, meta: Row)
    ensures KeyRows(r, meta, NestedKeys) ==
            Block(r, meta, "Results") + Block(r, meta, "QualifyingResults") +
            Block(r, meta, "SprintResults") + Block(r, meta, "PitStops") + Block(r, meta, "Laps")
  {
    KeyRowsFive(r, meta, "Results", "QualifyingResults", "SprintResults", "PitStops", "Laps");
  }

  /** Every item row holds each metadata column with the metadata value,
      whatever the item held under that name; other columns are the
      item's flattened columns, unchanged. */
  lemma ItemRowReads(item: Json, meta: Row)
    requires DistinctKeys(meta)
    ensures forall i :: 0 <= i < |meta| ==> Lookup(ItemRow(item, meta), meta[i].0) == Some(meta[i].1)
    ensures forall c :: (forall i :: 0 <= i < |meta| ==> meta[i].0 != c) ==>
              Lookup(ItemRow(item, meta), c) == Lookup(FlattenRow(Normalize(item)), c)
  {
    WithColumnsReads(FlattenRow(Normalize(item)), meta);
  }

  /** The metadata is all there on every row of the rows of a key list. */
  lemma {:induction false} KeyRowsMeta(r: Json, meta: Row, keys: seq<string>)
    requires DistinctKeys(meta)
    ensures forall row :: row in KeyRows(r, meta, keys) ==>
              forall i :: 0 <= i < |meta| ==> Lookup(row, meta[i].0) == Some(meta[i].1)
  {
    if keys != [] {
      KeyRowsMeta(r, meta, keys[..|keys| - 1]);
      var key := keys[|keys| - 1];
      if HasKey(r, key) {
        var items := Elements(Get(r, key, JNull));
        forall k | 0 <= k < |items| {
          ItemRowReads(items[k], meta);
        }
      }
    }
  }

  /** A row of race `race` of season `year`: it reads the year, the race's
      `round`, `raceName` and `date`, and has all eight metadata columns. */
  predicate RaceRowMeta(row: Row, year: int, race: Json) {
    && Lookup(row, "season") == Some(JNum(year))
    && Lookup(row, "round") == Some(Get(race, "round", JNull))
    && Lookup(row, "raceName") == Some(Get(race, "raceName", JNull))
    && Lookup(row, "date") == Some(Get(race, "date", JNull))
    && forall k :: k in MetaKeys ==> Lookup(row, k).Some?
  }

  /** The rows of one race entry carry the race's metadata. */
  lemma EntryMeta(year: int, race: Json, r: Json)
    ensures forall row :: row in EntryRows(year, race, r) ==> RaceRowMeta(row, year, race)
  {
    var meta := Meta(year, Get(race, "round", JNull), Get(race, "raceName", JNull), Get(race, "date", JNull), r);
    MetaShape(year, Get(race, "round", JNull), Get(race, "raceName", JNull), Get(race, "date", JNull), r);
    KeyRowsMeta(r, meta, NestedKeys);
    assert meta[0] == ("season", JNum(year)) && meta[1] == ("round", Get(race, "round", JNull));
    assert meta[2] == ("raceName", Get(race, "raceName", JNull)) && meta[3] == ("date", Get(race, "date", JNull));
    forall row | row in KeyRows(r, meta, NestedKeys) ensures RaceRowMeta(row, year, race) {
      forall k | k in MetaKeys ensures Lookup(row, k).Some? {
        var i :| 0 <= i < |MetaKeys| && MetaKeys[i] == k;
        assert meta[i].0 == k;
      }
    }
  }

  /** Every row of a race carries the eight metadata columns: the season,
      the race's `round`, `raceName` and `date` from the season listing,
      and the circuit fields of its entry. */
  lemma {:induction false} EntriesMeta(year: int, race: Json, entries: seq<Json>)
    ensures forall row :: row in EntriesRows(year, race, entries) ==> RaceRowMeta(row, year, race)
  {
    if entries != [] {
      EntriesMeta(year, race, entries[..|entries| - 1]);
      EntryMeta(year, race, entries[|entries| - 1]);
    }
  }

  /** Every row of the season carries the year and all eight metadata
      columns. */
  lemma {:induction false} RaceRowsMeta(rounds: Rounds, year: int, races: seq<Json>)
    ensures forall row :: row in RaceRows(rounds, year, races) ==>
              Lookup(row, "season") == Some(JNum(year)) &&
              forall k :: k in MetaKeys ==> Lookup(row, k).Some?
  {
    if races != [] {
      RaceRowsMeta(rounds, year, races[..|races| - 1]);
      var race := races[|races| - 1];
      var f := rounds(race);
      if HasData(f.data) {
        EntriesMeta(year, race, RoundEntries(f.data.value));
      }
    }
  }

  /** A season without races, or whose rounds all fail, gives an empty
      table: no rows. */
  lemma NoRacesNoRows(rounds: Rounds, year: int, races: seq<Json>)
    requires forall i :: 0 <= i < |races| ==> !HasData(rounds(races[i]).data)
    ensures RaceRows(rounds, year, races) == []
  {
    if races != [] {
      var init := races[..|races| - 1];
      assert forall i :: 0 <= i < |init| ==> init[i] == races[i];
      NoRacesNoRows(rounds, year, init);
    }
  }
}
