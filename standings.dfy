/** `fetch_standings_per_round`: the driver or constructor standings after
    every round of a season, one row per standings item, tagged with the
    season and the round. */
module Standings {
  import opened Wrappers
  import opened JsonValues
  import opened Config
  import opened Decimal
  import opened Http
  import opened Frames
  import opened Season
  import opened Sequences

  /** `key_name`: the list inside each standings list that holds the items. */
  function StandingsKey(dataset: string): (key: string)
    ensures key == "DriverStandings" <==> dataset == "driverStandings"
    ensures key == "DriverStandings" || key == "ConstructorStandings"
  {
    if dataset == "driverStandings" then "DriverStandings" else "ConstructorStandings"
  }

  /** The row of one standings item: normalised, flattened, then
      `flat["season"] = year` and `flat["round"] = round_num`. */
  function StandingRow(item: Json, year: int, round: Json): Row {
    SetColumn(SetColumn(FlattenRow(Normalize(item)), "season", JNum(year)), "round", round)
  }

  /** One row per standings item, in item order. */
  function StandingRows(items: seq<Json>, year: int, round: Json): seq<Row> {
    if items == [] then []
    else StandingRows(items[..|items| - 1], year, round) + [StandingRow(items[|items| - 1], year, round)]
  }

  lemma {:induction false} StandingRowsAt(items: seq<Json>, year: int, round: Json)
    ensures |StandingRows(items, year, round)| == |items|
    ensures forall i :: 0 <= i < |items| ==> StandingRows(items, year, round)[i] == StandingRow(items[i], year, round)
  {
    if items != [] {
      var init := items[..|items| - 1];
      StandingRowsAt(init, year, round);
      forall i | 0 <= i < |items| - 1
        ensures StandingRows(items, year, round)[i] == StandingRow(items[i], year, round)
      {
        assert items[i] == init[i];
      }
    }
  }

  lemma StandingRowsSnoc(items: seq<Json>, i: nat, year: int, round: Json)
    requires i < |items|
    ensures StandingRows(items[..i + 1], year, round) ==
            StandingRows(items[..i], year, round) + [StandingRow(items[i], year, round)]
  {
    assert items[..i + 1][..i] == items[..i];
  }

  lemma ItemStep(rows: seq<Row>, items: seq<Json>, i: nat, year: int, round: Json)
    requires i < |items|
    ensures rows + StandingRows(items[..i + 1], year, round) ==
            rows + StandingRows(items[..i], year, round) + [StandingRow(items[i], year, round)]
  {
    StandingRowsSnoc(items, i, year, round);
    Associate(rows, StandingRows(items[..i], year, round), [StandingRow(items[i], year, round)]);
  }

  /** The rows of the standings lists `lists`, list by list. */
  function ListsRows(lists: seq<Json>, key: string, year: int, round: Json): seq<Row> {
    if lists == [] then []
    else
      ListsRows(lists[..|lists| - 1], key, year, round) +
      StandingRows(Elements(Get(lists[|lists| - 1], key, JArr([]))), year, round)
  }

  lemma ListsRowsSnoc(lists: seq<Json>, i: nat, key: string, year: int, round: Json)
    requires i < |lists|
    ensures ListsRows(lists[..i + 1], key, year, round) ==
            ListsRows(lists[..i], key, year, round) + StandingRows(Elements(Get(lists[i], key, JArr([]))), year, round)
  {
    assert lists[..i + 1][..i] == lists[..i];
  }

  /** The standings lists of a round response. */
  function StandingsLists(data: Json): seq<Json> {
    Elements(Envelope(data, "StandingsTable", "StandingsLists"))
  }

  /** The rows a round's fetch `f` gives: none without data. */
  function RoundStandings(f: Fetched, year: int, dataset: string, race: Json): seq<Row> {
    if HasData(f.data)
    then ListsRows(StandingsLists(f.data.value), StandingsKey(dataset), year, Get(race, "round", JNull))
    else []
  }

  function StandingsRows(rounds: Rounds, year: int, dataset: string, races: seq<Json>): seq<Row> {
    if races == [] then []
    else
      var race := races[|races| - 1];
      var f := rounds(race);
      StandingsRows(rounds, year, dataset, races[..|races| - 1]) +
      RoundStandings(f, year, dataset, race)
  }

  lemma StandingsRowsSnoc(rounds: Rounds, year: int, dataset: string, races: seq<Json>, i: nat)
    requires i < |races|
    ensures var f := rounds(races[i]);
            StandingsRows(rounds, year, dataset, races[..i + 1]) ==
            StandingsRows(rounds, year, dataset, races[..i]) +
            RoundStandings(f, year, dataset, races[i])
  {
    assert races[..i + 1][..i] == races[..i];
  }

  /** The table for a season whose listing fetch is `season` and whose
      round fetches are `rounds`: nothing when the listing has no races. */
  function StandingsTable(season: Fetched, rounds: Rounds, year: int, dataset: string): Table {
    var races := SeasonRaces(season.data);
    if !Truthy(races) then Table([], season.trace)
    else Table(StandingsRows(rounds, year, dataset, Elements(races)),
               season.trace + RoundsTrace(rounds, Elements(races)))
  }

  /** `for item in s.get(key_name, [])`. */
  method AppendStandingItems(rows: seq<Row>, items: seq<Json>, year: int, round: Json) returns (rows': seq<Row>)
    ensures rows' == rows + StandingRows(items, year, round)
  {
    rows' := rows;
    var i := 0;
    while i < |items|
      invariant 0 <= i <= |items|
      invariant rows' == rows + StandingRows(items[..i], year, round)
    {
      var flat := StandingRow(items[i], year, round);
      ItemStep(rows, items, i, year, round);
      rows' := rows' + [flat];
      i := i + 1;
    }
    assert items[..|items|] == items;
  }

  /** `for s in standings_list`. */
  method AppendLists(rows: seq<Row>, lists: seq<Json>, key: string, year: int, round: Json) returns (rows': seq<Row>)
    ensures rows' == rows + ListsRows(lists, key, year, round)
  {
    rows' := rows;
    var i := 0;
    while i < |lists|
      invariant 0 <= i <= |lists|
      invariant rows' == rows + ListsRows(lists[..i], key, year, round)
    {
      ListsRowsSnoc(lists, i, key, year, round);
      Associate(rows, ListsRows(lists[..i], key, year, round),
                StandingRows(Elements(Get(lists[i], key, JArr([]))), year, round));
      rows' := AddList(rows', lists[i], key, year, round);
      i := i + 1;
    }
    assert lists[..|lists|] == lists;
  }

  /** One pass of `for s in standings_list`: the rows of `s`'s items. */
  method AddList(rows: seq<Row>, list: Json, key: string, year: int, round: Json) returns (rows': seq<Row>)
    ensures rows' == rows + StandingRows(Elements(Get(list, key, JArr([]))), year, round)
  {
    var items := Elements(Get(list, key, JArr([])));
    rows' := AppendStandingItems(rows, items, year, round);
  }

  /** One pass of `for race in races`: fetch the round's standings, skip
      the round when no data comes back, otherwise add its rows and pause. */
  method ProcessRound(net: Network, year: int, dataset: string, race: Json, rows: seq<Row>)
    returns (rows': seq<Row>, events: seq<Event>)
    ensures var f := RoundFetches(net, year, dataset)(race);
            rows' == rows + RoundStandings(f, year, dataset, race) &&
            events == f.trace + Pause(f)
  {
    var roundNum := Get(race, "round", JNull);
    var data;
    data, events := FetchRound(net, year, dataset, race);
    ghost var f := Fetched(data, events);
    if data.None? || !Truthy(data.value) {
      assert RoundStandings(f, year, dataset, race) == [] && Pause(f) == [];
      AppendEmpty(rows);
      AppendEmpty(events);
      return rows, events;
    }
    assert RoundStandings(f, year, dataset, race) ==
           ListsRows(StandingsLists(data.value), StandingsKey(dataset), year, roundNum);
    rows' := AddRound(rows, data.value, year, dataset, roundNum);
    events := events + [Sleep(Delay)];
  }

  /** The rows of a round response that has data. */
  method AddRound(rows: seq<Row>, data: Json, year: int, dataset: string, roundNum: Json) returns (rows': seq<Row>)
    ensures rows' == rows + ListsRows(StandingsLists(data), StandingsKey(dataset), year, roundNum)
  {
    var standingsList := Elements(Get(Get(Get(data, "MRData", JObj([])), "StandingsTable", JObj([])), "StandingsLists", JArr([])));
    var keyName := if dataset == "driverStandings" then "DriverStandings" else "ConstructorStandings";
    rows' := AppendLists(rows, standingsList, keyName, year, roundNum);
  }

  /** The loop `for race in races`. */
  method ProcessRaces(net: Network, year: int, dataset: string, races: seq<Json>)
    returns (rows: seq<Row>, trace: seq<Event>)
    ensures rows == StandingsRows(RoundFetches(net, year, dataset), year, dataset, races)
    ensures trace == RoundsTrace(RoundFetches(net, year, dataset), races)
  {
    ghost var rounds := RoundFetches(net, year, dataset);
    rows, trace := [], [];
    var i := 0;
    while i < |races|
      invariant 0 <= i <= |races|
      invariant rows == StandingsRows(rounds, year, dataset, races[..i])
      invariant trace == RoundsTrace(rounds, races[..i])
    {
      StandingsRowsSnoc(rounds, year, dataset, races, i);
      RoundsTraceSnoc(rounds, races, i);
      var events;
      rows, events := ProcessRound(net, year, dataset, races[i], rows);
      Associate(trace, rounds(races[i]).trace, Pause(rounds(races[i])));
      trace := trace + events;
      i := i + 1;
    }
    assert races[..|races|] == races;
  }

  method FetchStandingsPerRound(net: Network, year: int, dataset: string) returns (rows: seq<Row>, trace: seq<Event>)
    ensures Table(rows, trace) == StandingsTable(SeasonFetch(net, year), RoundFetches(net, year, dataset), year, dataset)
  {
    var races, seasonTrace := GetRacesForSeason(net, year);
    if !Truthy(races) {
      return [], seasonTrace;
    }
    var allRows, roundsTrace := ProcessRaces(net, year, dataset, Elements(races));
    trace := seasonTrace + roundsTrace;
    if allRows == [] {
      return [], trace;
    }
    rows := allRows;
  }

  /** A standings row reads the year under `season` and the round under
      `round`; every other column reads what the item's flattened row
      reads. */
  lemma StandingRowReads(item: Json, year: int, round: Json)
    ensures var row := StandingRow(item, year, round);
            Lookup(row, "season") == Some(JNum(year)) && Lookup(row, "round") == Some(round)
    ensures forall c :: c != "season" && c != "round" ==>
              Lookup(StandingRow(item, year, round), c) == Lookup(FlattenRow(Normalize(item)), c)
  {
    var flat := FlattenRow(Normalize(item));
    SetColumnReads(flat, "season", JNum(year));
    SetColumnReads(SetColumn(flat, "season", JNum(year)), "round", round);
  }

  /** The row gains no column other than `season` and `round`. */
  lemma StandingRowColumns(item: Json, year: int, round: Json)
    ensures var flat := FlattenRow(Normalize(item));
            var row := StandingRow(item, year, round);
            forall i :: 0 <= i < |row| ==> HasColumn(flat, row[i].0) || row[i].0 == "season" || row[i].0 == "round"
  {
    var flat := FlattenRow(Normalize(item));
    var tagged := SetColumn(flat, "season", JNum(year));
    TagColumns(flat, "season", JNum(year));
    TagColumns(tagged, "round", round);
  }

  lemma TagColumns(row: Row, k: string, v: Json)
    ensures forall i :: 0 <= i < |SetColumn(row, k, v)| ==>
              HasColumn(row, SetColumn(row, k, v)[i].0) || SetColumn(row, k, v)[i].0 == k
  {
    SetColumnShape(row, k, v);
  }

  /** A season whose race listing is empty gives an empty table, without
      fetching any round. */
  lemma NoRacesNoStandings(season: Fetched, rounds: Rounds, year: int, dataset: string)
    requires Elements(SeasonRaces(season.data)) == []
    ensures StandingsTable(season, rounds, year, dataset) == Table([], season.trace)
  {
    assert season.trace + [] == season.trace;
  }

  lemma {:induction false} StandingsRowsAppend(rounds: Rounds, year: int, dataset: string, a: seq<Json>, b: seq<Json>)
    decreases |b|
    ensures StandingsRows(rounds, year, dataset, a + b) ==
            StandingsRows(rounds, year, dataset, a) + StandingsRows(rounds, year, dataset, b)
  {
    if b == [] {
      assert a + b == a;
    } else {
      var b' := b[..|b| - 1];
      assert (a + b)[..|a + b| - 1] == a + b';
      StandingsRowsAppend(rounds, year, dataset, a, b');
      var race := b[|b| - 1];
      var f := rounds(race);
      var last := RoundStandings(f, year, dataset, race);
      Associate(StandingsRows(rounds, year, dataset, a), StandingsRows(rounds, year, dataset, b'), last);
    }
  }

  /** A round whose fetch brings no data contributes no standings, and the
      rounds after it are still processed. */
  lemma SkippedStandingsRound(rounds: Rounds, year: int, dataset: string, before: seq<Json>, race: Json, after: seq<Json>)
    requires !HasData(rounds(race).data)
    ensures StandingsRows(rounds, year, dataset, before + [race] + after) ==
            StandingsRows(rounds, year, dataset, before) + StandingsRows(rounds, year, dataset, after)
  {
    StandingsRowsAppend(rounds, year, dataset, before + [race], after);
    StandingsRowsAppend(rounds, year, dataset, before, [race]);
    assert [race][..0] == [];
    assert RoundStandings(rounds(race), year, dataset, race) == [];
    assert StandingsRows(rounds, year, dataset, [race]) == [] + [];
    assert StandingsRows(rounds, year, dataset, before) + [] == StandingsRows(rounds, year, dataset, before);
  }

  /** A row that reads `year` under `season` and `round` under `round`. */
  predicate RoundTagged(row: Row, year: int, round: Json) {
    Lookup(row, "season") == Some(JNum(year)) && Lookup(row, "round") == Some(round)
  }

  lemma StandingRowsTagged(items: seq<Json>, year: int, round: Json)
    ensures forall row :: row in StandingRows(items, year, round) ==> RoundTagged(row, year, round)
  {
    var rows := StandingRows(items, year, round);
    StandingRowsAt(items, year, round);
    forall k | 0 <= k < |rows| ensures RoundTagged(rows[k], year, round) {
      StandingRowReads(items[k], year, round);
    }
  }

  /** Every standings row of the lists of a round carries that round. */
  lemma {:induction false} ListsRowsTagged(lists: seq<Json>, key: string, year: int, round: Json)
    ensures forall row :: row in ListsRows(lists, key, year, round) ==> RoundTagged(row, year, round)
  {
    if lists != [] {
      ListsRowsTagged(lists[..|lists| - 1], key, year, round);
      StandingRowsTagged(Elements(Get(lists[|lists| - 1], key, JArr([]))), year, round);
    }
  }

  /** Every row of the season's table reads the season's year and the
      round of one of its races. */
  lemma {:induction false} StandingsRowsTagged(rounds: Rounds, year: int, dataset: string, races: seq<Json>)
    ensures forall row :: row in StandingsRows(rounds, year, dataset, races) ==>
              Lookup(row, "season") == Some(JNum(year)) &&
              exists race :: race in races && Lookup(row, "round") == Some(Get(race, "round", JNull))
  {
    if races != [] {
      var init := races[..|races| - 1];
      var race := races[|races| - 1];
      StandingsRowsTagged(rounds, year, dataset, init);
      var f := rounds(race);
      if HasData(f.data) {
        ListsRowsTagged(StandingsLists(f.data.value), StandingsKey(dataset), year, Get(race, "round", JNull));
      }
      assert forall r :: r in init ==> r in races;
      assert race in races;
    }
  }
}
