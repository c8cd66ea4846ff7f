/** `fetch_all_years`: one dataset over a range of seasons, the standings
    datasets per round and the others per race, joined in year order. */
module Years {
  import opened JsonValues
  import opened Wrappers
  import opened Http
  import opened Season
  import opened Standings
  import opened RaceData
  import opened Sequences

  /** `dataset in ["driverStandings", "constructorStandings"]`. */
  predicate IsStandings(dataset: string) {
    dataset == "driverStandings" || dataset == "constructorStandings"
  }

  /** `range(start_year, end_year + 1)`. */
  function Years(startYear: int, endYear: int): (years: seq<int>)
    ensures |years| == if endYear < startYear then 0 else endYear - startYear + 1
    ensures forall i :: 0 <= i < |years| ==> years[i] == startYear + i
  {
    seq(if endYear < startYear then 0 else endYear - startYear + 1, (i: int) => startYear + i)
  }

  /** The range holds exactly the years from `startYear` to `endYear`,
      each once, in increasing order. */
  lemma YearsMembers(startYear: int, endYear: int)
    ensures forall y :: y in Years(startYear, endYear) <==> startYear <= y <= endYear
    ensures forall i, j :: 0 <= i < j < |Years(startYear, endYear)| ==>
              Years(startYear, endYear)[i] < Years(startYear, endYear)[j]
  {
    var years := Years(startYear, endYear);
    forall y | startYear <= y <= endYear ensures y in years {
      assert years[y - startYear] == y;
    }
  }

  /** The table one season gives for `dataset`. */
  function YearTable(net: Network, dataset: string, year: int): Table {
    if IsStandings(dataset)
    then StandingsTable(SeasonFetch(net, year), RoundFetches(net, year, dataset), year, dataset)
    else RaceTable(SeasonFetch(net, year), RoundFetches(net, year, dataset), year)
  }

  /** The seasons' tables, as an oracle from year to table. */
  type Seasons = int -> Table

  function YearTables(net: Network, dataset: string): Seasons {
    (year: int) => YearTable(net, dataset, year)
  }

  /** `all_data`: the non-empty tables of `years`, in year order. */
  function Kept(tables: Seasons, years: seq<int>): seq<seq<Row>> {
    if years == [] then []
    else
      var t := tables(years[|years| - 1]);
      Kept(tables, years[..|years| - 1]) + (if t.rows != [] then [t.rows] else [])
  }

  /** The events of all the seasons, one season after another. */
  function Traces(tables: Seasons, years: seq<int>): seq<Event> {
    if years == [] then [] else Traces(tables, years[..|years| - 1]) + tables(years[|years| - 1]).trace
  }

  /** One more year extends the range at its end. */
  lemma YearsSnoc(startYear: int, year: int)
    requires startYear <= year
    ensures Years(startYear, year) == Years(startYear, year - 1) + [year]
  {
  }

  lemma KeptSnoc(tables: Seasons, years: seq<int>, year: int)
    ensures var t := tables(year);
            Kept(tables, years + [year]) == Kept(tables, years) + (if t.rows != [] then [t.rows] else [])
    ensures Traces(tables, years + [year]) == Traces(tables, years) + tables(year).trace
  {
    assert (years + [year])[..|years|] == years;
  }

  /** One pass of the loop: the dataset's fetch function for `year`. */
  method FetchYear(net: Network, dataset: string, year: int) returns (df: seq<Row>, events: seq<Event>)
    ensures Table(df, events) == YearTable(net, dataset, year)
  {
    if IsStandings(dataset) {
      df, events := FetchStandingsPerRound(net, year, dataset);
    } else {
      df, events := FetchRaceData(net, year, dataset);
    }
  }

  method FetchAllYears(net: Network, dataset: string, startYear: int, endYear: int)
    returns (rows: seq<Row>, trace: seq<Event>)
    ensures rows == Concat(Kept(YearTables(net, dataset), Years(startYear, endYear)))
    ensures trace == Traces(YearTables(net, dataset), Years(startYear, endYear))
  {
    ghost var tables := YearTables(net, dataset);
    var allData := [];
    trace := [];
    var year := startYear;
    while year <= endYear
      invariant year == startYear || startYear < year <= endYear + 1
      invariant allData == Kept(tables, Years(startYear, year - 1))
      invariant trace == Traces(tables, Years(startYear, year - 1))
      decreases endYear - year
    {
      YearsSnoc(startYear, year);
      KeptSnoc(tables, Years(startYear, year - 1), year);
      var df, events := FetchYear(net, dataset, year);
      if df != [] {
        allData := allData + [df];
      }
      trace := trace + events;
      year := year + 1;
    }
    if endYear < startYear {
      assert year == startYear;
    } else {
      assert year - 1 == endYear;
    }
    if allData != [] {
      return Concat(allData), trace;
    }
    return [], trace;
  }

  /** Every kept table has rows. */
  lemma {:induction false} KeptNonEmpty(tables: Seasons, years: seq<int>)
    ensures forall part :: part in Kept(tables, years) ==> part != []
    ensures |Kept(tables, years)| <= |years|
  {
    if years != [] {
      KeptNonEmpty(tables, years[..|years| - 1]);
    }
  }

  /** All the seasons' rows, one season after another. */
  function Joined(tables: Seasons, years: seq<int>): seq<Row> {
    if years == [] then [] else Joined(tables, years[..|years| - 1]) + tables(years[|years| - 1]).rows
  }

  /** Leaving out the empty tables loses no row: the result is every
      season's rows in year order. */
  lemma {:induction false} KeptJoined(tables: Seasons, years: seq<int>)
    ensures Concat(Kept(tables, years)) == Joined(tables, years)
  {
    if years != [] {
      var init := years[..|years| - 1];
      var t := tables(years[|years| - 1]);
      KeptJoined(tables, init);
      if t.rows != [] {
        ConcatAppend(Kept(tables, init), [t.rows]);
        assert [t.rows][..0] == [];
      } else {
        assert Joined(tables, init) + [] == Joined(tables, init);
        assert Kept(tables, init) + [] == Kept(tables, init);
      }
    }
  }

  /** Later years come after earlier ones. */
  lemma {:induction false} JoinedAppend(tables: Seasons, a: seq<int>, b: seq<int>)
    decreases |b|
    ensures Joined(tables, a + b) == Joined(tables, a) + Joined(tables, b)
    ensures Traces(tables, a + b) == Traces(tables, a) + Traces(tables, b)
  {
    if b == [] {
      assert a + b == a;
    } else {
      var b' := b[..|b| - 1];
      assert (a + b)[..|a + b| - 1] == a + b';
      JoinedAppend(tables, a, b');
      Associate(Joined(tables, a), Joined(tables, b'), tables(b[|b| - 1]).rows);
      Associate(Traces(tables, a), Traces(tables, b'), tables(b[|b| - 1]).trace);
    }
  }

  /** An empty range of years gives an empty table and fetches nothing. */
  lemma EmptyRange(tables: Seasons, startYear: int, endYear: int)
    requires endYear < startYear
    ensures Concat(Kept(tables, Years(startYear, endYear))) == []
    ensures Traces(tables, Years(startYear, endYear)) == []
  {
  }

  /** A single year gives that year's table. */
  lemma SingleYear(tables: Seasons, year: int)
    ensures Concat(Kept(tables, Years(year, year))) == tables(year).rows
    ensures Traces(tables, Years(year, year)) == tables(year).trace
  {
    var years := Years(year, year);
    assert years == [year];
    assert years[..0] == [];
    KeptJoined(tables, years);
    assert [] + tables(year).rows == tables(year).rows;
    assert [] + tables(year).trace == tables(year).trace;
  }

  /** Every row of a season's table, standings or race data, carries
      that season's year. */
  lemma YearRowsTagged(net: Network, dataset: string, year: int)
    ensures forall row :: row in YearTable(net, dataset, year).rows ==> Lookup(row, "season") == Some(JNum(year))
  {
    var season := SeasonFetch(net, year);
    var rounds := RoundFetches(net, year, dataset);
    var races := Elements(SeasonRaces(season.data));
    if IsStandings(dataset) {
      StandingsRowsTagged(rounds, year, dataset, races);
    } else {
      RaceRowsMeta(rounds, year, races);
    }
  }

  lemma {:induction false} JoinedTagged(net: Network, dataset: string, years: seq<int>)
    ensures forall row :: row in Joined(YearTables(net, dataset), years) ==>
              exists i :: 0 <= i < |years| && Lookup(row, "season") == Some(JNum(years[i]))
  {
    if years != [] {
      var init := years[..|years| - 1];
      var year := years[|years| - 1];
      JoinedTagged(net, dataset, init);
      YearRowsTagged(net, dataset, year);
      forall row | row in Joined(YearTables(net, dataset), years)
        ensures exists i :: 0 <= i < |years| && Lookup(row, "season") == Some(JNum(years[i]))
      {
        if row in Joined(YearTables(net, dataset), init) {
          var i :| 0 <= i < |init| && Lookup(row, "season") == Some(JNum(init[i]));
          assert init[i] == years[i];
        } else {
          assert years[|years| - 1] == year;
        }
      }
    }
  }

  /** Every row `fetch_all_years` returns belongs to a season of the range. */
  lemma AllYearsTagged(net: Network, dataset: string, startYear: int, endYear: int)
    ensures forall row :: row in Concat(Kept(YearTables(net, dataset), Years(startYear, endYear))) ==>
              exists year :: startYear <= year <= endYear && Lookup(row, "season") == Some(JNum(year))
  {
    var years := Years(startYear, endYear);
    KeptJoined(YearTables(net, dataset), years);
    JoinedTagged(net, dataset, years);
    forall row | row in Joined(YearTables(net, dataset), years)
      ensures exists year :: startYear <= year <= endYear && Lookup(row, "season") == Some(JNum(year))
    {
      var i :| 0 <= i < |years| && Lookup(row, "season") == Some(JNum(years[i]));
      assert startYear <= years[i] <= endYear;
    }
  }
}
