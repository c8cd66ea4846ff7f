/** `get_races_for_season` and the URLs of the per-season endpoints. */
module Season {
  import opened Wrappers
  import opened JsonValues
  import opened Config
  import opened Decimal
  import opened Http

  /** Python's `str(x)` of a JSON value inside an f-string, for the
      scalar values a round number can be. */
  function PyStr(j: Json): string {
    match j
    case JNull => "None"
    case JBool(b) => if b then "True" else "False"
    case JNum(n) => IntToDecimal(n)
    case JStr(s) => s
    case _ => ""
  }

  function SeasonUrl(year: int): string {
    BaseUrl + "/" + IntToDecimal(year) + ".json"
  }

  function RoundUrl(year: int, round: Json, dataset: string): string {
    BaseUrl + "/" + IntToDecimal(year) + "/" + PyStr(round) + "/" + dataset + ".json"
  }

  /** Whether `if not data` lets the code go on. */
  predicate HasData(data: Option<Json>) {
    data.Some? && Truthy(data.value)
  }

  /** `data.get("MRData", {}).get(table, {}).get(list, [])`. */
  function Envelope(data: Json, table: string, list: string): Json {
    Get(Get(Get(data, "MRData", JObj([])), table, JObj([])), list, JArr([]))
  }

  /** The races listed in a season response; none when the fetch failed. */
  function SeasonRaces(data: Option<Json>): (races: Json)
    ensures !HasData(data) ==> races == JArr([])
    ensures HasData(data) ==> races == Envelope(data.value, "RaceTable", "Races")
  {
    if !HasData(data) then JArr([]) else Envelope(data.value, "RaceTable", "Races")
  }

  function SeasonFetch(net: Network, year: int): Fetched {
    Fetch(net, SeasonUrl(year), Retries)
  }

  method GetRacesForSeason(net: Network, year: int) returns (races: Json, trace: seq<Event>)
    ensures races == SeasonRaces(SeasonFetch(net, year).data)
    ensures trace == SeasonFetch(net, year).trace
  {
    var url := BaseUrl + "/" + IntToDecimal(year) + ".json";
    var data;
    data, trace := SafeGetJson(net, url, Retries);
    if data.None? || !Truthy(data.value) {
      return JArr([]), trace;
    }
    races := Get(Get(Get(data.value, "MRData", JObj([])), "RaceTable", JObj([])), "Races", JArr([]));
  }

  /** What fetching the dataset of each race brings back. */
  type Rounds = Json -> Fetched

  function RoundFetches(net: Network, year: int, dataset: string): Rounds {
    race => Fetch(net, RoundUrl(year, Get(race, "round", JNull), dataset), Retries)
  }

  /** `safe_get_json` of the round's URL. */
  method FetchRound(net: Network, year: int, dataset: string, race: Json)
    returns (data: Option<Json>, events: seq<Event>)
    ensures Fetched(data, events) == RoundFetches(net, year, dataset)(race)
  {
    var url := RoundUrl(year, Get(race, "round", JNull), dataset);
    data, events := SafeGetJson(net, url, Retries);
  }

  /** The events of the per-round loops over `races`: each round's
      fetch, and a pause of `Delay` seconds after each round that was not
      skipped. */
  function Pause(f: Fetched): (events: seq<Event>)
    ensures events == [] || events == [Sleep(Delay)]
    ensures events != [] <==> HasData(f.data)
  {
    if HasData(f.data) then [Sleep(Delay)] else []
  }

  function RoundsTrace(rounds: Rounds, races: seq<Json>): seq<Event> {
    if races == [] then []
    else
      var f := rounds(races[|races| - 1]);
      RoundsTrace(rounds, races[..|races| - 1]) + f.trace + Pause(f)
  }

  /** One more round extends the events by that round's fetch and pause. */
  lemma RoundsTraceSnoc(rounds: Rounds, races: seq<Json>, i: nat)
    requires i < |races|
    ensures RoundsTrace(rounds, races[..i + 1]) ==
            RoundsTrace(rounds, races[..i]) + rounds(races[i]).trace + Pause(rounds(races[i]))
  {
    assert races[..i + 1][..i] == races[..i];
  }

  /** A table as the fetch functions return it: its rows (no rows is the
      empty `DataFrame`), with the events that produced it. */
  datatype Table = Table(rows: seq<Row>, trace: seq<Event>)

  /** The season URL names the year, and different years use different
      URLs. */
  lemma SeasonUrlInjective(a: int, b: int)
    requires SeasonUrl(a) == SeasonUrl(b)
    ensures a == b
  {
    var head := BaseUrl + "/";
    var da := IntToDecimal(a);
    var db := IntToDecimal(b);
    assert SeasonUrl(a) == head + (da + ".json");
    assert SeasonUrl(b) == head + (db + ".json");
    assert |da| == |db|;
    assert (head + (da + ".json"))[|head|..|head| + |da|] == da;
    assert (head + (db + ".json"))[|head|..|head| + |db|] == db;
    IntToDecimalInjective(a, b);
  }

  /** A failed season fetch lists no races. */
  lemma NoDataNoRaces(net: Network, year: int)
    requires !HasData(SeasonFetch(net, year).data)
    ensures Elements(SeasonRaces(SeasonFetch(net, year).data)) == []
    ensures !Truthy(SeasonRaces(SeasonFetch(net, year).data))
  {
  }
}
