/** `safe_get_json`: a GET with a bounded number of attempts and an
    exponential back-off on HTTP 429.

    The network is a parameter: `net(url, i)` is what the `i`-th attempt
    (counting from 0) of one call for `url` brings back. The requests made
    and the sleeps taken are reported as a trace of events. */
module Http {
  import opened Wrappers
  import opened JsonValues
  import opened Config

  /** What one attempt brings back: an exception from `requests.get`, or a
      response with its status code and its body (`None` when `r.json()`
      raises). */
  datatype Outcome = Raised | Response(status: int, body: Option<Json>)

  type Network = (string, nat) -> Outcome

  /** The observable side effects: a GET of a URL, a `time.sleep`. */
  datatype Event = Request(url: string) | Sleep(seconds: nat)

  predicate Succeeds(o: Outcome) {
    o.Response? && o.status == 200 && o.body.Some?
  }

  predicate TooMany(o: Outcome) {
    o.Response? && o.status == 429
  }

  /** The wait in force at attempt `i`: it doubles after every 429. */
  function Backoff(net: Network, url: string, i: nat): nat {
    if i == 0 then Delay
    else if TooMany(net(url, i - 1)) then 2 * Backoff(net, url, i - 1)
    else Backoff(net, url, i - 1)
  }

  /** The events of one attempt under wait `wait`. A 429 sleeps, doubles
      the wait, and sleeps again at the end of the attempt; any other
      failure sleeps once. */
  function AttemptEvents(url: string, o: Outcome, wait: nat): seq<Event> {
    [Request(url)] +
    (if Succeeds(o) then []
     else if TooMany(o) then [Sleep(wait), Sleep(2 * wait)]
     else [Sleep(wait)])
  }

  /** The events of the first `i` attempts, when none of them succeeded. */
  function TraceBefore(net: Network, url: string, i: nat): seq<Event> {
    if i == 0 then []
    else TraceBefore(net, url, i - 1) + AttemptEvents(url, net(url, i - 1), Backoff(net, url, i - 1))
  }

  /** The first attempt in `[i, n)` that succeeds, if any. */
  function FirstSuccess(net: Network, url: string, i: nat, n: int): (r: Option<nat>)
    decreases n - i
    ensures r.Some? ==> i <= r.value < n && Succeeds(net(url, r.value)) &&
                        forall j :: i <= j < r.value ==> !Succeeds(net(url, j))
    ensures r.None? ==> forall j :: i <= j < n ==> !Succeeds(net(url, j))
  {
    if n <= i then None
    else if Succeeds(net(url, i)) then Some(i)
    else FirstSuccess(net, url, i + 1, n)
  }

  /** What `safe_get_json` returns, and what it did on the way. */
  datatype Fetched = Fetched(data: Option<Json>, trace: seq<Event>)

  function Fetch(net: Network, url: string, retries: int): Fetched {
    match FirstSuccess(net, url, 0, retries)
    case Some(k) => Fetched(net(url, k).body, TraceBefore(net, url, k) + [Request(url)])
    case None => Fetched(None, TraceBefore(net, url, if retries < 0 then 0 else retries))
  }

  method SafeGetJson(net: Network, url: string, retries: int) returns (data: Option<Json>, trace: seq<Event>)
    ensures Fetched(data, trace) == Fetch(net, url, retries)
  {
    var wait := Delay;
    trace := [];
    var i: nat := 0;
    while i < retries
      invariant i == 0 || i <= retries
      invariant wait == Backoff(net, url, i)
      invariant trace == TraceBefore(net, url, i)
      invariant forall j :: 0 <= j < i ==> !Succeeds(net(url, j))
    {
      var r := net(url, i);
      trace := trace + [Request(url)];
      if r.Response? && r.status == 200 && r.body.Some? {
        return r.body, trace;
      } else if r.Response? && r.status == 429 {
        trace := trace + [Sleep(wait)];
        wait := wait * 2;
      }
      trace := trace + [Sleep(wait)];
      i := i + 1;
    }
    return None, trace;
  }

  /** The URLs a trace requested, in order. */
  function Requested(trace: seq<Event>): (urls: seq<string>)
    ensures |urls| <= |trace|
  {
    if trace == [] then []
    else Requested(trace[..|trace| - 1]) +
         (if trace[|trace| - 1].Request? then [trace[|trace| - 1].url] else [])
  }

  lemma {:induction false} RequestedAppend(a: seq<Event>, b: seq<Event>)
    decreases |b|
    ensures Requested(a + b) == Requested(a) + Requested(b)
  {
    if b == [] {
      assert a + b == a;
    } else {
      assert (a + b)[..|a + b| - 1] == a + b[..|b| - 1];
      RequestedAppend(a, b[..|b| - 1]);
    }
  }

  /** Each attempt makes exactly one request. */
  lemma AttemptRequests(url: string, o: Outcome, wait: nat)
    ensures Requested(AttemptEvents(url, o, wait)) == [url]
  {
    var tail := if Succeeds(o) then []
                else if TooMany(o) then [Sleep(wait), Sleep(2 * wait)]
                else [Sleep(wait)];
    RequestedAppend([Request(url)], tail);
    assert [Request(url)][..0] == [];
    if tail != [] {
      assert Requested(tail) == [] by {
        if |tail| == 2 {
          assert tail[..1][..0] == [];
        } else {
          assert tail[..0] == [];
        }
      }
    }
  }

  lemma {:induction false} TraceBeforeRequests(net: Network, url: string, i: nat)
    ensures Requested(TraceBefore(net, url, i)) == seq(i, _ => url)
  {
    if i > 0 {
      TraceBeforeRequests(net, url, i - 1);
      RequestedAppend(TraceBefore(net, url, i - 1), AttemptEvents(url, net(url, i - 1), Backoff(net, url, i - 1)));
      AttemptRequests(url, net(url, i - 1), Backoff(net, url, i - 1));
    }
  }

  /** Every request goes to `url`; there is one per attempt up to and
      including the first success, and never more than `retries`. */
  lemma FetchRequests(net: Network, url: string, retries: int)
    ensures var n := |Requested(Fetch(net, url, retries).trace)|;
            Requested(Fetch(net, url, retries).trace) == seq(n, _ => url) &&
            n <= (if retries < 0 then 0 else retries) &&
            (retries > 0 ==> n >= 1) &&
            (Fetch(net, url, retries).data.None? ==> n == (if retries < 0 then 0 else retries))
  {
    match FirstSuccess(net, url, 0, retries)
    case Some(k) =>
      TraceBeforeRequests(net, url, k);
      RequestedAppend(TraceBefore(net, url, k), [Request(url)]);
      assert [Request(url)][..0] == [];
    case None =>
      TraceBeforeRequests(net, url, if retries < 0 then 0 else retries);
  }

  /** The body of the first 200 response is returned, and `None` exactly
      when no attempt succeeded. */
  lemma FetchResult(net: Network, url: string, retries: int)
    ensures Fetch(net, url, retries).data.Some? <==>
            exists k :: 0 <= k < retries && Succeeds(net(url, k))
    ensures forall k :: 0 <= k < retries && Succeeds(net(url, k)) &&
                        (forall j :: 0 <= j < k ==> !Succeeds(net(url, j))) ==>
                        Fetch(net, url, retries).data == net(url, k).body
  {
  }

  function Pow2(n: nat): (p: nat)
    ensures p >= 1
  {
    if n == 0 then 1 else 2 * Pow2(n - 1)
  }

  /** How many of the first `i` attempts were answered with 429. */
  function TooManyBefore(net: Network, url: string, i: nat): (c: nat)
    ensures c <= i
  {
    if i == 0 then 0 else TooManyBefore(net, url, i - 1) + (if TooMany(net(url, i - 1)) then 1 else 0)
  }

  /** The wait is the base delay doubled once per 429 so far. */
  lemma {:induction false} BackoffIsExponential(net: Network, url: string, i: nat)
    ensures Backoff(net, url, i) == Delay * Pow2(TooManyBefore(net, url, i))
  {
    if i > 0 {
      BackoffIsExponential(net, url, i - 1);
    }
  }

  /** No attempt is made when `retries` is not positive. */
  lemma FetchNoRetries(net: Network, url: string, retries: int)
    requires retries <= 0
    ensures Fetch(net, url, retries) == Fetched(None, [])
  {
  }

  /** Two 429s, then a 200: three requests and sleeps of 2, 4, 4 and 8
      seconds. */
  lemma TwoTooManyThenOk(net: Network, url: string, body: Json)
    requires net(url, 0) == Response(429, None) && net(url, 1) == Response(429, None)
    requires net(url, 2) == Response(200, Some(body))
    ensures Fetch(net, url, Retries) ==
      Fetched(Some(body), [Request(url), Sleep(2), Sleep(4), Request(url), Sleep(4), Sleep(8), Request(url)])
  {
    assert FirstSuccess(net, url, 0, Retries) == Some(2);
    assert Backoff(net, url, 1) == 4;
    assert TraceBefore(net, url, 1) == [Request(url), Sleep(2), Sleep(4)];
  }

  /** Failures other than 429 leave the wait at the base delay: each
      attempt is a request followed by a sleep of `Delay` seconds. */
  lemma {:induction false} PlainFailures(net: Network, url: string, n: nat)
    requires forall i :: 0 <= i < n ==> !Succeeds(net(url, i)) && !TooMany(net(url, i))
    ensures Backoff(net, url, n) == Delay
    ensures TraceBefore(net, url, n) ==
      seq(2 * n, k => if k % 2 == 0 then Request(url) else Sleep(Delay))
  {
    if n > 0 {
      PlainFailures(net, url, n - 1);
      var t := TraceBefore(net, url, n);
      assert t == TraceBefore(net, url, n - 1) + [Request(url), Sleep(Delay)];
      assert |t| == 2 * n;
      forall k | 0 <= k < 2 * n
        ensures t[k] == if k % 2 == 0 then Request(url) else Sleep(Delay)
      {
        if k >= 2 * n - 2 {
          assert k == 2 * n - 2 || k == 2 * n - 1;
        }
      }
    }
  }

  /** All five attempts raise: five requests and the base delay after each. */
  lemma AllRaise(net: Network, url: string)
    requires forall i :: 0 <= i < Retries ==> net(url, i) == Raised
    ensures Fetch(net, url, Retries) ==
      Fetched(None, seq(10, k => if k % 2 == 0 then Request(url) else Sleep(Delay)))
  {
    PlainFailures(net, url, Retries);
  }
}
