/** `fetch_paginated`: fetch a listing endpoint page by page, `BatchSize`
    records at a time, until a page fails, comes back empty or is short. */
module Paginate {
  import opened Wrappers
  import opened JsonValues
  import opened Config
  import opened Decimal
  import opened Http
  import opened Frames
  import opened Sequences

  function Separator(url: string): string {
    if '?' in url then "&" else "?"
  }

  /** The URL of the page at `offset`. */
  function PagedUrl(url: string, offset: nat): string {
    url + Separator(url) + "limit=" + NatToDecimal(BatchSize) + "&offset=" + NatToDecimal(offset)
  }

  /** The page URL keeps `url` as its prefix and joins the query with `&`
      exactly when `url` already has one. */
  lemma PagedUrlShape(url: string, offset: nat)
    ensures |PagedUrl(url, offset)| > |url|
    ensures PagedUrl(url, offset)[..|url|] == url
    ensures PagedUrl(url, offset)[|url|] == '&' <==> '?' in url
    ensures PagedUrl(url, offset)[|url|] == '?' <==> '?' !in url
  {
    var r := PagedUrl(url, offset);
    assert r == url + Separator(url) + ("limit=" + NatToDecimal(BatchSize) + "&offset=" + NatToDecimal(offset));
    assert r[|url|] == Separator(url)[0];
  }

  /** Different offsets give different URLs. */
  lemma PagedUrlInjective(url: string, a: nat, b: nat)
    requires PagedUrl(url, a) == PagedUrl(url, b)
    ensures a == b
  {
    var head := url + Separator(url) + "limit=" + NatToDecimal(BatchSize) + "&offset=";
    assert PagedUrl(url, a) == head + NatToDecimal(a);
    assert PagedUrl(url, b) == head + NatToDecimal(b);
    assert (head + NatToDecimal(a))[|head|..] == NatToDecimal(a);
    assert (head + NatToDecimal(b))[|head|..] == NatToDecimal(b);
    NatToDecimalInjective(a, b);
  }

  /** `data.get("MRData", {})` followed by `.get(k, [])` for each key. */
  function Navigate(data: Json, keyPath: seq<string>): Json {
    if keyPath == [] then Get(data, "MRData", JObj([]))
    else Get(Navigate(data, keyPath[..|keyPath| - 1]), keyPath[|keyPath| - 1], JArr([]))
  }

  /** The records of a page, or `None` when the loop stops there without
      taking any: no data (`if not data`) or no items (`if not items`). */
  function PageRecords(data: Option<Json>, keyPath: seq<string>): Option<seq<Json>> {
    if data.None? || !Truthy(data.value) then None
    else
      var items := Navigate(data.value, keyPath);
      if !Truthy(items) then None else Some(Elements(items))
  }

  function PageUrl(url: string, k: nat): string {
    PagedUrl(url, k * BatchSize)
  }

  /** One pass of the loop, as far as the walk is concerned: the records it
      takes (`None` where it breaks before extending) and the events of its
      `safe_get_json` call. */
  datatype Page = Page(records: Option<seq<Json>>, trace: seq<Event>)

  /** The pass for page `k` of `url`. */
  function PageAt(net: Network, url: string, keyPath: seq<string>, k: nat): (p: Page)
    ensures p.trace == Fetch(net, PagedUrl(url, k * BatchSize), Retries).trace
  {
    var f := Fetch(net, PageUrl(url, k), Retries);
    Page(PageRecords(f.data, keyPath), f.trace)
  }

  /** How the passes go, page by page. */
  type Walk = nat -> Page

  function Pages(net: Network, url: string, keyPath: seq<string>): Walk {
    (k: nat) => PageAt(net, url, keyPath, k)
  }

  /** A full page: the loop goes on to the next one. */
  predicate Full(p: Page) {
    p.records.Some? && |p.records.value| >= BatchSize
  }

  /** Records collected from page `k` on; page `n` is known not to be full,
      so the walk ends there at the latest. */
  function RecordsFrom(w: Walk, k: nat, n: nat): seq<Json>
    requires k <= n && !Full(w(n))
    decreases n - k
  {
    var p := w(k);
    (if p.records.Some? then p.records.value else []) +
    (if Full(p) then RecordsFrom(w, k + 1, n) else [])
  }

  function TraceFrom(w: Walk, k: nat, n: nat): seq<Event>
    requires k <= n && !Full(w(n))
    decreases n - k
  {
    w(k).trace + (if Full(w(k)) then TraceFrom(w, k + 1, n) else [])
  }

  /** The pages visited from page `k` on. */
  function PagesFrom(w: Walk, k: nat, n: nat): seq<nat>
    requires k <= n && !Full(w(n))
    decreases n - k
  {
    [k] + (if Full(w(k)) then PagesFrom(w, k + 1, n) else [])
  }

  /** `json_normalize` of the collected records followed by `flatten`,
      record by record. */
  function Frame(records: seq<Json>): (rows: seq<Row>)
    ensures |rows| == |records|
    ensures forall i :: 0 <= i < |records| ==> rows[i] == FlattenRow(Normalize(records[i]))
  {
    seq(|records|, i requires 0 <= i < |records| => FlattenRow(Normalize(records[i])))
  }

  /** Normalising the accumulated records at once is normalising each
      batch and stacking the frames: `all_data.extend` followed by one
      `json_normalize` loses no row and keeps the batch order. */
  lemma FrameAppend(a: seq<Json>, b: seq<Json>)
    ensures Frame(a + b) == Frame(a) + Frame(b)
  {
    var l, r := Frame(a + b), Frame(a) + Frame(b);
    forall i | 0 <= i < |a + b| ensures l[i] == r[i] {
      if i < |a| {
        assert (a + b)[i] == a[i];
      } else {
        assert (a + b)[i] == b[i - |a|];
      }
    }
  }

  /** The `for k in key_path` walk into the envelope of a page. */
  method Extract(data: Json, keyPath: seq<string>) returns (items: Json)
    ensures items == Navigate(data, keyPath)
  {
    items := Get(data, "MRData", JObj([]));
    var i := 0;
    while i < |keyPath|
      invariant 0 <= i <= |keyPath|
      invariant items == Navigate(data, keyPath[..i])
    {
      assert keyPath[..i + 1][..i] == keyPath[..i];
      items := Get(items, keyPath[i], JArr([]));
      i := i + 1;
    }
    assert keyPath[..|keyPath|] == keyPath;
  }

  /** One pass of the loop up to `all_data.extend`: fetch the page at
      `offset` and take its records, or `None` where the loop breaks
      before extending. */
  method FetchPage(net: Network, url: string, keyPath: seq<string>, offset: nat)
    returns (page: Option<seq<Json>>, attempts: seq<Event>)
    ensures var f := Fetch(net, PagedUrl(url, offset), Retries);
            page == PageRecords(f.data, keyPath) && attempts == f.trace
  {
    var sep := if '?' in url then "&" else "?";
    var paged := url + sep + "limit=" + NatToDecimal(BatchSize) + "&offset=" + NatToDecimal(offset);
    var data;
    data, attempts := SafeGetJson(net, paged, Retries);
    if data.None? || !Truthy(data.value) {
      return None, attempts;
    }
    var items := Extract(data.value, keyPath);
    if !Truthy(items) {
      return None, attempts;
    }
    return Some(Elements(items)), attempts;
  }

  /** At a page that is not full the walk ends with that page. */
  lemma StopAt(w: Walk, k: nat, n: nat)
    requires k <= n && !Full(w(n)) && !Full(w(k))
    ensures RecordsFrom(w, k, n) == (if w(k).records.Some? then w(k).records.value else [])
    ensures TraceFrom(w, k, n) == w(k).trace
  {
  }

  /** At a full page the walk goes on with the next one. */
  lemma GoOn(w: Walk, k: nat, n: nat)
    requires k <= n && !Full(w(n)) && Full(w(k))
    ensures k < n
    ensures RecordsFrom(w, k, n) == w(k).records.value + RecordsFrom(w, k + 1, n)
    ensures TraceFrom(w, k, n) == w(k).trace + TraceFrom(w, k + 1, n)
  {
  }

  /** `n` is any page the walk cannot get past: one that fails, is empty
      or is short. */
  method FetchPaginated(net: Network, url: string, keyPath: seq<string>, ghost n: nat)
    returns (rows: seq<Row>, trace: seq<Event>)
    requires !Full(PageAt(net, url, keyPath, n))
    ensures rows == Frame(RecordsFrom(Pages(net, url, keyPath), 0, n))
    ensures trace == TraceFrom(Pages(net, url, keyPath), 0, n)
  {
    ghost var w := Pages(net, url, keyPath);
    var offset: nat := 0;
    var allData: seq<Json> := [];
    trace := [];
    ghost var k: nat := 0;
    while true
      invariant k <= n && offset == k * BatchSize
      invariant allData + RecordsFrom(w, k, n) == RecordsFrom(w, 0, n)
      invariant trace + TraceFrom(w, k, n) == TraceFrom(w, 0, n)
      decreases n - k
    {
      ghost var collected, traced := allData, trace;
      var page, attempts := FetchPage(net, url, keyPath, offset);
      assert w(k) == Page(page, attempts);
      trace := trace + attempts;
      if page.None? {
        StopAt(w, k, n);
        break;
      }
      allData := allData + page.value;
      offset := offset + BatchSize;
      if |page.value| < BatchSize {
        StopAt(w, k, n);
        break;
      }
      GoOn(w, k, n);
      Associate(collected, page.value, RecordsFrom(w, k + 1, n));
      Associate(traced, attempts, TraceFrom(w, k + 1, n));
      k := k + 1;
    }
    rows := Frame(allData);
  }

  /** `str(BATCH_SIZE)` is `1000`. */
  lemma BatchSizeText()
    ensures NatToDecimal(BatchSize) == "1000"
  {
    assert NatToDecimal(10) == "10";
    assert NatToDecimal(100) == NatToDecimal(10) + ['0'] == "100";
    assert NatToDecimal(1000) == NatToDecimal(100) + ['0'];
  }

  lemma QueryText(head: string, d: string)
    ensures head + "limit=" + "1000" + "&offset=" + d == head + "limit=1000&offset=" + d
  {
    assert "limit=" + "1000" + "&offset=" == "limit=1000&offset=";
    calc {
      head + "limit=" + "1000" + "&offset=" + d;
      head + ("limit=" + "1000" + "&offset=") + d;
      head + "limit=1000&offset=" + d;
    }
  }

  /** The page size in the query is written `1000`. */
  lemma PagedUrlText(url: string, offset: nat)
    ensures PagedUrl(url, offset) == url + Separator(url) + "limit=1000&offset=" + NatToDecimal(offset)
  {
    BatchSizeText();
    QueryText(url + Separator(url), NatToDecimal(offset));
  }

  /** The pages visited are k, k + 1, ... in order: every one of them but
      the last was full, and the last was not. */
  lemma {:induction false} PagesFromShape(w: Walk, k: nat, n: nat)
    requires k <= n && !Full(w(n))
    decreases n - k
    ensures var p := PagesFrom(w, k, n);
            |p| >= 1 && k + |p| - 1 <= n &&
            (forall i :: 0 <= i < |p| ==> p[i] == k + i) &&
            (forall i :: 0 <= i < |p| - 1 ==> Full(w(p[i]))) &&
            !Full(w(p[|p| - 1]))
  {
    if Full(w(k)) {
      PagesFromShape(w, k + 1, n);
    }
  }

  /** The offsets requested are 0, B, 2B, ...: non-negative and strictly
      increasing, one per page visited; the walk goes past a page exactly
      when it is full. */
  lemma PagesAreConsecutive(w: Walk, n: nat)
    requires !Full(w(n))
    ensures var p := PagesFrom(w, 0, n);
            |p| >= 1 &&
            (forall i :: 0 <= i < |p| ==> p[i] == i) &&
            (forall i, j :: 0 <= i < j < |p| ==> p[i] * BatchSize < p[j] * BatchSize) &&
            (forall i :: 0 <= i < |p| - 1 ==> Full(w(p[i]))) &&
            !Full(w(p[|p| - 1]))
  {
    PagesFromShape(w, 0, n);
  }

  /** The events of a run of pages, in page order. */
  function PagesTrace(w: Walk, pages: seq<nat>): seq<Event> {
    if pages == [] then [] else w(pages[0]).trace + PagesTrace(w, pages[1..])
  }

  /** The records of a run of pages, in page order. */
  function PagesRecords(w: Walk, pages: seq<nat>): seq<Json> {
    if pages == [] then []
    else
      var p := w(pages[0]);
      (if p.records.Some? then p.records.value else []) + PagesRecords(w, pages[1..])
  }

  /** The collected records and events are the concatenation, in order,
      of those of the pages visited. */
  lemma {:induction false} WalkIsPages(w: Walk, k: nat, n: nat)
    requires k <= n && !Full(w(n))
    decreases n - k
    ensures RecordsFrom(w, k, n) == PagesRecords(w, PagesFrom(w, k, n))
    ensures TraceFrom(w, k, n) == PagesTrace(w, PagesFrom(w, k, n))
  {
    var pages := PagesFrom(w, k, n);
    assert pages[1..] == if Full(w(k)) then PagesFrom(w, k + 1, n) else [];
    if Full(w(k)) {
      WalkIsPages(w, k + 1, n);
    } else {
      assert w(k).trace + [] == w(k).trace;
    }
  }

  /** Page `k` asks for its own URL, at least once and at most `Retries`
      times. */
  lemma PageRequests(net: Network, url: string, keyPath: seq<string>, k: nat)
    ensures var urls := Requested(PageAt(net, url, keyPath, k).trace);
            1 <= |urls| <= Retries && forall j :: 0 <= j < |urls| ==> urls[j] == PageUrl(url, k)
  {
    FetchRequests(net, PageUrl(url, k), Retries);
  }

  /** The requests of a run of pages of `url`: each page asks for its own
      URL at least once and at most `Retries` times, and the pages ask in
      page order. */
  lemma {:induction false} PagesTraceRequests(net: Network, url: string, keyPath: seq<string>, pages: seq<nat>)
    ensures var urls := Requested(PagesTrace(Pages(net, url, keyPath), pages));
            |pages| <= |urls| <= Retries * |pages| &&
            forall j :: 0 <= j < |urls| ==> OfPages(urls[j], url, pages)
  {
    if pages != [] {
      var w := Pages(net, url, keyPath);
      var first := w(pages[0]).trace;
      var rest := PagesTrace(w, pages[1..]);
      assert PagesTrace(w, pages) == first + rest;
      PageRequests(net, url, keyPath, pages[0]);
      PagesTraceRequests(net, url, keyPath, pages[1..]);
      RequestedAppend(first, rest);
      RequestsJoin(Requested(first), Requested(rest), url, pages);
    }
  }

  /** `u` is the URL of one of the pages `pages` of `url`. */
  predicate OfPages(u: string, url: string, pages: seq<nat>) {
    exists i :: 0 <= i < |pages| && u == PageUrl(url, pages[i])
  }

  lemma RequestsJoin(a: seq<string>, b: seq<string>, url: string, pages: seq<nat>)
    requires pages != []
    requires forall j :: 0 <= j < |a| ==> a[j] == PageUrl(url, pages[0])
    requires forall j :: 0 <= j < |b| ==> OfPages(b[j], url, pages[1..])
    ensures forall j :: 0 <= j < |a + b| ==> OfPages((a + b)[j], url, pages)
  {
    forall j | 0 <= j < |a + b| ensures OfPages((a + b)[j], url, pages) {
      if j < |a| {
        assert (a + b)[j] == PageUrl(url, pages[0]);
      } else {
        assert OfPages(b[j - |a|], url, pages[1..]);
        var i :| 0 <= i < |pages[1..]| && b[j - |a|] == PageUrl(url, pages[1..][i]);
        assert pages[1..][i] == pages[i + 1];
        assert (a + b)[j] == PageUrl(url, pages[i + 1]);
      }
    }
  }

  /** A first page shorter than a batch ends the walk: one page is
      fetched, with the URL for offset 0, and its records are the result;
      when its first attempt succeeds that is a single request. */
  lemma ShortFirstPage(net: Network, url: string, keyPath: seq<string>, records: seq<Json>)
    requires PageAt(net, url, keyPath, 0).records == Some(records) && |records| < BatchSize
    ensures PagesFrom(Pages(net, url, keyPath), 0, 0) == [0]
    ensures RecordsFrom(Pages(net, url, keyPath), 0, 0) == records
    ensures forall u :: u in Requested(TraceFrom(Pages(net, url, keyPath), 0, 0)) ==> u == PagedUrl(url, 0)
    ensures Succeeds(net(PagedUrl(url, 0), 0)) ==>
              Requested(TraceFrom(Pages(net, url, keyPath), 0, 0)) == [PagedUrl(url, 0)]
  {
    var w := Pages(net, url, keyPath);
    StopAt(w, 0, 0);
    assert PagesFrom(w, 0, 0) == [0] + [];
    assert w(0).trace == Fetch(net, PagedUrl(url, 0), Retries).trace;
    SingleFetchRequests(net, PagedUrl(url, 0));
  }

  /** Every request of one fetch is for its URL; a first attempt that
      succeeds is the only request. */
  lemma SingleFetchRequests(net: Network, u: string)
    ensures forall v :: v in Requested(Fetch(net, u, Retries).trace) ==> v == u
    ensures Succeeds(net(u, 0)) ==> Requested(Fetch(net, u, Retries).trace) == [u]
  {
    FetchRequests(net, u, Retries);
    if Succeeds(net(u, 0)) {
      assert FirstSuccess(net, u, 0, Retries) == Some(0);
      assert TraceBefore(net, u, 0) == [];
      assert Requested([Request(u)]) == [u] by {
        assert [Request(u)][..0] == [];
      }
    }
  }

  /** A page that brings no data ends the walk without adding records. */
  lemma FailedPageStops(w: Walk, k: nat, n: nat)
    requires k <= n && !Full(w(n))
    requires w(k).records.None?
    ensures PagesFrom(w, k, n) == [k]
    ensures RecordsFrom(w, k, n) == []
  {
  }
}
