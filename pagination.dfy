/**
 * `all_records`: the loop that fetches one table
 * page by page. The HTTP responses are given as a sequence, answered in
 * order; the model records each GET (by URL) and each pause between pages,
 * and returns what the generator yields.
 */
module Pagination {
  import opened Wrappers
  import opened Values
  import opened Urls
  import opened Records

  const ApiRoot := "https://api.airtable.com/v0/"

  /**
   * A length of time in seconds. `time.sleep` raises ValueError on a
   * negative length, and the only pause the command asks for is the
   * default below, so pauses are never negative.
   */
  type Seconds = s: real | 0.0 <= s

  /** The pause `all_records` makes between pages when the caller gives none. */
  const DefaultSleep: Seconds := 0.2

  /** What one GET of the records endpoint gives: a decoded page, or an HTTP error. */
  datatype Response = Page(records: seq<RawRecord>, offset: Option<string>) | Failed(message: string)

  /** The effects the loop has on the outside world, in order. */
  datatype Event = Get(url: string) | Sleep(seconds: Seconds)

  /** Everything one run of the loop produces: its effects, the records it yields, and how it ends. */
  datatype Walk = Walk(events: seq<Event>, yielded: seq<RawRecord>, fault: Option<Fault>)

  /** Python truthiness of `data.get("offset")`: present and not empty. */
  predicate Truthy(offset: Option<string>)
  {
    offset.Some? && offset.value != ""
  }

  /** The loop ends after this response: it failed or carried no truthy offset. */
  predicate Stops(r: Response)
  {
    r.Failed? || !Truthy(r.offset)
  }

  /** Some response from index `i` on ends the loop, so the loop finishes. */
  predicate TerminatesFrom(pages: seq<Response>, i: nat)
  {
    exists j :: i <= j < |pages| && Stops(pages[j])
  }

  /** `quote(table, safe="")`: a table name that is not a string makes `quote` raise TypeError. */
  function TableSegment(table: Value): (r: Result<string, Fault>)
    ensures table.Str? ==> r == Ok(Quote(table.s))
    ensures !table.Str? ==> r == Err(TypeError)
  {
    match table
    case Str(name) => Ok(Quote(name))
    case _ => Err(TypeError)
  }

  /** The URL of one request: the offset query is added exactly when the offset is truthy. */
  function RecordsUrl(baseId: string, segment: string, offset: Option<string>): string
  {
    ApiRoot + baseId + "/" + segment + (if Truthy(offset) then "?offset=" + QuotePlus(offset.value) else "")
  }

  /**
   * The request URL for every offset the loop may send, for one base and
   * table. The loop itself is described over any such function, so that its
   * lemmas do not depend on how URLs are spelled.
   */
  function Endpoint(baseId: string, segment: string): Option<string> -> string
  {
    offset => RecordsUrl(baseId, segment, offset)
  }

  function Prepend(events: seq<Event>, yielded: seq<RawRecord>, w: Walk): Walk
  {
    Walk(events + w.events, yielded + w.yielded, w.fault)
  }

  /** The loop from the request for `pages[i]`, sent with the given offset. */
  function WalkFrom(endpoint: Option<string> -> string, pages: seq<Response>, sleep: Seconds, i: nat, offset: Option<string>): Walk
    requires TerminatesFrom(pages, i)
    decreases |pages| - i
  {
    var get := Get(endpoint(offset));
    match pages[i]
    case Failed(message) => Walk([get], [], Some(HttpError(message)))
    case Page(records, next) =>
      if Truthy(next) then
        assert TerminatesFrom(pages, i + 1) by {
          var j :| i <= j < |pages| && Stops(pages[j]);
          assert j != i;
        }
        Prepend([get] + (if sleep != 0.0 then [Sleep(sleep)] else []), records,
                WalkFrom(endpoint, pages, sleep, i + 1, next))
      else
        Walk([get], records, None)
  }

  /** What is left of the loop when the next request would carry `offset`: nothing once it is falsy. */
  function Rest(endpoint: Option<string> -> string, pages: seq<Response>, sleep: Seconds, i: nat, offset: Option<string>): Walk
    requires Truthy(offset) ==> TerminatesFrom(pages, i)
  {
    if Truthy(offset) then WalkFrom(endpoint, pages, sleep, i, offset) else Walk([], [], None)
  }

  lemma PrependPrepend(e1: seq<Event>, y1: seq<RawRecord>, e2: seq<Event>, y2: seq<RawRecord>, w: Walk)
    ensures Prepend(e1, y1, Prepend(e2, y2, w)) == Prepend(e1 + e2, y1 + y2, w)
  {
    assert e1 + (e2 + w.events) == (e1 + e2) + w.events;
    assert y1 + (y2 + w.yielded) == (y1 + y2) + w.yielded;
  }

  /** One turn of the loop on a page: its GET, its pause if any, its records, then the rest. */
  lemma WalkStep(endpoint: Option<string> -> string, pages: seq<Response>, sleep: Seconds, i: nat, offset: Option<string>)
    requires TerminatesFrom(pages, i) && i < |pages| && pages[i].Page?
    ensures Truthy(pages[i].offset) ==> TerminatesFrom(pages, i + 1)
    ensures WalkFrom(endpoint, pages, sleep, i, offset)
            == Prepend([Get(endpoint(offset))]
                         + (if Truthy(pages[i].offset) && sleep != 0.0 then [Sleep(sleep)] else []),
                       pages[i].records,
                       Rest(endpoint, pages, sleep, i + 1, pages[i].offset))
  {
    if Truthy(pages[i].offset) {
      var j :| i <= j < |pages| && Stops(pages[j]);
      assert j != i;
    } else {
      assert [Get(endpoint(offset))] + [] == [Get(endpoint(offset))];
      assert pages[i].records + [] == pages[i].records;
    }
  }

  /** The whole run of `all_records` for one table. */
  function AllRecordsSpec(baseId: string, table: Value, pages: seq<Response>, sleep: Seconds): Walk
    requires TerminatesFrom(pages, 0)
  {
    match TableSegment(table)
    case Err(f) => Walk([], [], Some(f))
    case Ok(segment) => WalkFrom(Endpoint(baseId, segment), pages, sleep, 0, None)
  }

  /** The index of the response that ends the loop when it starts at `pages[i]`. */
  function FirstStop(pages: seq<Response>, i: nat): (j: nat)
    requires TerminatesFrom(pages, i)
    ensures i <= j < |pages| && Stops(pages[j])
    ensures forall k :: i <= k < j ==> pages[k].Page? && Truthy(pages[k].offset)
    decreases |pages| - i
  {
    if Stops(pages[i]) then i
    else
      assert TerminatesFrom(pages, i + 1) by {
        var j :| i <= j < |pages| && Stops(pages[j]);
        assert j != i;
      }
      FirstStop(pages, i + 1)
  }

  /** Past a response that does not end the loop, the loop still ends, at the same response. */
  lemma FirstStopStep(pages: seq<Response>, i: nat)
    requires TerminatesFrom(pages, i) && i < |pages| && !Stops(pages[i])
    ensures TerminatesFrom(pages, i + 1)
    ensures FirstStop(pages, i) == FirstStop(pages, i + 1)
  {
    var j :| i <= j < |pages| && Stops(pages[j]);
    assert j != i;
  }

  /** The URLs of the GET events, in order. */
  function Requests(events: seq<Event>): seq<string>
  {
    if events == [] then [] else (if events[0].Get? then [events[0].url] else []) + Requests(events[1..])
  }

  /** The number of pauses. */
  function SleepCount(events: seq<Event>): nat
  {
    if events == [] then 0 else (if events[0].Sleep? then 1 else 0) + SleepCount(events[1..])
  }

  /** The records of `pages[i]` up to but not including `pages[j]`, concatenated in page order. */
  function RecordsIn(pages: seq<Response>, i: nat, j: nat): seq<RawRecord>
    requires i <= j <= |pages|
    decreases j - i
  {
    if i == j then [] else (if pages[i].Page? then pages[i].records else []) + RecordsIn(pages, i + 1, j)
  }

  lemma {:induction false} EventsConcat(a: seq<Event>, b: seq<Event>)
    ensures Requests(a + b) == Requests(a) + Requests(b)
    ensures SleepCount(a + b) == SleepCount(a) + SleepCount(b)
  {
    if a != [] {
      assert (a + b)[1..] == a[1..] + b;
      EventsConcat(a[1..], b);
    } else {
      assert a + b == b;
    }
  }

  /** A GET followed by pauses contributes exactly its URL to the requests. */
  lemma StepRequests(url: string, pause: seq<Event>, tail: seq<Event>)
    requires forall e :: e in pause ==> e.Sleep?
    decreases |pause|
    ensures Requests([Get(url)] + pause + tail) == [url] + Requests(tail)
  {
    EventsConcat([Get(url)] + pause, tail);
    EventsConcat([Get(url)], pause);
    assert Requests([Get(url)]) == [url];
    if pause != [] {
      assert pause == [pause[0]] + pause[1..];
      assert Requests(pause) == Requests(pause[1..]);
      StepRequests(url, pause[1..], []);
      assert [Get(url)] + pause[1..] + [] == [Get(url)] + pause[1..];
      EventsConcat([Get(url)], pause[1..]);
    }
  }

  /**
   * The URLs of the requests that follow `pages[i]` up to but not including
   * `pages[j]`: each carries the offset of the page before it.
   */
  function FollowUrls(endpoint: Option<string> -> string, pages: seq<Response>, i: nat, j: nat): (urls: seq<string>)
    requires i <= j <= |pages|
    decreases j - i
    ensures |urls| == j - i
  {
    if i == j then []
    else [endpoint(if pages[i].Page? then pages[i].offset else None)] + FollowUrls(endpoint, pages, i + 1, j)
  }

  lemma {:induction false} FollowUrlsAt(endpoint: Option<string> -> string, pages: seq<Response>, i: nat, j: nat, k: nat)
    requires i <= k < j <= |pages| && pages[k].Page?
    decreases k - i
    ensures FollowUrls(endpoint, pages, i, j)[k - i] == endpoint(pages[k].offset)
  {
    if k > i {
      FollowUrlsAt(endpoint, pages, i + 1, j, k);
    }
  }

  /** A request that follows a page with a truthy offset carries it as its query. */
  lemma FollowUrlQuery(baseId: string, segment: string, pages: seq<Response>, j: nat, k: nat)
    requires k < j <= |pages| && pages[k].Page? && Truthy(pages[k].offset)
    ensures FollowUrls(Endpoint(baseId, segment), pages, 0, j)[k]
            == ApiRoot + baseId + "/" + segment + "?offset=" + QuotePlus(pages[k].offset.value)
  {
    FollowUrlsAt(Endpoint(baseId, segment), pages, 0, j, k);
  }

  /**
   * The GETs of the loop from `pages[i]` on: one per page up to and including
   * the one that stops the loop, the first sent with the given offset and
   * each later one with the offset of the page before it.
   */
  lemma {:induction false} WalkRequests(endpoint: Option<string> -> string, pages: seq<Response>, sleep: Seconds, i: nat, offset: Option<string>)
    requires TerminatesFrom(pages, i)
    decreases |pages| - i
    ensures Requests(WalkFrom(endpoint, pages, sleep, i, offset).events)
            == [endpoint(offset)] + FollowUrls(endpoint, pages, i, FirstStop(pages, i))
  {
    var get := Get(endpoint(offset));
    if !Stops(pages[i]) {
      var rest := WalkFrom(endpoint, pages, sleep, i + 1, pages[i].offset);
      FirstStopStep(pages, i);
      WalkStep(endpoint, pages, sleep, i, offset);
      WalkRequests(endpoint, pages, sleep, i + 1, pages[i].offset);
      StepRequests(get.url, if sleep != 0.0 then [Sleep(sleep)] else [], rest.events);
    } else {
      assert WalkFrom(endpoint, pages, sleep, i, offset).events == [get];
      assert Requests([get]) == [get.url];
    }
  }

  /** The number of pauses of the loop from `pages[i]` on, and its last event. */
  lemma {:induction false} WalkSleepCount(endpoint: Option<string> -> string, pages: seq<Response>, sleep: Seconds, i: nat, offset: Option<string>)
    requires TerminatesFrom(pages, i)
    decreases |pages| - i
    ensures var es := WalkFrom(endpoint, pages, sleep, i, offset).events;
            && SleepCount(es) == (if sleep == 0.0 then 0 else FirstStop(pages, i) - i)
            && es != [] && es[|es| - 1].Get?
  {
    var get := Get(endpoint(offset));
    var es := WalkFrom(endpoint, pages, sleep, i, offset).events;
    if !Stops(pages[i]) {
      var pause := if sleep != 0.0 then [Sleep(sleep)] else [];
      var rest := WalkFrom(endpoint, pages, sleep, i + 1, pages[i].offset);
      FirstStopStep(pages, i);
      WalkStep(endpoint, pages, sleep, i, offset);
      assert Rest(endpoint, pages, sleep, i + 1, pages[i].offset) == rest;
      assert es == ([get] + pause) + rest.events;
      WalkSleepCount(endpoint, pages, sleep, i + 1, pages[i].offset);
      SleepsStep(get, pause, rest.events);
      assert SleepCount(es) == |pause| + SleepCount(rest.events);
      assert es[|es| - 1] == rest.events[|rest.events| - 1];
    } else {
      assert es == [get];
      assert [get][1..] == [];
    }
  }

  /**
   * The events of a run that sends the given URLs in order: a GET for each,
   * with a pause of `sleep` seconds between consecutive GETs when `sleep` is
   * nonzero.
   */
  function Trace(urls: seq<string>, sleep: Seconds): (es: seq<Event>)
    requires urls != []
    decreases |urls|
  {
    if |urls| == 1 then [Get(urls[0])]
    else [Get(urls[0])] + (if sleep != 0.0 then [Sleep(sleep)] else []) + Trace(urls[1..], sleep)
  }

  /** With a nonzero pause the events alternate: GET, pause, GET, ..., GET. */
  lemma {:induction false} TraceSpaced(urls: seq<string>, sleep: Seconds)
    requires urls != [] && sleep != 0.0
    decreases |urls|
    ensures var es := Trace(urls, sleep);
            && |es| == 2 * |urls| - 1
            && forall k :: 0 <= k < |es| ==> es[k] == if k % 2 == 0 then Get(urls[k / 2]) else Sleep(sleep)
  {
    if |urls| > 1 {
      var es := Trace(urls, sleep);
      var rest := Trace(urls[1..], sleep);
      TraceSpaced(urls[1..], sleep);
      assert es == [Get(urls[0]), Sleep(sleep)] + rest;
      forall k | 2 <= k < |es|
        ensures es[k] == if k % 2 == 0 then Get(urls[k / 2]) else Sleep(sleep)
      {
        assert es[k] == rest[k - 2];
        assert (k - 2) % 2 == k % 2 && (k - 2) / 2 == k / 2 - 1;
      }
    }
  }

  /** Without a pause the events are the GETs alone, one per URL. */
  lemma {:induction false} TraceBare(urls: seq<string>, sleep: Seconds)
    requires urls != [] && sleep == 0.0
    decreases |urls|
    ensures var es := Trace(urls, sleep);
            |es| == |urls| && forall k :: 0 <= k < |es| ==> es[k] == Get(urls[k])
  {
    if |urls| > 1 {
      TraceBare(urls[1..], sleep);
      assert Trace(urls, sleep) == [Get(urls[0])] + Trace(urls[1..], sleep);
    }
  }

  /**
   * The events of the loop from `pages[i]` on are exactly the trace of its
   * requests: the GET sent with the given offset, then, after a pause, one
   * GET carrying each next offset, up to the page that stops the loop.
   */
  lemma {:induction false} WalkTrace(endpoint: Option<string> -> string, pages: seq<Response>, sleep: Seconds, i: nat, offset: Option<string>)
    requires TerminatesFrom(pages, i)
    decreases |pages| - i
    ensures WalkFrom(endpoint, pages, sleep, i, offset).events
            == Trace([endpoint(offset)] + FollowUrls(endpoint, pages, i, FirstStop(pages, i)), sleep)
  {
    var stop := FirstStop(pages, i);
    var urls := [endpoint(offset)] + FollowUrls(endpoint, pages, i, stop);
    if !Stops(pages[i]) {
      FirstStopStep(pages, i);
      WalkStep(endpoint, pages, sleep, i, offset);
      var rest := WalkFrom(endpoint, pages, sleep, i + 1, pages[i].offset);
      assert Rest(endpoint, pages, sleep, i + 1, pages[i].offset) == rest;
      WalkTrace(endpoint, pages, sleep, i + 1, pages[i].offset);
      assert urls[1..] == [endpoint(pages[i].offset)] + FollowUrls(endpoint, pages, i + 1, stop);
    } else {
      assert urls == [endpoint(offset)];
    }
  }

  /**
   * The pauses of the loop from `pages[i]` on, with `n` the pages before the
   * one that stops it. With a nonzero `sleep` the events alternate GET and
   * a pause of exactly `sleep` seconds, starting and ending with a GET: one
   * pause right after each of the `n` pages that carried an offset. With a
   * zero `sleep` every event is a GET.
   */
  lemma WalkSleeps(endpoint: Option<string> -> string, pages: seq<Response>, sleep: Seconds, i: nat, offset: Option<string>)
    requires TerminatesFrom(pages, i)
    ensures var es := WalkFrom(endpoint, pages, sleep, i, offset).events;
            var n := FirstStop(pages, i) - i;
            && SleepCount(es) == (if sleep == 0.0 then 0 else n)
            && es != [] && es[|es| - 1].Get?
            && (sleep != 0.0 ==> |es| == 2 * n + 1
                                 && forall k :: 0 <= k < |es| ==> (es[k].Get? <==> k % 2 == 0) && (k % 2 == 1 ==> es[k] == Sleep(sleep)))
            && (sleep == 0.0 ==> |es| == n + 1 && forall k :: 0 <= k < |es| ==> es[k].Get?)
  {
    var urls := [endpoint(offset)] + FollowUrls(endpoint, pages, i, FirstStop(pages, i));
    WalkSleepCount(endpoint, pages, sleep, i, offset);
    WalkTrace(endpoint, pages, sleep, i, offset);
    if sleep != 0.0 {
      TraceSpaced(urls, sleep);
    } else {
      TraceBare(urls, sleep);
    }
  }

  /** A GET and at most one pause in front of a trace add that pause to the count and keep its last event. */
  lemma SleepsStep(get: Event, pause: seq<Event>, tail: seq<Event>)
    requires |pause| <= 1 && (pause != [] ==> pause[0].Sleep?)
    requires tail != []
    ensures SleepCount([get] + pause + tail) == (if get.Sleep? then 1 else 0) + |pause| + SleepCount(tail)
    ensures ([get] + pause + tail)[|[get] + pause + tail| - 1] == tail[|tail| - 1]
  {
    EventsConcat([get] + pause, tail);
    if pause != [] {
      assert ([get] + pause)[1..] == pause;
      assert pause[1..] == [];
    }
  }

  /**
   * What the loop from `pages[i]` on yields: the records of the pages up to
   * and including the one that stops it, in page order; and it ends with an
   * HTTP error exactly when that last response failed.
   */
  lemma {:induction false} WalkYields(endpoint: Option<string> -> string, pages: seq<Response>, sleep: Seconds, i: nat, offset: Option<string>)
    requires TerminatesFrom(pages, i)
    decreases |pages| - i
    ensures var w := WalkFrom(endpoint, pages, sleep, i, offset);
            var stop := FirstStop(pages, i);
            && w.yielded == RecordsIn(pages, i, stop + 1)
            && w.fault == (if pages[stop].Failed? then Some(HttpError(pages[stop].message)) else None)
  {
    var stop := FirstStop(pages, i);
    var w := WalkFrom(endpoint, pages, sleep, i, offset);
    if !Stops(pages[i]) {
      FirstStopStep(pages, i);
      WalkStep(endpoint, pages, sleep, i, offset);
      var rest := WalkFrom(endpoint, pages, sleep, i + 1, pages[i].offset);
      assert Rest(endpoint, pages, sleep, i + 1, pages[i].offset) == rest;
      WalkYields(endpoint, pages, sleep, i + 1, pages[i].offset);
      assert w.yielded == pages[i].records + rest.yielded && w.fault == rest.fault;
      assert RecordsIn(pages, i, stop + 1) == pages[i].records + RecordsIn(pages, i + 1, stop + 1);
    } else {
      assert RecordsIn(pages, i, i + 1) == (if pages[i].Page? then pages[i].records else []) + [];
    }
  }

  /** The GETs of a run for an encoded table name: the bare path, then one URL per page with an offset. */
  lemma RunRequests(baseId: string, segment: string, pages: seq<Response>, sleep: Seconds)
    requires TerminatesFrom(pages, 0)
    ensures Requests(WalkFrom(Endpoint(baseId, segment), pages, sleep, 0, None).events)
            == [RecordsUrl(baseId, segment, None)] + FollowUrls(Endpoint(baseId, segment), pages, 0, FirstStop(pages, 0))
  {
    WalkRequests(Endpoint(baseId, segment), pages, sleep, 0, None);
  }

  /**
   * The requests of one run of `all_records` for a table named `name`. With
   * `stop` the first response that fails or carries no truthy offset, there
   * are `stop + 1` GETs: one more than the number of pages that returned a
   * truthy offset. The first has no query; each later one carries the
   * previous page's offset as its only query.
   */
  lemma AllRecordsRequests(baseId: string, name: string, pages: seq<Response>, sleep: Seconds)
    requires TerminatesFrom(pages, 0)
    ensures var rs := Requests(AllRecordsSpec(baseId, Str(name), pages, sleep).events);
            var stop := FirstStop(pages, 0);
            var path := ApiRoot + baseId + "/" + Quote(name);
            && |rs| == stop + 1
            && rs[0] == path
            && forall k :: 1 <= k <= stop ==>
                 pages[k - 1].Page? && Truthy(pages[k - 1].offset)
                 && rs[k] == path + "?offset=" + QuotePlus(pages[k - 1].offset.value)
  {
    var segment := Quote(name);
    var stop := FirstStop(pages, 0);
    var rs := Requests(AllRecordsSpec(baseId, Str(name), pages, sleep).events);
    RunRequests(baseId, segment, pages, sleep);
    assert rs[0] == ApiRoot + baseId + "/" + segment + "";
    forall k | 1 <= k <= stop
      ensures rs[k] == ApiRoot + baseId + "/" + segment + "?offset=" + QuotePlus(pages[k - 1].offset.value)
    {
      FollowUrlQuery(baseId, segment, pages, stop, k - 1);
    }
  }

  /**
   * The rest of one run of `all_records`. A table name that is not a string
   * fails with TypeError before any request. Otherwise there is a pause of
   * `sleep` seconds right after the GET of each of the `stop` pages that
   * returned an offset, so GETs and pauses alternate (only GETs when `sleep`
   * is zero), and never one after the last page; the records yielded are those of
   * the requested pages, in page order; and the run ends with an HTTP error
   * exactly when the last response failed.
   */
  lemma AllRecordsOutcome(baseId: string, table: Value, pages: seq<Response>, sleep: Seconds)
    requires TerminatesFrom(pages, 0)
    ensures !table.Str? ==> AllRecordsSpec(baseId, table, pages, sleep) == Walk([], [], Some(TypeError))
    ensures table.Str? ==>
              var w := AllRecordsSpec(baseId, table, pages, sleep);
              var stop := FirstStop(pages, 0);
              && |Requests(w.events)| == stop + 1
              && SleepCount(w.events) == (if sleep == 0.0 then 0 else stop)
              && w.events != [] && w.events[|w.events| - 1].Get?
              && (sleep != 0.0 ==> |w.events| == 2 * stop + 1
                                   && forall k :: 0 <= k < |w.events| ==>
                                        (w.events[k].Get? <==> k % 2 == 0) && (k % 2 == 1 ==> w.events[k] == Sleep(sleep)))
              && (sleep == 0.0 ==> forall k :: 0 <= k < |w.events| ==> w.events[k].Get?)
              && w.yielded == RecordsIn(pages, 0, stop + 1)
              && w.fault == (if pages[stop].Failed? then Some(HttpError(pages[stop].message)) else None)
  {
    if table.Str? {
      WalkRequests(Endpoint(baseId, Quote(table.s)), pages, sleep, 0, None);
      WalkSleeps(Endpoint(baseId, Quote(table.s)), pages, sleep, 0, None);
      WalkYields(Endpoint(baseId, Quote(table.s)), pages, sleep, 0, None);
    }
  }

  /**
   * What is left of the loop before the request that would carry `offset`:
   * all of it on the first turn, and otherwise nothing once the offset is falsy.
   */
  function Pending(endpoint: Option<string> -> string, pages: seq<Response>, sleep: Seconds, i: nat, offset: Option<string>,
                   first: bool): Walk
    requires first || Truthy(offset) ==> TerminatesFrom(pages, i)
  {
    if first then WalkFrom(endpoint, pages, sleep, i, offset) else Rest(endpoint, pages, sleep, i, offset)
  }

  lemma PrependNothing(w: Walk)
    ensures Prepend([], [], w) == w
  {
    assert [] + w.events == w.events && [] + w.yielded == w.yielded;
  }

  /** One turn of the loop on a page: its GET and pause join the events, its records the yielded ones. */
  lemma LoopTurn(endpoint: Option<string> -> string, pages: seq<Response>, sleep: Seconds, i: nat, offset: Option<string>,
                 done: seq<Event>, yielded: seq<RawRecord>)
    requires TerminatesFrom(pages, i) && i < |pages| && pages[i].Page?
    ensures Truthy(pages[i].offset) ==> TerminatesFrom(pages, i + 1)
    ensures var get := Get(endpoint(offset));
            var rest := Rest(endpoint, pages, sleep, i + 1, pages[i].offset);
            var yielded' := yielded + pages[i].records;
            Prepend(done, yielded, WalkFrom(endpoint, pages, sleep, i, offset))
            == if Truthy(pages[i].offset) && sleep != 0.0 then Prepend(done + [get] + [Sleep(sleep)], yielded', rest)
               else Prepend(done + [get], yielded', rest)
  {
    var get := Get(endpoint(offset));
    var pause := if Truthy(pages[i].offset) && sleep != 0.0 then [Sleep(sleep)] else [];
    WalkStep(endpoint, pages, sleep, i, offset);
    PrependPrepend(done, yielded, [get] + pause, pages[i].records, Rest(endpoint, pages, sleep, i + 1, pages[i].offset));
    assert done + ([get] + pause) == done + [get] + pause;
    if pause == [] {
      assert done + [get] + [] == done + [get];
    }
  }

  /** A failed response ends the loop with its GET and the HTTP error. */
  lemma LoopFailed(endpoint: Option<string> -> string, pages: seq<Response>, sleep: Seconds, i: nat, offset: Option<string>,
                   done: seq<Event>, yielded: seq<RawRecord>)
    requires TerminatesFrom(pages, i) && i < |pages| && pages[i].Failed?
    ensures Prepend(done, yielded, WalkFrom(endpoint, pages, sleep, i, offset))
            == Walk(done + [Get(endpoint(offset))], yielded, Some(HttpError(pages[i].message)))
  {
    assert yielded + [] == yielded;
  }

  /** Once the offset is falsy nothing is left to do: the run is what was gathered so far. */
  lemma LoopEnd(endpoint: Option<string> -> string, pages: seq<Response>, sleep: Seconds, i: nat, offset: Option<string>,
                done: seq<Event>, yielded: seq<RawRecord>)
    requires !Truthy(offset)
    ensures Prepend(done, yielded, Rest(endpoint, pages, sleep, i, offset)) == Walk(done, yielded, None)
  {
    assert done + [] == done && yielded + [] == yielded;
  }

  /**
   * One run of `all_records`. The table name is encoded before each request;
   * it is the same every time, so a name that is not a string fails with
   * TypeError at the first encoding, before any request, and otherwise no
   * encoding fails.
   */
  method AllRecords(baseId: string, table: Value, pages: seq<Response>, sleep: Seconds)
    returns (events: seq<Event>, yielded: seq<RawRecord>, fault: Option<Fault>)
    requires TerminatesFrom(pages, 0)
    ensures Walk(events, yielded, fault) == AllRecordsSpec(baseId, table, pages, sleep)
  {
    if !table.Str? {
      return [], [], Some(TypeError);
    }
    events, yielded, fault := FetchAll(baseId, table.s, pages, sleep);
  }

  /**
   * The `while first or offset` loop of `all_records` for a table named
   * `name`, with `first` and `offset` as the source keeps them: GET, stop on
   * a failed response, take the page's offset and records, pause when the
   * offset is truthy and `sleep` is nonzero.
   */
  method FetchAll(baseId: string, name: string, pages: seq<Response>, sleep: Seconds)
    returns (events: seq<Event>, yielded: seq<RawRecord>, fault: Option<Fault>)
    requires TerminatesFrom(pages, 0)
    ensures Walk(events, yielded, fault) == WalkFrom(Endpoint(baseId, Quote(name)), pages, sleep, 0, None)
  {
    events, yielded, fault := [], [], None;
    ghost var endpoint := Endpoint(baseId, Quote(name));
    var first := true;
    var offset: Option<string> := None;
    var i := 0;
    PrependNothing(WalkFrom(endpoint, pages, sleep, 0, None));
    while first || Truthy(offset)
      invariant i <= |pages|
      invariant first || Truthy(offset) ==> TerminatesFrom(pages, i)
      invariant WalkFrom(endpoint, pages, sleep, 0, None)
                == Prepend(events, yielded, Pending(endpoint, pages, sleep, i, offset, first))
      decreases |pages| - i, first
    {
      assert Pending(endpoint, pages, sleep, i, offset, first) == WalkFrom(endpoint, pages, sleep, i, offset);
      first := false;
      var url := RecordsUrl(baseId, Quote(name), offset);
      assert url == endpoint(offset);
      ghost var done := events;
      events := events + [Get(url)];
      var response := pages[i];
      if response.Failed? {
        fault := Some(HttpError(response.message));
        LoopFailed(endpoint, pages, sleep, i, offset, done, yielded);
        return;
      }
      LoopTurn(endpoint, pages, sleep, i, offset, done, yielded);
      offset := response.offset;
      yielded := yielded + response.records;
      if Truthy(offset) && sleep != 0.0 {
        events := events + [Sleep(sleep)];
      }
      i := i + 1;
    }
    assert Pending(endpoint, pages, sleep, i, offset, first) == Rest(endpoint, pages, sleep, i, offset);
    LoopEnd(endpoint, pages, sleep, i, offset, events, yielded);
  }
}
