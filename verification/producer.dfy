/** The paginated stream's producer loop, as a pure trace.

    The source runs the loop in a goroutine that sends pages on a channel,
    sleeps between pages, and stops early when the caller cancels. Here the
    network is a script of fetch outcomes (fetch `k` gets `outcomes[k]`),
    cancellation is the index of the first throttle wait that observes the
    closed signal, and the result is what the loop did: the pages it sent,
    the parameters of every fetch it attempted, the waits it completed, and
    why it stopped. */
module Producer {
  import opened Wrappers
  import opened Ints
  import opened Requests

  /** A result item. Only its identity matters to the loop; its many JSON
      fields are not modelled. */
  datatype Giph = Giph(id: string)

  /** Why one page fetch failed: query encoding, request construction,
      transport, a non-2xx status (carrying the status line), or JSON
      decoding. The loop treats them all alike. */
  datatype FetchError =
    | EncodeFailed(msg: string)
    | RequestFailed(msg: string)
    | TransportFailed(msg: string)
    | BadStatus(statusLine: string)
    | DecodeFailed(msg: string)

  /** The response's pagination metadata. */
  datatype Pagination = Pagination(totalCount: uint64, offset: uint64, count: uint64)

  /** What one fetch returned: an error, or the decoded items together with
      the pagination metadata when the response carried any. */
  datatype Outcome =
    | Fail(err: FetchError)
    | Ok(giphs: seq<Giph>, pagination: Option<Pagination>)

  /** One page sent to the consumer. */
  datatype Page = Page(giphs: seq<Giph>, err: Option<FetchError>, pageNumber: uint64)

  /** Why the loop stopped. `Unscripted` means the script ran out before the
      loop did: the trace is then only a prefix of the stream. */
  datatype End = Failed | Exhausted | Capped | Cancelled | Unscripted

  datatype Trace = Trace(pages: seq<Page>, requests: seq<Pager>, waits: seq<nat>, end: End)

  /** The environment of one stream: the fetch outcomes in order, and the
      wait (numbered by the page sent just before it) at which cancellation
      is first observed, if ever. */
  datatype Script = Script(outcomes: seq<Outcome>, cancelAt: Option<nat>)

  /** `pageExceeds`: with a cap of 0 nothing exceeds it, otherwise a page
      count reaching the cap does. */
  predicate PageExceeds(maxPage: uint64, page: uint64)
  {
    if maxPage <= 0 then false else page >= maxPage
  }

  /** The offset of the next fetch: advanced by the count the server
      reported, or unchanged when the response had no pagination metadata. */
  function NextOffset(offset: uint64, pagination: Option<Pagination>): (next: uint64)
  {
    match pagination
    case None => offset
    case Some(p) => AddUint64(offset, p.count)
  }

  /** The loop from its `k`-th iteration, with the page counter and offset
      that iteration starts with. */
  function Produce(req: Request, apiKey: string, cfg: Config, sc: Script,
                   k: nat, pageNumber: uint64, offset: uint64): (t: Trace)
    requires k <= |sc.outcomes|
    decreases |sc.outcomes| - k
    ensures |t.requests| <= |sc.outcomes| - k
    ensures |t.pages| <= |t.requests|
    ensures |t.waits| <= |t.requests|
    ensures |t.requests| > 0 ==> t.requests[0] == PagerFor(req, apiKey, offset)
    ensures |t.pages| > 0 ==> t.pages[0].pageNumber == pageNumber
    ensures forall j :: 0 <= j < |t.pages| - 1 ==> t.pages[j].err.None?
    ensures t.end == Failed <==> |t.pages| > 0 && t.pages[|t.pages| - 1].err.Some?
    ensures forall j :: 0 <= j < |t.waits| ==> t.waits[j] == cfg.throttle
  {
    if k == |sc.outcomes| then Trace([], [], [], Unscripted)
    else
      var p := PagerFor(req, apiKey, offset);
      match sc.outcomes[k]
      case Fail(e) => Trace([Page([], Some(e), pageNumber)], [p], [], Failed)
      case Ok(giphs, pagination) =>
        if |giphs| == 0 then Trace([], [p], [], Exhausted)
        else
          var page := Page(giphs, None, pageNumber);
          var next := AddUint64(pageNumber, 1);
          if PageExceeds(cfg.maxPage, next) then Trace([page], [p], [], Capped)
          else if sc.cancelAt == Some(k) then Trace([page], [p], [], Cancelled)
          else
            var rest := Produce(req, apiKey, cfg, sc, k + 1, next, NextOffset(offset, pagination));
            Trace([page] + rest.pages, [p] + rest.requests, [cfg.throttle] + rest.waits, rest.end)
  }

  /** `fetch`: a nil request means all defaults; the page counter and the
      offset both start at 0. */
  function Run(req: Option<Request>, apiKey: string, sc: Script): (t: Trace)
    ensures |t.requests| <= |sc.outcomes|
    ensures |t.requests| > 0 ==> t.requests[0].offset == 0
    ensures |t.pages| > 0 ==> t.pages[0].pageNumber == 0
    ensures t.end == Failed <==> |t.pages| > 0 && t.pages[|t.pages| - 1].err.Some?
  {
    var r := Resolve(req);
    Produce(r, apiKey, Configure(r), sc, 0, 0, 0)
  }
}
