/** The caller's logical query and what the producer derives from it: the
    per-page wire parameters (the source's `pager` plus the API key) and
    the stream's configuration (page cap and throttle). */
module Requests {
  import opened Wrappers
  import opened Ints
  import Throttle

  /** A search or trending request. Ratings, formats, languages and sort
      orders are the strings the API accepts. */
  datatype Request = Request(
    query: string,
    rating: string,
    format: string,
    maxPageNumber: uint64,
    limitPerPage: uint64,
    language: string,
    sortBy: string,
    tag: string,
    throttleDurationMs: int64)

  /** `new(Request)`: every field at its zero value. */
  const DefaultRequest: Request := Request("", "", "", 0, 0, "", "", "", 0)

  /** A nil request is treated as the all-defaults request. */
  function Resolve(req: Option<Request>): (r: Request)
    ensures req.None? ==> r.maxPageNumber == 0 && r.throttleDurationMs == 0 && r.query == ""
    ensures req.Some? ==> r == req.value
  {
    match req
    case None => DefaultRequest
    case Some(r) => r
  }

  /** The query parameters of one page fetch. */
  datatype Pager = Pager(
    query: string,
    limit: uint64,
    rating: string,
    format: string,
    offset: uint64,
    language: string,
    sortBy: string,
    tag: string,
    apiKey: string)

  /** The parameters of the fetch at `offset`: the request's query, limit,
      rating, format, sort order and language, and the client's key. The
      paged fetch never fills in the tag. */
  function PagerFor(req: Request, apiKey: string, offset: uint64): (p: Pager)
    ensures p.offset == offset && p.tag == "" && p.apiKey == apiKey
    ensures p.query == req.query && p.limit == req.limitPerPage
    ensures p.rating == req.rating && p.format == req.format
    ensures p.language == req.language && p.sortBy == req.sortBy
  {
    Pager(req.query, req.limitPerPage, req.rating, req.format, offset, req.language, req.sortBy, "", apiKey)
  }

  /** What the producer fixes once per stream: the page cap (0 means
      unbounded) and the wait between pages, in nanoseconds. */
  datatype Config = Config(maxPage: uint64, throttle: nat)

  function Configure(req: Request): (c: Config)
    ensures c.maxPage == req.maxPageNumber
    ensures c.throttle == 0 <==> req.throttleDurationMs == Throttle.NoThrottle
    ensures c.throttle == Throttle.Throttle(req.throttleDurationMs)
  {
    Config(req.maxPageNumber, Throttle.Throttle(req.throttleDurationMs))
  }
}
