/** Concrete streams: the situations the client's tests and documentation
    describe, worked through the model. */
module Scenarios {
  import opened Wrappers
  import opened Ints
  import opened Requests
  import opened Producer
  import opened ProducerSpec
  import opened StreamProperties

  /** A request with only a query and a page cap set. */
  function CappedQuery(query: string, maxPages: uint64): (r: Request)
    ensures r.maxPageNumber == maxPages && r.query == query
  {
    Request(query, "", "", maxPages, 0, "", "", "", 0)
  }

  /** `n` placeholder items. */
  function Items(n: nat): (gs: seq<Giph>)
    ensures |gs| == n
  {
    seq(n, _ => Giph("giph"))
  }

  /** A server that answers every page with 20 items and reports a count
      of 20, followed by an empty page at offset 80. */
  function TwentyPerPage(): (os: seq<Outcome>)
    ensures |os| == 5
  {
    [ Ok(Items(20), Some(Pagination(100, 0, 20))),
      Ok(Items(20), Some(Pagination(100, 20, 20))),
      Ok(Items(20), Some(Pagination(100, 40, 20))),
      Ok(Items(20), Some(Pagination(100, 60, 20))),
      Ok([], Some(Pagination(100, 80, 0))) ]
  }

  /** A query capped at 4 pages against that server: exactly pages 0..3
      of 20 items each, no error page, fetched at offsets 0, 20, 40 and
      60; the cap stops the stream before the empty page is ever fetched. */
  lemma MillyRockStopsAtFourPages(apiKey: string)
    ensures var t := Run(Some(CappedQuery("Milly Rock", 4)), apiKey, Script(TwentyPerPage(), None));
            && |t.pages| == 4
            && (forall j :: 0 <= j < 4 ==> t.pages[j] == Page(Items(20), None, j))
            && t.end == Capped
            && |t.requests| == 4
            && t.requests[0].offset == 0 && t.requests[1].offset == 20
            && t.requests[2].offset == 40 && t.requests[3].offset == 60
            && (forall j :: 0 <= j < 4 ==> t.requests[j].query == "Milly Rock")
  {
    var req := Some(CappedQuery("Milly Rock", 4));
    var sc := Script(TwentyPerPage(), None);
    CapReachedExactly(req, apiKey, sc);
    OffsetsAdvanceByReportedCount(req, apiKey, sc);
  }

  /** The trending-stickers test: with `MaxPageNumber: 2` and a server
      that keeps answering with items, the consumer counts exactly two
      pages with items and sees no error. */
  lemma TwoPagesWhenCappedAtTwo(apiKey: string, outcomes: seq<Outcome>)
    requires |outcomes| >= 2
    requires forall j :: 0 <= j < |outcomes| ==> outcomes[j].Ok? && |outcomes[j].giphs| > 0
    ensures var t := Run(Some(CappedQuery("", 2)), apiKey, Script(outcomes, None));
            && |t.pages| == 2
            && (forall j :: 0 <= j < |t.pages| ==> t.pages[j].err.None? && |t.pages[j].giphs| > 0)
  {
    CapReachedExactly(Some(CappedQuery("", 2)), apiKey, Script(outcomes, None));
  }

  /** A nil request is unbounded: as long as the server answers with items
      and nobody cancels, every answer becomes a page. */
  lemma NilRequestIsUnbounded(apiKey: string, outcomes: seq<Outcome>)
    requires forall j :: 0 <= j < |outcomes| ==> outcomes[j].Ok? && |outcomes[j].giphs| > 0
    ensures var t := Run(None, apiKey, Script(outcomes, None));
            |t.pages| == |outcomes| && t.end == Unscripted
  {
    var sc := Script(outcomes, None);
    FirstHaltIsLeast(Configure(DefaultRequest), sc, |outcomes|);
    RunMatchesExpected(None, apiKey, sc);
  }
}
