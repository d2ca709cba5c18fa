/** The promises the paginated stream makes to its consumer, each proved
    for every request, API key and fetch script. */
module StreamProperties {
  import opened Wrappers
  import opened Ints
  import opened Requests
  import opened Producer
  import opened ProducerSpec
  import Throttle

  /** Page numbers count 0, 1, 2, ... with no gap and no repeat (the
      uint64 counter would wrap only after 2^64 pages). */
  lemma PageNumbersContiguous(req: Option<Request>, apiKey: string, sc: Script)
    ensures var t := Run(req, apiKey, sc);
            forall j :: 0 <= j < |t.pages| ==> t.pages[j].pageNumber == j % TWO_TO_THE_64
    ensures var t := Run(req, apiKey, sc);
            forall j :: 0 <= j < |t.pages| && j < TWO_TO_THE_64 ==> t.pages[j].pageNumber == j
  {
    RunMatchesExpected(req, apiKey, sc);
  }

  /** Every page without an error carries exactly the items of the fetch
      with its index, and there was at least one. */
  lemma PagesCarryFetchedItems(req: Option<Request>, apiKey: string, sc: Script)
    ensures var t := Run(req, apiKey, sc);
            forall j :: 0 <= j < |t.pages| && t.pages[j].err.None? ==>
              && j < |sc.outcomes|
              && sc.outcomes[j].Ok?
              && t.pages[j].giphs == sc.outcomes[j].giphs
              && |t.pages[j].giphs| > 0
  {
    var cfg := Configure(Resolve(req));
    var t := Run(req, apiKey, sc);
    RunMatchesExpected(req, apiKey, sc);
    forall j | 0 <= j < |t.pages| && t.pages[j].err.None?
      ensures j < |sc.outcomes| && sc.outcomes[j].Ok? && |sc.outcomes[j].giphs| > 0
    {
      if j < FirstHalt(cfg, sc, 0) {
        assert !Halts(cfg, sc, j);
      }
    }
  }

  /** A failed fetch sends one page carrying the error, no items and the
      current page number; that page is the last, and the stream ends as
      failed with no further fetch. */
  lemma ErrorPageIsTerminal(req: Option<Request>, apiKey: string, sc: Script)
    ensures var t := Run(req, apiKey, sc);
            forall j :: 0 <= j < |t.pages| && t.pages[j].err.Some? ==>
              && j == |t.pages| - 1
              && t.end == Failed
              && |t.requests| == j + 1
              && sc.outcomes[j] == Fail(t.pages[j].err.value)
              && t.pages[j].giphs == []
              && t.pages[j].pageNumber == j % TWO_TO_THE_64
    ensures var t := Run(req, apiKey, sc);
            forall j :: 0 <= j < |t.requests| && sc.outcomes[j].Fail? ==>
              j == |t.requests| - 1 && |t.pages| == j + 1 && t.pages[j].err == Some(sc.outcomes[j].err)
  {
    var cfg := Configure(Resolve(req));
    var t := Run(req, apiKey, sc);
    RunMatchesExpected(req, apiKey, sc);
    forall j | 0 <= j < |t.requests| && sc.outcomes[j].Fail?
      ensures j == FirstHalt(cfg, sc, 0)
    {
      assert Halts(cfg, sc, j);
    }
  }

  /** A response with zero items is not sent as a page and carries no
      error: the stream just ends, and it is the last fetch. */
  lemma ZeroItemsEndSilently(req: Option<Request>, apiKey: string, sc: Script)
    ensures var t := Run(req, apiKey, sc);
            forall j :: 0 <= j < |t.requests| && sc.outcomes[j].Ok? && |sc.outcomes[j].giphs| == 0 ==>
              && j == |t.requests| - 1
              && |t.pages| == j
              && t.end == Exhausted
    ensures var t := Run(req, apiKey, sc);
            t.end == Exhausted <==>
              && |t.pages| < |sc.outcomes|
              && |t.requests| == |t.pages| + 1
              && sc.outcomes[|t.pages|].Ok?
              && |sc.outcomes[|t.pages|].giphs| == 0
    ensures var t := Run(req, apiKey, sc);
            t.end == Exhausted ==> forall j :: 0 <= j < |t.pages| ==> t.pages[j].err.None?
  {
    var cfg := Configure(Resolve(req));
    var t := Run(req, apiKey, sc);
    RunMatchesExpected(req, apiKey, sc);
    forall j | 0 <= j < |t.requests| && sc.outcomes[j].Ok? && |sc.outcomes[j].giphs| == 0
      ensures j == FirstHalt(cfg, sc, 0)
    {
      assert Halts(cfg, sc, j);
    }
  }

  /** With `MaxPageNumber = N > 0` at most N pages are sent and at most N
      fetches are made; a stream stopped by the cap sent exactly N. */
  lemma PageCapHonoured(req: Option<Request>, apiKey: string, sc: Script)
    ensures var t := Run(req, apiKey, sc);
            var cap := Resolve(req).maxPageNumber;
            cap > 0 ==> |t.pages| <= cap && |t.requests| <= cap
    ensures var t := Run(req, apiKey, sc);
            t.end == Capped ==> |t.pages| == Resolve(req).maxPageNumber > 0
  {
    var r := Resolve(req);
    RunMatchesExpected(req, apiKey, sc);
    if r.maxPageNumber > 0 {
      HaltsBeforeCap(Configure(r), sc);
    }
  }

  /** With a cap of N and N fetches that all return items (and no
      cancellation before page N - 1), the stream sends exactly pages
      0 .. N-1 with those items and stops on the cap. */
  lemma CapReachedExactly(req: Option<Request>, apiKey: string, sc: Script)
    requires Resolve(req).maxPageNumber > 0
    requires Resolve(req).maxPageNumber <= |sc.outcomes|
    requires forall j :: 0 <= j < Resolve(req).maxPageNumber ==>
               sc.outcomes[j].Ok? && |sc.outcomes[j].giphs| > 0
    requires sc.cancelAt.None? || sc.cancelAt.value + 1 >= Resolve(req).maxPageNumber
    ensures var t := Run(req, apiKey, sc);
            && |t.pages| == Resolve(req).maxPageNumber
            && |t.requests| == Resolve(req).maxPageNumber
            && t.end == Capped
            && forall j :: 0 <= j < |t.pages| ==> t.pages[j] == Page(sc.outcomes[j].giphs, None, j)
  {
    var r := Resolve(req);
    var cfg := Configure(r);
    var n := r.maxPageNumber - 1;
    forall j | 0 <= j < n
      ensures !Halts(cfg, sc, j)
    {
    }
    FirstHaltIsLeast(cfg, sc, n);
    RunMatchesExpected(req, apiKey, sc);
  }

  /** The first fetch's offset is 0; each later fetch's offset is the
      previous one advanced by the count the previous response reported
      (modulo 2^64), or the same when it reported none. Every fetch carries
      the request's own query parameters and the client's key. */
  lemma OffsetsAdvanceByReportedCount(req: Option<Request>, apiKey: string, sc: Script)
    ensures var t := Run(req, apiKey, sc);
            |t.requests| > 0 ==> t.requests[0].offset == 0
    ensures var t := Run(req, apiKey, sc);
            forall j :: 0 <= j < |t.requests| - 1 ==>
              && sc.outcomes[j].Ok?
              && t.requests[j + 1].offset == NextOffset(t.requests[j].offset, sc.outcomes[j].pagination)
    ensures var t := Run(req, apiKey, sc);
            var r := Resolve(req);
            forall j :: 0 <= j < |t.requests| ==>
              && t.requests[j].query == r.query && t.requests[j].limit == r.limitPerPage
              && t.requests[j].rating == r.rating && t.requests[j].format == r.format
              && t.requests[j].language == r.language && t.requests[j].sortBy == r.sortBy
              && t.requests[j].tag == "" && t.requests[j].apiKey == apiKey
  {
    var r := Resolve(req);
    var cfg := Configure(r);
    var t := Run(req, apiKey, sc);
    RunMatchesExpected(req, apiKey, sc);
    assert sc.outcomes[..0] == [];
    forall j | 0 <= j < |t.requests| - 1
      ensures sc.outcomes[j].Ok?
      ensures t.requests[j + 1].offset == NextOffset(t.requests[j].offset, sc.outcomes[j].pagination)
    {
      assert !Halts(cfg, sc, j);
      OffsetStep(sc.outcomes, j);
    }
  }

  /** The producer waits the resolved throttle between two consecutive
      fetches and at no other time: never before the first fetch, never
      after the last one. The wait is the saturating resolution; wherever
      the requested milliseconds fit in a Duration it is exactly what the
      source's `time.After` waits. */
  lemma WaitsSeparateFetches(req: Option<Request>, apiKey: string, sc: Script)
    ensures var t := Run(req, apiKey, sc);
            forall j :: 0 <= j < |t.waits| ==> t.waits[j] == Throttle.Throttle(Resolve(req).throttleDurationMs)
    ensures var t := Run(req, apiKey, sc);
            t.end != Unscripted ==> |t.waits| + 1 == |t.requests|
    ensures var t := Run(req, apiKey, sc);
            Resolve(req).throttleDurationMs == Throttle.NoThrottle ==> forall j :: 0 <= j < |t.waits| ==> t.waits[j] == 0
    ensures var t := Run(req, apiKey, sc);
            var ms := Resolve(req).throttleDurationMs;
            ms <= Throttle.MaxExactMs ==>
              forall j :: 0 <= j < |t.waits| ==> t.waits[j] == Throttle.Wait(Throttle.ThrottleAsWritten(ms))
  {
    RunMatchesExpected(req, apiKey, sc);
    if Resolve(req).throttleDurationMs <= Throttle.MaxExactMs {
      Throttle.AsWrittenAgreesWithoutOverflow(Resolve(req).throttleDurationMs);
    }
  }

  /** A nil request is the all-defaults request: the same stream for every
      key and script, with no page cap and the 150 ms default throttle. */
  lemma NilRequestMeansDefaults(apiKey: string, sc: Script)
    ensures Run(None, apiKey, sc) == Run(Some(DefaultRequest), apiKey, sc)
    ensures Configure(Resolve(None)) == Config(0, Throttle.DefaultThrottle)
  {
  }

  /** Cancellation observed at the wait after page k: pages 0..k were
      sent, nothing is fetched afterwards, and the stream ends as
      cancelled only there. */
  lemma CancellationStopsAtItsWait(req: Option<Request>, apiKey: string, sc: Script)
    requires sc.cancelAt.Some?
    ensures var t := Run(req, apiKey, sc);
            |t.requests| <= sc.cancelAt.value + 1 && |t.pages| <= sc.cancelAt.value + 1
    ensures var t := Run(req, apiKey, sc);
            t.end == Cancelled ==> |t.pages| == |t.requests| == sc.cancelAt.value + 1
  {
    var r := Resolve(req);
    var cfg := Configure(r);
    var k := sc.cancelAt.value;
    RunMatchesExpected(req, apiKey, sc);
    if k < |sc.outcomes| {
      assert Halts(cfg, sc, k);
    }
  }

  /** Cancelling at the wait after page k moves the first stopping index
      to k when the uncancelled stream would have gone past k, and leaves
      it alone otherwise. */
  lemma CancelledFirstHalt(cfg: Config, outcomes: seq<Outcome>, k: nat)
    ensures var nb := FirstHalt(cfg, Script(outcomes, None), 0);
            FirstHalt(cfg, Script(outcomes, Some(k)), 0) == if k < nb then k else nb
  {
    var sa := Script(outcomes, Some(k));
    var sb := Script(outcomes, None);
    var nb := FirstHalt(cfg, sb, 0);
    forall j | 0 <= j < |outcomes| && j != k
      ensures Halts(cfg, sa, j) == Halts(cfg, sb, j)
    {
    }
    if k < nb {
      assert !Halts(cfg, sb, k);
      assert Halts(cfg, sa, k);
      FirstHaltIsLeast(cfg, sa, k);
    } else {
      if nb < |outcomes| {
        assert Halts(cfg, sa, nb);
      }
      FirstHaltIsLeast(cfg, sa, nb);
    }
  }

  /** Cancellation that catches the stream before its natural end keeps
      exactly the first k + 1 pages and fetches of the uncancelled one. */
  lemma CancelledIsPrefix(r: Request, apiKey: string, cfg: Config, outcomes: seq<Outcome>, k: nat)
    requires k < FirstHalt(cfg, Script(outcomes, None), 0)
    ensures var a := Expected(r, apiKey, cfg, Script(outcomes, Some(k)));
            var b := Expected(r, apiKey, cfg, Script(outcomes, None));
            && |b.pages| > k && |b.requests| > k
            && a.pages == b.pages[..k + 1]
            && a.requests == b.requests[..k + 1]
            && a.end == Cancelled
  {
    var sb := Script(outcomes, None);
    var nb := FirstHalt(cfg, sb, 0);
    CancelledFirstHalt(cfg, outcomes, k);
    assert !Halts(cfg, sb, k);
    var b := Expected(r, apiKey, cfg, sb);
    assert b.pages[..nb] == Emitted(outcomes, nb);
    assert b.requests[..nb] == Fetched(r, apiKey, outcomes, nb);
    assert b.pages[..k + 1] == Emitted(outcomes, nb)[..k + 1];
    assert b.requests[..k + 1] == Fetched(r, apiKey, outcomes, nb)[..k + 1];
  }

  /** Cancellation only stops future fetches: compared with the same
      stream never cancelled, the cancelled one sent a prefix of its pages
      (nothing already sent is withdrawn or changed) and made a prefix of
      its fetches; if the uncancelled stream got past page k, the cancelled
      one sent exactly pages 0..k; and a stream that had already ended by
      fetch k is not affected at all. */
  lemma CancellationOnlyStopsFutureFetches(req: Option<Request>, apiKey: string, outcomes: seq<Outcome>, k: nat)
    ensures var a := Run(req, apiKey, Script(outcomes, Some(k)));
            var b := Run(req, apiKey, Script(outcomes, None));
            && a.pages <= b.pages
            && a.requests <= b.requests
            && (|b.pages| > k ==> |a.pages| == k + 1)
            && (b.end != Unscripted && |b.requests| <= k + 1 ==> a == b)
  {
    var r := Resolve(req);
    var cfg := Configure(r);
    var sa := Script(outcomes, Some(k));
    var sb := Script(outcomes, None);
    var nb := FirstHalt(cfg, sb, 0);
    RunMatchesExpected(req, apiKey, sa);
    RunMatchesExpected(req, apiKey, sb);
    CancelledFirstHalt(cfg, outcomes, k);
    if k < nb {
      CancelledIsPrefix(r, apiKey, cfg, outcomes, k);
    } else {
      assert Expected(r, apiKey, cfg, sa) == Expected(r, apiKey, cfg, sb);
    }
  }

  /** If the very first fetch fails, the stream is one error page numbered
      0, after a single fetch at offset 0. */
  lemma FirstFetchFails(req: Option<Request>, apiKey: string, sc: Script)
    requires |sc.outcomes| > 0 && sc.outcomes[0].Fail?
    ensures Run(req, apiKey, sc)
            == Trace([Page([], Some(sc.outcomes[0].err), 0)], [PagerFor(Resolve(req), apiKey, 0)], [], Failed)
  {
    var cfg := Configure(Resolve(req));
    FirstHaltIsLeast(cfg, sc, 0);
    RunMatchesExpected(req, apiKey, sc);
    assert sc.outcomes[..0] == [];
  }
}
