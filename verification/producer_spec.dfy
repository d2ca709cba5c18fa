/** An independent description, that does not step the loop, of what the producer loop
    sends, and the proof that the loop matches it.

    The description reads the whole stream off one number: the index of the
    first fetch at which the loop must stop (`FirstHalt`). Every fetch
    before it sent a full page numbered by its index; what happens at that
    fetch (an error page, a silent end on zero items, or a last page cut
    off by the cap or by cancellation) decides the rest. Offsets are the
    running total of the counts the server reported, modulo 2^64. */
module ProducerSpec {
  import opened Wrappers
  import opened Ints
  import opened Requests
  import opened Producer

  /** The cap stops the loop right after fetch `k`'s page is sent. */
  predicate CapReached(maxPage: uint64, k: nat)
  {
    maxPage > 0 && k + 1 >= maxPage
  }

  /** The loop stops at fetch `k`: the fetch failed, returned no items, or
      its page was the last one the cap allows or the one after which
      cancellation is observed. */
  predicate Halts(cfg: Config, sc: Script, k: nat)
    requires k < |sc.outcomes|
  {
    match sc.outcomes[k]
    case Fail(_) => true
    case Ok(giphs, _) => |giphs| == 0 || CapReached(cfg.maxPage, k) || sc.cancelAt == Some(k)
  }

  /** The first fetch index from `k` on at which the loop stops, or the
      script's length when it stops nowhere. */
  function FirstHalt(cfg: Config, sc: Script, k: nat): (n: nat)
    requires k <= |sc.outcomes|
    decreases |sc.outcomes| - k
    ensures k <= n <= |sc.outcomes|
    ensures forall j :: k <= j < n ==> !Halts(cfg, sc, j)
    ensures n < |sc.outcomes| ==> Halts(cfg, sc, n)
  {
    if k == |sc.outcomes| then k
    else if Halts(cfg, sc, k) then k
    else FirstHalt(cfg, sc, k + 1)
  }

  /** The first stopping index is the only index with its two properties. */
  lemma FirstHaltIsLeast(cfg: Config, sc: Script, n: nat)
    requires n <= |sc.outcomes|
    requires forall j :: 0 <= j < n ==> !Halts(cfg, sc, j)
    requires n < |sc.outcomes| ==> Halts(cfg, sc, n)
    ensures FirstHalt(cfg, sc, 0) == n
  {
  }

  /** `pageExceeds` after the counter's increment is the cap condition on
      the fetch index, as long as the counter has not wrapped; a cap of 0
      is never exceeded. */
  lemma PageExceedsIsCapReached(maxPage: uint64, k: nat)
    ensures k + 1 < TWO_TO_THE_64 ==>
              (PageExceeds(maxPage, AddUint64(k % TWO_TO_THE_64, 1)) <==> CapReached(maxPage, k))
    ensures forall p: uint64 :: !PageExceeds(0, p)
  {
    PageNumberStep(k);
  }

  /** With a cap of N > 0, the loop stops at fetch N - 1 at the latest. */
  lemma HaltsBeforeCap(cfg: Config, sc: Script)
    requires cfg.maxPage > 0
    ensures FirstHalt(cfg, sc, 0) < cfg.maxPage
  {
    if cfg.maxPage - 1 < |sc.outcomes| {
      assert Halts(cfg, sc, cfg.maxPage - 1);
    }
  }

  function ItemsOf(o: Outcome): (items: seq<Giph>)
  {
    if o.Ok? then o.giphs else []
  }

  /** The item count a response reported, 0 when it reported none. */
  function CountOf(o: Outcome): (count: uint64)
  {
    match o
    case Ok(_, Some(p)) => p.count
    case _ => 0
  }

  /** The exact total of the counts reported by `os`. */
  function CountSum(os: seq<Outcome>): (sum: nat)
  {
    if |os| == 0 then 0 else CountSum(os[..|os| - 1]) + CountOf(os[|os| - 1])
  }

  /** The offset of fetch `j`: everything reported before it, modulo 2^64. */
  function OffsetAt(os: seq<Outcome>, j: nat): (offset: uint64)
    requires j <= |os|
  {
    CountSum(os[..j]) % TWO_TO_THE_64
  }

  /** Full pages for the first `n` fetches, each numbered by its index. */
  function Emitted(os: seq<Outcome>, n: nat): (pages: seq<Page>)
    requires n <= |os|
  {
    seq(n, j requires 0 <= j < n => Page(ItemsOf(os[j]), None, j % TWO_TO_THE_64))
  }

  /** The parameters of the first `n` fetches. */
  function Fetched(req: Request, apiKey: string, os: seq<Outcome>, n: nat): (pagers: seq<Pager>)
    requires n <= |os|
  {
    seq(n, j requires 0 <= j < n => PagerFor(req, apiKey, OffsetAt(os, j)))
  }

  /** The trace the loop should produce, read off the first stopping index. */
  function Expected(req: Request, apiKey: string, cfg: Config, sc: Script): (t: Trace)
    ensures var n := FirstHalt(cfg, sc, 0);
            && n <= |t.pages| <= n + 1
            && n <= |t.requests| <= n + 1
            && |t.waits| == n
  {
    var os := sc.outcomes;
    var n := FirstHalt(cfg, sc, 0);
    var waits := seq(n, _ => cfg.throttle);
    if n == |os| then Trace(Emitted(os, n), Fetched(req, apiKey, os, n), waits, Unscripted)
    else
      var fetched := Fetched(req, apiKey, os, n + 1);
      match os[n]
      case Fail(e) => Trace(Emitted(os, n) + [Page([], Some(e), n % TWO_TO_THE_64)], fetched, waits, Failed)
      case Ok(giphs, _) =>
        if |giphs| == 0 then Trace(Emitted(os, n), fetched, waits, Exhausted)
        else Trace(Emitted(os, n + 1), fetched, waits, if CapReached(cfg.maxPage, n) then Capped else Cancelled)
  }

  /** A trace without its first `k` pages, fetches and waits. */
  function Drop(t: Trace, k: nat): (rest: Trace)
    requires k <= |t.pages| && k <= |t.requests| && k <= |t.waits|
  {
    Trace(t.pages[k..], t.requests[k..], t.waits[k..], t.end)
  }

  lemma ModAdd(a: nat, c: nat)
    ensures (a % TWO_TO_THE_64 + c) % TWO_TO_THE_64 == (a + c) % TWO_TO_THE_64
  {
    var q := a / TWO_TO_THE_64;
    assert a == q * TWO_TO_THE_64 + a % TWO_TO_THE_64;
    assert a + c == (a % TWO_TO_THE_64 + c) + q * TWO_TO_THE_64;
  }

  lemma OffsetStep(os: seq<Outcome>, k: nat)
    requires k < |os| && os[k].Ok?
    ensures NextOffset(OffsetAt(os, k), os[k].pagination) == OffsetAt(os, k + 1)
  {
    assert os[..k + 1][..k] == os[..k];
    assert CountSum(os[..k + 1]) == CountSum(os[..k]) + CountOf(os[k]);
    ModAdd(CountSum(os[..k]), CountOf(os[k]));
  }

  lemma PageNumberStep(k: nat)
    ensures AddUint64(k % TWO_TO_THE_64, 1) == (k + 1) % TWO_TO_THE_64
  {
    ModAdd(k, 1);
  }

  /** One iteration before the first stopping index sends a full page,
      waits, and continues with the next page number and offset. */
  lemma ProduceStep(req: Request, apiKey: string, cfg: Config, sc: Script, k: nat)
    requires k < FirstHalt(cfg, sc, 0)
    ensures var rest := Produce(req, apiKey, cfg, sc, k + 1, (k + 1) % TWO_TO_THE_64, OffsetAt(sc.outcomes, k + 1));
            Produce(req, apiKey, cfg, sc, k, k % TWO_TO_THE_64, OffsetAt(sc.outcomes, k))
            == Trace([Page(ItemsOf(sc.outcomes[k]), None, k % TWO_TO_THE_64)] + rest.pages,
                     [PagerFor(req, apiKey, OffsetAt(sc.outcomes, k))] + rest.requests,
                     [cfg.throttle] + rest.waits,
                     rest.end)
  {
    assert !Halts(cfg, sc, k);
    if cfg.maxPage > 0 {
      HaltsBeforeCap(cfg, sc);
    }
    PageNumberStep(k);
    PageExceedsIsCapReached(cfg.maxPage, k);
    OffsetStep(sc.outcomes, k);
    assert !PageExceeds(cfg.maxPage, AddUint64(k % TWO_TO_THE_64, 1));
  }

  /** The same step, read off the description. */
  lemma ExpectedStep(req: Request, apiKey: string, cfg: Config, sc: Script, k: nat)
    requires k < FirstHalt(cfg, sc, 0)
    ensures var e := Expected(req, apiKey, cfg, sc);
            var d := Drop(e, k + 1);
            Drop(e, k)
            == Trace([Page(ItemsOf(sc.outcomes[k]), None, k % TWO_TO_THE_64)] + d.pages,
                     [PagerFor(req, apiKey, OffsetAt(sc.outcomes, k))] + d.requests,
                     [cfg.throttle] + d.waits,
                     d.end)
  {
    var e := Expected(req, apiKey, cfg, sc);
    var n := FirstHalt(cfg, sc, 0);
    assert e.pages[..n] == Emitted(sc.outcomes, n);
    assert e.requests[..n] == Fetched(req, apiKey, sc.outcomes, n);
    assert e.pages[k] == e.pages[..n][k];
    assert e.requests[k] == e.requests[..n][k];
    assert e.pages[k..] == [e.pages[k]] + e.pages[k + 1..];
    assert e.requests[k..] == [e.requests[k]] + e.requests[k + 1..];
    assert e.waits[k..] == [e.waits[k]] + e.waits[k + 1..];
  }

  /** At the first stopping index the loop produces the described ending. */
  lemma ProduceLast(req: Request, apiKey: string, cfg: Config, sc: Script)
    ensures var n := FirstHalt(cfg, sc, 0);
            Produce(req, apiKey, cfg, sc, n, n % TWO_TO_THE_64, OffsetAt(sc.outcomes, n))
            == Drop(Expected(req, apiKey, cfg, sc), n)
  {
    var os := sc.outcomes;
    var n := FirstHalt(cfg, sc, 0);
    var e := Expected(req, apiKey, cfg, sc);
    if n < |os| {
      if cfg.maxPage > 0 {
        HaltsBeforeCap(cfg, sc);
      }
      PageExceedsIsCapReached(cfg.maxPage, n);
      assert e.requests[n..] == [PagerFor(req, apiKey, OffsetAt(os, n))];
      assert e.waits[n..] == [];
      match os[n]
      case Fail(err) =>
        assert e.pages[n..] == [Page([], Some(err), n % TWO_TO_THE_64)];
      case Ok(giphs, _) =>
        if |giphs| == 0 {
          assert e.pages[n..] == [];
        } else {
          assert e.pages[n..] == [Page(giphs, None, n % TWO_TO_THE_64)];
        }
    }
  }

  /** From any iteration up to the first stopping index, started with the
      page counter and offset the description predicts, the loop produces
      the rest of the described trace. */
  lemma {:induction false} ProduceFrom(req: Request, apiKey: string, cfg: Config, sc: Script, k: nat)
    requires k <= FirstHalt(cfg, sc, 0)
    decreases FirstHalt(cfg, sc, 0) - k
    ensures Produce(req, apiKey, cfg, sc, k, k % TWO_TO_THE_64, OffsetAt(sc.outcomes, k))
            == Drop(Expected(req, apiKey, cfg, sc), k)
  {
    if k == FirstHalt(cfg, sc, 0) {
      ProduceLast(req, apiKey, cfg, sc);
    } else {
      ProduceFrom(req, apiKey, cfg, sc, k + 1);
      ProduceStep(req, apiKey, cfg, sc, k);
      ExpectedStep(req, apiKey, cfg, sc, k);
    }
  }

  /** The loop's trace is exactly the described trace, for every request,
      key and script. */
  lemma RunMatchesExpected(req: Option<Request>, apiKey: string, sc: Script)
    ensures var r := Resolve(req);
            Run(req, apiKey, sc) == Expected(r, apiKey, Configure(r), sc)
  {
    var r := Resolve(req);
    var e := Expected(r, apiKey, Configure(r), sc);
    ProduceFrom(r, apiKey, Configure(r), sc, 0);
    assert sc.outcomes[..0] == [];
    assert Drop(e, 0) == e;
  }
}
