# Giphy client: the paginated stream producer, in Dafny

This project models the core of a Go client for the Giphy web API: the
producer behind `Search`, `SearchStickers`, `Trending` and
`TrendingStickers`. `Client.fetch` starts a goroutine that fetches one page
of results after another. It sends each page on a channel, waits a throttle
between pages, advances the server offset, and stops on an error, on an
empty response, on the page cap, or when the caller cancels.

The model replaces the goroutine, the channel and the timer with one pure
trace function. `Producer.Produce` / `Producer.Run` take three inputs:

- a script of fetch outcomes, either `Fail(err)` or `Ok(items, pagination)`;
- the request;
- the index of the throttle wait at which cancellation is first observed.

They return a `Trace`: the pages sent, the wire parameters of every fetch
attempted (including one that fails before reaching the server, when
encoding or building the request fails), the waits completed, and why the
loop stopped.
`ProducerSpec.Expected` describes the same trace without stepping the loop.
It reads the trace off the first fetch index at which the loop must stop.
`ProducerSpec.RunMatchesExpected` proves the two are equal for every input,
and the stream's promises in `StreamProperties` follow from it.

Smaller pieces of the client are modelled alongside:

- throttle resolution (`Throttle`);
- the idempotent cancellation function (`Canceler`);
- API-key trimming in `NewClient` (`Client`);
- the blank-timestamp short-circuit of timestamp decoding (`GiphyTime`);
- the request and per-page parameters (`Requests`).

Go's `uint64` offset and page counter wrap modulo 2^64, and its int64
`time.Duration` product wraps in two's complement. Both are written out in
`Ints`.

The Giphy API accepts a `tag` query parameter, and `randomGIF` sends it
(v1/giphy.go:274-278). `fetch`, however, never copies `Request.Tag` into its
`pager` (v1/giphy.go:360-368), so `Requests.PagerFor` leaves the tag empty
on every page fetch.

## Model

| member | source | states |
|---|---|---|
| Producer.Produce | v1/giphy.go:353-421 | from any iteration: at most one fetch per remaining outcome; no more pages than fetches; the first fetch uses the current offset and the first page the current number; only the last page can carry an error, and the stream ends as failed exactly when it does; every wait is the configured throttle |
| Producer.Run | v1/giphy.go:330-357 | at most one fetch per scripted outcome; the first fetch is at offset 0 and the first page is numbered 0; the stream ends as failed exactly when its last page carries an error |
| ProducerSpec.FirstHalt | v1/giphy.go:359-420 | the stopping index is the least index from `k` where the loop must stop (failed fetch, zero items, cap reached, or cancellation observed), or the script length |
| ProducerSpec.PageExceedsIsCapReached | v1/giphy.go:335-341 | `pageExceeds` after the counter's increment holds exactly when fetch k's page is the last one a cap N > 0 allows (k + 1 >= N), while the counter has not wrapped; a cap of 0 is never exceeded |
| ProducerSpec.HaltsBeforeCap | v1/giphy.go:335-341 | with a cap N > 0 the loop stops at fetch N-1 at the latest |
| ProducerSpec.OffsetStep | v1/giphy.go:417-419 | `NextOffset`, advancing the offset by the reported count, equals the running total of reported counts modulo 2^64 |
| ProducerSpec.ProduceFrom | v1/giphy.go:359-420 | from every iteration up to the stopping index, the loop yields the rest of the described trace |
| ProducerSpec.RunMatchesExpected | v1/giphy.go:330-424 | the loop's trace equals the description that does not step the loop for every request, key and script |
| StreamProperties.PageNumbersContiguous | v1/giphy.go:356-406 | page numbers are 0, 1, 2, … with no gap or repeat; the uint64 counter wraps only after 2^64 pages |
| StreamProperties.PagesCarryFetchedItems | v1/giphy.go:399-404 | every non-error page carries exactly the non-empty items of the fetch with its index |
| StreamProperties.ErrorPageIsTerminal | v1/giphy.go:370-397 | a failed fetch sends one page with the error, no items and page number j mod 2^64 for fetch j; it is the last page and no fetch follows |
| StreamProperties.ZeroItemsEndSilently | v1/giphy.go:399-402 | a zero-item response is the last fetch, is not sent, and ends the stream with no error page; the stream ends this way exactly when its last fetch returned zero items |
| StreamProperties.PageCapHonoured | v1/giphy.go:335-341 | with MaxPageNumber N > 0, at most N pages and N fetches; a stream stopped by the cap sent exactly N pages |
| StreamProperties.CapReachedExactly | v1/giphy.go:404-409 | with cap N and N item-bearing responses, pages 0..N-1 carry those items and the stream stops on the cap |
| StreamProperties.OffsetsAdvanceByReportedCount | v1/giphy.go:357-368 | the first offset is 0; each later offset is the previous one plus the previous response's reported count, or unchanged without metadata; every fetch carries the request's query, limit, rating, format, language and sort order, the client's key, and an empty tag |
| StreamProperties.WaitsSeparateFetches | v1/giphy.go:411-415 | the throttle, resolved by the corrected saturating rule, is waited between consecutive fetches only; NoThrottle makes every wait zero; when the requested milliseconds fit in a Duration, every wait equals what the source's `time.After` waits |
| StreamProperties.NilRequestMeansDefaults | v1/giphy.go:331-333 | a nil request gives the same stream as the all-defaults request for every key and script: no cap and the 150 ms default throttle |
| StreamProperties.CancellationStopsAtItsWait | v1/giphy.go:411-413 | cancellation at the wait after page k allows at most k+1 pages and fetches; a cancelled stream sent exactly pages 0..k |
| StreamProperties.CancelledFirstHalt | v1/giphy.go:404-415 | cancelling after page k moves the stopping index to k if the stream would have gone past k, and leaves it otherwise |
| StreamProperties.CancelledIsPrefix | v1/giphy.go:404-415 | a cancellation before the natural end keeps exactly the first k+1 pages and fetches of the uncancelled stream |
| StreamProperties.CancellationOnlyStopsFutureFetches | v1/giphy.go:404-415 | against the uncancelled stream, the cancelled one sent a prefix of its pages and fetches; pages already sent are kept; a stream that ended by itself is unaffected |
| StreamProperties.FirstFetchFails | v1/giphy.go:370-397 | a failing first fetch gives exactly one error page numbered 0 after one fetch at offset 0 |
| Scenarios.MillyRockStopsAtFourPages | example_test.go:56-59 | the example's request, query "Milly Rock" with `MaxPageNumber: 4`, against a hypothetical server answering 20 items per page: pages 0..3 of 20 items, offsets 0, 20, 40, 60, and the empty fifth page is never fetched |
| Scenarios.TwoPagesWhenCappedAtTwo | v1/giphy_test.go:92-124 | `MaxPageNumber: 2` against a server that keeps answering gives exactly two item pages and no error |
| Scenarios.NilRequestIsUnbounded | v1/giphy.go:331-341 | a nil request has no cap: every item-bearing answer becomes a page |
| Requests.Configure | v1/giphy.go:335-351 | the stream's cap is MaxPageNumber; its throttle is the corrected saturating resolution, zero exactly for NoThrottle |
| Throttle.ThrottleRule | v1/giphy.go:346-351 | NoThrottle (-1) gives no wait; positive v gives v ms (saturated at the largest Duration); 0 and other negatives give 150 ms; the wait is zero only for NoThrottle |
| Throttle.ThrottleMonotone | v1/giphy.go:349-350 | under the corrected saturating rule, a larger positive request never waits less |
| Throttle.ThrottleAsWritten | v1/giphy.go:346-351 | the source's resolution: for a positive v the int64 product wraps, leaving a Duration congruent to v ms modulo 2^64 |
| Throttle.AsWrittenAgreesWithoutOverflow | v1/giphy.go:346-351 | where v ms fits in an int64, the source's resolution waits exactly as long as the saturating one |
| Throttle.ThrottleOverflowSkipsWait | v1/giphy.go:350 | 9223372036855 ms wraps to a negative Duration, so no wait happens, while 1 ms waits 1 ms |
| Canceler.Cancel | v1/giphy.go:229-242 | a call always leaves the signal closed; it returns nil exactly when the signal was open, and otherwise "already closed" |
| Canceler.CancelIdempotent | v1/giphy.go:232-239 | a second call returns "already closed" and changes nothing |
| Canceler.ClosedStaysClosed | v1/giphy.go:233-238 | every call on a closed signal returns "already closed" |
| Canceler.CancelExactlyOnce | v1/giphy.go:227-242 | of n ≥ 1 calls on a fresh canceler, the first returns nil and all later ones "already closed": exactly one nil |
| Client.TrimSpace | v1/giphy.go:458 | the result is the input minus leading and trailing white space (Go's unicode.IsSpace) and has none of its own at either end |
| Client.TrimSpaceEmptyIffBlank | v1/giphy.go:458-459 | trimming leaves the empty string exactly when the input is all white space |
| Client.TrimSpaceIdempotent | v1/giphy.go:458 | trimming twice equals trimming once |
| Client.NewClient | v1/giphy.go:457-463 | fails with BlankAPIKey exactly when the key is all white space; otherwise the client's key is the non-empty trimmed key |
| GiphyTime.BlankShortCircuitOnlyRescuesBlanks | v1/giphy.go:147-164 | for any parser that accepts only strings with a valid month: "" and "0000-00-00 00:00:00" decode with no error and write nothing to the target, where the parser alone would fail; every other string decodes exactly as the parser alone decodes it; the short-circuit, not the parser, supplies the result exactly for blank strings |
| GiphyTime.BlankIsNeverParseable | v1/giphy.go:142-149 | neither blank form has a month from 01 to 12 in the layout, so the parser would reject both |

## Findings

| source | as written | input that shows it | evidently intended | confidence | as-written member | corrected member |
|---|---|---|---|---|---|---|
| v1/giphy.go:350 | `time.Duration(req.ThrottleDurationMs) * time.Millisecond` is int64 arithmetic and wraps for values above 9223372036854 ms | `ThrottleDurationMs: 9223372036855` gives a negative Duration and `ThrottleDurationMs: 2^58` gives exactly 0, so `time.After` fires at once and the stream is not throttled at all | a positive value waits that many milliseconds, or the longest wait a Duration can hold | not executed; follows from Go's defined wrap-around of signed integer multiplication | Throttle.ThrottleAsWritten, Throttle.ThrottleOverflowSkipsWait | Throttle.Throttle, Throttle.ThrottleRule |

`Requests.Configure` and the producer use the corrected `Throttle.Throttle`;
the members that describe it are listed under "## Left out".

## Left out

- HTTP is not modelled: request construction, `doHTTPReq`, status classification and reading the body. These are network I/O and a foreign library. Every way a page fetch can fail is a `Fail` outcome in the script.
- URL and query encoding (`otils.ToURLValues`, `url.Values.Encode`) is not modelled. These are foreign calls. The model keeps the parameters as a `Pager` value, and an encoding failure is a `Fail` outcome.
- JSON decoding of responses, items and media sizes is not modelled. An item is only its identity (`Giph(id)`), and a response is only its items and optional pagination metadata.
- Concurrency is not modelled: the goroutine, the one-slot channel, `close(pagesChan)`, `sync.Once`, the client's read/write lock and `time.After`. The loop becomes a sequential trace, consumer back-pressure is not modelled, and a throttle wait is recorded by its duration.
- Cancellation is modelled as the first throttle wait that observes the closed signal (`Script.cancelAt`). When the timer and the signal are both ready, Go's `select` picks either one. The script fixes that choice.
- When the script of outcomes runs out before the loop stops, the trace ends with `Unscripted`. That is a property of the model's finite input, not a way the source stream ends.
- `SetAPIKey` during a stream is not modelled. Each fetch reads the key afresh, but the model uses one key for the whole stream.
- `RandomGIF`, `RandomSticker`, `GIFByID` and `fetchGIF` are not modelled. Their only logic beyond HTTP and JSON is a reflection-based comparison with the zero `Giph`.
- Date parsing in `GiphyTime.UnmarshalJSON` (`strconv.Unquote` and `time.Parse`) is not modelled because it depends on the standard library. Only the blank short-circuit is modelled. The parser is a function parameter, constrained only by `GiphyTime.MonthInRange`, one condition the real parser imposes.
- `NewClientFromEnvOrDefault` is not modelled because it reads the process environment.
- The rating, format, language and sort-order constants (v1/languages.go and the constant blocks) are not modelled. They are plain strings with no logic, and the model carries them as strings.
- Client.TrimSpace: works on Unicode code points rather than Go's UTF-8 bytes, so invalid UTF-8 sequences are not modelled.
- Requests.Configure: resolves the throttle with the corrected saturating rule, not the source's wrapping product. As written, a positive `ThrottleDurationMs` of 2^58 resolves to 0, so "zero exactly for NoThrottle" does not hold of the source (see "## Findings").
- StreamProperties.WaitsSeparateFetches: the recorded waits are the corrected saturating throttle. They equal the source's waits only while the requested milliseconds fit in a Duration (at most 9223372036854); above that the source waits a wrapped, often zero, duration (see "## Findings").
- Throttle.ThrottleMonotone: holds only for the corrected saturating rule. As written, 9223372036855 ms waits 0 while 1 ms waits 1 ms (`Throttle.ThrottleOverflowSkipsWait`).
- GiphyTime.BlankShortCircuitOnlyRescuesBlanks: a parsed time is modelled as its text (`Some(text)`), so the model cannot express that parsing "0001-01-01 00:00:00" also yields the zero `time.Time`; the lemma only says which strings the short-circuit, rather than the parser, decides. A blank string leaves the target unwritten, which is zero only because the decoder allocates it fresh.
