# Bulk API crawler, modelled in Dafny

This project models `crawl_bulk_api.py`, a small client for a hotel-review
bulk HTTP API. Hotel identifiers arrive on standard input. The script
expands each one into a request path for every widget and language, cuts
the paths into request lists of at most 100, and sends one bulk call per
list. It then reports each outcome: an `Ok: <request>` line on standard
output for each request that succeeded, and a logged warning for each
request or bulk call that failed.

Four modules, one per part of the script, and one shared module:

- `Requests` (`requests.dfy`): `create_requests`. Its three nested loops
  only emit values, so they are modelled as nested sequence comprehensions.
  `ForWidget` is the innermost loop, one path per language. `ForId` lays the
  runs of every widget end to end. `CreateRequests` lays the blocks of every
  identifier end to end. `RequestPath` builds one path.
- `Batching` (`batching.dfy`): `batch`. The method `Batch` keeps the
  script's mutable buffer. It appends each element, emits the buffer and
  resets it when it is full, and emits a non-empty leftover buffer at the
  end. It is proved equal to the specification function `Chunks`, and the
  properties of `batch` are lemmas about `Chunks`. `Flatten` undoes `Chunks`:
  concatenating the chunks gives back the input.
- `Reporting` (`reporting.dfy`): the per-batch decision in the main loop.
  `ReportBatch` gives the ordered events `Ok(req)`, `ReqWarn(req, code)` and
  `BatchWarn(code)` for a request list, an outer status code and the
  per-request status codes. `Correlate` is the `zip` loop, which stops at the
  shorter list. `Stdout` keeps only the lines that go to standard output.
- `Crawl` (`crawl.dfy`): the main loop that ties these together. `Batches`
  cuts the generated requests into lists of 100, and `ReportAll` / `Run`
  report each list against the parsed answer to its own bulk call.
  `SameIdAdjacentBatches` proves the grouping the generator's loop order
  aims for: an identifier's requests go out in one bulk call or two adjacent
  ones, provided they number at most 100. `LongBlockSpansThreeBatches` shows
  that this bound is needed.
- `Flattening` (`flattening.dfy`): `Flatten`, the concatenation of blocks in
  order, and its index and length lemmas for blocks of equal size. These
  lemmas hold for any element type. `Requests`, `Batching` and `Crawl` all use
  `Flatten`, while the equal-block lemmas (`FlattenUniformLength`, `FlattenAt`,
  `TimesInside`) serve `Requests` only.

Status codes are modelled as integers.
Identifiers, widgets and languages are strings passed through verbatim.

Three behaviours of the code are modelled as the code has them, not as a
tidier design would have them:

- Generated requests need not be distinct. The generator does no
  deduplication, so a repeated identifier yields its requests twice
  (`RepeatedIdRepeatsRequests`).
- Distinct inputs can collide too. Nothing is escaped, so identifier `a/b`
  with widget `c` and identifier `a` with widget `b/c` both give
  `/hotels/a/b/c.json?lang=en` (`DistinctInputsCollide`).
- A response list shorter or longer than its request list is not reported.
  Pairing stops at the shorter list (`CorrelateAt`).

Positions below are stated with ordinary multiplication. Inside the proofs,
offsets are counted with `Flattening.Times`, repeated addition, and
`Flattening.TimesIsMul` proves `Times(a, b) == a * b`.

## Model

| member | source | states |
|---|---|---|
| `Requests.RequestPath` | crawl_bulk_api.py:41-45 | defines: the path for one (identifier, widget, language) combination |
| `Requests.ForWidget` | crawl_bulk_api.py:40-45 | defines: the innermost loop, one path per language for one identifier and widget |
| `Requests.ForId` | crawl_bulk_api.py:39-45 | defines: the widget loop for one identifier, the runs of each widget laid end to end |
| `Requests.CreateRequests` | crawl_bulk_api.py:25-45 | defines: `create_requests`, the blocks of every identifier laid end to end, in input order |
| `Requests.RequestPathShape` | crawl_bulk_api.py:41-45 | a request path is `/hotels/`, the identifier, `/`, the widget, `.json?lang=` and the language, spliced in verbatim with no escaping; its length is the three parameters' lengths plus 20 |
| `Requests.ForIdLength` | crawl_bulk_api.py:39-45 | the widget loop yields (number of widgets) × (number of languages) paths for one identifier |
| `Requests.ForIdAt` | crawl_bulk_api.py:39-45 | inside one identifier's block, the path for widget `j` and language `k` is at offset `j * L + k`, for `L` languages |
| `Requests.BlockAt` | crawl_bulk_api.py:35-40 | offset `x` of the block for identifier `i` is at index `i * (W * L) + x` of the whole output, for `W` widgets and `L` languages |
| `Requests.CreateRequestsLength` | crawl_bulk_api.py:38-45 | `create_requests` yields exactly (number of ids) × (number of widgets) × (number of languages) paths |
| `Requests.CreateRequestsAppend` | crawl_bulk_api.py:38 | generation is compositional over the identifier stream: the paths for `a + b` are the paths for `a` followed by the paths for `b` |
| `Requests.CreateRequestsGrouped` | crawl_bulk_api.py:35-40 | the paths for `ids[i]` are one contiguous block of widgets × languages paths, after all paths of earlier identifiers and before all paths of later ones |
| `Requests.CreateRequestsAt` | crawl_bulk_api.py:38-45 | the element at index `(i * W + j) * L + k`, for `W` widgets and `L` languages, is the path built from `ids[i]`, `widgets[j]` and `languages[k]` |
| `Requests.CreateRequestsSound` | crawl_bulk_api.py:38-45 | every generated string is the path of some (identifier, widget, language) combination of the inputs |
| `Requests.CreateRequestsComplete` | crawl_bulk_api.py:38-45 | the path of every (identifier, widget, language) combination is generated |
| `Requests.CreateRequestsMembers` | crawl_bulk_api.py:38-45 | a string is generated if and only if it is the path of some (identifier, widget, language) combination |
| `Requests.RepeatedIdRepeatsRequests` | crawl_bulk_api.py:38-45 | a repeated identifier yields the same request twice, because nothing is deduplicated |
| `Requests.DistinctInputsCollide` | crawl_bulk_api.py:41-45 | distinct identifiers and widgets can still yield the same request: `["a/b", "a"]` with `["c", "b/c"]` and `["en"]` gives `/hotels/a/b/c.json?lang=en` at positions 0 and 3 |
| `Batching.Chunks` | crawl_bulk_api.py:47-63 | defines: the list of chunks `batch` yields, each full buffer in turn and then the non-empty leftover |
| `Batching.Batch` | crawl_bulk_api.py:47-63 | the buffered loop yields exactly `Chunks(xs, batchSize)` |
| `Batching.ChunksAppend` | crawl_bulk_api.py:59-61 | a prefix made of whole chunks is chunked independently of what follows it, so each full buffer can be emitted as soon as it fills |
| `Batching.FlattenChunks` | crawl_bulk_api.py:56-63 | round trip: concatenating the chunks in order gives back the input exactly |
| `Batching.ChunkSizes` | crawl_bulk_api.py:59-63 | every chunk is non-empty and holds at most `n` elements, every chunk but the last holds exactly `n`, and `c` chunks hold more than `(c - 1) * n` and at most `c * n` elements |
| `Batching.ChunkCount` | crawl_bulk_api.py:59-63 | there are ⌈N / n⌉ chunks for an input of N elements, and none exactly when the input is empty |
| `Batching.ChunkIndex` | crawl_bulk_api.py:56-63 | element `p` of the input is element `p % n` of chunk `p / n` |
| `Batching.ChunkAt` | crawl_bulk_api.py:56-63 | chunk `i` is the input slice from `i*n` up to `(i+1)*n` or the end of the input |
| `Batching.ChunksOfOne` | crawl_bulk_api.py:56-63 | with batch size 1, each element becomes its own singleton chunk, in order |
| `Batching.BatchOfSeven` | crawl_bulk_api.py:52-53 | the doctest: `[0..6]` in chunks of 3 is `[[0,1,2],[3,4,5],[6]]` |
| `Reporting.RequestEvent` | crawl_bulk_api.py:112-115 | defines: the event for one request and its code, a warning unless the code is 200 |
| `Reporting.Correlate` | crawl_bulk_api.py:108-115 | defines: the `zip` loop, one event per paired request, stopping at the shorter list |
| `Reporting.ReportBatch` | crawl_bulk_api.py:100-115 | defines: the events of one bulk call, one `BatchWarn` when its outer code is not 200, the paired events otherwise |
| `Reporting.Stdout` | crawl_bulk_api.py:115 | defines: the lines printed on standard output, one `Ok: <request>` per `Ok` event, in order |
| `Reporting.CorrelateAt` | crawl_bulk_api.py:108-115 | pairing by position gives one event per index below the shorter of the two lists: `Ok(requests[i])` when `codes[i]` is 200, and `ReqWarn(requests[i], codes[i])` otherwise |
| `Reporting.ReportBatchEvents` | crawl_bulk_api.py:101-115 | a bulk call whose outer code is not 200 yields exactly one `BatchWarn` carrying that code and nothing on standard output; with outer code 200 there is one per-request event per paired position, in batch order |
| `Reporting.SiblingsUnaffected` | crawl_bulk_api.py:109-115 | changing the code of request `j` changes no event except the one at position `j` |
| `Reporting.StdoutAppend` | crawl_bulk_api.py:115 | the standard output of two runs of events, one after the other, is the standard output of each, concatenated |
| `Reporting.CorrelateStdout` | crawl_bulk_api.py:108-115 | standard output of a batch is `Ok: <request>` for each paired request whose code is 200, in batch order |
| `Reporting.AllSucceeded` | crawl_bulk_api.py:108-115 | with outer code 200 and one 200 per request, standard output is `Ok: <request>` for every request of the batch, in order |
| `Reporting.AllSucceededLines` | crawl_bulk_api.py:112-115 | when every paired code is 200, the successful requests are all of them |
| `Reporting.OkLineCount` | crawl_bulk_api.py:112-115 | the number of `Ok` lines equals the number of 200s among the paired codes |
| `Reporting.SucceededCount` | crawl_bulk_api.py:112-115 | the successful paired requests are as many as the 200s among the paired codes |
| `Reporting.OkLinesAppend` | crawl_bulk_api.py:115 | the output lines of two runs of successful requests are the lines of each, concatenated |
| `Crawl.Batches` | crawl_bulk_api.py:79-82 | defines: the request lists sent, the generated requests cut into chunks of 100 |
| `Crawl.ReportAll` | crawl_bulk_api.py:84-115 | defines: the main loop, the events of each batch against its own bulk answer, batch after batch |
| `Crawl.Run` | crawl_bulk_api.py:77-115 | defines: the whole run, from the identifiers to the events |
| `Crawl.BatchesCoverRequests` | crawl_bulk_api.py:79-82 | the request lists sent carry every generated request in order; there are ⌈N / 100⌉ of them, each non-empty and at most 100 long, all full but the last |
| `Crawl.ReportAllAppend` | crawl_bulk_api.py:84-103 | batches are reported one after the other and independently: a failed bulk call (`continue`) does not stop or alter the reports of later batches |
| `Crawl.SameIdAdjacentBatches` | crawl_bulk_api.py:35-40 | when one identifier's widgets × languages requests fit in one batch, request (i, j, k) is sent at slot `p % 100` of batch `p / 100`, for `p = (i * W + j) * L + k`, and that batch is `c` or `c + 1`, where `c = i * (W * L) / 100`. So an identifier's requests share one bulk call or two adjacent ones |
| `Crawl.LongBlockSpansThreeBatches` | crawl_bulk_api.py:35-40 | with 103 requests per identifier, identifier 33, whose block starts in batch 33, has its first request in the last slot of batch 33 and its last request in batch 35. Three batches, so the grouping above needs a block of at most 100 |
| `Crawl.AllBatchesFailed` | crawl_bulk_api.py:100-103 | when every bulk call fails, the run is exactly one `BatchWarn(code)` per batch, in order, and prints nothing |
| `Crawl.ReportAllSucceeded` | crawl_bulk_api.py:84-115 | when every bulk call and request succeeds, standard output is `Ok: <request>` for every batched request, in batch order |
| `Crawl.RunSucceeded` | crawl_bulk_api.py:77-115 | end to end: when everything succeeds, the run prints `Ok: <request>` for every generated request, in generation order |
| `Crawl.TwoHotelsOneCall` | crawl_bulk_api.py:77-82 | identifiers `h1`, `h2` with widget `seal` and language `en` give the two expected paths, sent in a single bulk call |

## Left out

- Argument parsing (`parse_args`, crawl_bulk_api.py:17-23): library configuration only. The widgets and languages are plain inputs, and their defaults are not modelled.
- Logging setup and the startup log line (crawl_bulk_api.py:67, 71-74): side effects on standard error. The warnings appear only as `ReqWarn` and `BatchWarn` events, not as formatted log text.
- Reading standard input and stripping the trailing newline (crawl_bulk_api.py:77): I/O. The identifiers are an input sequence of strings.
- The JSON encoding of the request list, the POST to the fixed endpoint and the parsing of the JSON answer (crawl_bulk_api.py:88-98): network calls and foreign serialisation. `BulkResponse` takes the already-parsed outer code and per-request codes, one answer per batch. Transport and parsing faults, which end the run of the script, are not modelled.
- Non-integer status codes: the parsed JSON could hold `200.0`, `"200"` or `null` where a code is expected. Python's `!= 200` treats `200.0` as success and the other two as failure. The model takes codes as integers only.
- Laziness: the generators of the script run over a possibly unbounded stream. The model works on finite sequences, computed whole.
- Batching.Batch: requires `batchSize > 0`, as do the lemmas about `Chunks`. The script only ever calls `batch` with 100. For a size of 0 or less it would emit every element as a singleton, and that is not specified.
