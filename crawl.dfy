/** The main loop of the crawler: identifiers are expanded into request
    paths, the paths are cut into batches of at most 100, and each batch is
    reported on once its bulk call has answered. The bulk call itself is
    not modelled: its parsed answers are an input, one per batch. */
module Crawl {
  import opened Flattening
  import opened Requests
  import opened Batching
  import opened Reporting

  /** The largest request list the bulk API accepts in one call. */
  const BatchSize := 100

  /** The parsed answer to one bulk call: its own `meta.code`, and the
      `meta.code` of each entry of its `response_list`, in order. */
  datatype BulkResponse = BulkResponse(code: int, responseCodes: seq<int>)

  /** The request lists sent to the bulk API, one per call. */
  function Batches(ids: seq<string>, widgets: seq<string>, languages: seq<string>): seq<seq<string>>
  {
    Chunks(CreateRequests(ids, widgets, languages), BatchSize)
  }

  /** The events of the main loop: each batch in turn, reported against the
      answer to its own bulk call. */
  function ReportAll(batches: seq<seq<string>>, responses: seq<BulkResponse>): seq<Event>
    requires |responses| == |batches|
  {
    if batches == [] then []
    else
      var answer := responses[0];
      ReportBatch(batches[0], answer.code, answer.responseCodes) + ReportAll(batches[1..], responses[1..])
  }

  /** The bulk call for `batch` succeeded, with one response per request,
      and so did every request in it. */
  predicate AllOk(batch: seq<string>, response: BulkResponse)
  {
    response.code == StatusOk && |response.responseCodes| == |batch| &&
    forall j :: 0 <= j < |response.responseCodes| ==> response.responseCodes[j] == StatusOk
  }

  /** A whole run, from the identifiers read on standard input to the events
      reported, given the answer to each bulk call. */
  function Run(ids: seq<string>, widgets: seq<string>, languages: seq<string>, responses: seq<BulkResponse>): seq<Event>
    requires |responses| == |Batches(ids, widgets, languages)|
  {
    ReportAll(Batches(ids, widgets, languages), responses)
  }

  /** The batches carry every generated request, in order, in ⌈N / 100⌉
      non-empty calls of at most 100 requests, every call but the last full,
      where N is |ids| × |widgets| × |languages|. */
  lemma BatchesCoverRequests(ids: seq<string>, widgets: seq<string>, languages: seq<string>)
    ensures Flatten(Batches(ids, widgets, languages)) == CreateRequests(ids, widgets, languages)
    ensures |Batches(ids, widgets, languages)|
         == (|ids| * (|widgets| * |languages|) + BatchSize - 1) / BatchSize
    ensures forall i :: 0 <= i < |Batches(ids, widgets, languages)| ==>
      0 < |Batches(ids, widgets, languages)[i]| <= BatchSize
    ensures forall i :: 0 <= i < |Batches(ids, widgets, languages)| - 1 ==>
      |Batches(ids, widgets, languages)[i]| == BatchSize
  {
    var requests := CreateRequests(ids, widgets, languages);
    FlattenChunks(requests, BatchSize);
    ChunkSizes(requests, BatchSize);
    ChunkCount(requests, BatchSize);
    CreateRequestsLength(ids, widgets, languages);
  }

  /** The request for `ids[i]`, `widgets[j]` and `languages[k]` is sent in
      the batch at or just after the one where the block of `ids[i]` starts,
      provided one identifier's block fits in a single batch: the loop order
      of the generator keeps an identifier's requests in the same bulk call
      or in two adjacent ones. */
  lemma SameIdAdjacentBatches(ids: seq<string>, widgets: seq<string>, languages: seq<string>, i: nat, j: nat, k: nat)
    requires i < |ids| && j < |widgets| && k < |languages|
    requires |widgets| * |languages| <= BatchSize
    ensures var batches := Batches(ids, widgets, languages);
      var p := (i * |widgets| + j) * |languages| + k;
      var c := i * (|widgets| * |languages|) / BatchSize;
      p / BatchSize < |batches| && p % BatchSize < |batches[p / BatchSize]| &&
      batches[p / BatchSize][p % BatchSize] == RequestPath(ids[i], widgets[j], languages[k]) &&
      (p / BatchSize == c || p / BatchSize == c + 1)
  {
    var w, l := |widgets|, |languages|;
    var p := (i * w + j) * l + k;
    CreateRequestsAt(ids, widgets, languages, i, j, k);
    ChunkIndex(CreateRequests(ids, widgets, languages), BatchSize, p);
    BlockOffset(i, j, k, w, l);
    QuotientWithin(i * (w * l), j * l + k, BatchSize);
  }

  /** When an identifier's block holds more than one batch's worth, it can
      span three batches: with 103 requests per identifier, the requests of
      `ids[33]` run from the last slot of batch 33 to slot 1 of batch 35,
      while the block starts in batch 33 * 103 / 100 = 33. */
  lemma LongBlockSpansThreeBatches(ids: seq<string>, widgets: seq<string>, languages: seq<string>)
    requires |ids| > 33 && |widgets| * |languages| == 103
    ensures var batches := Batches(ids, widgets, languages);
      33 * (|widgets| * |languages|) / BatchSize == 33 && 35 < |batches| &&
      |batches[33]| == BatchSize && |batches[35]| > 1 &&
      batches[33][99] == RequestPath(ids[33], widgets[0], languages[0]) &&
      batches[35][1] == RequestPath(ids[33], widgets[|widgets| - 1], languages[|languages| - 1])
  {
    var w, l := |widgets|, |languages|;
    var requests := CreateRequests(ids, widgets, languages);
    var batches := Batches(ids, widgets, languages);
    assert w > 0 && l > 0;
    BlockOffset(33, 0, 0, w, l);
    BlockOffset(33, w - 1, l - 1, w, l);
    LastOffset(w, l);
    CreateRequestsAt(ids, widgets, languages, 33, 0, 0);
    CreateRequestsAt(ids, widgets, languages, 33, w - 1, l - 1);
    assert (33 * w + 0) * l + 0 == 3399;
    assert (33 * w + (w - 1)) * l + (l - 1) == 3501;
    ChunkIndex(requests, BatchSize, 3399);
    ChunkIndex(requests, BatchSize, 3501);
    ChunkSizes(requests, BatchSize);
  }

  /** Position `(i * w + j) * l + k` is offset `j * l + k` of block `i`, and
      that offset lies inside a block of `w * l`. */
  lemma BlockOffset(i: nat, j: nat, k: nat, w: nat, l: nat)
    requires j < w && k < l
    ensures (i * w + j) * l + k == i * (w * l) + (j * l + k)
    ensures j * l + k < w * l
  {
    assert (i * w + j) * l == i * (w * l) + j * l;
    assert j * l <= (w - 1) * l == w * l - l;
  }

  /** The last offset of a block of `w * l` is `w * l - 1`. */
  lemma LastOffset(w: nat, l: nat)
    requires w > 0 && l > 0
    ensures (w - 1) * l + (l - 1) == w * l - 1
  {
  }

  /** A failed bulk call does not stop the run: the events of consecutive
      runs of batches are the events of each, one after the other. */
  lemma {:induction false} ReportAllAppend(b1: seq<seq<string>>, r1: seq<BulkResponse>, b2: seq<seq<string>>, r2: seq<BulkResponse>)
    requires |r1| == |b1| && |r2| == |b2|
    ensures ReportAll(b1 + b2, r1 + r2) == ReportAll(b1, r1) + ReportAll(b2, r2)
    decreases |b1|
  {
    if b1 == [] {
      assert b1 + b2 == b2 && r1 + r2 == r2;
    } else {
      assert (b1 + b2)[1..] == b1[1..] + b2 && (r1 + r2)[1..] == r1[1..] + r2;
      ReportAllAppend(b1[1..], r1[1..], b2, r2);
    }
  }

  /** Every bulk call that fails is reported by one batch-level warning
      carrying its code and prints nothing; when every call fails, the run
      is exactly one warning per batch, in batch order. */
  lemma {:induction false} AllBatchesFailed(batches: seq<seq<string>>, responses: seq<BulkResponse>)
    requires |responses| == |batches|
    requires forall i :: 0 <= i < |responses| ==> responses[i].code != StatusOk
    ensures |ReportAll(batches, responses)| == |batches|
    ensures forall i :: 0 <= i < |batches| ==> ReportAll(batches, responses)[i] == BatchWarn(responses[i].code)
    ensures Stdout(ReportAll(batches, responses)) == []
    decreases |batches|
  {
    if batches != [] {
      AllBatchesFailed(batches[1..], responses[1..]);
      var first := ReportBatch(batches[0], responses[0].code, responses[0].responseCodes);
      var rest := ReportAll(batches[1..], responses[1..]);
      assert first == [BatchWarn(responses[0].code)];
      StdoutAppend(first, rest);
      assert Stdout(first) == [] + Stdout([]);
      forall i | 0 <= i < |batches|
        ensures ReportAll(batches, responses)[i] == BatchWarn(responses[i].code)
      {
        if i > 0 {
          assert (first + rest)[i] == rest[i - 1];
          assert responses[1..][i - 1] == responses[i];
        }
      }
    }
  }

  /** When every bulk call and every request succeeds, with one response per
      request, standard output is `Ok: <request>` for each batched request,
      in batch order. */
  lemma {:induction false} ReportAllSucceeded(batches: seq<seq<string>>, responses: seq<BulkResponse>)
    requires |responses| == |batches|
    requires forall i :: 0 <= i < |batches| ==> AllOk(batches[i], responses[i])
    ensures Stdout(ReportAll(batches, responses)) == OkLines(Flatten(batches))
    decreases |batches|
  {
    if batches != [] {
      var r := responses[0];
      assert AllOk(batches[0], r);
      AllSucceeded(batches[0], r.responseCodes);
      assert forall i :: 0 <= i < |batches[1..]| ==> AllOk(batches[1..][i], responses[1..][i]) by {
        forall i | 0 <= i < |batches[1..]| ensures AllOk(batches[1..][i], responses[1..][i]) {
          assert AllOk(batches[i + 1], responses[i + 1]);
        }
      }
      ReportAllSucceeded(batches[1..], responses[1..]);
      StdoutAppend(ReportBatch(batches[0], r.code, r.responseCodes), ReportAll(batches[1..], responses[1..]));
      OkLinesAppend(batches[0], Flatten(batches[1..]));
    }
  }

  /** End to end: when everything succeeds, a run prints `Ok: <request>` for
      every generated request, in generation order. */
  lemma RunSucceeded(ids: seq<string>, widgets: seq<string>, languages: seq<string>, responses: seq<BulkResponse>)
    requires |responses| == |Batches(ids, widgets, languages)|
    requires forall i :: 0 <= i < |responses| ==> AllOk(Batches(ids, widgets, languages)[i], responses[i])
    ensures Stdout(Run(ids, widgets, languages, responses)) == OkLines(CreateRequests(ids, widgets, languages))
  {
    ReportAllSucceeded(Batches(ids, widgets, languages), responses);
    FlattenChunks(CreateRequests(ids, widgets, languages), BatchSize);
  }

  /** Two identifiers, one widget and one language give two requests, sent
      in a single bulk call. */
  lemma TwoHotelsOneCall()
    ensures CreateRequests(["h1", "h2"], ["seal"], ["en"])
         == ["/hotels/h1/seal.json?lang=en", "/hotels/h2/seal.json?lang=en"]
    ensures Batches(["h1", "h2"], ["seal"], ["en"])
         == [["/hotels/h1/seal.json?lang=en", "/hotels/h2/seal.json?lang=en"]]
  {
    var p1, p2 := RequestPath("h1", "seal", "en"), RequestPath("h2", "seal", "en");
    assert p1 == "/hotels/h1/seal.json?lang=en" && p2 == "/hotels/h2/seal.json?lang=en";
    assert ForId("h1", ["seal"], ["en"]) == [p1] && ForId("h2", ["seal"], ["en"]) == [p2];
    assert CreateRequests(["h2"], ["seal"], ["en"]) == [p2];
    assert CreateRequests(["h1", "h2"], ["seal"], ["en"]) == [p1, p2];
  }
}
