/** What the main loop reports for one batch, once the bulk call has
    answered: a batch-level warning when the bulk call itself failed, and
    otherwise one line per request, paired with the per-request status codes
    by position. */
module Reporting {

  /** The status code the bulk API uses for success, outer and per request. */
  const StatusOk := 200

  /** One reported outcome, in the order the script writes them. `Ok` is the
      line printed to standard output; the two warnings go to the log. */
  datatype Event =
    | Ok(request: string)
    | ReqWarn(request: string, code: int)
    | BatchWarn(code: int)

  /** The outcome of one request whose own response carries `code`. */
  function RequestEvent(request: string, code: int): Event
  {
    if code != StatusOk then ReqWarn(request, code) else Ok(request)
  }

  /** The `zip` loop: requests and codes paired by position, stopping at the
      end of the shorter list. */
  function Correlate(requests: seq<string>, codes: seq<int>): seq<Event>
  {
    if requests == [] || codes == [] then []
    else [RequestEvent(requests[0], codes[0])] + Correlate(requests[1..], codes[1..])
  }

  /** Everything one batch reports, given the outer status code of the bulk
      response and the status codes of its response list. */
  function ReportBatch(requests: seq<string>, outerCode: int, codes: seq<int>): seq<Event>
  {
    if outerCode != StatusOk then [BatchWarn(outerCode)] else Correlate(requests, codes)
  }

  /** The standard-output line of a successful request. */
  function OkLine(request: string): string
  {
    "Ok: " + request
  }

  /** The lines a run of events writes to standard output: one per `Ok`, in
      order; warnings are logged elsewhere. */
  function Stdout(events: seq<Event>): seq<string>
  {
    if events == [] then []
    else (if events[0].Ok? then [OkLine(events[0].request)] else []) + Stdout(events[1..])
  }

  /** The standard-output lines of a list of requests that all succeeded:
      the reference the success lemmas compare standard output against. */
  function OkLines(requests: seq<string>): seq<string>
  {
    seq(|requests|, i requires 0 <= i < |requests| => OkLine(requests[i]))
  }

  lemma OkLinesAppend(a: seq<string>, b: seq<string>)
    ensures OkLines(a + b) == OkLines(a) + OkLines(b)
  {
    assert forall i :: 0 <= i < |a + b| ==> OkLines(a + b)[i] == (OkLines(a) + OkLines(b))[i];
  }

  /** Standard output of consecutive runs of events is the concatenation of
      their standard outputs. */
  lemma {:induction false} StdoutAppend(a: seq<Event>, b: seq<Event>)
    ensures Stdout(a + b) == Stdout(a) + Stdout(b)
    decreases |a|
  {
    if a == [] {
      assert a + b == b;
    } else {
      assert (a + b)[0] == a[0] && (a + b)[1..] == a[1..] + b;
      StdoutAppend(a[1..], b);
    }
  }

  /** Pairing by position: one event per position below the shorter length,
      `Ok` for a 200 and a request warning carrying the code otherwise. */
  lemma {:induction false} CorrelateAt(requests: seq<string>, codes: seq<int>)
    ensures |Correlate(requests, codes)| == if |requests| <= |codes| then |requests| else |codes|
    ensures forall i :: 0 <= i < |Correlate(requests, codes)| ==>
      (codes[i] == StatusOk ==> Correlate(requests, codes)[i] == Ok(requests[i])) &&
      (codes[i] != StatusOk ==> Correlate(requests, codes)[i] == ReqWarn(requests[i], codes[i]))
    decreases |requests|
  {
    if requests != [] && codes != [] {
      CorrelateAt(requests[1..], codes[1..]);
      var r := Correlate(requests, codes);
      forall i | 0 <= i < |r|
        ensures codes[i] == StatusOk ==> r[i] == Ok(requests[i])
        ensures codes[i] != StatusOk ==> r[i] == ReqWarn(requests[i], codes[i])
      {
        if i > 0 {
          assert r[i] == Correlate(requests[1..], codes[1..])[i - 1];
          assert requests[1..][i - 1] == requests[i] && codes[1..][i - 1] == codes[i];
        }
      }
    }
  }

  /** A failed bulk call reports exactly one batch-level warning carrying its
      code, and nothing on standard output; a successful one reports only
      per-request events, one per paired position. */
  lemma ReportBatchEvents(requests: seq<string>, outerCode: int, codes: seq<int>)
    ensures outerCode != StatusOk ==>
      ReportBatch(requests, outerCode, codes) == [BatchWarn(outerCode)] &&
      Stdout(ReportBatch(requests, outerCode, codes)) == []
    ensures outerCode == StatusOk ==>
      |ReportBatch(requests, outerCode, codes)| == (if |requests| <= |codes| then |requests| else |codes|) &&
      forall i :: 0 <= i < |ReportBatch(requests, outerCode, codes)| ==>
        ReportBatch(requests, outerCode, codes)[i] == RequestEvent(requests[i], codes[i])
  {
    if outerCode == StatusOk {
      CorrelateAt(requests, codes);
    } else {
      assert Stdout([BatchWarn(outerCode)]) == [] + Stdout([]);
    }
  }

  /** A failing request does not affect its siblings: changing the code of
      request `j` changes at most the event at position `j`. */
  lemma SiblingsUnaffected(requests: seq<string>, codes: seq<int>, j: nat, code: int)
    requires j < |codes|
    ensures |Correlate(requests, codes[j := code])| == |Correlate(requests, codes)|
    ensures forall i :: 0 <= i < |Correlate(requests, codes)| && i != j ==>
      Correlate(requests, codes[j := code])[i] == Correlate(requests, codes)[i]
  {
    CorrelateAt(requests, codes);
    CorrelateAt(requests, codes[j := code]);
  }

  /** The requests of a batch whose code is 200, rendered as output lines. */
  function Succeeded(requests: seq<string>, codes: seq<int>): seq<string>
  {
    if requests == [] || codes == [] then []
    else
      var first := if codes[0] == StatusOk then [OkLine(requests[0])] else [];
      first + Succeeded(requests[1..], codes[1..])
  }

  /** Standard output of a correlated batch: one `Ok: <request>` line per
      request whose code is 200, in batch order. */
  lemma {:induction false} CorrelateStdout(requests: seq<string>, codes: seq<int>)
    ensures Stdout(Correlate(requests, codes)) == Succeeded(requests, codes)
    decreases |requests|
  {
    if requests != [] && codes != [] {
      CorrelateStdout(requests[1..], codes[1..]);
      var r := Correlate(requests, codes);
      assert r[1..] == Correlate(requests[1..], codes[1..]);
    }
  }

  /** A batch in which the bulk call and every request succeeded, with one
      response per request, prints `Ok: <request>` for each request, in
      batch order. */
  lemma AllSucceeded(requests: seq<string>, codes: seq<int>)
    requires |codes| == |requests|
    requires forall i :: 0 <= i < |codes| ==> codes[i] == StatusOk
    ensures Stdout(ReportBatch(requests, StatusOk, codes)) == OkLines(requests)
  {
    CorrelateStdout(requests, codes);
    AllSucceededLines(requests, codes);
  }

  lemma {:induction false} AllSucceededLines(requests: seq<string>, codes: seq<int>)
    requires |codes| == |requests|
    requires forall i :: 0 <= i < |codes| ==> codes[i] == StatusOk
    ensures Succeeded(requests, codes) == OkLines(requests)
    decreases |requests|
  {
    if requests != [] {
      assert codes[0] == StatusOk;
      AllSucceededLines(requests[1..], codes[1..]);
      assert OkLines(requests) == [OkLine(requests[0])] + OkLines(requests[1..]);
    }
  }

  /** Exactly one `Ok` line is printed per paired position whose code is 200:
      the number of lines is the number of 200s among the first
      min(|requests|, |codes|) codes. */
  lemma OkLineCount(requests: seq<string>, codes: seq<int>)
    ensures var m := if |requests| <= |codes| then |requests| else |codes|;
      |Stdout(Correlate(requests, codes))| == multiset(codes[..m])[StatusOk]
  {
    CorrelateStdout(requests, codes);
    SucceededCount(requests, codes);
  }

  lemma {:induction false} SucceededCount(requests: seq<string>, codes: seq<int>)
    ensures var m := if |requests| <= |codes| then |requests| else |codes|;
      |Succeeded(requests, codes)| == multiset(codes[..m])[StatusOk]
    decreases |requests|
  {
    var m := if |requests| <= |codes| then |requests| else |codes|;
    if requests == [] || codes == [] {
      assert codes[..m] == [];
    } else {
      SucceededCount(requests[1..], codes[1..]);
      CountHead(codes, m);
    }
  }

  lemma CountHead(codes: seq<int>, m: nat)
    requires 0 < m <= |codes|
    ensures multiset(codes[..m])[StatusOk]
         == (if codes[0] == StatusOk then 1 else 0) + multiset(codes[1..][..m - 1])[StatusOk]
  {
    var rest := codes[1..][..m - 1];
    assert codes[..m] == [codes[0]] + rest;
    assert multiset(codes[..m]) == multiset([codes[0]]) + multiset(rest);
  }
}
