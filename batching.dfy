/** Splitting a sequence into fixed-size chunks, as `batch` does before every
    bulk call: chunks of exactly `n` elements in input order, and a final
    partial chunk holding whatever is left over. */
module Batching {
  import opened Flattening

  /** The chunks that `batch` yields for `xs`, one full chunk at a time. */
  function Chunks<T>(xs: seq<T>, n: nat): seq<seq<T>>
    requires n > 0
    decreases |xs|
  {
    if xs == [] then []
    else if |xs| <= n then [xs]
    else [xs[..n]] + Chunks(xs[n..], n)
  }

  /** The generator `batch`: each element is appended to a buffer, a
      full buffer is emitted and replaced by an empty one, and a non-empty
      buffer left over at the end is emitted as the last chunk. */
  method Batch<T>(xs: seq<T>, batchSize: nat) returns (chunks: seq<seq<T>>)
    requires batchSize > 0
    ensures chunks == Chunks(xs, batchSize)
  {
    chunks := [];
    var buffer: seq<T> := [];
    ghost var emitted := 0;
    for i := 0 to |xs|
      invariant emitted + |buffer| == i
      invariant emitted == |chunks| * batchSize
      invariant |buffer| < batchSize
      invariant buffer == xs[emitted..i]
      invariant chunks == Chunks(xs[..emitted], batchSize)
    {
      buffer := buffer + [xs[i]];
      if |buffer| >= batchSize {
        assert buffer == xs[emitted..i + 1];
        FullBuffer(xs, emitted, i + 1, batchSize, |chunks|);
        MulSucc(|chunks|, batchSize);
        chunks := chunks + [buffer];
        emitted := i + 1;
        buffer := [];
      }
    }
    if buffer != [] {
      assert buffer == xs[emitted..];
      LastBuffer(xs, emitted, batchSize, |chunks|);
      chunks := chunks + [buffer];
    } else {
      assert xs[..emitted] == xs;
    }
  }

  /** Emitting a full buffer: the chunks of the longer prefix are those of
      the shorter one followed by the buffer. */
  lemma FullBuffer<T>(xs: seq<T>, emitted: nat, end: nat, n: nat, k: nat)
    requires n > 0 && emitted == k * n && emitted + n == end <= |xs|
    ensures Chunks(xs[..end], n) == Chunks(xs[..emitted], n) + [xs[emitted..end]]
  {
    assert xs[..end] == xs[..emitted] + xs[emitted..end];
    ChunksAppend(xs[..emitted], xs[emitted..end], n, k);
  }

  /** The trailing flush: a non-empty partial buffer is the last chunk. */
  lemma LastBuffer<T>(xs: seq<T>, emitted: nat, n: nat, k: nat)
    requires n > 0 && emitted == k * n && emitted < |xs| < emitted + n
    ensures Chunks(xs, n) == Chunks(xs[..emitted], n) + [xs[emitted..]]
  {
    assert xs == xs[..emitted] + xs[emitted..];
    ChunksAppend(xs[..emitted], xs[emitted..], n, k);
  }

  /** Chunking a prefix made of whole chunks does not disturb the rest. */
  lemma {:induction false} ChunksAppend<T>(p: seq<T>, q: seq<T>, n: nat, k: nat)
    requires n > 0 && |p| == k * n
    ensures Chunks(p + q, n) == Chunks(p, n) + Chunks(q, n)
    decreases k
  {
    if k == 0 {
      assert p + q == q;
    } else {
      assert |p| == (k - 1) * n + n;
      if |p + q| <= n {
        assert q == [] && p + q == p;
      } else {
        assert (p + q)[..n] == p[..n];
        assert (p + q)[n..] == p[n..] + q;
        ChunksAppend(p[n..], q, n, k - 1);
      }
    }
  }

  /** Round trip: concatenating the chunks in order gives back the input. */
  lemma {:induction false} FlattenChunks<T>(xs: seq<T>, n: nat)
    requires n > 0
    ensures Flatten(Chunks(xs, n)) == xs
    decreases |xs|
  {
    if xs != [] && |xs| > n {
      var rest := Chunks(xs[n..], n);
      FlattenChunks(xs[n..], n);
      assert ([xs[..n]] + rest)[1..] == rest;
      assert xs[..n] + xs[n..] == xs;
    }
  }

  /** Every chunk is non-empty and at most `n` long, every chunk but the last
      is exactly `n` long, and the chunks hold more than `|c| - 1` and at most
      `|c|` chunks' worth of elements. */
  lemma {:induction false} ChunkSizes<T>(xs: seq<T>, n: nat)
    requires n > 0
    ensures |Chunks(xs, n)| * n - n < |xs| <= |Chunks(xs, n)| * n
    ensures forall i :: 0 <= i < |Chunks(xs, n)| ==> 0 < |Chunks(xs, n)[i]| <= n
    ensures forall i :: 0 <= i < |Chunks(xs, n)| - 1 ==> |Chunks(xs, n)[i]| == n
    decreases |xs|
  {
    if xs != [] && |xs| > n {
      ChunkSizes(xs[n..], n);
      var c := |Chunks(xs[n..], n)|;
      assert |Chunks(xs, n)| * n == c * n + n;
    }
  }

  /** There are ⌈|xs| / n⌉ chunks; in particular none for an empty input. */
  lemma ChunkCount<T>(xs: seq<T>, n: nat)
    requires n > 0
    ensures |Chunks(xs, n)| == (|xs| + n - 1) / n
    ensures Chunks(xs, n) == [] <==> xs == []
  {
    ChunkSizes(xs, n);
    var c := |Chunks(xs, n)|;
    DivUnique(|xs| + n - 1, n, c);
  }

  /** `a / n` is the one `q` with `q * n <= a < q * n + n`. */
  lemma DivUnique(a: int, n: int, q: int)
    requires n > 0 && q * n <= a < q * n + n
    ensures a / n == q
  {
    var r := a / n;
    assert r * n <= a < r * n + n;
    BelowNextMultiple(q, r, n);
    BelowNextMultiple(r, q, n);
  }

  lemma BelowNextMultiple(x: int, y: int, n: int)
    requires n > 0 && x * n < y * n + n
    ensures x <= y
  {
    var d := x - y;
    assert d * n == x * n - y * n;
    if d >= 1 {
      assert false;
    }
  }

  /** The `i`-th chunk is the slice of the input from `i * n` up to
      `(i + 1) * n` or the end, whichever comes first. */
  lemma ChunkAt<T>(xs: seq<T>, n: nat, i: nat)
    requires n > 0 && i < |Chunks(xs, n)|
    ensures i * n < |xs|
    ensures Chunks(xs, n)[i] == xs[i * n .. if (i + 1) * n <= |xs| then (i + 1) * n else |xs|]
  {
    MulSucc(i, n);
    ChunkFrom(xs, n, i, i * n);
  }

  /** `ChunkAt` with the start of chunk `i` given as `start`. */
  lemma {:induction false} ChunkFrom<T>(xs: seq<T>, n: nat, i: nat, start: nat)
    requires n > 0 && i < |Chunks(xs, n)| && start == i * n
    ensures start < |xs|
    ensures Chunks(xs, n)[i] == xs[start .. if start + n <= |xs| then start + n else |xs|]
    decreases |xs|
  {
    if |xs| <= n {
      assert Chunks(xs, n) == [xs] && i == 0;
    } else if i == 0 {
      assert Chunks(xs, n)[0] == xs[..n];
    } else {
      var ys := xs[n..];
      MulSucc(i - 1, n);
      ChunkFrom(ys, n, i - 1, start - n);
      assert Chunks(xs, n)[i] == Chunks(ys, n)[i - 1];
      var e := if start <= |ys| then start else |ys|;
      assert Chunks(ys, n)[i - 1] == ys[start - n .. e];
      SliceShift(xs, n, start - n, e);
      assert n + e == if start + n <= |xs| then start + n else |xs|;
    }
  }

  /** Element `p` of the input is element `p % n` of chunk `p / n`. */
  lemma ChunkIndex<T>(xs: seq<T>, n: nat, p: nat)
    requires n > 0 && p < |xs|
    ensures p / n < |Chunks(xs, n)|
    ensures p % n < |Chunks(xs, n)[p / n]|
    ensures Chunks(xs, n)[p / n][p % n] == xs[p]
  {
    ChunkSizes(xs, n);
    QuotientBelow(p, n, |Chunks(xs, n)|);
    ChunkElement(xs, n, p / n, p % n);
  }

  /** Offset `r` of chunk `q` is element `q * n + r` of the input. */
  lemma ChunkElement<T>(xs: seq<T>, n: nat, q: nat, r: nat)
    requires n > 0 && q < |Chunks(xs, n)| && r < n && q * n + r < |xs|
    ensures r < |Chunks(xs, n)[q]|
    ensures Chunks(xs, n)[q][r] == xs[q * n + r]
  {
    ChunkAt(xs, n, q);
    MulSucc(q, n);
  }

  /** Division facts for `ChunkIndex`, kept apart from the sequences. */
  lemma QuotientBelow(p: nat, n: nat, c: nat)
    requires n > 0 && p < c * n
    ensures p / n < c
    ensures p / n * n + p % n == p && p % n < n
  {
    var q := p / n;
    assert q * n <= p;
    assert (c - 1) * n + n == c * n;
    BelowNextMultiple(q, c - 1, n);
  }

  /** Adding less than `n` to `a` moves its quotient by `n` up by one at most. */
  lemma QuotientWithin(a: nat, d: nat, n: nat)
    requires d < n
    ensures a / n <= (a + d) / n <= a / n + 1
  {
    var q, r := a / n, (a + d) / n;
    assert q * n <= a < q * n + n;
    assert r * n <= a + d < r * n + n;
    BelowNextMultiple(q, r, n);
    MulSucc(q + 1, n);
    MulSucc(q, n);
    BelowNextMultiple(r, q + 1, n);
  }

  lemma MulSucc(i: nat, n: nat)
    ensures (i + 1) * n == i * n + n
  {
  }

  lemma SliceShift<T>(xs: seq<T>, n: nat, a: nat, b: nat)
    requires n <= |xs| && a <= b <= |xs| - n
    ensures xs[n..][a..b] == xs[n + a .. n + b]
  {
  }

  /** With a batch size of one, each element becomes a singleton chunk. */
  lemma {:induction false} ChunksOfOne<T>(xs: seq<T>)
    ensures |Chunks(xs, 1)| == |xs|
    ensures forall i :: 0 <= i < |xs| ==> Chunks(xs, 1)[i] == [xs[i]]
    decreases |xs|
  {
    if |xs| > 1 {
      ChunksOfOne(xs[1..]);
    }
  }

  /** The doctest of `batch`: seven elements in chunks of three. */
  lemma BatchOfSeven()
    ensures Chunks([0, 1, 2, 3, 4, 5, 6], 3) == [[0, 1, 2], [3, 4, 5], [6]]
  {
    var xs := [0, 1, 2, 3, 4, 5, 6];
    assert xs[..3] == [0, 1, 2] && xs[3..] == [3, 4, 5, 6];
    assert xs[3..][..3] == [3, 4, 5] && xs[3..][3..] == [6];
  }
}
