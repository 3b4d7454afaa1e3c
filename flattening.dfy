/** Sequences of blocks laid end to end. Both the request generator, whose
    loops emit one block of paths per identifier and per widget, and the
    batcher, whose chunks concatenate back to its input, are described by
    `Flatten`. The lemmas here work for any element type, so the index
    arithmetic over blocks is proved once and for all. */
module Flattening {

  /** Concatenation of the blocks in order. */
  function Flatten<T>(blocks: seq<seq<T>>): seq<T>
  {
    if blocks == [] then [] else blocks[0] + Flatten(blocks[1..])
  }

  /** `a` runs of `b` elements, counted by repeated addition so that the
      offsets of blocks stay linear for the solver. */
  function Times(a: nat, b: nat): nat
  {
    if a == 0 then 0 else Times(a - 1, b) + b
  }

  lemma {:induction false} TimesIsMul(a: nat, b: nat)
    ensures Times(a, b) == a * b
    decreases a
  {
    if a > 0 {
      TimesIsMul(a - 1, b);
      assert a * b == (a - 1) * b + b;
    }
  }

  /** An offset inside run `j` lies before the end of run `w - 1` when `j < w`. */
  lemma {:induction false} TimesInside(j: nat, w: nat, l: nat, k: nat)
    requires j < w && k < l
    ensures Times(j, l) + k < Times(w, l)
    decreases w
  {
    if j < w - 1 {
      TimesInside(j, w - 1, l, k);
    }
  }

  /** Every block holds exactly `m` elements. */
  predicate Uniform<T>(blocks: seq<seq<T>>, m: nat)
  {
    forall b :: 0 <= b < |blocks| ==> |blocks[b]| == m
  }

  lemma {:induction false} FlattenAppend<T>(a: seq<seq<T>>, b: seq<seq<T>>)
    ensures Flatten(a + b) == Flatten(a) + Flatten(b)
    decreases |a|
  {
    if a == [] {
      assert a + b == b;
    } else {
      assert (a + b)[0] == a[0] && (a + b)[1..] == a[1..] + b;
      FlattenAppend(a[1..], b);
    }
  }

  /** `|blocks|` blocks of `m` elements hold `Times(|blocks|, m)` elements. */
  lemma {:induction false} FlattenUniformLength<T>(blocks: seq<seq<T>>, m: nat)
    requires Uniform(blocks, m)
    ensures |Flatten(blocks)| == Times(|blocks|, m)
    decreases |blocks|
  {
    if blocks != [] {
      assert Uniform(blocks[1..], m) by {
        forall b | 0 <= b < |blocks[1..]| ensures |blocks[1..][b]| == m {
          assert blocks[1..][b] == blocks[b + 1];
        }
      }
      FlattenUniformLength(blocks[1..], m);
    }
  }

  /** Offset `x` of block `i` sits after `i` whole blocks. */
  lemma {:induction false} FlattenAt<T>(blocks: seq<seq<T>>, m: nat, i: nat, x: nat)
    requires Uniform(blocks, m) && i < |blocks| && x < m
    ensures Times(i, m) + x < |Flatten(blocks)|
    ensures Flatten(blocks)[Times(i, m) + x] == blocks[i][x]
    decreases i
  {
    FlattenUniformLength(blocks, m);
    if i > 0 {
      assert Uniform(blocks[1..], m) by {
        forall b | 0 <= b < |blocks[1..]| ensures |blocks[1..][b]| == m {
          assert blocks[1..][b] == blocks[b + 1];
        }
      }
      FlattenAt(blocks[1..], m, i - 1, x);
    }
  }

  /** Every element of the concatenation comes from some block. */
  lemma {:induction false} FlattenMember<T>(blocks: seq<seq<T>>, v: T)
    requires v in Flatten(blocks)
    ensures exists i :: 0 <= i < |blocks| && v in blocks[i]
    decreases |blocks|
  {
    if v !in blocks[0] {
      FlattenMember(blocks[1..], v);
      var i :| 0 <= i < |blocks[1..]| && v in blocks[1..][i];
      assert blocks[i + 1] == blocks[1..][i];
    }
  }
}
