/** The request generator: every combination of hotel identifier, widget and
    language becomes one relative request path, identifier outermost, widget
    next, language innermost. Nothing is validated, escaped or deduplicated.
    Each loop of the generator is one level of blocks: the innermost loop
    yields one path per language, the widget loop lays those runs end to end,
    and the identifier loop lays the blocks of each identifier end to end. */
module Requests {
  import opened Flattening

  /** The path of one widget request: `/hotels/{id}/{widget}.json?lang={language}`. */
  function RequestPath(id: string, widget: string, language: string): string
  {
    "/hotels/" + id + "/" + widget + ".json?lang=" + language
  }

  /** The innermost loop: one path per language, for one identifier and widget. */
  function ForWidget(id: string, widget: string, languages: seq<string>): seq<string>
  {
    seq(|languages|, k requires 0 <= k < |languages| => RequestPath(id, widget, languages[k]))
  }

  /** The runs of the widget loop, one per widget, for one identifier. */
  function WidgetRuns(id: string, widgets: seq<string>, languages: seq<string>): seq<seq<string>>
  {
    seq(|widgets|, j requires 0 <= j < |widgets| => ForWidget(id, widgets[j], languages))
  }

  /** The middle loop: the paths of every widget, in turn, for one identifier. */
  function ForId(id: string, widgets: seq<string>, languages: seq<string>): seq<string>
  {
    Flatten(WidgetRuns(id, widgets, languages))
  }

  /** The blocks of the identifier loop, one per identifier. */
  function IdBlocks(ids: seq<string>, widgets: seq<string>, languages: seq<string>): seq<seq<string>>
  {
    seq(|ids|, i requires 0 <= i < |ids| => ForId(ids[i], widgets, languages))
  }

  /** `create_requests`: the paths of every identifier, in input order. */
  function CreateRequests(ids: seq<string>, widgets: seq<string>, languages: seq<string>): seq<string>
  {
    Flatten(IdBlocks(ids, widgets, languages))
  }

  /** A request path is its four fixed fragments with the three parameters
      spliced in verbatim: it starts with `/hotels/` followed by the
      identifier, and ends with `.json?lang=` followed by the language. */
  lemma RequestPathShape(id: string, widget: string, language: string)
    ensures var r := RequestPath(id, widget, language);
      |r| == |id| + |widget| + |language| + 20 &&
      r[..8] == "/hotels/" && r[8..8 + |id|] == id && r[8 + |id|] == '/' &&
      r[9 + |id|..9 + |id| + |widget|] == widget &&
      r[9 + |id| + |widget|..|r| - |language|] == ".json?lang=" &&
      r[|r| - |language|..] == language
  {
  }

  /** Every identifier's block has one path per widget and language. */
  lemma ForIdSize(id: string, widgets: seq<string>, languages: seq<string>)
    ensures |ForId(id, widgets, languages)| == Times(|widgets|, |languages|)
  {
    FlattenUniformLength(WidgetRuns(id, widgets, languages), |languages|);
  }

  /** The widget loop yields |widgets| × |languages| paths. */
  lemma ForIdLength(id: string, widgets: seq<string>, languages: seq<string>)
    ensures |ForId(id, widgets, languages)| == |widgets| * |languages|
  {
    ForIdSize(id, widgets, languages);
    TimesIsMul(|widgets|, |languages|);
  }

  lemma IdBlocksUniform(ids: seq<string>, widgets: seq<string>, languages: seq<string>)
    ensures Uniform(IdBlocks(ids, widgets, languages), Times(|widgets|, |languages|))
  {
    var blocks := IdBlocks(ids, widgets, languages);
    forall b | 0 <= b < |blocks| ensures |blocks[b]| == Times(|widgets|, |languages|) {
      ForIdSize(ids[b], widgets, languages);
    }
  }

  /** `create_requests` yields exactly |ids| × |widgets| × |languages| paths. */
  lemma CreateRequestsLength(ids: seq<string>, widgets: seq<string>, languages: seq<string>)
    ensures |CreateRequests(ids, widgets, languages)| == |ids| * (|widgets| * |languages|)
  {
    IdBlocksUniform(ids, widgets, languages);
    FlattenUniformLength(IdBlocks(ids, widgets, languages), Times(|widgets|, |languages|));
    TimesIsMul(|widgets|, |languages|);
    TimesIsMul(|ids|, |widgets| * |languages|);
  }

  /** Inside one identifier's block, the path for `widgets[j]` and
      `languages[k]` comes after `j` runs of one path per language. */
  lemma ForIdAt(id: string, widgets: seq<string>, languages: seq<string>, j: nat, k: nat)
    requires j < |widgets| && k < |languages|
    ensures Times(j, |languages|) + k < |ForId(id, widgets, languages)|
    ensures ForId(id, widgets, languages)[Times(j, |languages|) + k] == RequestPath(id, widgets[j], languages[k])
  {
    FlattenAt(WidgetRuns(id, widgets, languages), |languages|, j, k);
  }

  /** Offset `x` of the block for `ids[i]` comes after `i` whole blocks. */
  lemma BlockAt(ids: seq<string>, widgets: seq<string>, languages: seq<string>, i: nat, x: nat)
    requires i < |ids| && x < Times(|widgets|, |languages|)
    ensures Times(i, Times(|widgets|, |languages|)) + x < |CreateRequests(ids, widgets, languages)|
    ensures x < |ForId(ids[i], widgets, languages)|
    ensures CreateRequests(ids, widgets, languages)[Times(i, Times(|widgets|, |languages|)) + x]
         == ForId(ids[i], widgets, languages)[x]
  {
    IdBlocksUniform(ids, widgets, languages);
    FlattenAt(IdBlocks(ids, widgets, languages), Times(|widgets|, |languages|), i, x);
  }

  /** Row-major index arithmetic: `i` blocks of `w * l` paths, then `j` runs
      of `l` paths, then `k`. */
  lemma RowMajor(i: nat, j: nat, k: nat, w: nat, l: nat)
    ensures Times(i, Times(w, l)) + (Times(j, l) + k) == (i * w + j) * l + k
  {
    TimesIsMul(w, l);
    TimesIsMul(i, w * l);
    TimesIsMul(j, l);
    assert (i * w + j) * l == (i * w) * l + j * l;
    assert (i * w) * l == i * (w * l);
  }

  /** The element at index `(i * |widgets| + j) * |languages| + k` is the path
      built from `ids[i]`, `widgets[j]` and `languages[k]`. */
  lemma CreateRequestsAt(ids: seq<string>, widgets: seq<string>, languages: seq<string>, i: nat, j: nat, k: nat)
    requires i < |ids| && j < |widgets| && k < |languages|
    ensures (i * |widgets| + j) * |languages| + k < |CreateRequests(ids, widgets, languages)|
    ensures CreateRequests(ids, widgets, languages)[(i * |widgets| + j) * |languages| + k]
         == RequestPath(ids[i], widgets[j], languages[k])
  {
    ForIdAt(ids[i], widgets, languages, j, k);
    TimesInside(j, |widgets|, |languages|, k);
    BlockAt(ids, widgets, languages, i, Times(j, |languages|) + k);
    RowMajor(i, j, k, |widgets|, |languages|);
  }

  /** Generating for two runs of identifiers one after the other is
      generating for each and concatenating. */
  lemma CreateRequestsAppend(a: seq<string>, b: seq<string>, widgets: seq<string>, languages: seq<string>)
    ensures CreateRequests(a + b, widgets, languages)
         == CreateRequests(a, widgets, languages) + CreateRequests(b, widgets, languages)
  {
    var blocks := IdBlocks(a + b, widgets, languages);
    assert blocks == IdBlocks(a, widgets, languages) + IdBlocks(b, widgets, languages) by {
      forall i | 0 <= i < |blocks|
        ensures blocks[i] == (IdBlocks(a, widgets, languages) + IdBlocks(b, widgets, languages))[i]
      {
        if i >= |a| {
          assert (a + b)[i] == b[i - |a|];
        }
      }
    }
    FlattenAppend(IdBlocks(a, widgets, languages), IdBlocks(b, widgets, languages));
  }

  /** Requests are grouped by identifier: the paths for `ids[i]` form one
      contiguous block of |widgets| × |languages| paths, after every path for
      an earlier identifier and before every path for a later one. */
  lemma CreateRequestsGrouped(ids: seq<string>, widgets: seq<string>, languages: seq<string>, i: nat)
    requires i < |ids|
    ensures CreateRequests(ids, widgets, languages)
         == CreateRequests(ids[..i], widgets, languages) + ForId(ids[i], widgets, languages)
            + CreateRequests(ids[i + 1..], widgets, languages)
    ensures |CreateRequests(ids[..i], widgets, languages)| == i * (|widgets| * |languages|)
    ensures |ForId(ids[i], widgets, languages)| == |widgets| * |languages|
  {
    assert ids == ids[..i] + ([ids[i]] + ids[i + 1..]);
    CreateRequestsAppend(ids[..i], [ids[i]] + ids[i + 1..], widgets, languages);
    CreateRequestsAppend([ids[i]], ids[i + 1..], widgets, languages);
    var single := IdBlocks([ids[i]], widgets, languages);
    assert single == [ForId(ids[i], widgets, languages)] && single[1..] == [];
    assert Flatten(single[1..]) == [];
    assert CreateRequests([ids[i]], widgets, languages) == ForId(ids[i], widgets, languages) + [];
    CreateRequestsLength(ids[..i], widgets, languages);
    ForIdLength(ids[i], widgets, languages);
  }

  /** Every generated request is the path of some (identifier, widget,
      language) combination of the inputs. */
  lemma CreateRequestsSound(ids: seq<string>, widgets: seq<string>, languages: seq<string>, r: string)
    requires r in CreateRequests(ids, widgets, languages)
    ensures exists i, j, k :: 0 <= i < |ids| && 0 <= j < |widgets| && 0 <= k < |languages| &&
                              r == RequestPath(ids[i], widgets[j], languages[k])
  {
    FlattenMember(IdBlocks(ids, widgets, languages), r);
    var i :| 0 <= i < |ids| && r in ForId(ids[i], widgets, languages);
    FlattenMember(WidgetRuns(ids[i], widgets, languages), r);
    var j :| 0 <= j < |widgets| && r in ForWidget(ids[i], widgets[j], languages);
    var k :| 0 <= k < |languages| && ForWidget(ids[i], widgets[j], languages)[k] == r;
    assert r == RequestPath(ids[i], widgets[j], languages[k]);
  }

  /** Every (identifier, widget, language) combination is requested. */
  lemma CreateRequestsComplete(ids: seq<string>, widgets: seq<string>, languages: seq<string>, i: nat, j: nat, k: nat)
    requires i < |ids| && j < |widgets| && k < |languages|
    ensures RequestPath(ids[i], widgets[j], languages[k]) in CreateRequests(ids, widgets, languages)
  {
    CreateRequestsAt(ids, widgets, languages, i, j, k);
  }

  /** A string is a generated request exactly when it is the path of some
      (identifier, widget, language) combination of the inputs. */
  lemma CreateRequestsMembers(ids: seq<string>, widgets: seq<string>, languages: seq<string>, r: string)
    ensures r in CreateRequests(ids, widgets, languages) <==>
      exists i, j, k :: 0 <= i < |ids| && 0 <= j < |widgets| && 0 <= k < |languages| &&
        r == RequestPath(ids[i], widgets[j], languages[k])
  {
    if r in CreateRequests(ids, widgets, languages) {
      CreateRequestsSound(ids, widgets, languages, r);
    }
    if exists i, j, k :: 0 <= i < |ids| && 0 <= j < |widgets| && 0 <= k < |languages| &&
        r == RequestPath(ids[i], widgets[j], languages[k]) {
      var i, j, k :| 0 <= i < |ids| && 0 <= j < |widgets| && 0 <= k < |languages| &&
        r == RequestPath(ids[i], widgets[j], languages[k]);
      CreateRequestsComplete(ids, widgets, languages, i, j, k);
    }
  }

  /** Identifiers are not deduplicated: a repeated identifier yields its
      requests twice. */
  lemma RepeatedIdRepeatsRequests()
    ensures CreateRequests(["h1", "h1"], ["seal"], ["en"])
         == ["/hotels/h1/seal.json?lang=en", "/hotels/h1/seal.json?lang=en"]
  {
    var path := RequestPath("h1", "seal", "en");
    assert path == "/hotels/h1/seal.json?lang=en";
    assert ForWidget("h1", "seal", ["en"]) == [path];
    assert WidgetRuns("h1", ["seal"], ["en"]) == [[path]];
    assert ForId("h1", ["seal"], ["en"]) == [path];
    var blocks := IdBlocks(["h1", "h1"], ["seal"], ["en"]);
    assert blocks == [[path], [path]];
    assert Flatten(blocks[1..]) == [path];
  }

  /** Nothing is escaped, so distinct inputs can collide: identifier `a/b`
      with widget `c` and identifier `a` with widget `b/c` give the same path,
      at positions 0 and 3, although no identifier is repeated. */
  lemma DistinctInputsCollide()
    ensures var requests := CreateRequests(["a/b", "a"], ["c", "b/c"], ["en"]);
      |requests| == 4 &&
      requests[0] == requests[3] == "/hotels/a/b/c.json?lang=en"
  {
    var ids, widgets, languages := ["a/b", "a"], ["c", "b/c"], ["en"];
    var requests := CreateRequests(ids, widgets, languages);
    CreateRequestsLength(ids, widgets, languages);
    CreateRequestsAt(ids, widgets, languages, 0, 0, 0);
    CreateRequestsAt(ids, widgets, languages, 1, 1, 0);
    assert requests[0] == RequestPath("a/b", "c", "en");
    assert requests[3] == RequestPath("a", "b/c", "en");
    SamePath();
  }

  /** The two colliding paths spelled out, kept apart from the index
      reasoning above so that the solver compares the literals alone. */
  lemma SamePath()
    ensures RequestPath("a/b", "c", "en") == "/hotels/a/b/c.json?lang=en"
    ensures RequestPath("a", "b/c", "en") == "/hotels/a/b/c.json?lang=en"
  {
  }
}
