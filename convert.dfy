/** evaluation/scripts/convert-helix-labels/convert.py: pairwise
    similarity of the ground-truth samples, as the Jaccard index of their
    function labels.

    The ground truth is a JSON object from sample identifier to the
    sample's tags; here it is the list of its entries, in key order (an
    object's keys are distinct, so `data[key]` is the entry's own tag
    list). The JSON text and the progress output are not part of this
    model. */
module Convert {
  import opened Common
  import opened Component

  /** One sample of the ground truth: its identifier and its tags. */
  type Sample = (string, seq<Tag>)

  /** One output record: `{"first", "second", "similarity"}`. */
  datatype Similar = Similar(first: string, second: string, similarity: real)

  // ---------------------------------------------------------------------------
  // fetch

  /** `fetch`: the values of the tags whose key is "function". */
  function Fetch(tags: seq<Tag>): set<string> {
    set t | t in tags && t.0 == "function" :: t.1
  }

  /** `fetch` keeps exactly the function labels. */
  lemma FetchIff(tags: seq<Tag>, x: string)
    ensures x in Fetch(tags) <==> ("function", x) in tags
  {
    if ("function", x) in tags {
      assert ("function", x).1 == x;
    }
  }

  /** The function labels of a component's tags are its `lib-fn` names:
      one per included function and one for the function itself. */
  lemma FetchComponent(c: Component, tags: seq<Tag>)
    requires Elements(tags) == TagSet(c)
    ensures Fetch(tags) == set f | f in c.included + [c.functionName] :: c.library + "-" + f
  {
    var want := set f | f in c.included + [c.functionName] :: c.library + "-" + f;
    forall x | x in Fetch(tags)
      ensures x in want
    {
      FetchIff(tags, x);
      assert ("function", x) in Elements(tags);
    }
    forall x | x in want
      ensures x in Fetch(tags)
    {
      var f :| f in c.included + [c.functionName] && x == c.library + "-" + f;
      assert FunctionTag(c.library, f) in TagSet(c);
      assert ("function", x) in Elements(tags);
      FetchIff(tags, x);
    }
  }

  // ---------------------------------------------------------------------------
  // The Jaccard similarity

  /** `len(f & s) / len(f | s)`, or ZeroDivisionError when both sets are
      empty. */
  function Similarity(f: set<string>, s: set<string>): (r: Result<real>)
    ensures r.Err? <==> f == {} && s == {}
    ensures r.Err? ==> r.error == ZeroDivisionError
  {
    if |f + s| == 0 then Err(ZeroDivisionError) else Ok(|f * s| as real / |f + s| as real)
  }


  /** The similarity lies between 0 and 1. */
  lemma SimilarityBounds(f: set<string>, s: set<string>)
    requires f != {} || s != {}
    ensures 0.0 <= Similarity(f, s).value <= 1.0
  {
    SubsetCard(f * s, f + s);
    assert f + s != {} by {
      if f != {} {
        var x :| x in f;
        assert x in f + s;
      } else {
        var x :| x in s;
        assert x in f + s;
      }
    }
    RatioBounds(|f * s|, |f + s|);
  }

  /** A count over a larger positive count is a fraction between 0 and 1. */
  lemma RatioBounds(a: nat, b: nat)
    requires a <= b && 0 < b
    ensures 0.0 <= a as real / b as real <= 1.0
  {
    assert a as real <= b as real;
    assert a as real / b as real <= b as real / b as real;
  }

  /** The similarity is symmetric. */
  lemma SimilaritySymmetric(f: set<string>, s: set<string>)
    ensures Similarity(f, s) == Similarity(s, f)
  {
    assert f * s == s * f && f + s == s + f;
  }

  /** Identical non-empty label sets are fully similar. */
  lemma SimilarityIdentical(f: set<string>)
    requires f != {}
    ensures Similarity(f, f) == Ok(1.0)
  {
    assert f * f == f && f + f == f;
    assert |f| > 0;
    assert |f| as real / |f| as real == 1.0;
  }

  /** Disjoint label sets are not similar at all. */
  lemma SimilarityDisjoint(f: set<string>, s: set<string>)
    requires f != {} && f * s == {}
    ensures Similarity(f, s) == Ok(0.0)
  {
  }

  // ---------------------------------------------------------------------------
  // Pair enumeration

  /** `itertools.combinations(data, 2)`: every pair of positions i < j,
      ordered by i and then by j. */
  function Combinations<T>(s: seq<T>): (r: seq<(T, T)>)
    ensures |r| == |s| * (|s| - 1) / 2
    decreases |s|
  {
    if s == [] then []
    else
      var rest := Combinations(s[1..]);
      assert |rest| == (|s| - 1) * (|s| - 2) / 2;
      assert (|s| - 1) + (|s| - 1) * (|s| - 2) / 2 == |s| * (|s| - 1) / 2 by {
        assert (|s| - 1) * (|s| - 2) + 2 * (|s| - 1) == |s| * (|s| - 1);
      }
      seq(|s| - 1, j requires 0 <= j < |s| - 1 => (s[0], s[j + 1])) + rest
  }

  /** Every pair of the enumeration is a pair of positions i < j. */
  lemma {:induction false} CombinationsArePairs<T>(s: seq<T>, k: nat)
    requires k < |Combinations(s)|
    ensures exists i, j :: 0 <= i < j < |s| && Combinations(s)[k] == (s[i], s[j])
    decreases |s|
  {
    if k >= |s| - 1 {
      CombinationsArePairs(s[1..], k - (|s| - 1));
      var i, j :| 0 <= i < j < |s[1..]| && Combinations(s[1..])[k - (|s| - 1)] == (s[1..][i], s[1..][j]);
      assert Combinations(s)[k] == (s[i + 1], s[j + 1]);
    } else {
      assert Combinations(s)[k] == (s[0], s[k + 1]);
    }
  }

  /** Every pair of positions i < j occurs in the enumeration. */
  lemma {:induction false} CombinationsComplete<T>(s: seq<T>, i: nat, j: nat)
    requires i < j < |s|
    ensures exists k :: 0 <= k < |Combinations(s)| && Combinations(s)[k] == (s[i], s[j])
    decreases |s|
  {
    if i == 0 {
      assert Combinations(s)[j - 1] == (s[0], s[j]);
    } else {
      CombinationsComplete(s[1..], i - 1, j - 1);
      var k :| 0 <= k < |Combinations(s[1..])| && Combinations(s[1..])[k] == (s[1..][i - 1], s[1..][j - 1]);
      assert Combinations(s)[k + |s| - 1] == (s[i], s[j]);
    }
  }

  /** The records of the pairs, stopping at the first division by zero. */
  function Records(pairs: seq<(Sample, Sample)>): (r: Result<seq<Similar>>)
    ensures r.Ok? ==> |r.value| == |pairs|
    decreases |pairs|
  {
    if pairs == [] then Ok([])
    else
      var init := Records(pairs[..|pairs| - 1]);
      var last := pairs[|pairs| - 1];
      var similarity := Similarity(Fetch(last.0.1), Fetch(last.1.1));
      if init.Err? then init
      else if similarity.Err? then Err(similarity.error)
      else Ok(init.value + [Similar(last.0.0, last.1.0, similarity.value)])
  }

  /** Once a prefix of the pairs fails, the whole enumeration fails the
      same way. */
  lemma {:induction false} RecordsStop(pairs: seq<(Sample, Sample)>, k: nat)
    requires k <= |pairs| && Records(pairs[..k]).Err?
    ensures Records(pairs) == Records(pairs[..k])
    decreases |pairs|
  {
    if k == |pairs| {
      assert pairs[..k] == pairs;
    } else {
      var init := pairs[..|pairs| - 1];
      assert init[..k] == pairs[..k];
      RecordsStop(init, k);
    }
  }

  /** `e` is the record of `pair`: the two identifiers and their
      similarity, which is defined and lies between 0 and 1. */
  predicate RecordOf(pair: (Sample, Sample), e: Similar) {
    var (a, b) := pair;
    Similarity(Fetch(a.1), Fetch(b.1)).Ok? &&
    e == Similar(a.0, b.0, Similarity(Fetch(a.1), Fetch(b.1)).value) &&
    0.0 <= e.similarity <= 1.0
  }

  /** The records name the pairs in order, each with its similarity. */
  lemma {:induction false} RecordsFacts(pairs: seq<(Sample, Sample)>)
    requires Records(pairs).Ok?
    ensures forall k :: 0 <= k < |pairs| ==> RecordOf(pairs[k], Records(pairs).value[k])
    decreases |pairs|
  {
    if pairs != [] {
      var init := pairs[..|pairs| - 1];
      var last := pairs[|pairs| - 1];
      RecordsFacts(init);
      var out := Records(pairs).value;
      assert out == Records(init).value + [out[|pairs| - 1]];
      SimilarityBounds(Fetch(last.0.1), Fetch(last.1.1));
      assert RecordOf(last, out[|pairs| - 1]);
      forall k | 0 <= k < |pairs|
        ensures RecordOf(pairs[k], out[k])
      {
        if k < |init| {
          assert pairs[k] == init[k] && out[k] == Records(init).value[k];
          assert RecordOf(init[k], Records(init).value[k]);
        }
      }
    }
  }

  /** The top-level loop: one record per combination, in order. */
  method Pairwise(data: seq<Sample>) returns (r: Result<seq<Similar>>)
    ensures r == Records(Combinations(data))
    ensures r.Ok? ==> |r.value| == |data| * (|data| - 1) / 2
  {
    var pairs := Combinations(data);
    var out: seq<Similar> := [];
    var k := 0;
    while k < |pairs|
      invariant 0 <= k <= |pairs|
      invariant Records(pairs[..k]) == Ok(out)
    {
      assert pairs[..k + 1][..k] == pairs[..k];
      var first, second := pairs[k].0, pairs[k].1;
      var similarity := Similarity(Fetch(first.1), Fetch(second.1));
      if similarity.Err? {
        RecordsStop(pairs, k + 1);
        return Err(similarity.error);
      }
      out := out + [Similar(first.0, second.0, similarity.value)];
      k := k + 1;
    }
    assert pairs[..|pairs|] == pairs;
    r := Ok(out);
  }
}
