/** blind_helix/management/commands/dataset.py: the four sample-generation
    strategies and the aggregation of the build results into labels.

    The collection is the `components` dictionary of the export loader:
    library name to that library's components, in insertion order. Every
    random draw goes through the `Random` module. */
module Dataset {
  import opened Common
  import opened Component
  import opened Export
  import Random

  /** One build: the components linked together. */
  type Sample = seq<Component>

  /** `list(collection)`: the library names, in insertion order. */
  function Keys(collection: Groups): (r: seq<string>)
    ensures |r| == |collection| && forall i :: 0 <= i < |r| ==> r[i] == collection[i].0
  {
    seq(|collection|, i requires 0 <= i < |collection| => collection[i].0)
  }

  /** `x` is a component of some library of the collection. */
  predicate Member(collection: Groups, x: Component) {
    exists i :: 0 <= i < |collection| && x in collection[i].1
  }

  predicate AllMembers(collection: Groups, s: Sample) {
    forall j :: 0 <= j < |s| ==> Member(collection, s[j])
  }

  /** No library of the collection has an empty list. */
  predicate NoneEmpty(collection: Groups) {
    forall i :: 0 <= i < |collection| ==> collection[i].1 != []
  }

  /** Position `j` of `s` comes from library `libs[j]`, and the libraries
      are pairwise distinct. */
  predicate StratifiedBy(collection: Groups, s: Sample, libs: seq<string>) {
    |libs| == |s| && Distinct(libs) &&
    forall j :: 0 <= j < |s| ==> KeyIndex(collection, libs[j]).Some? && s[j] in Lookup(collection, libs[j])
  }

  /** At most one component per library. */
  ghost predicate Stratified(collection: Groups, s: Sample) {
    exists libs :: StratifiedBy(collection, s, libs)
  }

  /** The positions at which two samples differ. */
  function Changes(a: Sample, b: Sample): nat {
    |set i | 0 <= i < |a| && i < |b| && a[i] != b[i]|
  }

  // ---------------------------------------------------------------------------
  // Facts about the collection

  /** Every component of the collection, library by library. */
  function Flatten(collection: Groups): (r: seq<Component>)
    decreases |collection|
  {
    if collection == [] then []
    else Flatten(collection[..|collection| - 1]) + collection[|collection| - 1].1
  }

  /** The flattening holds each component of each list once per
      occurrence: as many as the group sizes add up to. */
  lemma {:induction false} FlattenTotal(collection: Groups)
    ensures |Flatten(collection)| == Total(collection)
    decreases |collection|
  {
    if collection != [] {
      FlattenTotal(collection[..|collection| - 1]);
    }
  }

  /** The flattening holds exactly the members of the collection. */
  lemma {:induction false} FlattenMember(collection: Groups, x: Component)
    ensures x in Flatten(collection) <==> Member(collection, x)
    decreases |collection|
  {
    if collection != [] {
      var init := collection[..|collection| - 1];
      FlattenMember(init, x);
      if Member(init, x) {
        var i :| 0 <= i < |init| && x in init[i].1;
        assert collection[i] == init[i];
      }
      if Member(collection, x) {
        var i :| 0 <= i < |collection| && x in collection[i].1;
        if i < |init| {
          assert collection[i] == init[i];
        }
      }
    }
  }

  /** A dictionary has distinct keys, so its key list is duplicate-free. */
  lemma KeysDistinct(collection: Groups)
    requires DistinctKeys(collection)
    ensures Distinct(Keys(collection))
  {
  }

  /** Looking up a name of the key list yields one of the lists. */
  lemma LookupKey(collection: Groups, p: nat) returns (q: nat)
    requires p < |collection|
    ensures KeyIndex(collection, collection[p].0).Some?
    ensures q < |collection| && Lookup(collection, collection[p].0) == collection[q].1
  {
    var k := KeyIndex(collection, collection[p].0);
    assert k.Some?;
    q := k.value;
  }

  /** Distinct positions of a duplicate-free sequence hold distinct values. */
  lemma PickDistinct(keys: seq<string>, positions: seq<nat>, picked: seq<string>)
    requires Distinct(keys) && Random.Positions(positions, |keys|)
    requires |picked| == |positions| && forall i :: 0 <= i < |picked| ==> picked[i] == keys[positions[i]]
    ensures Distinct(picked)
  {
  }


  // ---------------------------------------------------------------------------
  // Draws shared by the strategies

  /** `random.choice(collection[random.choice(list(collection))])`: a
      component of a random library. */
  method DrawAny(collection: Groups) returns (r: Result<Component>)
    ensures r.Ok? ==> Member(collection, r.value)
    ensures r.Err? ==> r.error == IndexError
    ensures collection == [] ==> r.Err?
    ensures collection != [] && NoneEmpty(collection) ==> r.Ok?
  {
    var key, p := Random.Choice(Keys(collection));
    if key.Err? {
      return Err(IndexError);
    }
    var q := LookupKey(collection, p);
    var c, _ := Random.Choice(Lookup(collection, key.value));
    if c.Err? {
      return Err(IndexError);
    }
    r := Ok(c.value);
  }

  /** `random.sample(list(collection), m)` followed by one choice from each
      sampled library: the first draw of both stratified strategies. */
  method DrawStratified(collection: Groups, m: int) returns (r: Result<Sample>)
    requires DistinctKeys(collection)
    ensures r.Ok? ==> |r.value| == m && Stratified(collection, r.value) && AllMembers(collection, r.value)
    ensures r.Err? ==> r.error == ValueError || r.error == IndexError
    ensures m < 0 || m > |collection| ==> r == Err(ValueError)
    ensures 0 <= m <= |collection| && NoneEmpty(collection) ==> r.Ok?
  {
    var keys := Keys(collection);
    var libs, positions := Random.Sample(keys, m);
    if libs.Err? {
      return Err(ValueError);
    }
    KeysDistinct(collection);
    PickDistinct(keys, positions, libs.value);
    var sample: Sample := [];
    var j := 0;
    while j < |libs.value|
      invariant 0 <= j <= |libs.value| && |sample| == j
      invariant forall t :: 0 <= t < j ==> KeyIndex(collection, libs.value[t]).Some? && sample[t] in Lookup(collection, libs.value[t])
      invariant AllMembers(collection, sample)
    {
      var q := LookupKey(collection, positions[j]);
      var c, _ := Random.Choice(Lookup(collection, libs.value[j]));
      if c.Err? {
        return Err(IndexError);
      }
      sample := sample + [c.value];
      j := j + 1;
    }
    assert StratifiedBy(collection, sample, libs.value);
    r := Ok(sample);
  }

  // ---------------------------------------------------------------------------
  // simple

  /** The candidate samples of `simple`: one per component, library by
      library. */
  function Singletons(collection: Groups): (r: seq<Sample>)
    ensures |r| == |Flatten(collection)|
    ensures forall i :: 0 <= i < |r| ==> r[i] == [Flatten(collection)[i]]
  {
    var flat := Flatten(collection);
    seq(|flat|, i requires 0 <= i < |flat| => [flat[i]])
  }

  /** `simple`: without a (truthy) sample count every component is a
      sample, in library-then-list order; otherwise that many candidates at
      distinct positions. The error message reports the number of
      libraries, not the number of candidates. The component count is
      ignored. */
  method Simple(collection: Groups, samples: Option<int>, components: Option<int>) returns (r: Result<seq<Sample>>)
    ensures !TruthyInt(samples) ==> r == Ok(Singletons(collection))
    ensures TruthyInt(samples) && samples.value > Total(collection) ==> r == Err(SamplingError(samples.value, |collection|))
    ensures TruthyInt(samples) && samples.value < 0 ==> r == Err(ValueError)
    ensures TruthyInt(samples) && 0 < samples.value <= Total(collection) ==>
      r.Ok? && |r.value| == samples.value &&
      exists positions :: |positions| == samples.value && Random.Positions(positions, |Singletons(collection)|) &&
        forall i :: 0 <= i < |positions| ==> r.value[i] == Singletons(collection)[positions[i]]
  {
    var options := Singletons(collection);
    FlattenTotal(collection);
    if TruthyInt(samples) {
      if |options| < samples.value {
        return Err(SamplingError(samples.value, |collection|));
      }
      var picked, positions := Random.Sample(options, samples.value);
      return picked;
    }
    return Ok(options);
  }

  // ---------------------------------------------------------------------------
  // rand

  /** `rand`: `samples` (default 100) samples of `components` (default 50)
      components each, every one a component of some library, duplicates
      allowed. */
  method Rand(collection: Groups, samples: Option<int>, components: Option<int>) returns (r: Result<seq<Sample>>)
    ensures r.Ok? ==> |r.value| == RangeLength(OrInt(samples, 100))
    ensures r.Ok? ==> forall i :: 0 <= i < |r.value| ==>
      |r.value[i]| == RangeLength(OrInt(components, 50)) && AllMembers(collection, r.value[i])
    ensures r.Err? ==> r.error == IndexError
    ensures collection != [] && NoneEmpty(collection) ==> r.Ok?
    ensures collection == [] && RangeLength(OrInt(samples, 100)) > 0 && RangeLength(OrInt(components, 50)) > 0 ==> r == Err(IndexError)
  {
    var n := RangeLength(OrInt(samples, 100));
    var m := RangeLength(OrInt(components, 50));
    var options: seq<Sample> := [];
    var i := 0;
    while i < n
      invariant 0 <= i <= n && |options| == i
      invariant collection == [] && m > 0 ==> i == 0
      invariant forall t :: 0 <= t < i ==> |options[t]| == m && AllMembers(collection, options[t])
    {
      var sample := RandSample(collection, m);
      if sample.Err? {
        return Err(IndexError);
      }
      options := options + [sample.value];
      i := i + 1;
    }
    r := Ok(options);
  }

  /** The inner loop of `rand`: `m` independent draws. */
  method RandSample(collection: Groups, m: nat) returns (r: Result<Sample>)
    ensures r.Ok? ==> |r.value| == m && AllMembers(collection, r.value)
    ensures r.Err? ==> r.error == IndexError
    ensures collection != [] && NoneEmpty(collection) ==> r.Ok?
    ensures collection == [] && m > 0 ==> r.Err?
  {
    var sample: Sample := [];
    var j := 0;
    while j < m
      invariant 0 <= j <= m && |sample| == j
      invariant collection == [] ==> j == 0
      invariant AllMembers(collection, sample)
    {
      var c := DrawAny(collection);
      if c.Err? {
        return Err(IndexError);
      }
      sample := sample + [c.value];
      j := j + 1;
    }
    r := Ok(sample);
  }

  // ---------------------------------------------------------------------------
  // stratified_random

  /** `stratified_random`: distinct samples, each drawing its `components`
      components from pairwise-distinct libraries.

      As written, the retry loop cannot retry: the first attempt turns
      `sample` into a tuple, so after a duplicate draw the second attempt's
      `sample.append` raises AttributeError. (That attempt's
      `random.sample` has the arguments with which the first one succeeded,
      and `append` is looked up before its argument is drawn.) The
      "maximum number of tries" exception is therefore never raised. */
  method StratifiedRandom(collection: Groups, samples: Option<int>, components: Option<int>) returns (r: Result<seq<Sample>>)
    requires DistinctKeys(collection)
    ensures r.Ok? ==> |r.value| == RangeLength(OrInt(samples, 100)) && Distinct(r.value)
    ensures r.Ok? ==> forall i :: 0 <= i < |r.value| ==>
      |r.value[i]| == OrInt(components, 50) && Stratified(collection, r.value[i])
    ensures r.Err? ==> r.error == ValueError || r.error == IndexError || r.error == AttributeError
    ensures RangeLength(OrInt(samples, 100)) > 0 && (OrInt(components, 50) < 0 || OrInt(components, 50) > |collection|) ==>
      r == Err(ValueError)
    ensures 0 <= OrInt(components, 50) <= |collection| && NoneEmpty(collection) ==>
      r.Ok? || (r == Err(AttributeError) && RangeLength(OrInt(samples, 100)) >= 2)
  {
    var n := RangeLength(OrInt(samples, 100));
    var m := OrInt(components, 50);
    var options: set<Sample> := {};
    var i := 0;
    while i < n
      invariant 0 <= i <= n && |options| == i
      invariant i > 0 ==> 0 <= m <= |collection|
      invariant forall s :: s in options ==> |s| == m && Stratified(collection, s)
      invariant i == 0 ==> options == {}
    {
      var sample :- DrawStratified(collection, m);
      if sample in options {
        return Err(AttributeError);
      }
      options := options + {sample};
      i := i + 1;
    }
    var l := ListOf(options);
    DistinctCard(l);
    r := Ok(l);
  }


  // ---------------------------------------------------------------------------
  // stratified_walk

  /** One walk step: replace up to `count` random positions of `sample`,
      in place, each with a component of a random library. */
  method Mutate(collection: Groups, sample: array<Component>, count: nat) returns (r: Result<()>)
    modifies sample
    requires AllMembers(collection, sample[..])
    ensures r.Ok? ==> Changes(old(sample[..]), sample[..]) <= count && AllMembers(collection, sample[..])
    ensures r.Err? ==> r.error == ValueError || r.error == IndexError
    ensures collection != [] && NoneEmpty(collection) && sample.Length > 0 ==> r.Ok?
  {
    ghost var before := sample[..];
    ghost var touched: set<int> := {};
    var j := 0;
    while j < count
      invariant 0 <= j <= count
      invariant |touched| <= j
      invariant forall i :: 0 <= i < sample.Length && i !in touched ==> sample[i] == before[i]
      invariant AllMembers(collection, sample[..])
    {
      var changed :- Random.RandInt(0, sample.Length - 1);
      var c :- DrawAny(collection);
      sample[changed] := c;
      touched := touched + {changed};
      j := j + 1;
    }
    var diff := set i | 0 <= i < |before| && i < sample.Length && before[i] != sample[..][i];
    assert forall i :: i in diff ==> i in touched;
    SubsetCard(diff, touched);
    return Ok(());
  }

  /** The steps of the walk: `steps` times, mutate `sample` in place by up
      to `bound` positions and keep a copy (`copy.deepcopy(sample)`). */
  method Walk(collection: Groups, sample: array<Component>, steps: nat, bound: nat) returns (r: Result<seq<Sample>>)
    modifies sample
    requires AllMembers(collection, sample[..])
    ensures r.Ok? ==> |r.value| == steps && AllMembers(collection, sample[..])
    ensures r.Ok? ==> forall i :: 0 <= i < steps ==> |r.value[i]| == sample.Length && AllMembers(collection, r.value[i])
    ensures r.Ok? && steps > 0 ==> Changes(old(sample[..]), r.value[0]) <= bound && r.value[steps - 1] == sample[..]
    ensures r.Ok? ==> forall i :: 0 <= i < steps - 1 ==> Changes(r.value[i], r.value[i + 1]) <= bound
    ensures r.Err? ==> r.error == ValueError || r.error == IndexError
    ensures collection != [] && NoneEmpty(collection) && sample.Length > 0 ==> r.Ok?
  {
    ghost var start := sample[..];
    var copies: seq<Sample> := [];
    var k := 0;
    while k < steps
      invariant 0 <= k <= steps && |copies| == k
      invariant AllMembers(collection, sample[..])
      invariant k == 0 ==> sample[..] == start
      invariant k > 0 ==> copies[k - 1] == sample[..] && Changes(start, copies[0]) <= bound
      invariant forall i :: 0 <= i < k ==> |copies[i]| == sample.Length && AllMembers(collection, copies[i])
      invariant forall i :: 0 <= i < k - 1 ==> Changes(copies[i], copies[i + 1]) <= bound
    {
      var count := Random.RandInt(0, bound);
      var mutated :- Mutate(collection, sample, count.value);
      copies := copies + [sample[..]];
      k := k + 1;
    }
    r := Ok(copies);
  }

  /** `stratified_walk` as written: the list at position 0 of the result is
      the live `sample` that every step then changes in place, so the first
      returned sample is the last one, not the stratified first draw. The
      change bound `round(components * 0.02)` is the parameter `bound`. */
  method StratifiedWalkAsWritten(collection: Groups, samples: Option<int>, components: Option<int>, bound: nat)
    returns (r: Result<seq<Sample>>)
    requires DistinctKeys(collection)
    ensures r.Ok? ==> |r.value| == 1 + RangeLength(OrInt(samples, 100) - 1)
    ensures r.Ok? ==> r.value[0] == r.value[|r.value| - 1]
    ensures r.Ok? ==> forall i :: 0 <= i < |r.value| ==> |r.value[i]| == OrInt(components, 50) && AllMembers(collection, r.value[i])
    ensures r.Err? ==> r.error == ValueError || r.error == IndexError
    ensures OrInt(components, 50) < 0 || OrInt(components, 50) > |collection| ==> r == Err(ValueError)
    ensures 0 <= OrInt(components, 50) <= |collection| && NoneEmpty(collection) ==> r.Ok?
  {
    var m := OrInt(components, 50);
    var first :- DrawStratified(collection, m);
    var sample := new Component[|first|](i requires 0 <= i < |first| => first[i]);
    assert sample[..] == first;
    var copies :- Walk(collection, sample, RangeLength(OrInt(samples, 100) - 1), bound);
    r := Ok([sample[..]] + copies);
    assert |copies| > 0 ==> r.value[|r.value| - 1] == copies[|copies| - 1];
  }

  /** `stratified_walk` with the first sample copied before the walk
      starts: the first sample is the stratified draw, and each sample
      differs from the one before in at most `bound` positions. */
  method StratifiedWalk(collection: Groups, samples: Option<int>, components: Option<int>, bound: nat)
    returns (r: Result<seq<Sample>>)
    requires DistinctKeys(collection)
    ensures r.Ok? ==> |r.value| == 1 + RangeLength(OrInt(samples, 100) - 1)
    ensures r.Ok? ==> Stratified(collection, r.value[0])
    ensures r.Ok? ==> forall i :: 0 <= i < |r.value| ==> |r.value[i]| == OrInt(components, 50) && AllMembers(collection, r.value[i])
    ensures r.Ok? ==> forall i :: 0 <= i < |r.value| - 1 ==> Changes(r.value[i], r.value[i + 1]) <= bound
    ensures r.Err? ==> r.error == ValueError || r.error == IndexError
    ensures OrInt(components, 50) < 0 || OrInt(components, 50) > |collection| ==> r == Err(ValueError)
    ensures 0 <= OrInt(components, 50) <= |collection| && NoneEmpty(collection) ==> r.Ok?
  {
    var m := OrInt(components, 50);
    var first :- DrawStratified(collection, m);
    var sample := new Component[|first|](i requires 0 <= i < |first| => first[i]);
    assert sample[..] == first;
    var copies :- Walk(collection, sample, RangeLength(OrInt(samples, 100) - 1), bound);
    r := Ok([first] + copies);
  }

  /** A library `A` with one component and a library `B` with two. */
  function TwoLibraries(): Groups {
    [("A", [Component("A", "", "", "", "f", [])]),
     ("B", [Component("B", "", "", "", "g", []), Component("B", "", "", "", "h", [])])]
  }

  /** One walk step can leave two components of the same library in a
      sample: from the stratified [A.f, B.g], replacing position 0 by B.h
      (a change of one position, allowed by any bound of at least one)
      gives [B.h, B.g]. The as-written walk returns such a last sample as its
      first one as well. */
  lemma WalkStepMixesLibraries()
    ensures DistinctKeys(TwoLibraries())
    ensures var f := TwoLibraries()[0].1[0];
            var g := TwoLibraries()[1].1[0];
            var h := TwoLibraries()[1].1[1];
            Stratified(TwoLibraries(), [f, g]) &&
            AllMembers(TwoLibraries(), [h, g]) && Changes([f, g], [h, g]) == 1 &&
            !Stratified(TwoLibraries(), [h, g])
  {
    StratifiedStart();
    ReplaceFirst();
    MixedStep();
  }

  /** [B.h, B.g] is drawn from the collection one position away from
      [A.f, B.g]. */
  lemma ReplaceFirst()
    ensures DistinctKeys(TwoLibraries())
    ensures var f := TwoLibraries()[0].1[0];
            var g := TwoLibraries()[1].1[0];
            var h := TwoLibraries()[1].1[1];
            AllMembers(TwoLibraries(), [h, g]) && Changes([f, g], [h, g]) == 1
  {
    var collection := TwoLibraries();
    var f, g, h := collection[0].1[0], collection[1].1[0], collection[1].1[1];
    assert Member(collection, h) && Member(collection, g);
    assert (set i | 0 <= i < 2 && i < 2 && [f, g][i] != [h, g][i]) == {0};
  }

  /** [A.f, B.g] takes one component from each library. */
  lemma StratifiedStart()
    ensures Stratified(TwoLibraries(), [TwoLibraries()[0].1[0], TwoLibraries()[1].1[0]])
  {
    var collection := TwoLibraries();
    assert KeyIndex(collection, "A") == Some(0);
    assert KeyIndex(collection, "B") == Some(1);
    assert StratifiedBy(collection, [collection[0].1[0], collection[1].1[0]], ["A", "B"]);
  }

  /** [B.h, B.g] takes two components from library B. */
  lemma MixedStep()
    ensures !Stratified(TwoLibraries(), [TwoLibraries()[1].1[1], TwoLibraries()[1].1[0]])
  {
    var collection := TwoLibraries();
    var g, h := collection[1].1[0], collection[1].1[1];
    forall libs
      ensures !StratifiedBy(collection, [h, g], libs)
    {
      if |libs| == 2 && KeyIndex(collection, libs[0]).Some? && h in Lookup(collection, libs[0]) &&
         KeyIndex(collection, libs[1]).Some? && g in Lookup(collection, libs[1]) {
        InTwoLibraries(libs[0], h);
        InTwoLibraries(libs[1], g);
      }
    }
  }

  /** In the example collection every component is listed under its own
      library. */
  lemma InTwoLibraries(lib: string, x: Component)
    requires KeyIndex(TwoLibraries(), lib).Some? && x in Lookup(TwoLibraries(), lib)
    ensures lib == x.library
  {
    var v := KeyIndex(TwoLibraries(), lib).value;
    assert Lookup(TwoLibraries(), lib) == TwoLibraries()[v].1;
    assert forall i, y :: 0 <= i < 2 && y in TwoLibraries()[i].1 ==> y.library == TwoLibraries()[i].0;
  }

  // ---------------------------------------------------------------------------
  // Aggregation of the build results (Command.handle)

  /** One build's result: `{identifier: tags}`, or `{}` when the build
      failed. */
  type Labels<T> = map<string, T>

  /** `[r for r in results if r]`: the non-empty results, in order. */
  function NonEmpty<T(==)>(results: seq<Labels<T>>): (r: seq<Labels<T>>)
    ensures forall i :: 0 <= i < |r| ==> r[i] != map[]
    ensures forall i :: 0 <= i < |results| && results[i] != map[] ==> results[i] in r
    ensures IsSubsequence(r, results)
    ensures |r| == |results| - multiset(results)[map[]]
    decreases |results|
  {
    if results == [] then []
    else
      var init, last := results[..|results| - 1], results[|results| - 1];
      var kept := NonEmpty(init);
      assert forall i :: 0 <= i < |init| ==> results[i] == init[i];
      EmptyCountSnoc(results);
      if last != map[] then
        SubsequenceAppendBoth(kept, init, last);
        kept + [last]
      else
        SubsequenceAppendRight(kept, init, last);
        kept
  }

  /** The empty results of a list are those before its last one, and the
      last one when it is empty. */
  lemma EmptyCountSnoc<T>(results: seq<Labels<T>>)
    requires results != []
    ensures multiset(results)[map[]] ==
              multiset(results[..|results| - 1])[map[]] + (if results[|results| - 1] == map[] then 1 else 0)
  {
    assert results == results[..|results| - 1] + [results[|results| - 1]];
  }

  /** Python's `s[:stop]`: a prefix, the whole list for `None`, and for a
      negative `stop` all but the last `-stop` elements. */
  function UpTo<T>(s: seq<T>, stop: Option<int>): (r: seq<T>)
    ensures r <= s
    ensures stop.None? ==> r == s
    ensures stop.Some? && stop.value >= 0 ==> |r| == if stop.value < |s| then stop.value else |s|
    ensures stop.Some? && stop.value < 0 ==> |r| == if |s| + stop.value > 0 then |s| + stop.value else 0
  {
    match stop
    case None => s
    case Some(m) =>
      if m >= 0 then s[..if m < |s| then m else |s|]
      else s[..if |s| + m > 0 then |s| + m else 0]
  }

  /** The identifiers of the results. */
  function KeysOf<T>(results: seq<Labels<T>>): set<string>
    decreases |results|
  {
    if results == [] then {} else KeysOf(results[..|results| - 1]) + results[|results| - 1].Keys
  }

  /** `labels.update(result)` for each result in order: a later result
      overrides an earlier one. */
  function MergeAll<T>(results: seq<Labels<T>>): Labels<T>
    decreases |results|
  {
    if results == [] then map[] else MergeAll(results[..|results| - 1]) + results[|results| - 1]
  }

  /** The merged labels have exactly the identifiers of the results. */
  lemma {:induction false} MergeAllKeys<T>(results: seq<Labels<T>>)
    ensures MergeAll(results).Keys == KeysOf(results)
    decreases |results|
  {
    if results != [] {
      MergeAllKeys(results[..|results| - 1]);
    }
  }

  /** The label of an identifier is the one of the last result that has
      it. */
  lemma {:induction false} MergeAllLastWins<T>(results: seq<Labels<T>>, key: string)
    requires key in KeysOf(results)
    ensures key in MergeAll(results)
    ensures exists i :: (0 <= i < |results| && key in results[i] && MergeAll(results)[key] == results[i][key] &&
                         forall j :: i < j < |results| ==> key !in results[j])
    decreases |results|
  {
    var init, last := results[..|results| - 1], results[|results| - 1];
    if key in last {
      assert results[|results| - 1] == last;
    } else {
      MergeAllLastWins(init, key);
      var i :| 0 <= i < |init| && key in init[i] && MergeAll(init)[key] == init[i][key] &&
        forall j :: i < j < |init| ==> key !in init[j];
      assert results[i] == init[i];
      assert forall j :: i < j < |results| ==> key !in results[j] by {
        forall j | i < j < |results|
          ensures key !in results[j]
        {
          if j < |init| {
            assert results[j] == init[j];
          }
        }
      }
    }
  }

  /** Dropping the empty results drops no identifier. */
  lemma {:induction false} NonEmptyKeys<T>(results: seq<Labels<T>>)
    ensures KeysOf(NonEmpty(results)) == KeysOf(results)
    decreases |results|
  {
    if results != [] {
      NonEmptyKeys(results[..|results| - 1]);
    }
  }

  /** `labels = {}; for result in results: labels.update(result)`. */
  method Merge<T>(results: seq<Labels<T>>) returns (labels: Labels<T>)
    ensures labels == MergeAll(results)
  {
    labels := map[];
    var i := 0;
    while i < |results|
      invariant 0 <= i <= |results|
      invariant labels == MergeAll(results[..i])
    {
      assert results[..i + 1][..i] == results[..i];
      labels := labels + results[i];
      i := i + 1;
    }
    assert results[..|results|] == results;
  }

  /** The aggregation: keep the non-empty results, at most
      `maximumSamples` of them, and merge them. The label keys are exactly
      the identifiers of the kept results, and with no maximum those of
      all the results. */
  method Aggregate<T(==)>(results: seq<Labels<T>>, maximumSamples: Option<int>) returns (labels: Labels<T>)
    ensures labels == MergeAll(UpTo(NonEmpty(results), maximumSamples))
    ensures labels.Keys == KeysOf(UpTo(NonEmpty(results), maximumSamples))
    ensures maximumSamples.None? ==> labels.Keys == KeysOf(results)
  {
    var kept := NonEmpty(results);
    kept := UpTo(kept, maximumSamples);
    labels := Merge(kept);
    MergeAllKeys(kept);
    NonEmptyKeys(results);
  }
}
