/** evaluation/scripts/performance/compare.py: aligning the ground-truth
    labels with each score file on the pairs they all have, and keying
    every score file by the unordered pair of samples it compares.

    The JSON text is not part of this model: a loaded file is the list of
    its records. Similarities are read as reals. */
module Compare {
  import opened Common
  import opened Strings

  /** The key of a pair of samples. */
  type Pair = (string, string)

  /** One record of a labels or scores file. */
  datatype Entry = Entry(first: string, second: string, similarity: real)

  // ---------------------------------------------------------------------------
  // align

  /** The keys of every argument (`set(a.keys())` narrowed with `&=`). */
  function CommonKeys<K, V>(args: seq<map<K, V>>): set<K>
    decreases |args|
  {
    if |args| <= 1 then (if args == [] then {} else args[0].Keys)
    else CommonKeys(args[..|args| - 1]) * args[|args| - 1].Keys
  }

  /** A key is common exactly when every argument has it. */
  lemma {:induction false} CommonKeysIff<K, V>(args: seq<map<K, V>>, k: K)
    requires args != []
    ensures k in CommonKeys(args) <==> forall i :: 0 <= i < |args| ==> k in args[i]
    decreases |args|
  {
    if |args| > 1 {
      var init := args[..|args| - 1];
      CommonKeysIff(init, k);
      assert forall i :: 0 <= i < |init| ==> init[i] == args[i];
    }
  }

  /** `align(*args)`: one list per argument, in argument order, each
      holding the argument's values at the common keys, in one shared key
      order (`keys`, the iteration order of the key set). */
  method Align<K, V>(args: seq<map<K, V>>) returns (r: seq<seq<V>>, keys: seq<K>)
    ensures Distinct(keys) && Elements(keys) == CommonKeys(args)
    ensures |r| == |args|
    ensures forall i :: 0 <= i < |args| ==> |r[i]| == |keys|
    ensures forall i, j :: 0 <= i < |args| && 0 <= j < |keys| ==> keys[j] in args[i] && r[i][j] == args[i][keys[j]]
  {
    var common: Option<set<K>> := None;
    var n := 0;
    while n < |args|
      invariant 0 <= n <= |args|
      invariant n == 0 <==> common.None?
      invariant n > 0 ==> common.value == CommonKeys(args[..n])
    {
      assert args[..n + 1][..n] == args[..n];
      if common.Some? {
        common := Some(common.value * args[n].Keys);
      } else {
        common := Some(args[n].Keys);
      }
      n := n + 1;
    }
    assert args[..|args|] == args;
    if common.None? {
      keys := [];
      return [], keys;
    }
    keys := ListOf(common.value);
    forall i, j | 0 <= i < |args| && 0 <= j < |keys|
      ensures keys[j] in args[i]
    {
      assert keys[j] in Elements(keys);
      CommonKeysIff(args, keys[j]);
    }
    r := [];
    var i := 0;
    while i < |args|
      invariant 0 <= i <= |args| && |r| == i
      invariant forall t :: 0 <= t < i ==> |r[t]| == |keys| && forall j :: 0 <= j < |keys| ==> r[t][j] == args[t][keys[j]]
    {
      r := r + [seq(|keys|, j requires 0 <= j < |keys| => args[i][keys[j]])];
      i := i + 1;
    }
  }

  // ---------------------------------------------------------------------------
  // load

  /** `tuple(sorted((first, second)))`. */
  function PairKey(a: string, b: string): (r: Pair)
    ensures {r.0, r.1} == {a, b}
    ensures !Less(r.1, r.0)
  {
    LessAsymmetric(a, b);
    if Less(b, a) then (b, a) else (a, b)
  }

  /** The key does not depend on the order of the two samples. */
  lemma PairKeySymmetric(a: string, b: string)
    ensures PairKey(a, b) == PairKey(b, a)
  {
    if a != b {
      LessTotal(a, b);
      LessAsymmetric(a, b);
    }
  }

  /** `load`: the records keyed by their sorted pair; a later record
      replaces an earlier one with the same key. */
  function Load(entries: seq<Entry>): map<Pair, real>
    decreases |entries|
  {
    if entries == [] then map[]
    else
      var e := entries[|entries| - 1];
      Load(entries[..|entries| - 1])[PairKey(e.first, e.second) := e.similarity]
  }

  /** The keys of a loaded file are the sorted pairs of its records. */
  lemma {:induction false} LoadKeys(entries: seq<Entry>)
    ensures Load(entries).Keys == set e | e in entries :: PairKey(e.first, e.second)
    decreases |entries|
  {
    if entries != [] {
      var init := entries[..|entries| - 1];
      LoadKeys(init);
      assert entries == init + [entries[|entries| - 1]];
    }
  }

  /** The value of a key is that of the last record with that key. */
  lemma {:induction false} LoadLastWins(entries: seq<Entry>, i: nat)
    requires i < |entries|
    requires forall j :: i < j < |entries| ==> PairKey(entries[j].first, entries[j].second) != PairKey(entries[i].first, entries[i].second)
    ensures PairKey(entries[i].first, entries[i].second) in Load(entries)
    ensures Load(entries)[PairKey(entries[i].first, entries[i].second)] == entries[i].similarity
    decreases |entries|
  {
    if i < |entries| - 1 {
      var init := entries[..|entries| - 1];
      assert init[i] == entries[i];
      assert forall j :: i < j < |init| ==> init[j] == entries[j];
      LoadLastWins(init, i);
    }
  }

  /** (a, b) and (b, a) collide: the later record wins. */
  lemma SwappedRecordsCollide(a: string, b: string, x: real, y: real)
    ensures Load([Entry(a, b, x), Entry(b, a, y)]) == map[PairKey(a, b) := y]
  {
    PairKeySymmetric(a, b);
    assert [Entry(a, b, x), Entry(b, a, y)][..1] == [Entry(a, b, x)];
    assert [Entry(a, b, x)][..0] == [];
    assert Load([Entry(a, b, x)]) == map[PairKey(a, b) := x];
  }
}
