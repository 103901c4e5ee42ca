/** blind_helix/management/commands/utils.py `load`: read exported
    libraries and group all their components by library name.

    A dictionary keeps its keys in insertion order, so the grouping is an
    association list with distinct keys, in the order the keys were first
    seen. Export files hold the saved record (the JSON text is not part of
    this model); `written(i)` is the temporary file the `i`-th library's bytes
    are written to. */
module Export {
  import opened Common
  import opened Record
  import opened Component
  import opened Library
  import L = Library

  /** The `components` dictionary: library name to components. */
  type Groups = seq<(string, seq<Component>)>

  predicate DistinctKeys(groups: Groups) {
    forall i, j :: 0 <= i < j < |groups| ==> groups[i].0 != groups[j].0
  }

  /** The position of `key`, if the dictionary has it. */
  function KeyIndex(groups: Groups, key: string): (r: Option<nat>)
    ensures r.Some? ==> r.value < |groups| && groups[r.value].0 == key
    ensures r.None? ==> forall i :: 0 <= i < |groups| ==> groups[i].0 != key
    decreases |groups|
  {
    if groups == [] then None
    else if groups[|groups| - 1].0 == key then Some(|groups| - 1)
    else KeyIndex(groups[..|groups| - 1], key)
  }

  /** `components.get(key, [])`. */
  function Lookup(groups: Groups, key: string): seq<Component> {
    match KeyIndex(groups, key)
    case Some(i) => groups[i].1
    case None => []
  }

  /** The body of the inner loop: create the key if needed, then append. */
  function Insert(groups: Groups, c: Component): Groups {
    match KeyIndex(groups, c.library)
    case Some(i) => groups[i := (c.library, groups[i].1 + [c])]
    case None => groups + [(c.library, [c])]
  }

  /** The grouping of a list of components, inserted in order. */
  function GroupAll(cs: seq<Component>): Groups
    decreases |cs|
  {
    if cs == [] then [] else Insert(GroupAll(cs[..|cs| - 1]), cs[|cs| - 1])
  }

  /** The components of `cs` of library `key`, in order. */
  function OfLibrary(cs: seq<Component>, key: string): (r: seq<Component>)
    ensures |r| <= |cs|
    decreases |cs|
  {
    if cs == [] then []
    else OfLibrary(cs[..|cs| - 1], key) + (if cs[|cs| - 1].library == key then [cs[|cs| - 1]] else [])
  }

  /** The sum of the group sizes. */
  function Total(groups: Groups): nat
    decreases |groups|
  {
    if groups == [] then 0 else Total(groups[..|groups| - 1]) + |groups[|groups| - 1].1|
  }

  lemma InsertKeepsKeysDistinct(groups: Groups, c: Component)
    requires DistinctKeys(groups)
    ensures DistinctKeys(Insert(groups, c))
  {
  }

  /** Looking a key up after an insertion. */
  lemma InsertLookup(groups: Groups, c: Component, key: string)
    requires DistinctKeys(groups)
    ensures Lookup(Insert(groups, c), key) == Lookup(groups, key) + (if c.library == key then [c] else [])
  {
    var g := Insert(groups, c);
    match KeyIndex(groups, c.library)
    case Some(i) =>
      assert KeyIndex(g, key) == KeyIndex(groups, key) by {
        KeyIndexUpdate(groups, i, (c.library, groups[i].1 + [c]), key);
      }
    case None =>
      if key == c.library {
        assert KeyIndex(g, key) == Some(|groups|);
      } else {
        assert g[..|groups|] == groups;
      }
  }

  lemma KeyIndexUpdate(groups: Groups, i: nat, entry: (string, seq<Component>), key: string)
    requires DistinctKeys(groups) && i < |groups| && entry.0 == groups[i].0
    ensures KeyIndex(groups[i := entry], key) == KeyIndex(groups, key)
  {
    var g := groups[i := entry];
    match KeyIndex(groups, key)
    case Some(k) =>
      KeyIndexUnique(g, key, k);
    case None =>
      assert forall j :: 0 <= j < |g| ==> g[j].0 != key;
  }

  /** In a list with distinct keys, a key's position is the one it is at. */
  lemma {:induction false} KeyIndexUnique(groups: Groups, key: string, k: nat)
    requires DistinctKeys(groups) && k < |groups| && groups[k].0 == key
    ensures KeyIndex(groups, key) == Some(k)
    decreases |groups|
  {
    if k < |groups| - 1 {
      KeyIndexUnique(groups[..|groups| - 1], key, k);
    }
  }

  lemma InsertTotal(groups: Groups, c: Component)
    ensures Total(Insert(groups, c)) == Total(groups) + 1
  {
    match KeyIndex(groups, c.library)
    case Some(i) =>
      TotalUpdate(groups, i, (c.library, groups[i].1 + [c]));
    case None =>
      assert (groups + [(c.library, [c])])[..|groups|] == groups;
  }

  lemma {:induction false} TotalUpdate(groups: Groups, i: nat, entry: (string, seq<Component>))
    requires i < |groups|
    ensures Total(groups[i := entry]) == Total(groups) - |groups[i].1| + |entry.1|
    decreases |groups|
  {
    var g := groups[i := entry];
    var n := |groups| - 1;
    if i < n {
      assert g[..n] == groups[..n][i := entry];
      TotalUpdate(groups[..n], i, entry);
    } else {
      assert g[..n] == groups[..n];
    }
  }

  /** The grouping has distinct keys; each key's list is exactly the
      components of that library, in load order; and no component is lost
      or repeated. */
  lemma {:induction false} GroupAllFacts(cs: seq<Component>)
    ensures DistinctKeys(GroupAll(cs))
    ensures forall key :: Lookup(GroupAll(cs), key) == OfLibrary(cs, key)
    ensures Total(GroupAll(cs)) == |cs|
    decreases |cs|
  {
    if cs != [] {
      var init := cs[..|cs| - 1];
      var c := cs[|cs| - 1];
      GroupAllFacts(init);
      InsertKeepsKeysDistinct(GroupAll(init), c);
      forall key ensures Lookup(GroupAll(cs), key) == OfLibrary(cs, key) {
        InsertLookup(GroupAll(init), c, key);
      }
      InsertTotal(GroupAll(init), c);
    }
  }

  /** Every component of a group belongs to the group's library. */
  predicate Keyed(groups: Groups) {
    forall i, c :: 0 <= i < |groups| && c in groups[i].1 ==> c.library == groups[i].0
  }

  lemma InsertKeyed(groups: Groups, c: Component)
    requires Keyed(groups)
    ensures Keyed(Insert(groups, c))
  {
    var after := Insert(groups, c);
    match KeyIndex(groups, c.library)
    case Some(k) =>
      forall i, x | 0 <= i < |after| && x in after[i].1
        ensures x.library == after[i].0
      {
        if i == k {
          if x != c { assert x in groups[k].1; }
        } else {
          assert after[i] == groups[i];
        }
      }
    case None =>
      forall i, x | 0 <= i < |after| && x in after[i].1
        ensures x.library == after[i].0
      {
        if i < |groups| { assert after[i] == groups[i]; }
      }
  }

  /** Every component sits under its own library's name. */
  lemma {:induction false} GroupsAreKeyed(cs: seq<Component>)
    ensures forall i, c :: 0 <= i < |GroupAll(cs)| && c in GroupAll(cs)[i].1 ==> c.library == GroupAll(cs)[i].0
    decreases |cs|
  {
    if cs != [] {
      GroupsAreKeyed(cs[..|cs| - 1]);
      InsertKeyed(GroupAll(cs[..|cs| - 1]), cs[|cs| - 1]);
    }
    assert Keyed(GroupAll(cs));
  }

  /** One export: open it, load the library and write its bytes out
      (which the instantiation `()` does). */
  function LoadOne(exportPath: string, files: map<string, Value>): (r: Result<Library>)
    ensures exportPath !in files ==> r == Err(FileNotFound(exportPath))
    ensures r.Ok? ==> exportPath in files
  {
    if exportPath !in files then Err(FileNotFound(exportPath))
    else
      var lib :- L.Loads(files[exportPath]);
      var _ :- Write(lib.library);
      Ok(lib)
  }

  /** A loaded export is the library its record holds, and that
      library's bytes decode. */
  lemma LoadOneOk(exportPath: string, files: map<string, Value>)
    requires LoadOne(exportPath, files).Ok?
    ensures exportPath in files && L.Loads(files[exportPath]) == LoadOne(exportPath, files)
    ensures Write(LoadOne(exportPath, files).value.library).Ok?
  {
  }

  /** The libraries of the exports, in argument order; the first export
      that fails stops the load. */
  function LoadAll(exports: seq<string>, files: map<string, Value>): (r: Result<seq<Library>>)
    ensures r.Ok? ==> |r.value| == |exports|
  {
    LoadEach(exports, Loader(files))
  }

  /** `LoadOne` over a fixed set of files. */
  function Loader(files: map<string, Value>): string -> Result<Library> {
    e => LoadOne(e, files)
  }

  /** The results of `load` on the exports, in order, or the first error. */
  function LoadEach(exports: seq<string>, load: string -> Result<Library>): (r: Result<seq<Library>>)
    ensures r.Ok? ==> |r.value| == |exports|
    decreases |exports|
  {
    if exports == [] then Ok([])
    else
      var init := LoadEach(exports[..|exports| - 1], load);
      var lib := load(exports[|exports| - 1]);
      if init.Err? then init
      else if lib.Err? then Err(lib.error)
      else Ok(init.value + [lib.value])
  }

  /** A successful load holds, at each position, the library of the
      export at that position. */
  lemma LoadAllAt(exports: seq<string>, files: map<string, Value>, i: nat)
    requires LoadAll(exports, files).Ok? && i < |exports|
    ensures LoadOne(exports[i], files) == Ok(LoadAll(exports, files).value[i])
  {
    LoadEachAt(exports, Loader(files), i);
  }

  lemma {:induction false} LoadEachAt(exports: seq<string>, load: string -> Result<Library>, i: nat)
    requires LoadEach(exports, load).Ok? && i < |exports|
    ensures load(exports[i]) == Ok(LoadEach(exports, load).value[i])
    decreases |exports|
  {
    var init := exports[..|exports| - 1];
    assert LoadEach(init, load).Ok? && load(exports[|exports| - 1]).Ok?;
    if i < |init| {
      LoadEachAt(init, load, i);
      assert init[i] == exports[i];
    }
  }

  /** One more export that loads adds its library. */
  lemma LoadAllSnoc(exports: seq<string>, files: map<string, Value>, i: nat)
    requires i < |exports| && LoadAll(exports[..i], files).Ok? && LoadOne(exports[i], files).Ok?
    ensures LoadAll(exports[..i + 1], files) == Ok(LoadAll(exports[..i], files).value + [LoadOne(exports[i], files).value])
  {
    assert exports[..i + 1][..i] == exports[..i];
  }

  /** The components of the libraries, library after library. */
  function AllComponents(libs: seq<Library>, written: nat -> string): seq<Component>
    decreases |libs|
  {
    if libs == [] then []
    else AllComponents(libs[..|libs| - 1], written) + ComponentsOf(libs[|libs| - 1], written(|libs| - 1))
  }

  /** One more library adds its components. */
  lemma AllComponentsSnoc(libs: seq<Library>, lib: Library, written: nat -> string)
    ensures AllComponents(libs + [lib], written) == AllComponents(libs, written) + ComponentsOf(lib, written(|libs|))
  {
    assert (libs + [lib])[..|libs|] == libs;
  }

  /** The number of functions of the libraries. */
  function FunctionCount(libs: seq<Library>): nat
    decreases |libs|
  {
    if libs == [] then 0 else FunctionCount(libs[..|libs| - 1]) + |libs[|libs| - 1].functions|
  }

  /** There is one component per function of the libraries. */
  lemma {:induction false} AllComponentsCount(libs: seq<Library>, written: nat -> string)
    ensures |AllComponents(libs, written)| == FunctionCount(libs)
    decreases |libs|
  {
    if libs != [] {
      AllComponentsCount(libs[..|libs| - 1], written);
    }
  }

  /** The total number of grouped components equals the number of
      functions of the loaded libraries. */
  lemma GroupedTotal(libs: seq<Library>, written: nat -> string)
    ensures Total(GroupAll(AllComponents(libs, written))) == FunctionCount(libs)
  {
    GroupAllFacts(AllComponents(libs, written));
    AllComponentsCount(libs, written);
  }

  /** The group loop for one library's components. */
  method AddComponents(groups: Groups, cs: seq<Component>) returns (r: Groups)
    ensures r == GroupAllFrom(groups, cs)
  {
    r := groups;
    for j := 0 to |cs|
      invariant r == GroupAllFrom(groups, cs[..j])
    {
      assert cs[..j + 1][..j] == cs[..j];
      var c := cs[j];
      var k := KeyIndex(r, c.library);
      if k.None? {
        r := r + [(c.library, [])];
        assert KeyIndex(r, c.library) == Some(|r| - 1);
        k := Some(|r| - 1);
      }
      ghost var before := r;
      r := r[k.value := (c.library, r[k.value].1 + [c])];
      assert r == Insert(GroupAllFrom(groups, cs[..j]), c) by {
        InsertBody(GroupAllFrom(groups, cs[..j]), c);
      }
    }
    assert cs[..|cs|] == cs;
  }

  /** Inserting a list of components into an existing grouping. */
  function GroupAllFrom(groups: Groups, cs: seq<Component>): Groups
    decreases |cs|
  {
    if cs == [] then groups else Insert(GroupAllFrom(groups, cs[..|cs| - 1]), cs[|cs| - 1])
  }

  /** The two ways the loop body can insert a component agree with
      `Insert`. */
  lemma InsertBody(groups: Groups, c: Component)
    ensures KeyIndex(groups, c.library).None? ==>
              var g := groups + [(c.library, [])];
              g[|g| - 1 := (c.library, g[|g| - 1].1 + [c])] == Insert(groups, c)
  {
    if KeyIndex(groups, c.library).None? {
      var g := groups + [(c.library, [])];
      var h := g[|g| - 1 := (c.library, g[|g| - 1].1 + [c])];
      assert g[|g| - 1] == (c.library, []);
      assert g[|g| - 1].1 + [c] == [c];
      assert |h| == |groups| + 1;
      assert forall i :: 0 <= i < |groups| ==> h[i] == groups[i];
      assert h[|groups|] == (c.library, [c]);
      assert h == groups + [(c.library, [c])];
    }
  }

  lemma {:induction false} GroupAllFromConcat(groups: Groups, a: seq<Component>, b: seq<Component>)
    ensures GroupAllFrom(GroupAllFrom(groups, a), b) == GroupAllFrom(groups, a + b)
    decreases |b|
  {
    if b == [] {
      assert a + b == a;
    } else {
      assert (a + b)[..|a + b| - 1] == a + b[..|b| - 1];
      GroupAllFromConcat(groups, a, b[..|b| - 1]);
    }
  }

  lemma {:induction false} GroupAllFromEmpty(cs: seq<Component>)
    ensures GroupAllFrom([], cs) == GroupAll(cs)
    decreases |cs|
  {
    if cs != [] {
      GroupAllFromEmpty(cs[..|cs| - 1]);
    }
  }

  /** `load`: the libraries of the exports, in argument order, and their
      components grouped by library name. */
  method Load(exports: seq<string>, files: map<string, Value>, written: nat -> string)
    returns (r: Result<(seq<Library>, Groups)>)
    ensures LoadAll(exports, files).Err? ==> r == Err(LoadAll(exports, files).error)
    ensures LoadAll(exports, files).Ok? ==>
              r == Ok((LoadAll(exports, files).value, GroupAll(AllComponents(LoadAll(exports, files).value, written))))
  {
    var libraries: seq<Library> := [];
    var components: Groups := [];
    for i := 0 to |exports|
      invariant LoadAll(exports[..i], files) == Ok(libraries)
      invariant components == GroupAll(AllComponents(libraries, written))
    {
      var lib := LoadOne(exports[i], files);
      if lib.Err? {
        assert exports[..i + 1][..i] == exports[..i];
        LoadStops(exports, files, i + 1);
        return Err(lib.error);
      }
      var cs := L.Components(lib.value, written(i));
      ghost var before := libraries;
      components := AddComponents(components, cs);
      libraries := libraries + [lib.value];
      LoadAllSnoc(exports, files, i);
      AllComponentsSnoc(before, lib.value, written);
      GroupAllFromEmpty(AllComponents(before, written));
      GroupAllFromConcat([], AllComponents(before, written), cs);
      GroupAllFromEmpty(AllComponents(libraries, written));
    }
    assert exports[..|exports|] == exports;
    r := Ok((libraries, components));
  }

  /** An export that fails to load fails the whole load with its error. */
  lemma {:induction false} LoadStops(exports: seq<string>, files: map<string, Value>, k: nat)
    requires 0 < k <= |exports|
    requires LoadAll(exports[..k - 1], files).Ok? && LoadOne(exports[k - 1], files).Err?
    ensures LoadAll(exports, files) == Err(LoadOne(exports[k - 1], files).error)
    decreases |exports| - k
  {
    assert exports[..k][..k - 1] == exports[..k - 1];
    if k < |exports| {
      LoadStopsPrefix(exports, files, k);
    } else {
      assert exports[..k] == exports;
    }
  }

  lemma {:induction false} LoadStopsPrefix(exports: seq<string>, files: map<string, Value>, k: nat)
    requires 0 < k <= |exports|
    requires LoadAll(exports[..k], files).Err?
    ensures LoadAll(exports, files) == LoadAll(exports[..k], files)
    decreases |exports| - k
  {
    if k < |exports| {
      assert exports[..k + 1][..k] == exports[..k];
      LoadStopsPrefix(exports, files, k + 1);
    } else {
      assert exports[..k] == exports;
    }
  }
}
