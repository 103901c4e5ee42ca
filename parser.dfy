/** blind_helix/parser.py: a library parser locates a library file, lists
    its functions, builds a Library from them and refines a tested Library's
    `included` map from the symbols of each successful build's artifacts.

    The symbol listing of a subclass (its `parse`) is the oracle `symbols`:
    `symbols(path, exported)` is the list `parse(path, exported)` returns,
    or the error it raises (the Linux parser's "invalid library file" when
    `ar x` fails). */
module Parser {
  import opened Common
  import opened Base64
  import opened Component
  import opened Library
  import L = Library

  /** The state of a LibraryParser: its library name and `_path`. */
  datatype LibraryParser = LibraryParser(name: string, path: Option<string>)

  /** The listing a subclass's `parse` gives for a file, or its error. */
  type Symbols = (string, bool) -> Result<seq<string>>

  /** `path`: the path given at construction, when it is truthy; the
      requested name plays no part. */
  function Path(p: LibraryParser, name: string): (r: Result<string>)
    ensures r.Ok? <==> TruthyString(p.path)
    ensures r.Ok? ==> r.value == p.path.value
    ensures r.Err? ==> r.error == LibraryNotFound
  {
    if TruthyString(p.path) then Ok(p.path.value) else Err(LibraryNotFound)
  }

  /** The default `finalize`: copy the library file to the fresh temporary
      file `tmp`. */
  function Finalize(files: map<string, seq<byte>>, library: string, tmp: string): (r: Result<map<string, seq<byte>>>)
    ensures r.Ok? <==> library in files
    ensures r.Err? ==> r.error == FileNotFound(library)
    ensures r.Ok? ==> tmp in r.value && r.value[tmp] == files[library]
    ensures r.Ok? ==> forall q :: q != tmp ==> (q in r.value <==> q in files)
    ensures r.Ok? ==> forall q :: q in files && q != tmp ==> r.value[q] == files[q]
  {
    if library in files then Ok(files[tmp := files[library]]) else Err(FileNotFound(library))
  }

  /** The keyword slots of `library.build` that a call fills: `included`,
      `version` and `date`. */
  datatype BuildSlots = BuildSlots(included: Option<string>, version: Option<string>, date: Option<string>)

  /** The call at parser.py line 96 passes `version` and `date` by
      position, so they land in `included` and `version`, and `date` is left
      at its default. */
  function SlotsAsWritten(version: Option<string>, date: Option<string>): (r: BuildSlots)
    ensures r.included == version && r.version == date && r.date == None
  {
    BuildSlots(version, date, None)
  }

  /** `build` as written. A truthy `version` is stored as the library's
      `included` mapping, where the first `components` access fails with an
      AttributeError (a string has no `get`); the model reports that error
      here. */
  function BuildAsWritten(p: LibraryParser, files: map<string, seq<byte>>, tmp: string, symbols: Symbols,
                          version: Option<string>, date: Option<string>, now: string): (r: Result<Library>)
    ensures Path(p, p.name).Ok? && Path(p, p.name).value in files && symbols(tmp, true).Err? ==>
              r == Err(symbols(tmp, true).error)
    ensures TruthyString(version) && Path(p, p.name).Ok? && Path(p, p.name).value in files && symbols(tmp, true).Ok? ==>
              r == Err(AttributeError)
    ensures r.Ok? ==> r.value.version == (if TruthyString(date) then date.value else DefaultVersion)
    ensures r.Ok? ==> r.value.date == now && r.value.included == map[]
  {
    var path :- Path(p, p.name);
    var finalized :- Finalize(files, path, tmp);
    var functions :- symbols(tmp, true);
    var slots := SlotsAsWritten(version, date);
    if TruthyString(slots.included) then Err(AttributeError)
    else L.Build(p.name, finalized, tmp, functions, None, slots.version, slots.date, now)
  }

  /** `build` with `version` and `date` passed to the slots of those names:
      the library is named after the parser, holds the finalized file's
      bytes and lists that file's exported functions. A failed listing
      is raised as it is. */
  function Build(p: LibraryParser, files: map<string, seq<byte>>, tmp: string, symbols: Symbols,
                 version: Option<string>, date: Option<string>, now: string): (r: Result<Library>)
    ensures Path(p, p.name).Err? ==> r == Err(LibraryNotFound)
    ensures Path(p, p.name).Ok? && Path(p, p.name).value !in files ==> r == Err(FileNotFound(Path(p, p.name).value))
    ensures Path(p, p.name).Ok? && Path(p, p.name).value in files && symbols(tmp, true).Err? ==>
              r == Err(symbols(tmp, true).error)
    ensures Path(p, p.name).Ok? && Path(p, p.name).value in files && symbols(tmp, true).Ok? ==> r.Ok?
    ensures r.Ok? ==> r.value.name == p.name && r.value.functions == symbols(tmp, true).value
                      && Write(r.value.library) == Ok(files[Path(p, p.name).value])
    ensures r.Ok? ==> r.value.included == map[]
    ensures r.Ok? ==> r.value.version == (if TruthyString(version) then version.value else DefaultVersion)
    ensures r.Ok? ==> r.value.date == (if TruthyString(date) then date.value else now)
  {
    var path :- Path(p, p.name);
    var finalized :- Finalize(files, path, tmp);
    var functions :- symbols(tmp, true);
    L.Build(p.name, finalized, tmp, functions, None, version, date, now)
  }

  /** The slip: asked for date `d` and no version, `build` as written gives
      the library version `d` and today's date, where the date `d` and the
      default version were meant. */
  lemma BuildAsWrittenShiftsDate(p: LibraryParser, files: map<string, seq<byte>>, tmp: string, symbols: Symbols,
                                 d: string, now: string)
    requires TruthyString(p.path) && p.path.value in files && symbols(tmp, true).Ok?
    requires d != "" && d != now && d != DefaultVersion
    ensures BuildAsWritten(p, files, tmp, symbols, None, Some(d), now).value.version == d
    ensures BuildAsWritten(p, files, tmp, symbols, None, Some(d), now).value.date == now
    ensures Build(p, files, tmp, symbols, None, Some(d), now).value.version == DefaultVersion
    ensures Build(p, files, tmp, symbols, None, Some(d), now).value.date == d
    ensures BuildAsWritten(p, files, tmp, symbols, None, Some(d), now) != Build(p, files, tmp, symbols, None, Some(d), now)
  {
  }

  /** Called without arguments, which is how both commands call it, `build`
      as written and as intended agree. */
  lemma BuildAgreesWithoutArguments(p: LibraryParser, files: map<string, seq<byte>>, tmp: string, symbols: Symbols,
                                    now: string)
    ensures BuildAsWritten(p, files, tmp, symbols, None, None, now) == Build(p, files, tmp, symbols, None, None, now)
  {
  }

  /** The names of a listing; a failed listing names none. */
  function Listed(listing: Result<seq<string>>): set<string> {
    if listing.Ok? then Elements(listing.value) else {}
  }

  /** The names in `base` that the listing of some artifact of `artifacts`
      holds. */
  function Below(artifacts: seq<string>, base: set<string>, symbols: Symbols): set<string>
    decreases |artifacts|
  {
    if artifacts == [] then {}
    else Below(artifacts[..|artifacts| - 1], base, symbols)
         + (Listed(symbols(artifacts[|artifacts| - 1], false)) * base)
  }

  /** A name is below a list of artifacts iff it is in `base` and in the
      listing of one of them. */
  lemma {:induction false} BelowIff(artifacts: seq<string>, base: set<string>, symbols: Symbols, x: string)
    ensures x in Below(artifacts, base, symbols) <==>
              x in base && exists a :: a in artifacts && x in Listed(symbols(a, false))
    decreases |artifacts|
  {
    if artifacts != [] {
      var init := artifacts[..|artifacts| - 1];
      var last := artifacts[|artifacts| - 1];
      BelowIff(init, base, symbols, x);
      assert artifacts == init + [last];
      if x in base && (exists a :: a in artifacts && x in Listed(symbols(a, false))) {
        var a :| a in artifacts && x in Listed(symbols(a, false));
        if a != last {
          assert a in init;
        }
      }
    }
  }

  /** The error of the first artifact whose listing fails, if any. */
  function ListingError(artifacts: seq<string>, symbols: Symbols): Option<Error>
    decreases |artifacts|
  {
    if artifacts == [] then None
    else
      var before := ListingError(artifacts[..|artifacts| - 1], symbols);
      var last := symbols(artifacts[|artifacts| - 1], false);
      if before.Some? then before
      else if last.Err? then Some(last.error)
      else None
  }

  /** Listing fails for a list of artifacts iff it fails for one of them,
      and the error is that of the first failing one. */
  lemma {:induction false} ListingErrorIff(artifacts: seq<string>, symbols: Symbols)
    ensures ListingError(artifacts, symbols).None? <==> forall a :: a in artifacts ==> symbols(a, false).Ok?
    ensures ListingError(artifacts, symbols).Some? ==>
              exists k :: 0 <= k < |artifacts| && symbols(artifacts[k], false) == Err(ListingError(artifacts, symbols).value)
                          && forall t :: 0 <= t < k ==> symbols(artifacts[t], false).Ok?
    decreases |artifacts|
  {
    if artifacts != [] {
      var init := artifacts[..|artifacts| - 1];
      ListingErrorIff(init, symbols);
      assert artifacts == init + [artifacts[|artifacts| - 1]];
      if ListingError(init, symbols).Some? {
        var k :| 0 <= k < |init| && symbols(init[k], false) == Err(ListingError(init, symbols).value)
                 && forall t :: 0 <= t < k ==> symbols(init[t], false).Ok?;
        assert artifacts[k] == init[k];
      } else if symbols(artifacts[|artifacts| - 1], false).Err? {
        assert forall t :: 0 <= t < |init| ==> artifacts[t] == init[t] && artifacts[t] in init;
      }
    }
  }

  /** Once listing has failed for a prefix, longer lists fail the same way. */
  lemma {:induction false} ListingErrorPrefix(artifacts: seq<string>, symbols: Symbols, k: nat)
    requires k <= |artifacts| && ListingError(artifacts[..k], symbols).Some?
    ensures ListingError(artifacts, symbols) == ListingError(artifacts[..k], symbols)
    decreases |artifacts| - k
  {
    if k < |artifacts| {
      assert artifacts[..k + 1][..k] == artifacts[..k];
      ListingErrorPrefix(artifacts, symbols, k + 1);
    } else {
      assert artifacts[..k] == artifacts;
    }
  }

  /** The error of the first failing listing over the callbacks' artifacts,
      callback by callback. */
  function CallbacksError(callbacks: seq<Callback>, symbols: Symbols): Option<Error>
    decreases |callbacks|
  {
    if callbacks == [] then None
    else
      var before := CallbacksError(callbacks[..|callbacks| - 1], symbols);
      if before.Some? then before
      else ListingError(callbacks[|callbacks| - 1].artifacts, symbols)
  }

  /** The callbacks fail iff the listing of some artifact of one of them
      fails. */
  lemma {:induction false} CallbacksErrorIff(callbacks: seq<Callback>, symbols: Symbols)
    ensures CallbacksError(callbacks, symbols).None? <==>
              forall i :: 0 <= i < |callbacks| ==> ListingError(callbacks[i].artifacts, symbols).None?
    decreases |callbacks|
  {
    if callbacks != [] {
      var init := callbacks[..|callbacks| - 1];
      CallbacksErrorIff(init, symbols);
      assert forall i :: 0 <= i < |init| ==> callbacks[i] == init[i];
    }
  }

  /** Once a prefix of the callbacks has failed, longer lists fail the
      same way. */
  lemma {:induction false} CallbacksErrorPrefix(callbacks: seq<Callback>, symbols: Symbols, k: nat)
    requires k <= |callbacks| && CallbacksError(callbacks[..k], symbols).Some?
    ensures CallbacksError(callbacks, symbols) == CallbacksError(callbacks[..k], symbols)
    decreases |callbacks| - k
  {
    if k < |callbacks| {
      assert callbacks[..k + 1][..k] == callbacks[..k];
      CallbacksErrorPrefix(callbacks, symbols, k + 1);
    } else {
      assert callbacks[..k] == callbacks;
    }
  }

  /** The function names the callbacks were made for. */
  function CallbackNames(callbacks: seq<Callback>): set<string> {
    set i | 0 <= i < |callbacks| :: callbacks[i].functionName
  }

  /** The artifacts of the last callback made for `f`. */
  function LastArtifacts(callbacks: seq<Callback>, f: string): seq<string>
    decreases |callbacks|
  {
    if callbacks == [] then []
    else if callbacks[|callbacks| - 1].functionName == f then callbacks[|callbacks| - 1].artifacts
    else LastArtifacts(callbacks[..|callbacks| - 1], f)
  }

  lemma ElementsAppend<T>(a: seq<T>, b: seq<T>)
    ensures Elements(a + b) == Elements(a) + Elements(b)
  {
    forall x | x in Elements(a + b) ensures x in Elements(a) + Elements(b) {
      var k :| 0 <= k < |a + b| && (a + b)[k] == x;
      if k >= |a| {
        assert b[k - |a|] == x;
      }
    }
    forall x | x in Elements(a) + Elements(b) ensures x in Elements(a + b) {
      if x in a {
        var k :| 0 <= k < |a| && a[k] == x;
        assert (a + b)[k] == x;
      } else {
        var k :| 0 <= k < |b| && b[k] == x;
        assert (a + b)[|a| + k] == x;
      }
    }
  }

  /** The inner loop of the `parse` callback: per artifact, the
      artifact's functions that are also in `base`; the first failed
      listing is raised. */
  method CollectBelow(artifacts: seq<string>, base: set<string>, symbols: Symbols)
    returns (r: Result<seq<string>>)
    ensures r.Err? <==> ListingError(artifacts, symbols).Some?
    ensures r.Err? ==> r.error == ListingError(artifacts, symbols).value
    ensures r.Ok? ==> Elements(r.value) == Below(artifacts, base, symbols)
  {
    var found := [];
    for j := 0 to |artifacts|
      invariant ListingError(artifacts[..j], symbols).None?
      invariant Elements(found) == Below(artifacts[..j], base, symbols)
    {
      assert artifacts[..j + 1][..j] == artifacts[..j];
      var listing := symbols(artifacts[j], false);
      if listing.Err? {
        ListingErrorPrefix(artifacts, symbols, j + 1);
        return Err(listing.error);
      }
      var more := ListOf(Elements(listing.value) * base);
      ElementsAppend(found, more);
      found := found + more;
    }
    assert artifacts[..|artifacts|] == artifacts;
    r := Ok(found);
  }

  /** One more callback adds its function name. */
  lemma CallbackNamesSnoc(callbacks: seq<Callback>, i: nat)
    requires i < |callbacks|
    ensures CallbackNames(callbacks[..i + 1]) == CallbackNames(callbacks[..i]) + {callbacks[i].functionName}
  {
    forall g | g in CallbackNames(callbacks[..i + 1]) ensures g in CallbackNames(callbacks[..i]) + {callbacks[i].functionName} {
      var k :| 0 <= k < i + 1 && callbacks[..i + 1][k].functionName == g;
      if k < i {
        assert callbacks[..i][k].functionName == g;
      }
    }
    forall g | g in CallbackNames(callbacks[..i]) ensures g in CallbackNames(callbacks[..i + 1]) {
      var k :| 0 <= k < i && callbacks[..i][k].functionName == g;
      assert callbacks[..i + 1][k].functionName == g;
    }
    assert callbacks[..i + 1][i].functionName == callbacks[i].functionName;
  }

  /** The `parse` callback of `test`, replayed over the callbacks in the
      order they were made: each resets `included[name]` and appends, per
      artifact, the artifact's functions that are also in `base`. The
      first failed listing is raised. */
  method Refine(callbacks: seq<Callback>, base: set<string>, symbols: Symbols)
    returns (r: Result<map<string, seq<string>>>)
    ensures r.Err? <==> CallbacksError(callbacks, symbols).Some?
    ensures r.Err? ==> r.error == CallbacksError(callbacks, symbols).value
    ensures r.Ok? ==> r.value.Keys == CallbackNames(callbacks)
    ensures r.Ok? ==> forall f :: f in r.value ==>
              Elements(r.value[f]) == Below(LastArtifacts(callbacks, f), base, symbols)
  {
    var included := map[];
    for i := 0 to |callbacks|
      invariant CallbacksError(callbacks[..i], symbols).None?
      invariant included.Keys == CallbackNames(callbacks[..i])
      invariant forall f :: f in included ==>
                  Elements(included[f]) == Below(LastArtifacts(callbacks[..i], f), base, symbols)
    {
      assert callbacks[..i + 1][..i] == callbacks[..i];
      var found := CollectBelow(callbacks[i].artifacts, base, symbols);
      if found.Err? {
        CallbacksErrorPrefix(callbacks, symbols, i + 1);
        return Err(found.error);
      }
      CallbackNamesSnoc(callbacks, i);
      included := included[callbacks[i].functionName := found.value];
    }
    assert callbacks[..|callbacks|] == callbacks;
    r := Ok(included);
  }

  /** The callbacks of a run are made for exactly the functions it kept. */
  lemma CallbackNamesAreSuccess(cs: seq<Component>, build: Component -> BuildOutcome)
    ensures CallbackNames(RunTests(cs, build).callbacks) == Elements(RunTests(cs, build).success)
  {
    CallbacksMatchSuccess(cs, build);
    var run := RunTests(cs, build);
    forall g | g in Elements(run.success) ensures g in CallbackNames(run.callbacks) {
      var k :| 0 <= k < |run.success| && run.success[k] == g;
      assert run.callbacks[k].functionName == g;
    }
  }

  /** `test`: finalize the library file into `tmp`, take every function
      of it as `base`, test `lib` (whose bytes are written to `written`),
      and replace the tested library's `included` by what the callbacks
      found. A callback runs right after its build, so a failed listing
      in one is raised before any later build failure. */
  method Test(p: LibraryParser, files: map<string, seq<byte>>, tmp: string, symbols: Symbols,
              lib: Library, written: string, build: Component -> BuildOutcome)
    returns (r: Result<Library>)
    ensures Path(p, p.name).Err? ==> r == Err(LibraryNotFound)
    ensures Path(p, p.name).Ok? && Path(p, p.name).value !in files ==> r == Err(FileNotFound(Path(p, p.name).value))
    ensures Path(p, p.name).Ok? && Path(p, p.name).value in files && symbols(tmp, false).Err? ==>
              r == Err(symbols(tmp, false).error)
    ensures Path(p, p.name).Ok? && Path(p, p.name).value in files && symbols(tmp, false).Ok? && Write(lib.library).Err? ==>
              r == Err(DecodeError)
    ensures var run := RunTests(ComponentsOf(lib, written), build);
      Path(p, p.name).Ok? && Path(p, p.name).value in files && symbols(tmp, false).Ok? && Write(lib.library).Ok? &&
      CallbacksError(run.callbacks, symbols).Some? ==>
        r == Err(CallbacksError(run.callbacks, symbols).value)
    ensures var run := RunTests(ComponentsOf(lib, written), build);
      Path(p, p.name).Ok? && Path(p, p.name).value in files && symbols(tmp, false).Ok? && Write(lib.library).Ok? &&
      CallbacksError(run.callbacks, symbols).None? && run.failure.Some? ==>
        r == Err(UnexpectedBuildFailure(run.failure.value))
    ensures var run := RunTests(ComponentsOf(lib, written), build);
      Path(p, p.name).Ok? && Path(p, p.name).value in files && symbols(tmp, false).Ok? && Write(lib.library).Ok? &&
      CallbacksError(run.callbacks, symbols).None? && run.failure.None? ==>
        r.Ok?
    ensures var run := RunTests(ComponentsOf(lib, written), build);
      r.Ok? ==> && run.failure.None? && symbols(tmp, false).Ok?
                && r.value == lib.(functions := run.success, included := r.value.included)
                && r.value.included.Keys == Elements(run.success)
                && forall f :: f in r.value.included ==>
                     Elements(r.value.included[f])
                       == Below(LastArtifacts(run.callbacks, f), Elements(symbols(tmp, false).value), symbols)
  {
    var path := Path(p, p.name);
    if path.Err? {
      return Err(path.error);
    }
    var finalized := Finalize(files, path.value, tmp);
    if finalized.Err? {
      return Err(finalized.error);
    }
    var listing := symbols(tmp, false);
    if listing.Err? {
      return Err(listing.error);
    }
    var base := Elements(listing.value);
    var tested, callbacks, _ := L.Test(lib, written, build);
    var included := Refine(callbacks, base, symbols);
    if included.Err? {
      return Err(included.error);
    }
    if tested.Err? {
      return Err(tested.error);
    }
    CallbackNamesAreSuccess(ComponentsOf(lib, written), build);
    r := Ok(tested.value.(included := included.value));
  }
}
