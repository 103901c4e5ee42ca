/** blind_helix/library.py: a library is a named binary (kept as Base64
    text) with the list of functions it exports; it yields one component per
    function and is tested by building each component in turn. */
module Library {
  import opened Common
  import opened Strings
  import opened Errors
  import opened Base64
  import opened Record
  import opened Component

  /** The class attributes of a generated Library class. */
  datatype Library = Library(
    name: string,
    version: string,
    date: string,
    library: string,
    functions: seq<string>,
    included: map<string, seq<string>>)

  /** The component version when `build` is given none. */
  const DefaultVersion: string := "1.0.0"

  /** `read`: the file's bytes as Base64 text; a missing file raises. */
  function Read(files: map<string, seq<byte>>, path: string): (r: Result<string>)
    ensures r.Ok? <==> path in files
    ensures path !in files ==> r == Err(FileNotFound(path))
  {
    if path in files then Ok(Encode(files[path])) else Err(FileNotFound(path))
  }

  /** `write`: the bytes a Base64 text stands for, or the decoder's error. */
  function Write(content: string): (r: Result<seq<byte>>)
    ensures r.Ok? ==> Encode(r.value) == content
    ensures r.Err? ==> r.error == DecodeError
  {
    match Decode(content)
    case Some(b) =>
      DecodeIffEncode(content, b);
      Ok(b)
    case None => Err(DecodeError)
  }

  /** Writing what was read reproduces the file's bytes exactly. */
  lemma WriteRead(files: map<string, seq<byte>>, path: string)
    requires path in files
    ensures Write(Read(files, path).value) == Ok(files[path])
  {
    DecodeEncode(files[path]);
  }

  /** `build`: reads the library file and fills in the defaults; `now` is
      the current date `datetime.now()` would give. */
  function Build(name: string, files: map<string, seq<byte>>, path: string, functions: seq<string>,
                 included: Option<map<string, seq<string>>>, version: Option<string>,
                 date: Option<string>, now: string): (r: Result<Library>)
    ensures path !in files ==> r == Err(FileNotFound(path))
    ensures path in files ==> r.Ok?
    ensures r.Ok? ==> r.value.name == name && r.value.functions == functions
                      && Write(r.value.library) == Ok(files[path])
    ensures r.Ok? ==> r.value.included == (if included.Some? then included.value else map[])
    ensures r.Ok? ==> r.value.version == (if TruthyString(version) then version.value else DefaultVersion)
    ensures r.Ok? ==> r.value.date == (if TruthyString(date) then date.value else now)
  {
    var library :- Read(files, path);
    WriteRead(files, path);
    Ok(Library(name, OrString(version, DefaultVersion), OrString(date, now), library, functions,
               if included.Some? then included.value else map[]))
  }

  /** The names a function's component includes (`included.get(f, [])`). */
  function IncludedOf(lib: Library, f: string): seq<string> {
    if f in lib.included then lib.included[f] else []
  }

  /** The component `components` generates for function `f`, where `path`
      is the file the library's bytes were written to. */
  function ComponentOf(lib: Library, path: string, f: string): Component {
    Component(lib.name, lib.version, lib.date, path, f, IncludedOf(lib, f))
  }

  /** The tag set `components` gives function `f`: one function tag per
      name of `included + [f]`, then the library and type tags. */
  function LibraryTags(lib: Library, f: string): set<Tag> {
    var fs := IncludedOf(lib, f) + [f];
    var tags := seq(|fs|, i requires 0 <= i < |fs| => FunctionTag(lib.name, fs[i]))
                + [("library", lib.name), ("type", "library-slice")];
    Elements(tags)
  }

  /** A generated component carries the library's name, version and date,
      the written file, its function and that function's included names;
      its name is `"{name}-{f}"` and its tags are those of the component
      model. */
  lemma ComponentFacts(lib: Library, path: string, f: string)
    ensures ComponentOf(lib, path, f).functionName == f
    ensures ComponentOf(lib, path, f).included == (if f in lib.included then lib.included[f] else [])
    ensures ComponentOf(lib, path, f).library == lib.name && ComponentOf(lib, path, f).path == path
    ensures ComponentOf(lib, path, f).version == lib.version && ComponentOf(lib, path, f).date == lib.date
    ensures Name(ComponentOf(lib, path, f)) == lib.name + "-" + f
    ensures LibraryTags(lib, f) == TagSet(ComponentOf(lib, path, f))
  {
    var c := ComponentOf(lib, path, f);
    var fs := IncludedOf(lib, f) + [f];
    var tags := seq(|fs|, i requires 0 <= i < |fs| => FunctionTag(lib.name, fs[i]))
                + [("library", lib.name), ("type", "library-slice")];
    forall t | t in Elements(tags) ensures t in TagSet(c) {
      var k :| 0 <= k < |tags| && tags[k] == t;
      if k < |fs| {
        assert fs[k] in c.included + [c.functionName];
      }
    }
    forall t | t in TagSet(c) ensures t in Elements(tags) {
      if t != ("library", lib.name) && t != ("type", "library-slice") {
        var g :| g in fs && t == FunctionTag(lib.name, g);
        var k :| 0 <= k < |fs| && fs[k] == g;
        assert tags[k] == t;
      } else if t == ("library", lib.name) {
        assert tags[|fs|] == t;
      } else {
        assert tags[|fs| + 1] == t;
      }
    }
  }

  /** The list `components` returns. */
  function ComponentsOf(lib: Library, path: string): (r: seq<Component>)
    ensures |r| == |lib.functions|
  {
    seq(|lib.functions|, i requires 0 <= i < |lib.functions| => ComponentOf(lib, path, lib.functions[i]))
  }

  /** `components`: one component per function, in order. */
  method Components(lib: Library, path: string) returns (cs: seq<Component>)
    ensures |cs| == |lib.functions|
    ensures forall i :: 0 <= i < |cs| ==> cs[i] == ComponentOf(lib, path, lib.functions[i])
    ensures cs == ComponentsOf(lib, path)
  {
    cs := [];
    for i := 0 to |lib.functions|
      invariant |cs| == i
      invariant forall j :: 0 <= j < i ==> cs[j] == ComponentOf(lib, path, lib.functions[j])
    {
      cs := cs + [ComponentOf(lib, path, lib.functions[i])];
    }
  }

  /** One call of `test`'s callback: a function that built and its
      artifacts. */
  datatype Callback = Callback(functionName: string, artifacts: seq<string>)

  /** The state of the `test` loop: the functions that built so far, the
      callbacks made, the stripped stderr of an unknown failure that ended
      the loop, and how many components were built. */
  datatype Run = Run(success: seq<string>, callbacks: seq<Callback>, failure: Option<string>, attempted: nat)

  /** A build that does not end the loop: it succeeded, or its stripped
      stderr is a known failure. */
  predicate Tolerated(c: Component, build: Component -> BuildOutcome) {
    build(c).Built? || Known(StripNewlines(build(c).stderr))
  }

  /** One turn of the `test` loop: build `c` unless an unknown failure
      has already ended the loop. */
  function Step(prev: Run, c: Component, build: Component -> BuildOutcome): Run {
    if prev.failure.Some? then prev
    else match build(c)
      case Built(artifacts) =>
        Run(prev.success + [c.functionName], prev.callbacks + [Callback(c.functionName, artifacts)],
            None, prev.attempted + 1)
      case Failed(stderr) =>
        if Known(StripNewlines(stderr)) then prev.(attempted := prev.attempted + 1)
        else prev.(failure := Some(StripNewlines(stderr)), attempted := prev.attempted + 1)
  }

  /** The `test` loop over `cs`. */
  function RunTests(cs: seq<Component>, build: Component -> BuildOutcome): Run
    decreases |cs|
  {
    if cs == [] then Run([], [], None, 0)
    else Step(RunTests(cs[..|cs| - 1], build), cs[|cs| - 1], build)
  }

  /** The names of the components of `cs` that build, in order. */
  function Passed(cs: seq<Component>, build: Component -> BuildOutcome): seq<string>
    decreases |cs|
  {
    if cs == [] then []
    else Passed(cs[..|cs| - 1], build)
         + (if build(cs[|cs| - 1]).Built? then [cs[|cs| - 1].functionName] else [])
  }

  /** A loop that ends without an unknown failure built every component,
      each build tolerated, and kept exactly the functions that built. */
  lemma {:induction false} RunCompletes(cs: seq<Component>, build: Component -> BuildOutcome)
    requires RunTests(cs, build).failure.None?
    ensures RunTests(cs, build).attempted == |cs|
    ensures RunTests(cs, build).success == Passed(cs, build)
    ensures forall i :: 0 <= i < |cs| ==> Tolerated(cs[i], build)
    decreases |cs|
  {
    if cs != [] {
      var init := cs[..|cs| - 1];
      assert RunTests(init, build).failure.None?;
      RunCompletes(init, build);
      assert Tolerated(cs[|cs| - 1], build);
      forall i | 0 <= i < |cs| ensures Tolerated(cs[i], build) {
        if i < |cs| - 1 {
          assert cs[i] == init[i];
        }
      }
    }
  }

  /** The turn at which the loop fails builds a component whose failure
      is not tolerated, and keeps what was kept before. */
  lemma StepFails(prev: Run, c: Component, build: Component -> BuildOutcome)
    requires prev.failure.None? && Step(prev, c, build).failure.Some?
    ensures !Tolerated(c, build)
    ensures Step(prev, c, build) == prev.(failure := Some(StripNewlines(build(c).stderr)), attempted := prev.attempted + 1)
  {
  }

  /** `run` stopped at the first build of `cs` that is not tolerated:
      nothing after it was built, the functions that built before it are
      kept, and its stripped stderr is reported. */
  predicate StoppedAt(cs: seq<Component>, build: Component -> BuildOutcome, run: Run) {
    && 0 < run.attempted <= |cs|
    && (forall i :: 0 <= i < run.attempted - 1 ==> Tolerated(cs[i], build))
    && !Tolerated(cs[run.attempted - 1], build)
    && run.failure == Some(StripNewlines(build(cs[run.attempted - 1]).stderr))
    && run.success == Passed(cs[..run.attempted - 1], build)
  }

  /** A loop that ends with an unknown failure stopped at the first build
      that is not tolerated. */
  lemma {:induction false} RunFails(cs: seq<Component>, build: Component -> BuildOutcome)
    requires RunTests(cs, build).failure.Some?
    ensures StoppedAt(cs, build, RunTests(cs, build))
    decreases |cs|
  {
    var init := cs[..|cs| - 1];
    var prev := RunTests(init, build);
    assert cs == init + [cs[|cs| - 1]];
    if prev.failure.Some? {
      RunFails(init, build);
      StoppedLater(init, cs[|cs| - 1], build, prev);
    } else {
      RunCompletes(init, build);
      StepFails(prev, cs[|cs| - 1], build);
      StoppedHere(init, cs[|cs| - 1], build, prev, RunTests(cs, build));
    }
  }

  /** Components after the stop do not move it. */
  lemma StoppedLater(init: seq<Component>, c: Component, build: Component -> BuildOutcome, run: Run)
    requires StoppedAt(init, build, run)
    ensures StoppedAt(init + [c], build, run)
    ensures Step(run, c, build) == run
  {
    var cs := init + [c];
    var k := run.attempted - 1;
    assert cs[..k] == init[..k];
    assert cs[k] == init[k];
    forall i | 0 <= i < k ensures Tolerated(cs[i], build) {
      assert cs[i] == init[i];
    }
  }

  /** A loop that fails at its last component stops there. */
  lemma StoppedHere(init: seq<Component>, c: Component, build: Component -> BuildOutcome, prev: Run, run: Run)
    requires prev.attempted == |init| && prev.success == Passed(init, build)
    requires forall i :: 0 <= i < |init| ==> Tolerated(init[i], build)
    requires !Tolerated(c, build)
    requires run == prev.(failure := Some(StripNewlines(build(c).stderr)), attempted := prev.attempted + 1)
    ensures StoppedAt(init + [c], build, run)
  {
    var cs := init + [c];
    assert cs[..|init|] == init && cs[|init|] == c;
    forall i | 0 <= i < |init| ensures Tolerated(cs[i], build) {
      assert cs[i] == init[i];
    }
  }

  /** The callbacks name exactly the functions that built, in order, each
      with the artifacts of its own build. */
  lemma {:induction false} CallbacksMatchSuccess(cs: seq<Component>, build: Component -> BuildOutcome)
    ensures var run := RunTests(cs, build);
      && |run.callbacks| == |run.success|
      && forall i :: 0 <= i < |run.success| ==> run.callbacks[i].functionName == run.success[i]
    ensures var run := RunTests(cs, build);
      forall i :: 0 <= i < |run.callbacks| ==>
        exists c :: c in cs && build(c) == Built(run.callbacks[i].artifacts)
                    && c.functionName == run.callbacks[i].functionName
    decreases |cs|
  {
    if cs != [] {
      var init := cs[..|cs| - 1];
      CallbacksMatchSuccess(init, build);
      var run := RunTests(cs, build);
      forall i | 0 <= i < |run.callbacks|
        ensures exists c :: c in cs && build(c) == Built(run.callbacks[i].artifacts)
                            && c.functionName == run.callbacks[i].functionName
      {
        var prev := RunTests(init, build);
        if i < |prev.callbacks| {
          assert run.callbacks[i] == prev.callbacks[i];
          var c :| c in init && build(c) == Built(prev.callbacks[i].artifacts)
                   && c.functionName == prev.callbacks[i].functionName;
          assert c in cs;
        } else {
          assert cs[|cs| - 1] in cs;
        }
      }
    }
  }

  /** The functions that built are an in-order subsequence of the
      components' functions. */
  lemma {:induction false} PassedIsSubsequence(cs: seq<Component>, build: Component -> BuildOutcome)
    ensures IsSubsequence(Passed(cs, build), FunctionNames(cs))
    decreases |cs|
  {
    if cs != [] {
      var init := cs[..|cs| - 1];
      PassedIsSubsequence(init, build);
      assert FunctionNames(cs) == FunctionNames(init) + [cs[|cs| - 1].functionName];
      if build(cs[|cs| - 1]).Built? {
        assert Passed(cs, build) == Passed(init, build) + [cs[|cs| - 1].functionName];
        SubsequenceAppendBoth(Passed(init, build), FunctionNames(init), cs[|cs| - 1].functionName);
      } else {
        assert Passed(cs, build) == Passed(init, build);
        SubsequenceAppendRight(Passed(init, build), FunctionNames(init), cs[|cs| - 1].functionName);
      }
    }
  }

  /** The function names of a list of components. */
  function FunctionNames(cs: seq<Component>): (r: seq<string>)
    ensures |r| == |cs| && forall i :: 0 <= i < |cs| ==> r[i] == cs[i].functionName
  {
    seq(|cs|, i requires 0 <= i < |cs| => cs[i].functionName)
  }

  /** `test`: decode the library's bytes (its `__init__`), then build every
      component in order. `path` is the file the bytes are written to and
      `build` is the outcome of each component's `test`. Returns the tested
      library, the callbacks made, and the number of builds run. */
  method Test(lib: Library, path: string, build: Component -> BuildOutcome)
    returns (r: Result<Library>, callbacks: seq<Callback>, attempted: nat)
    ensures Write(lib.library).Err? ==> r == Err(DecodeError) && callbacks == [] && attempted == 0
    ensures Write(lib.library).Ok? ==>
      var run := RunTests(ComponentsOf(lib, path), build);
      && callbacks == run.callbacks && attempted == run.attempted
      && (run.failure.Some? ==> r == Err(UnexpectedBuildFailure(run.failure.value)))
      && (run.failure.None? ==> r == Ok(lib.(functions := run.success)))
  {
    callbacks, attempted := [], 0;
    var bytes := Write(lib.library);
    if bytes.Err? {
      return Err(DecodeError), callbacks, attempted;
    }
    var cs := Components(lib, path);
    var success: seq<string> := [];
    for i := 0 to |cs|
      invariant RunTests(cs[..i], build) == Run(success, callbacks, None, attempted)
    {
      RunTestsSnoc(cs, i, build);
      var c := cs[i];
      var outcome := build(c);
      attempted := attempted + 1;
      if outcome.Failed? {
        var stderr := StripNewlines(outcome.stderr);
        if !Known(stderr) {
          RunStops(cs, i + 1, build);
          return Err(UnexpectedBuildFailure(stderr)), callbacks, attempted;
        }
      } else {
        callbacks := callbacks + [Callback(c.functionName, outcome.artifacts)];
        success := success + [c.functionName];
      }
    }
    assert cs[..|cs|] == cs;
    r := Ok(lib.(functions := success));
  }

  /** One more turn of the loop. */
  lemma RunTestsSnoc(cs: seq<Component>, i: nat, build: Component -> BuildOutcome)
    requires i < |cs|
    ensures RunTests(cs[..i + 1], build) == Step(RunTests(cs[..i], build), cs[i], build)
  {
    assert cs[..i + 1][..i] == cs[..i];
  }

  /** Once the loop has failed, later components change nothing. */
  lemma {:induction false} RunStops(cs: seq<Component>, k: nat, build: Component -> BuildOutcome)
    requires k <= |cs|
    requires RunTests(cs[..k], build).failure.Some?
    ensures RunTests(cs, build) == RunTests(cs[..k], build)
    decreases |cs| - k
  {
    if k < |cs| {
      assert cs[..k + 1][..k] == cs[..k];
      RunStops(cs, k + 1, build);
    } else {
      assert cs[..k] == cs;
    }
  }

  /** A tested library differs from the original only in its functions,
      and those are an in-order subsequence of the original's. */
  lemma TestKeepsLibrary(lib: Library, path: string, build: Component -> BuildOutcome)
    ensures var run := RunTests(ComponentsOf(lib, path), build);
      IsSubsequence(run.success, lib.functions)
  {
    var cs := ComponentsOf(lib, path);
    var run := RunTests(cs, build);
    assert FunctionNames(cs) == lib.functions;
    if run.failure.None? {
      RunCompletes(cs, build);
      PassedIsSubsequence(cs, build);
    } else {
      RunFails(cs, build);
      var k := run.attempted - 1;
      PassedIsSubsequence(cs[..k], build);
      assert FunctionNames(cs[..k]) == lib.functions[..k];
      SubsequenceOfPrefix(run.success, lib.functions, k);
    }
  }

  lemma {:induction false} SubsequenceOfPrefix<T>(sub: seq<T>, s: seq<T>, k: nat)
    requires k <= |s|
    requires IsSubsequence(sub, s[..k])
    ensures IsSubsequence(sub, s)
    decreases |s| - k
  {
    if k < |s| {
      assert s[..k + 1] == s[..k] + [s[k]];
      SubsequenceAppendRight(sub, s[..k], s[k]);
      SubsequenceOfPrefix(sub, s, k + 1);
    } else {
      assert s[..k] == s;
    }
  }

  /** `saves`. */
  function Saves(lib: Library): Value {
    Object(map[
      "name" := Str(lib.name),
      "version" := Str(lib.version),
      "date" := Str(lib.date),
      "library" := Str(lib.library),
      "functions" := FromStrings(lib.functions),
      "included" := FromMapping(lib.included)])
  }

  /** `loads`: every field must be present and of the saved shape. A
      missing field is a KeyError, unless a field read before it has the
      wrong shape. */
  function Loads(v: Value): (r: Result<Library>)
    ensures r.Ok? ==> forall k :: k in ["name", "version", "date", "library", "functions", "included"] ==>
                        Field(v, k).Ok?
    ensures !v.Object? ==> r == Err(TypeError)
    ensures v.Object?
            && (exists k :: k in ["name", "version", "date", "library", "functions", "included"] && k !in v.fields)
            && (forall k :: k in ["name", "version", "date", "library"] && k in v.fields ==> v.fields[k].Str?)
            && ("functions" in v.fields ==> ToStrings(v.fields["functions"]).Ok?)
            && ("included" in v.fields ==> ToMapping(v.fields["included"]).Ok?)
            ==> r.Err? && r.error.KeyError?
  {
    var name :- StringField(v, "name");
    var version :- StringField(v, "version");
    var date :- StringField(v, "date");
    var library :- StringField(v, "library");
    var functions :- Field(v, "functions");
    var fs :- ToStrings(functions);
    var included :- Field(v, "included");
    var inc :- ToMapping(included);
    Ok(Library(name, version, date, library, fs, inc))
  }

  /** Loading a saved library gives the same library back. */
  lemma LoadsSaves(lib: Library)
    ensures Loads(Saves(lib)) == Ok(lib)
  {
    ToFromStrings(lib.functions);
    ToFromMapping(lib.included);
  }
}
