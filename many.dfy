/** blind_helix/management/commands/many.py: parse many libraries, each in
    its own directory under the output directory, remembering the outcome
    with a `succeeded` or a `failed` sentinel file so that a later run skips
    the library.

    The file system is a set of directories, a map of files and the list of
    files opened for writing, in order. What parsing, building and testing
    the library yields (the parser's constructor, `build` and `test`) is the
    parameter `tested`. */
module ParseMany {
  import opened Common
  import opened Strings
  import opened Record
  import L = Library
  import Vcpkg

  /** A file's contents: text, or a saved library record. */
  datatype Content = Text(text: string) | Saved(record: Value)

  /** The file system as `process` sees it. */
  datatype Disk = Disk(dirs: set<string>, files: map<string, Content>, writes: seq<string>)

  /** The paths `process` uses for one library. */
  datatype Layout = Layout(dir: string, log: string, saved: string, succeeded: string, failed: string)

  function LayoutOf(working: string, library: string): Layout {
    var dir := Vcpkg.Join(working, library);
    Layout(dir, Vcpkg.Join(dir, library + ".log"), Vcpkg.Join(dir, library + ".bhlx"),
           Vcpkg.Join(dir, "succeeded"), Vcpkg.Join(dir, "failed"))
  }

  /** A sentinel is present: an earlier run finished with this library. */
  predicate Done(d: Disk, layout: Layout) {
    layout.succeeded in d.files || layout.failed in d.files
  }

  /** `touch`: open for writing and write nothing. */
  function Touch(d: Disk, p: string): Disk {
    d.(files := d.files[p := Text("")], writes := d.writes + [p])
  }

  /** The four files of a layout are different paths. */
  predicate Separate(layout: Layout) {
    layout.log != layout.saved && layout.log != layout.succeeded && layout.log != layout.failed &&
    layout.saved != layout.succeeded && layout.saved != layout.failed &&
    layout.succeeded != layout.failed
  }

  /** `process(parser, library, working, level)` on the paths `layout` of
      the library. Parsing errors that are BlindHELIXExceptions, and a
      tested library with no working function, end in the `failed`
      sentinel; any other error propagates and leaves no sentinel. */
  function Run(d: Disk, layout: Layout, tested: Result<L.Library>): (Disk, Result<()>) {
    var d1 := if layout.dir in d.dirs then d else d.(dirs := d.dirs + {layout.dir});
    if Done(d1, layout) then (d1, Ok(()))
    else
      var d2 := Touch(d1, layout.log);
      match tested
      case Err(e) =>
        if IsBlindHelix(e) then (Touch(d2, layout.failed), Ok(())) else (d2, Err(e))
      case Ok(lib) =>
        if |lib.functions| == 0 then (Touch(d2, layout.failed), Ok(()))
        else
          var d3 := d2.(files := d2.files[layout.saved := Saved(L.Saves(lib))], writes := d2.writes + [layout.saved]);
          (Touch(d3, layout.succeeded), Ok(()))
  }

  // ---------------------------------------------------------------------------
  // The paths of one library are different files

  lemma EndChar(r: string, b: string, k: nat)
    requires EndsWith(r, b) && 0 < k <= |b|
    ensures r[|r| - k] == b[|b| - k]
  {
    assert r[|r| - |b|..][|b| - k] == r[|r| - k];
  }

  /** The log, the export and the two sentinels are four different paths:
      their names end differently. */
  lemma {:induction false} LayoutDistinct(working: string, library: string)
    ensures Separate(LayoutOf(working, library))
  {
    var layout := LayoutOf(working, library);
    EndChar(layout.log, library + ".log", 1);
    EndChar(layout.saved, library + ".bhlx", 1);
    EndChar(layout.succeeded, "succeeded", 1);
    EndChar(layout.failed, "failed", 1);
    EndChar(layout.succeeded, "succeeded", 3);
    EndChar(layout.failed, "failed", 3);
    assert (library + ".log")[|library + ".log"| - 1] == 'g';
    assert (library + ".bhlx")[|library + ".bhlx"| - 1] == 'x';
  }

  // ---------------------------------------------------------------------------
  // Properties of one run

  /** With a sentinel present, nothing is parsed or written. */
  lemma PreviouslyParsed(d: Disk, layout: Layout, tested: Result<L.Library>)
    requires Done(d, layout)
    ensures var (d', r) := Run(d, layout, tested);
            r == Ok(()) && d'.files == d.files && d'.writes == d.writes &&
            d'.dirs == d.dirs + {layout.dir}
  {
  }

  /** A run without a sentinel that meets only BlindHELIXExceptions ends
      with exactly one of the two sentinels. */
  lemma OneSentinel(d: Disk, layout: Layout, tested: Result<L.Library>)
    requires Separate(layout) && !Done(d, layout)
    requires tested.Err? ==> IsBlindHelix(tested.error)
    ensures var (d', r) := Run(d, layout, tested);
            r == Ok(()) && ((layout.succeeded in d'.files) <==> (layout.failed !in d'.files))
  {
  }

  /** No working function: the run ends in `failed` and writes no export. */
  lemma NoWorkingFunction(d: Disk, layout: Layout, lib: L.Library)
    requires Separate(layout) && !Done(d, layout) && |lib.functions| == 0
    ensures var (d', r) := Run(d, layout, Ok(lib));
            r == Ok(()) && layout.failed in d'.files && layout.succeeded !in d'.files &&
            d'.writes == d.writes + [layout.log, layout.failed] &&
            (layout.saved in d'.files <==> layout.saved in d.files)
  {
  }

  /** Success: the export is written before the `succeeded` sentinel, and
      it holds a record that loads back as the tested library. */
  lemma ExportBeforeSucceeded(d: Disk, layout: Layout, lib: L.Library)
    requires Separate(layout) && !Done(d, layout) && |lib.functions| > 0
    ensures var (d', r) := Run(d, layout, Ok(lib));
            r == Ok(()) && layout.succeeded in d'.files && layout.failed !in d'.files &&
            d'.writes == d.writes + [layout.log, layout.saved, layout.succeeded] &&
            layout.saved in d'.files && d'.files[layout.saved].Saved? &&
            L.Loads(d'.files[layout.saved].record) == Ok(lib)
  {
    L.LoadsSaves(lib);
  }

  /** Any other error propagates: the log is written and no sentinel. */
  lemma UnexpectedError(d: Disk, layout: Layout, e: Error)
    requires Separate(layout) && !Done(d, layout) && !IsBlindHelix(e)
    ensures var (d', r) := Run(d, layout, Err(e));
            r == Err(e) && !Done(d', layout) && d'.writes == d.writes + [layout.log]
  {
  }

  /** A run that returns normally leaves a sentinel. */
  lemma CompletedRunIsDone(d: Disk, layout: Layout, tested: Result<L.Library>)
    ensures Run(d, layout, tested).1.Ok? ==> Done(Run(d, layout, tested).0, layout)
  {
  }

  /** Running again after a completed run changes nothing, whatever the
      second run's parse would yield. */
  lemma Idempotent(d: Disk, layout: Layout, tested: Result<L.Library>, again: Result<L.Library>)
    requires Run(d, layout, tested).1.Ok?
    ensures var d' := Run(d, layout, tested).0;
            Run(d', layout, again) == (d', Ok(()))
  {
    CompletedRunIsDone(d, layout, tested);
  }

  // ---------------------------------------------------------------------------
  // The output directory as an object

  /** The output directory that `process` changes in place. */
  class Output {
    var dirs: set<string>
    var files: map<string, Content>
    var writes: seq<string>

    constructor (dirs: set<string>, files: map<string, Content>)
      ensures this.dirs == dirs && this.files == files && writes == []
    {
      this.dirs := dirs;
      this.files := files;
      writes := [];
    }

    function State(): Disk
      reads this
    {
      Disk(dirs, files, writes)
    }

    method Touch(p: string)
      modifies this
      ensures files == old(files)[p := Text("")] && writes == old(writes) + [p] && dirs == old(dirs)
    {
      files := files[p := Text("")];
      writes := writes + [p];
    }

    /** `process`, step by step. */
    method Process(working: string, library: string, tested: Result<L.Library>) returns (r: Result<()>)
      modifies this
      ensures (State(), r) == Run(old(State()), LayoutOf(working, library), tested)
    {
      var path := Vcpkg.Join(working, library);
      if path !in dirs {
        dirs := dirs + {path};
      }
      if Vcpkg.Join(path, "succeeded") in files {
        return Ok(());
      } else if Vcpkg.Join(path, "failed") in files {
        return Ok(());
      }
      Touch(Vcpkg.Join(path, library + ".log"));
      if tested.Err? {
        if IsBlindHelix(tested.error) {
          Touch(Vcpkg.Join(path, "failed"));
          return Ok(());
        }
        return Err(tested.error);
      }
      var lib := tested.value;
      if |lib.functions| == 0 {
        Touch(Vcpkg.Join(path, "failed"));
        return Ok(());
      }
      var saved := Vcpkg.Join(path, library + ".bhlx");
      files := files[saved := Saved(L.Saves(lib))];
      writes := writes + [saved];
      Touch(Vcpkg.Join(path, "succeeded"));
      r := Ok(());
    }
  }

  // ---------------------------------------------------------------------------
  // Command.handle: the order in which libraries are dispatched

  predicate StrictlySorted(s: seq<string>) {
    forall i, j :: 0 <= i < j < |s| ==> Less(s[i], s[j])
  }

  /** The head of a sorted list is below every other element. */
  lemma SortedHead(s: seq<string>)
    requires StrictlySorted(s) && s != []
    ensures forall y :: y in Elements(s) ==> y == s[0] || Less(s[0], y)
    ensures forall y :: y in Elements(s[1..]) ==> Less(s[0], y)
    ensures Elements(s[1..]) == Elements(s) - {s[0]}
  {
    forall y | y in Elements(s[1..])
      ensures Less(s[0], y)
    {
      var k :| 0 <= k < |s[1..]| && s[1..][k] == y;
      assert s[k + 1] == y;
    }
    LessIrreflexive(s[0]);
    assert s == [s[0]] + s[1..];
  }

  /** Inserts a name into a sorted list that may already hold it. */
  function InsertName(x: string, s: seq<string>): (r: seq<string>)
    requires StrictlySorted(s)
    ensures StrictlySorted(r) && Elements(r) == Elements(s) + {x}
    decreases |s|
  {
    if s == [] then [x]
    else if x == s[0] then
      SortedHead(s);
      s
    else if Less(x, s[0]) then
      assert forall j :: 0 < j < |s| ==> Less(x, s[j]) by {
        forall j | 0 < j < |s| ensures Less(x, s[j]) { LessTransitive(x, s[0], s[j]); }
      }
      [x] + s
    else
      LessTotal(x, s[0]);
      SortedHead(s);
      var rest := InsertName(x, s[1..]);
      assert forall k :: 0 <= k < |rest| ==> rest[k] in Elements(rest);
      assert Elements([s[0]] + rest) == {s[0]} + Elements(rest);
      [s[0]] + rest
  }

  /** `sorted(set(libraries))`. */
  function Dispatch(libraries: seq<string>): (r: seq<string>)
    ensures StrictlySorted(r) && Elements(r) == Elements(libraries)
    decreases |libraries|
  {
    if libraries == [] then []
    else
      var init := libraries[..|libraries| - 1];
      assert Elements(libraries) == Elements(init) + {libraries[|libraries| - 1]};
      InsertName(libraries[|libraries| - 1], Dispatch(init))
  }

  /** Each library name is dispatched once: a strictly sorted list has no
      duplicates. */
  lemma DispatchedOnce(libraries: seq<string>)
    ensures Distinct(Dispatch(libraries))
  {
    var r := Dispatch(libraries);
    forall i, j | 0 <= i < j < |r|
      ensures r[i] != r[j]
    {
      LessIrreflexive(r[i]);
    }
  }

  /** The dispatch order is determined by the set of names alone. */
  lemma {:induction false} SortedUnique(a: seq<string>, b: seq<string>)
    requires StrictlySorted(a) && StrictlySorted(b) && Elements(a) == Elements(b)
    ensures a == b
    decreases |a|
  {
    if a != [] {
      assert a[0] in Elements(a);
    }
    if b != [] {
      assert b[0] in Elements(b);
    }
    if a != [] && b != [] {
      SortedHead(a);
      SortedHead(b);
      assert a[0] in Elements(b) && b[0] in Elements(a);
      LessAsymmetric(a[0], b[0]);
      SortedUnique(a[1..], b[1..]);
      assert a == [a[0]] + a[1..] && b == [b[0]] + b[1..];
    }
  }
}
