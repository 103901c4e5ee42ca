/** blind_helix/parsers/utils.py: the vcpkg parser mixin picks the one
    static library file of a package that vcpkg installed into a scratch
    directory. Running vcpkg is not part of this model: the scratch
    directory's `os.walk` listing is given as a list of (root, file names). */
module Vcpkg {
  import opened Common
  import opened Strings

  /** One directory of the walk: its path and the names of its files. */
  datatype WalkEntry = WalkEntry(root: string, files: seq<string>)

  /** `os.path.basename`: what follows the last slash. */
  function Basename(p: string): (r: string)
    ensures |r| <= |p|
  {
    p[LastIndexOf(p, '/') + 1..]
  }

  /** The basename is a suffix of the path with no slash in it. */
  lemma BasenameSuffix(p: string)
    ensures EndsWith(p, Basename(p))
    ensures forall i :: 0 <= i < |Basename(p)| ==> Basename(p)[i] != '/'
  {
    SlashFreeSuffix(p, LastIndexOf(p, '/'), Basename(p));
  }

  /** What follows a position after which there is no slash. */
  lemma SlashFreeSuffix(p: string, k: int, r: string)
    requires -1 <= k < |p| && forall j :: k < j < |p| ==> p[j] != '/'
    requires r == p[k + 1..]
    ensures EndsWith(p, r)
    ensures forall i :: 0 <= i < |r| ==> r[i] != '/'
  {
    assert p[|p| - |r|..] == r;
    forall i | 0 <= i < |r| ensures r[i] != '/' {
      assert r[i] == p[k + 1 + i];
    }
  }

  /** `name.split("-")[0]`: what precedes the first dash. */
  function FirstSegment(name: string): (r: string)
    ensures StartsWith(name, r)
    ensures forall i :: 0 <= i < |r| ==> r[i] != '-'
    ensures |r| < |name| ==> name[|r|] == '-'
    decreases |name|
  {
    if name == [] || name[0] == '-' then ""
    else [name[0]] + FirstSegment(name[1..])
  }

  /** The three tests `_filter_path` applies to a basename, in order: it
      contains the package name; it is `lib<name>.a`; it contains the part
      of the name before its first dash. */
  function Filters(name: string): seq<string -> bool> {
    [o => Contains(o, name),
     o => o == "lib" + name + ".a",
     o => Contains(o, FirstSegment(name))]
  }

  /** `[o for o in options if f(os.path.basename(o))]`. */
  function Matching(options: seq<string>, f: string -> bool): (r: seq<string>)
    ensures |r| <= |options|
    decreases |options|
  {
    if options == [] then []
    else
      var last := options[|options| - 1];
      Matching(options[..|options| - 1], f) + (if f(Basename(last)) then [last] else [])
  }

  /** A filter keeps exactly the options whose basename it accepts. */
  lemma {:induction false} MatchingIff(options: seq<string>, f: string -> bool, x: string)
    ensures x in Matching(options, f) <==> x in options && f(Basename(x))
    decreases |options|
  {
    if options != [] {
      var init := options[..|options| - 1];
      MatchingIff(init, f, x);
      assert options == init + [options[|options| - 1]];
    }
  }

  /** The first filter from position `from` on that isolates a single
      option, and that option. */
  function FirstUnique(filters: seq<string -> bool>, options: seq<string>, from: nat): (r: Option<string>)
    requires from <= |filters|
    ensures r.Some? ==> r.value in options
    ensures r.Some? <==> exists k :: from <= k < |filters| && |Matching(options, filters[k])| == 1
    decreases |filters| - from
  {
    if from == |filters| then None
    else
      var test := Matching(options, filters[from]);
      if |test| == 1 then
        MatchingIff(options, filters[from], test[0]);
        Some(test[0])
      else FirstUnique(filters, options, from + 1)
  }

  /** The option picked is the single match of the first filter that has
      a single match. */
  lemma {:induction false} FirstUniqueIsFirst(filters: seq<string -> bool>, options: seq<string>, from: nat)
    requires from <= |filters| && FirstUnique(filters, options, from).Some?
    ensures exists k :: && from <= k < |filters|
                        && |Matching(options, filters[k])| == 1
                        && FirstUnique(filters, options, from).value == Matching(options, filters[k])[0]
                        && forall j :: from <= j < k ==> |Matching(options, filters[j])| != 1
    decreases |filters| - from
  {
    if |Matching(options, filters[from])| == 1 {
      assert FirstUnique(filters, options, from).value == Matching(options, filters[from])[0];
    } else {
      assert FirstUnique(filters, options, from) == FirstUnique(filters, options, from + 1);
      FirstUniqueIsFirst(filters, options, from + 1);
      var k :| && from + 1 <= k < |filters|
               && |Matching(options, filters[k])| == 1
               && FirstUnique(filters, options, from + 1).value == Matching(options, filters[k])[0]
               && forall j :: from + 1 <= j < k ==> |Matching(options, filters[j])| != 1;
      assert forall j :: from <= j < k ==> |Matching(options, filters[j])| != 1;
    }
  }

  /** `_filter_path`: no option is an error, a single option is taken as
      it is, and otherwise the first filter that isolates one option picks
      it. */
  function FilterPath(options: seq<string>, name: string): (r: Result<string>)
    ensures r.Ok? ==> r.value in options
    ensures |options| == 0 ==> r.Err? && r.error.VcpkgError?
    ensures |options| == 1 ==> r == Ok(options[0])
  {
    if |options| == 0 then
      Err(VcpkgError("no library file found for " + name + " (note: header-only libraries are not supported)"))
    else if |options| == 1 then Ok(options[0])
    else match FirstUnique(Filters(name), options, 0)
      case Some(o) => Ok(o)
      case None => Err(BlindHelixException("multiple library files found for " + name + " - resolution unclear"))
  }

  /** With several options, a path is found exactly when one of the three
      filters isolates a single option, and it is the single match of the
      first such filter; otherwise the resolution is unclear. */
  lemma FilterPathSeveral(options: seq<string>, name: string)
    requires |options| >= 2
    ensures FilterPath(options, name).Ok? <==> exists k :: 0 <= k < 3 && |Matching(options, Filters(name)[k])| == 1
    ensures FilterPath(options, name).Err? ==> FilterPath(options, name).error.BlindHelixException?
    ensures FilterPath(options, name).Ok? ==>
              exists k :: && 0 <= k < 3
                          && |Matching(options, Filters(name)[k])| == 1
                          && FilterPath(options, name).value == Matching(options, Filters(name)[k])[0]
                          && forall j :: 0 <= j < k ==> |Matching(options, Filters(name)[j])| != 1
  {
    var filters := Filters(name);
    if FirstUnique(filters, options, 0).Some? {
      FirstUniqueIsFirst(filters, options, 0);
    }
  }

  /** The leftmost occurrence of `sep` in `s`. */
  function Find(s: string, sep: string): (r: Option<nat>)
    ensures r.Some? ==> OccursAt(sep, s, r.value)
    ensures r.Some? ==> forall i :: 0 <= i < r.value ==> !OccursAt(sep, s, i)
    ensures r.None? ==> forall i :: !OccursAt(sep, s, i)
    decreases |s|
  {
    if |s| < |sep| then None
    else if s[..|sep|] == sep then Some(0)
    else
      var rest := Find(s[1..], sep);
      FindShift(s, sep);
      if rest.None? then None else Some(rest.value + 1)
  }

  lemma FindShift(s: string, sep: string)
    requires |s| > 0 && !OccursAt(sep, s, 0)
    ensures forall i: nat :: OccursAt(sep, s[1..], i) <==> OccursAt(sep, s, i + 1)
    ensures forall i :: OccursAt(sep, s, i) ==> i >= 1 && OccursAt(sep, s[1..], i - 1)
  {
    forall i: nat ensures OccursAt(sep, s[1..], i) <==> OccursAt(sep, s, i + 1) {
      OccursInTail(sep, s, i);
    }
    forall i | OccursAt(sep, s, i) ensures i >= 1 && OccursAt(sep, s[1..], i - 1) {
      OccursInTail(sep, s, i - 1);
    }
  }

  /** `s.split(sep)[-1]`: what follows the last separator found scanning
      from the left. */
  function LastPiece(s: string, sep: string): (r: string)
    requires sep != []
    ensures EndsWith(s, r)
    decreases |s|
  {
    match Find(s, sep)
    case None => s
    case Some(i) =>
      FindInBounds(s, sep);
      var rest := LastPiece(s[i + |sep|..], sep);
      SuffixOfSuffix(s, i + |sep|, rest);
      rest
  }

  lemma FindInBounds(s: string, sep: string)
    ensures Find(s, sep).Some? ==> Find(s, sep).value + |sep| <= |s|
  {
  }

  lemma SuffixOfSuffix(s: string, k: nat, r: string)
    requires k <= |s| && EndsWith(s[k..], r)
    ensures EndsWith(s, r)
  {
    assert s[|s| - |r|..] == s[k..][|s[k..]| - |r|..];
  }

  /** `os.path.join(a, b)`. */
  function Join(a: string, b: string): (r: string)
    ensures StartsWith(b, "/") ==> r == b
    ensures EndsWith(r, b)
  {
    if StartsWith(b, "/") then b
    else if a == "" || EndsWith(a, "/") then a + b
    else a + "/" + b
  }

  /** The directories `path` looks in: named `lib`, and not under a debug
      build. */
  predicate Searched(root: string) {
    Basename(root) == "lib" && !Contains(root, "debug")
  }

  /** The install path that a file of `root` is reported under. */
  function Candidate(installRoot: string, buildRoot: string, root: string, file: string): string
    requires buildRoot != []
  {
    var piece := LastPiece(root, buildRoot);
    Join(Join(installRoot, if piece == [] then [] else piece[1..]), file)
  }

  /** The candidates of a walk, in walk order. */
  function Candidates(walk: seq<WalkEntry>, installRoot: string, buildRoot: string): seq<string>
    requires buildRoot != []
    decreases |walk|
  {
    if walk == [] then []
    else Candidates(walk[..|walk| - 1], installRoot, buildRoot)
         + EntryCandidates(walk[|walk| - 1], installRoot, buildRoot)
  }

  /** The candidates of one directory of the walk. */
  function EntryCandidates(e: WalkEntry, installRoot: string, buildRoot: string): seq<string>
    requires buildRoot != []
  {
    if Searched(e.root) then FileCandidates(e.root, e.files, installRoot, buildRoot) else []
  }

  function FileCandidates(root: string, files: seq<string>, installRoot: string, buildRoot: string): seq<string>
    requires buildRoot != []
    decreases |files|
  {
    if files == [] then []
    else FileCandidates(root, files[..|files| - 1], installRoot, buildRoot)
         + (if EndsWith(files[|files| - 1], ".a")
            then [Candidate(installRoot, buildRoot, root, files[|files| - 1])] else [])
  }

  /** Every candidate is a `.a` file of a searched directory of the walk. */
  lemma {:induction false} CandidatesAreStaticLibraries(walk: seq<WalkEntry>, installRoot: string, buildRoot: string, c: string)
    requires buildRoot != []
    requires c in Candidates(walk, installRoot, buildRoot)
    ensures exists e, f :: e in walk && f in e.files && Searched(e.root) && EndsWith(f, ".a")
                           && c == Candidate(installRoot, buildRoot, e.root, f)
    decreases |walk|
  {
    var init := walk[..|walk| - 1];
    var e := walk[|walk| - 1];
    if c in Candidates(init, installRoot, buildRoot) {
      CandidatesAreStaticLibraries(init, installRoot, buildRoot, c);
      var e', f :| e' in init && f in e'.files && Searched(e'.root) && EndsWith(f, ".a")
                  && c == Candidate(installRoot, buildRoot, e'.root, f);
      assert e' in walk;
    } else {
      assert c in EntryCandidates(e, installRoot, buildRoot);
      FileCandidatesAreStaticLibraries(e.root, e.files, installRoot, buildRoot, c);
      assert e in walk;
    }
  }

  lemma {:induction false} FileCandidatesAreStaticLibraries(root: string, files: seq<string>, installRoot: string,
                                                            buildRoot: string, c: string)
    requires buildRoot != []
    requires c in FileCandidates(root, files, installRoot, buildRoot)
    ensures exists f :: f in files && EndsWith(f, ".a") && c == Candidate(installRoot, buildRoot, root, f)
    decreases |files|
  {
    var init := files[..|files| - 1];
    if c in FileCandidates(root, init, installRoot, buildRoot) {
      FileCandidatesAreStaticLibraries(root, init, installRoot, buildRoot, c);
      var f :| f in init && EndsWith(f, ".a") && c == Candidate(installRoot, buildRoot, root, f);
      assert f in files;
    } else {
      assert files[|files| - 1] in files;
    }
  }

  /** The inner loop of `path` for one searched directory. */
  method AddFileCandidates(options: seq<string>, root: string, files: seq<string>, installRoot: string,
                           buildRoot: string)
    returns (r: seq<string>)
    requires buildRoot != []
    ensures r == options + FileCandidates(root, files, installRoot, buildRoot)
  {
    var found: seq<string> := [];
    for j := 0 to |files|
      invariant found == FileCandidates(root, files[..j], installRoot, buildRoot)
    {
      assert files[..j + 1][..j] == files[..j];
      if EndsWith(files[j], ".a") {
        found := found + [Candidate(installRoot, buildRoot, root, files[j])];
      }
    }
    assert files[..|files|] == files;
    r := options + found;
  }

  /** `path`: collect the candidates of the walk of `buildRoot` and pick
      one with `_filter_path`. */
  method Path(walk: seq<WalkEntry>, installRoot: string, buildRoot: string, name: string)
    returns (r: Result<string>)
    requires buildRoot != []
    ensures r == FilterPath(Candidates(walk, installRoot, buildRoot), name)
  {
    var options: seq<string> := [];
    for i := 0 to |walk|
      invariant options == Candidates(walk[..i], installRoot, buildRoot)
    {
      assert walk[..i + 1][..i] == walk[..i];
      var e := walk[i];
      if Searched(e.root) {
        options := AddFileCandidates(options, e.root, e.files, installRoot, buildRoot);
      }
    }
    assert walk[..|walk|] == walk;
    r := FilterPath(options, name);
  }
}
