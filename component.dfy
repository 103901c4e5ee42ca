/** blind_helix/component.py: a component is one exported function of a
    library (with the call subgraph observed below it), named, tagged for
    similarity labelling, turned into build glue and test-built in a scratch
    directory. */
module Component {
  import opened Common
  import opened Record

  /** A (key, value) label. */
  type Tag = (string, string)

  /** The data a LibrarySliceComponent class carries. */
  datatype Component = Component(
    library: string,
    version: string,
    date: string,
    path: string,
    functionName: string,
    included: seq<string>)

  /** What the external build tool does with a component: the artifact
      paths it produced, or a BuildFailure after writing `stderr`. */
  datatype BuildOutcome = Built(artifacts: seq<string>) | Failed(stderr: string)

  /** `name`: the library name, a dash, the function name. */
  function Name(c: Component): (r: string)
    ensures |r| == |c.library| + 1 + |c.functionName|
    ensures r[..|c.library|] == c.library && r[|c.library|] == '-' && r[|c.library| + 1..] == c.functionName
  {
    c.library + "-" + c.functionName
  }

  /** The tag that labels function `f` of `library`. */
  function FunctionTag(library: string, f: string): Tag {
    ("function", library + "-" + f)
  }

  /** The set that the `tags` property builds. */
  function TagSet(c: Component): set<Tag> {
    {("library", c.library), ("type", "library-slice")}
      + (set f | f in c.included + [c.functionName] :: FunctionTag(c.library, f))
  }

  /** `tags`: the set is filled by one `add` per name of
      `included + [function]` and handed back as a tuple. */
  method Tags(c: Component) returns (tags: seq<Tag>)
    ensures Distinct(tags)
    ensures Elements(tags) == TagSet(c)
  {
    var s: set<Tag> := {("library", c.library), ("type", "library-slice")};
    var fs := c.included + [c.functionName];
    var i := 0;
    while i < |fs|
      invariant 0 <= i <= |fs|
      invariant s == {("library", c.library), ("type", "library-slice")}
                     + (set f | f in fs[..i] :: FunctionTag(c.library, f))
    {
      assert fs[..i + 1] == fs[..i] + [fs[i]];
      s := s + {FunctionTag(c.library, fs[i])};
      i := i + 1;
    }
    assert fs[..i] == fs;
    tags := ListOf(s);
  }

  /** The tag set always holds the library and type tags, and its function
      tags are exactly those of `included + [function]`. */
  lemma TagSetShape(c: Component)
    ensures ("library", c.library) in TagSet(c)
    ensures ("type", "library-slice") in TagSet(c)
    ensures forall v :: ("function", v) in TagSet(c) <==>
                          exists f :: f in c.included + [c.functionName] && v == c.library + "-" + f
    ensures forall t :: t in TagSet(c) ==> t.0 == "library" || t.0 == "type" || t.0 == "function"
    ensures forall t :: t in TagSet(c) && t.0 != "function" ==>
                          t == ("library", c.library) || t == ("type", "library-slice")
  {
  }

  /** Prefixing with the library name and a dash keeps distinct function
      names distinct. */
  lemma FunctionTagInjective(library: string, f: string, g: string)
    requires FunctionTag(library, f) == FunctionTag(library, g)
    ensures f == g
  {
    var n := |library| + 1;
    assert f == (library + "-" + f)[n..];
    assert g == (library + "-" + g)[n..];
  }

  /** One function tag per distinct function name. */
  lemma {:induction false} FunctionTagCount(library: string, names: set<string>)
    ensures |set f | f in names :: FunctionTag(library, f)| == |names|
    decreases |names|
  {
    if names != {} {
      var x :| x in names;
      var rest := names - {x};
      FunctionTagCount(library, rest);
      var image := set f | f in names :: FunctionTag(library, f);
      var restImage := set f | f in rest :: FunctionTag(library, f);
      assert image == restImage + {FunctionTag(library, x)};
      if FunctionTag(library, x) in restImage {
        var y :| y in rest && FunctionTag(library, y) == FunctionTag(library, x);
        FunctionTagInjective(library, x, y);
      }
    }
  }

  /** A component has exactly two tags more than it has distinct function
      names. */
  lemma TagCount(c: Component)
    ensures |TagSet(c)| == 2 + |Elements(c.included + [c.functionName])|
  {
    var names := Elements(c.included + [c.functionName]);
    var image := set f | f in c.included + [c.functionName] :: FunctionTag(c.library, f);
    assert image == set f | f in names :: FunctionTag(c.library, f);
    FunctionTagCount(c.library, names);
    var fixed: set<Tag> := {("library", c.library), ("type", "library-slice")};
    assert fixed !! image;
    assert |fixed| == 2;
  }

  /** `libraries`: the one library file the component links against. */
  function Libraries(c: Component): (r: seq<string>)
    ensures |r| == 1 && r[0] == c.path
  {
    [c.path]
  }

  /** The declaration `generate` writes. */
  function ExternDeclaration(f: string): string {
    "extern void *" + f + ";"
  }

  /** The statement `generate` puts in `main`. */
  function PointerCall(f: string): string {
    "((void (*)())" + f + ")();"
  }

  /** The symbol an `extern void *S;` line declares. */
  function DeclaredSymbol(line: string): Option<string> {
    if |line| >= 14 && line[..13] == "extern void *" && line[|line| - 1] == ';'
    then Some(line[13..|line| - 1]) else None
  }

  /** The symbol a `((void (*)())S)();` line calls. */
  function CalledSymbol(line: string): Option<string> {
    if |line| >= 17 && line[..13] == "((void (*)())" && line[|line| - 4..] == ")();"
    then Some(line[13..|line| - 4]) else None
  }

  /** The glue declares the component's function and calls that same
      symbol through a function pointer. */
  lemma GlueNamesFunction(f: string)
    ensures DeclaredSymbol(ExternDeclaration(f)) == Some(f)
    ensures CalledSymbol(PointerCall(f)) == Some(f)
  {
    var d := ExternDeclaration(f);
    assert d[..13] == "extern void *" && d[13..|d| - 1] == f;
    var p := PointerCall(f);
    assert p[..13] == "((void (*)())" && p[13..|p| - 4] == f && p[|p| - 4..] == ")();";
  }

  /** An instantiated component, whose glue `generate` fills in. */
  class Glue {
    const component: Component
    var functions: seq<string>
    var calls: map<string, seq<string>>

    constructor (c: Component)
      ensures component == c && functions == [] && calls == map[]
    {
      component := c;
      functions := [];
      calls := map[];
    }

    /** `generate`. */
    method Generate()
      modifies this
      ensures functions == [ExternDeclaration(component.functionName)]
      ensures calls == map["main" := [PointerCall(component.functionName)]]
    {
      functions := [ExternDeclaration(component.functionName)];
      calls := map["main" := [PointerCall(component.functionName)]];
    }
  }

  /** The scratch directories that exist. */
  class Workspace {
    var directories: set<string>

    constructor ()
      ensures directories == {}
    {
      directories := {};
    }

    /** `LibrarySliceComponent.test`: generate the glue, build it in the
        fresh scratch directory `working`; a failed build removes the
        directory and propagates the failure, a successful one keeps it and
        returns it with the artifacts. */
    method Test(c: Component, build: Component -> BuildOutcome, working: string)
      returns (r: Result<(string, seq<string>)>)
      requires working !in directories
      modifies this
      ensures build(c).Built? ==> r == Ok((working, build(c).artifacts))
                                  && directories == old(directories) + {working}
      ensures build(c).Failed? ==> r == Err(BuildFailure(build(c).stderr))
                                   && directories == old(directories)
    {
      var glue := new Glue(c);
      glue.Generate();
      directories := directories + {working};
      var outcome := build(c);
      if outcome.Failed? {
        directories := directories - {working};
        return Err(BuildFailure(outcome.stderr));
      }
      r := Ok((working, outcome.artifacts));
    }
  }

  /** `saves`. */
  function Saves(c: Component): Value {
    Object(map[
      "library" := Str(c.library),
      "version" := Str(c.version),
      "date" := Str(c.date),
      "path" := Str(c.path),
      "function" := Str(c.functionName),
      "included" := FromStrings(c.included)])
  }

  /** `loads`: every field must be present. A missing field is a
      KeyError, unless a field read before it has the wrong shape. */
  function Loads(v: Value): (r: Result<Component>)
    ensures r.Ok? ==> forall k :: k in ["library", "version", "date", "path", "function", "included"] ==>
                        Field(v, k).Ok?
    ensures !v.Object? ==> r == Err(TypeError)
    ensures v.Object?
            && (exists k :: k in ["library", "version", "date", "path", "function", "included"] && k !in v.fields)
            && (forall k :: k in ["library", "version", "date", "path", "function"] && k in v.fields ==> v.fields[k].Str?)
            && ("included" in v.fields ==> ToStrings(v.fields["included"]).Ok?)
            ==> r.Err? && r.error.KeyError?
  {
    var library :- StringField(v, "library");
    var version :- StringField(v, "version");
    var date :- StringField(v, "date");
    var path :- StringField(v, "path");
    var functionName :- StringField(v, "function");
    var included :- Field(v, "included");
    var names :- ToStrings(included);
    Ok(Component(library, version, date, path, functionName, names))
  }

  /** Loading a saved component gives the same component back. */
  lemma LoadsSaves(c: Component)
    ensures Loads(Saves(c)) == Ok(c)
  {
    ToFromStrings(c.included);
  }
}
