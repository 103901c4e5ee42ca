# Blind HELIX pipeline logic in Dafny

Blind HELIX cuts a library into per-function "library slice" components. It
reads the library's function symbols, builds one component per function and
keeps the functions whose components build. It exports the result as a
`.bhlx` record. It then samples datasets of components and turns the
ground-truth labels into pairwise similarities for evaluation.

This project models the pipeline's own logic. The toolchains it drives
become parameters:

- the symbol reader, a `Demangler` function and a `Symbols` function that
  gives a file's listing or the error `parse` raises for it;
- the helix component build, a `Component -> BuildOutcome` oracle;
- the vcpkg install tree, a list of `(root, files)` walk entries;
- the file system, maps from paths to contents;
- the random number generator, nondeterministic choice.

One Dafny module per source file:

| module | models |
|---|---|
| `Common` | the error kinds of `blind_helix/exceptions.py` and Python's built-in errors; Python truthiness (`x or default`) |
| `Strings` | substring search, prefixes and suffixes, `strip("\n")`, Python's code-point string order |
| `Errors` | `blind_helix/errors.py`: the build-failure classifier |
| `Base64` | the standard-alphabet, padded Base64 of section 4 of RFC 4648, used by `Library.read`/`write` |
| `Record` | the JSON values that `saves`/`loads` exchange, abstractly (strings, lists, objects) |
| `Component` | `blind_helix/component.py`: names, tags, glue, the scratch-directory test, save/load |
| `Library` | `blind_helix/library.py`: `build`, `read`/`write`, `components`, `test`, save/load |
| `Parser` | `blind_helix/parser.py`: `path`, `finalize`, `build`, `test` |
| `LinuxParser` | `blind_helix/parsers/linux.py`: archive member filter, symbol filter, rename map |
| `Vcpkg` | `blind_helix/parsers/utils.py`: `_filter_path` and the candidate search of `path` |
| `Export` | `blind_helix/management/commands/utils.py`: `load` and the grouping by library |
| `Random` | `random.sample`, `random.choice`, `random.randint` as nondeterministic choices |
| `Dataset` | `blind_helix/management/commands/dataset.py`: the four sampling strategies and label aggregation |
| `ParseMany` | `blind_helix/management/commands/many.py`: the resumable per-library state machine and the dispatch order |
| `Compare` | `evaluation/scripts/performance/compare.py`: `align` and the pair key of `load` |
| `Convert` | `evaluation/scripts/convert-helix-labels/convert.py`: `fetch`, the Jaccard similarity, pair enumeration |

A Python dict kept in insertion order becomes a sequence of `(key, value)`
pairs with distinct keys (`Export.Groups`). Iteration order matters in
`simple`, which lists components library by library. A dict used only as a
lookup becomes a `map`.

`Library.build(name, library, functions, included, version, date)` is
called positionally from `LibraryParser.build` as
`library.build(self.name, finalized.name, functions, version, date)`. The
version therefore lands in the `included` slot and the date in the
`version` slot (see Findings). `Parser.BuildAsWritten` models that call.

`stratified_random` is modelled as written. Its retry loop calls
`sample.append` after `sample` has become a tuple, so a duplicate draw
raises `AttributeError` on the second try. The "maximum number of tries
reached" exception can never be raised.

`simple` reports `len(collection)`, the number of libraries, in its
`SamplingError`, not the number of components it compares against. The
model keeps both numbers in the error value.

## Model

| member | source | states |
|---|---|---|
| `Errors.Check` | blind_helix/errors.py:32-33 | a matcher matches exactly when its keyword is a substring of the error text |
| `Errors.KnownBy` | blind_helix/errors.py:75-81 | a list of matchers knows an error text iff some matcher in it matches |
| `Errors.KnownIff` | blind_helix/errors.py:36-81 | an error text is known iff it contains "was not declared in this scope" or "undefined reference to" |
| `Errors.EmptyIsUnknown` | blind_helix/errors.py:75-81 | the empty error text is not known |
| `Errors.KnownMonotone` | blind_helix/errors.py:32-33 | any text that contains a known text is itself known |
| `Errors.KnownByPermutation` | blind_helix/errors.py:75-81 | reordering the matchers does not change the verdict |
| `Errors.KnownByAppend` | blind_helix/errors.py:58-81 | adding a matcher never turns a known text into an unknown one |
| `Errors.KnownIgnoresNewlinePadding` | blind_helix/library.py:242 | stripping leading and trailing newlines from stderr does not change the verdict |
| `Strings.ContainsIffSubstring` | blind_helix/errors.py:33 | the substring search `in` finds the keyword iff it occurs at some position |
| `Strings.StripNewlinesSlice` | blind_helix/library.py:242 | `strip("\n")` keeps a contiguous slice of its input and drops only newlines around it |
| `Strings.LessAsymmetric` | blind_helix/management/commands/many.py:154-156 | the string order used by `sorted` is asymmetric |
| `Strings.LessTotal` | blind_helix/management/commands/many.py:154-156 | any two different strings are ordered one way or the other |
| `Strings.LessTransitive` | blind_helix/management/commands/many.py:154-156 | the string order is transitive |
| `Base64.Encode` | blind_helix/library.py:145 | every encoding has length 4 * ceil(n/3) |
| `Base64.DecodeEncode` | blind_helix/library.py:113 | decoding the encoding of any byte string gives back that byte string |
| `Base64.EncodeDecode` | blind_helix/library.py:145 | a text the decoder accepts is the encoding of what it decodes to |
| `Base64.DecodeIffEncode` | blind_helix/library.py:100-147 | `Decode(s) == Some(b)` iff `Encode(b) == s`: the decoder accepts exactly the encoder's image |
| `Record.ToStrings` | blind_helix/library.py:330-339 | a list of strings is read back item by item; the typed model rejects any other value (see Left out) |
| `Record.ToFromStrings` | blind_helix/library.py:288-345 | a saved list of strings loads back unchanged |
| `Record.ToMapping` | blind_helix/library.py:330-339 | an object of string lists is read back with the same keys and values; the typed model rejects any other value (see Left out) |
| `Record.ToFromMapping` | blind_helix/library.py:288-345 | a saved map of string lists loads back unchanged |
| `Record.Field` | blind_helix/component.py:167-176 | a present key gives its value, a missing key gives KeyError, a non-object gives TypeError |
| `Record.StringField` | blind_helix/component.py:167-176 | a string field is read iff the key is present and holds a string; a missing key or a non-object raises the error of `data[key]` (KeyError, TypeError), and a value of another type is TypeError in the typed model (see Left out) |
| `Component.Name` | blind_helix/component.py:55-57 | the name is the library, a dash, and the function name |
| `Component.Tags` | blind_helix/component.py:72-83 | the tag list has no duplicates and holds exactly the component's tag set |
| `Component.TagSetShape` | blind_helix/component.py:72-83 | the tags hold the library tag and the type tag, and a function tag for exactly `included + [function]` |
| `Component.FunctionTagInjective` | blind_helix/component.py:80-81 | two function tags of one library are equal only for the same function name |
| `Component.TagCount` | blind_helix/component.py:72-83 | there are two tags plus one per distinct name in `included + [function]` |
| `Component.Libraries` | blind_helix/component.py:87-89 | `libraries` is the one-element list of the component's path |
| `Component.GlueNamesFunction` | blind_helix/component.py:91-93 | the declaration and the call in the glue both name the component's function |
| `Component.Glue.Generate` | blind_helix/component.py:91-93 | `functions` becomes the one extern declaration, `calls` maps "main" to the one pointer call |
| `Component.Workspace.Test` | blind_helix/component.py:95-127 | a successful build returns the working directory and the artifacts; a failed build removes the scratch directory and raises the same failure |
| `Component.LoadsSaves` | blind_helix/component.py:129-176 | loading a saved component gives back the same component |
| `Component.Loads` | blind_helix/component.py:153-176 | a loaded component had every required field; a non-object is TypeError; a missing field is KeyError when the fields read before it have the saved shape (values of another shape: see Left out) |
| `Library.Read` | blind_helix/library.py:128-147 | reading succeeds iff the file exists, and a missing file is FileNotFound |
| `Library.Write` | blind_helix/library.py:100-125 | written bytes are those whose encoding is the content; an undecodable content raises a decoding error |
| `Library.WriteRead` | blind_helix/library.py:100-147 | writing what was read from a file reproduces that file's bytes |
| `Library.Build` | blind_helix/library.py:21-55 | the built library keeps name and functions; an absent included is empty, a falsy version is the default version, a falsy date is the current date |
| `Library.ComponentFacts` | blind_helix/library.py:161-197 | the component of `f` has function `f`, `included.get(f, [])`, the library's name, path, version and date, the name `lib-f` and the library's tag set for `f` |
| `Library.ComponentsOf` | blind_helix/library.py:153-197 | there is one component per function |
| `Library.Components` | blind_helix/library.py:153-197 | the loop yields one component per function, in function order |
| `Library.RunCompletes` | blind_helix/library.py:215-272 | a test run without an unknown failure attempts every function and keeps exactly those that built |
| `Library.StepFails` | blind_helix/library.py:239-247 | a step fails only for a failure the classifier does not know, and records that stderr stripped of newlines |
| `Library.RunFails` | blind_helix/library.py:239-247 | an unknown failure stops the run at that function: nothing after it is attempted |
| `Library.CallbacksMatchSuccess` | blind_helix/library.py:260-264 | the callback runs once per kept function, in order, with that build's artifacts |
| `Library.PassedIsSubsequence` | blind_helix/library.py:215-285 | the kept functions are an in-order subsequence of the functions |
| `Library.FunctionNames` | blind_helix/library.py:161-197 | the function names of the components are listed in component order |
| `Library.Test` | blind_helix/library.py:199-285 | the tested library keeps name, version, date, library and included, and lists the functions that built; an unknown failure raises UnexpectedBuildFailure with its stderr |
| `Library.RunStops` | blind_helix/library.py:239-247 | once a prefix of the functions fails, later functions do not change the run |
| `Library.TestKeepsLibrary` | blind_helix/library.py:274-285 | the kept functions are an in-order subsequence of the library's functions |
| `Library.Loads` | blind_helix/library.py:319-345 | a loaded library had every required field; a non-object is TypeError; a missing field is KeyError when the fields read before it have the saved shape (values of another shape: see Left out) |
| `Library.LoadsSaves` | blind_helix/library.py:288-345 | loading a saved library gives back the same library |
| `Parser.Path` | blind_helix/parser.py:29-47 | the configured path is returned when it is truthy; otherwise LibraryNotFound; the name is ignored |
| `Parser.Finalize` | blind_helix/parser.py:65-83 | the finalized file has the library's bytes and no other file changes; a missing library is FileNotFound |
| `Parser.SlotsAsWritten` | blind_helix/parser.py:96 | the positional call puts the version in the included slot and the date in the version slot |
| `Parser.BuildAsWritten` | blind_helix/parser.py:85-96 | the library built by the call as written takes the date as its version, and the current time as date; a failed listing is raised before the AttributeError of a truthy version |
| `Parser.Build` | blind_helix/parser.py:85-96 | the library is built from the exported symbols of the finalized file, with the requested version and date; missing paths raise LibraryNotFound or FileNotFound, a failed listing raises its error, and otherwise the build succeeds |
| `Parser.BuildAsWrittenShiftsDate` | blind_helix/parser.py:96 | with only a date given, the call as written yields that date as the version and a different library from the intended one |
| `Parser.BuildAgreesWithoutArguments` | blind_helix/parser.py:96 | without version and date both calls build the same library |
| `Parser.BelowIff` | blind_helix/parser.py:114-119 | a symbol is included iff it is in `base` and in the listing of some artifact |
| `Parser.ListingErrorIff` | blind_helix/parser.py:117-119 | listing a list of artifacts fails iff one listing fails, and the error raised is that of the first failing artifact |
| `Parser.CallbacksErrorIff` | blind_helix/parser.py:112-119 | the callbacks fail iff the artifacts of one of them fail to list |
| `Parser.CollectBelow` | blind_helix/parser.py:117-119 | the symbols collected for one callback are exactly its artifacts' `base` symbols; the call fails iff some artifact's listing fails, with the first such error |
| `Parser.Refine` | blind_helix/parser.py:112-119 | `included` has a key for exactly the functions with a callback; each entry is the `base` symbols of its artifacts; the first failed listing over the callbacks, in order, is raised instead |
| `Parser.CallbackNamesAreSuccess` | blind_helix/parser.py:112-123 | the callbacks name exactly the functions that built |
| `Parser.Test` | blind_helix/parser.py:98-125 | path and file errors, then a failed listing of the library file, then a decoding error propagate; a failed listing of an artifact is raised before any build failure, as the callback runs right after its build; an unknown build failure raises UnexpectedBuildFailure; otherwise the test succeeds, the tested library's functions are `Library.test`'s success list and its included map has a key for exactly those, each holding the `base` symbols of its last callback |
| `Strings.LastIndexOf` | blind_helix/parsers/linux.py:35-37 | the last position of a character, or -1 when it does not occur |
| `LinuxParser.Extension` | blind_helix/parsers/linux.py:35-37 | `splitext` gives the empty extension or a dot-led suffix of the name |
| `LinuxParser.ObjectExtensionIff` | blind_helix/parsers/linux.py:35-37 | a member name has extension `.o` iff it ends in `.o` and has a non-dot before it |
| `LinuxParser.Objects` | blind_helix/parsers/linux.py:23-43 | the archive yields at most one binary per member |
| `LinuxParser.ObjectsComeFromObjectFiles` | blind_helix/parsers/linux.py:35-37 | every parsed binary comes from a `.o` member |
| `LinuxParser.ObjectFilesAreRead` | blind_helix/parsers/linux.py:35-43 | every `.o` member is parsed |
| `LinuxParser.AddFunctions` | blind_helix/parsers/linux.py:60-80 | one binary adds the kept symbol names in symbol-table order, duplicates included |
| `LinuxParser.Parse` | blind_helix/parsers/linux.py:50-90 | the result lists the kept names of every binary, in order, or the file-type error |
| `LinuxParser.KeptNamesAreKept` | blind_helix/parsers/linux.py:61-78 | a returned name is a non-imported function, exported when asked, with no C++ demangling |
| `LinuxParser.FunctionsAreKept` | blind_helix/parsers/linux.py:60-80 | every returned name comes from a kept symbol of some binary |
| `LinuxParser.AllKept` | blind_helix/parsers/linux.py:60-80 | when every symbol is kept, the names are returned in order without loss |
| `LinuxParser.KeptNamesSubsequence` | blind_helix/parsers/linux.py:64-65 | the exported-only names of a binary are a subsequence of its unfiltered names |
| `LinuxParser.ExportedIsSubsequence` | blind_helix/parsers/linux.py:64-65 | the exported-only result is a subsequence of the `exported=False` result |
| `LinuxParser.MappingLines` | blind_helix/parsers/linux.py:115-118 | there is one rename line per symbol, in order |
| `LinuxParser.MappingLineRoundTrip` | blind_helix/parsers/linux.py:115-118 | the line for `S` reads back as the pair `S`, `L_S` |
| `LinuxParser.AddExports` | blind_helix/parsers/linux.py:100-105 | one binary adds its non-C++ exported symbols in order |
| `LinuxParser.WriteMapping` | blind_helix/parsers/linux.py:115-118 | the mapping file is the concatenation of the rename lines |
| `LinuxParser.Finalize` | blind_helix/parsers/linux.py:92-133 | an unrecognised file is an invalid library; otherwise the mapping holds one line per non-C++ exported symbol |
| `LinuxParser.OneLinePerSymbol` | blind_helix/parsers/linux.py:115-118 | the mapping file has exactly one newline per symbol |
| `Vcpkg.BasenameSuffix` | blind_helix/parsers/utils.py:102-112 | the basename is a slash-free suffix of the path |
| `Vcpkg.FirstSegment` | blind_helix/parsers/utils.py:106 | the first dash segment is a dash-free prefix ending at the first dash |
| `Vcpkg.Matching` | blind_helix/parsers/utils.py:102-112 | a filter keeps no more candidates than there are options |
| `Vcpkg.MatchingIff` | blind_helix/parsers/utils.py:102-112 | a filter keeps exactly the options whose basename it accepts |
| `Vcpkg.FirstUnique` | blind_helix/parsers/utils.py:102-112 | some option is chosen iff some filter matches exactly one option |
| `Vcpkg.FirstUniqueIsFirst` | blind_helix/parsers/utils.py:102-112 | the chosen option is the unique match of the first filter with exactly one match |
| `Vcpkg.FilterPath` | blind_helix/parsers/utils.py:70-116 | no option is a VcpkgError; one option is returned as is; the result is always an option |
| `Vcpkg.FilterPathSeveral` | blind_helix/parsers/utils.py:96-116 | with several options, a path is found iff some filter isolates one option, and it is the single match of the first such filter; otherwise "multiple library files found" |
| `Vcpkg.Find` | blind_helix/parsers/utils.py:130-137 | the first occurrence of a separator, or none at all |
| `Vcpkg.LastPiece` | blind_helix/parsers/utils.py:130-137 | the text after the last separator is a suffix |
| `Vcpkg.Join` | blind_helix/parsers/utils.py:118-139 | `os.path.join` keeps an absolute second part and always ends with the second part |
| `Vcpkg.CandidatesAreStaticLibraries` | blind_helix/parsers/utils.py:130-137 | every candidate is a `.a` file under a searched `lib` directory |
| `Vcpkg.FileCandidatesAreStaticLibraries` | blind_helix/parsers/utils.py:133-137 | every candidate of one directory is one of its `.a` files |
| `Vcpkg.AddFileCandidates` | blind_helix/parsers/utils.py:133-137 | one directory adds its candidates in file order |
| `Vcpkg.Path` | blind_helix/parsers/utils.py:118-139 | the chosen path is `_filter_path` of the candidates of the walk |
| `Export.KeyIndex` | blind_helix/management/commands/utils.py:15-16 | the position of a key, or none when no group has it |
| `Export.OfLibrary` | blind_helix/management/commands/utils.py:14-18 | a library's group is no longer than the component list |
| `Export.InsertKeepsKeysDistinct` | blind_helix/management/commands/utils.py:15-16 | inserting a component keeps the keys distinct |
| `Export.InsertLookup` | blind_helix/management/commands/utils.py:15-18 | inserting a component appends it to its own library's group and to no other |
| `Export.InsertTotal` | blind_helix/management/commands/utils.py:18 | inserting a component adds one to the total |
| `Export.GroupAllFacts` | blind_helix/management/commands/utils.py:11-18 | the grouping has distinct keys, each group is its library's components in load order, and the total is the number of components |
| `Export.GroupsAreKeyed` | blind_helix/management/commands/utils.py:14-18 | every component sits under the key of its own library |
| `Export.LoadOne` | blind_helix/management/commands/utils.py:12-13 | a missing export is FileNotFound |
| `Export.LoadOneOk` | blind_helix/management/commands/utils.py:12-13 | a loaded export is the library its record holds, and its bytes decode |
| `Export.LoadAll` | blind_helix/management/commands/utils.py:11-20 | a successful load has one library per export |
| `Export.LoadAllAt` | blind_helix/management/commands/utils.py:11-20 | the library at each position is the one loaded from the export at that position |
| `Export.AllComponentsCount` | blind_helix/management/commands/utils.py:13-18 | there are as many components as functions in the loaded libraries |
| `Export.GroupedTotal` | blind_helix/management/commands/utils.py:13-18 | the grouped total is the sum of the function counts |
| `Export.AddComponents` | blind_helix/management/commands/utils.py:13-18 | the inner loop inserts the components of one library in order |
| `Export.GroupAllFromConcat` | blind_helix/management/commands/utils.py:11-18 | grouping export by export equals grouping all components at once |
| `Export.Load` | blind_helix/management/commands/utils.py:7-22 | the load returns the libraries and their grouped components, or the first export's error |
| `Export.LoadStops` | blind_helix/management/commands/utils.py:11-13 | the first export that fails to load is the error of the whole load |
| `Random.Sample` | blind_helix/management/commands/dataset.py:113 | `k` elements from distinct positions, or ValueError when `k` is negative or too large |
| `Random.Choice` | blind_helix/management/commands/dataset.py:138-139 | an element of a non-empty sequence, or IndexError on an empty one |
| `Random.RandInt` | blind_helix/management/commands/dataset.py:230-233 | a number in the inclusive range, or ValueError when the range is empty |
| `Dataset.FlattenTotal` | blind_helix/management/commands/dataset.py:103 | the list of all components has the grouped total as its length |
| `Dataset.FlattenMember` | blind_helix/management/commands/dataset.py:103 | a component is listed iff it is in some library's group |
| `Dataset.PickDistinct` | blind_helix/management/commands/dataset.py:184-186 | libraries drawn at distinct positions of distinct keys are distinct |
| `Dataset.DrawAny` | blind_helix/management/commands/dataset.py:138-139 | a draw gives a member of some library, or IndexError; an empty collection always raises |
| `Dataset.DrawStratified` | blind_helix/management/commands/dataset.py:184-186 | the sample has one component from each of `m` distinct libraries; `m` out of range is ValueError |
| `Dataset.Singletons` | blind_helix/management/commands/dataset.py:103 | one singleton sample per component, library by library |
| `Dataset.Simple` | blind_helix/management/commands/dataset.py:95-115 | no samples asked gives every component once, in order; too many is SamplingError; otherwise `samples` singletons from distinct positions |
| `Dataset.Rand` | blind_helix/management/commands/dataset.py:118-145 | `samples` (default 100) samples of `components` (default 50) members each, or IndexError |
| `Dataset.RandSample` | blind_helix/management/commands/dataset.py:135-143 | one sample of `m` members, or IndexError |
| `Dataset.StratifiedRandom` | blind_helix/management/commands/dataset.py:148-201 | `samples` distinct samples, each of `components` members of distinct libraries; `components` out of range is ValueError; in range with no empty library the call succeeds, or fails with AttributeError, which needs at least two samples |
| `Dataset.Mutate` | blind_helix/management/commands/dataset.py:232-238 | at most `count` positions change and every position still holds a member; with a non-empty sample and collection and no empty library the step succeeds |
| `Dataset.Walk` | blind_helix/management/commands/dataset.py:229-240 | each copy differs from the previous in at most `bound` positions and the last copy is the final sample; with a non-empty sample and collection and no empty library the walk succeeds |
| `Dataset.StratifiedWalkAsWritten` | blind_helix/management/commands/dataset.py:204-242 | as written, the first returned sample is the same list as the last; `components` out of range is ValueError, and in range with no empty library the call succeeds |
| `Dataset.StratifiedWalk` | blind_helix/management/commands/dataset.py:204-242 | `samples` samples of `components` members; the first is stratified and consecutive samples differ in at most `bound` positions; `components` out of range is ValueError, and in range with no empty library the call succeeds |
| `Dataset.WalkStepMixesLibraries` | blind_helix/management/commands/dataset.py:227-240 | one step of the walk can take a stratified sample to one that is not stratified |
| `Dataset.NonEmpty` | blind_helix/management/commands/dataset.py:366 | the filter keeps exactly the non-empty results, in order: an ordered subsequence holding every non-empty result, with one entry per non-empty result |
| `Dataset.UpTo` | blind_helix/management/commands/dataset.py:368-369 | the slice `[:stop]` is a prefix, with Python's meaning of a negative stop |
| `Dataset.MergeAllKeys` | blind_helix/management/commands/dataset.py:371-373 | the merged labels have exactly the keys of the results |
| `Dataset.MergeAllLastWins` | blind_helix/management/commands/dataset.py:371-373 | a label's value comes from the last result that has it |
| `Dataset.NonEmptyKeys` | blind_helix/management/commands/dataset.py:366 | dropping empty results loses no key |
| `Dataset.Merge` | blind_helix/management/commands/dataset.py:371-373 | the update loop computes the merge of the results |
| `Dataset.Aggregate` | blind_helix/management/commands/dataset.py:366-373 | the labels merge the first non-empty results; with no maximum their keys are those of all results |
| `ParseMany.LayoutDistinct` | blind_helix/management/commands/many.py:20-32 | the log, export and sentinel paths of a library are pairwise different |
| `ParseMany.PreviouslyParsed` | blind_helix/management/commands/many.py:25-40 | with a sentinel present, a run writes nothing |
| `ParseMany.OneSentinel` | blind_helix/management/commands/many.py:56-97 | a run without sentinel that meets only pipeline errors ends with exactly one of the sentinels |
| `ParseMany.NoWorkingFunction` | blind_helix/management/commands/many.py:63-66 | zero working functions ends in `failed` and writes no export |
| `ParseMany.ExportBeforeSucceeded` | blind_helix/management/commands/many.py:68-97 | on success the export is written, and it loads back as the tested library, before the `succeeded` sentinel |
| `ParseMany.UnexpectedError` | blind_helix/management/commands/many.py:70-80 | an error outside the pipeline's own propagates, leaves no sentinel and writes only the log |
| `ParseMany.CompletedRunIsDone` | blind_helix/management/commands/many.py:25-97 | a completed run leaves a sentinel |
| `ParseMany.Idempotent` | blind_helix/management/commands/many.py:25-40 | a second run after a completed one changes nothing |
| `ParseMany.Output.Touch` | blind_helix/management/commands/utils.py:34-36 | touching writes an empty file and records the write |
| `ParseMany.Output.Process` | blind_helix/management/commands/many.py:19-97 | the state after `process` is the one the run function gives from the previous state |
| `ParseMany.InsertName` | blind_helix/management/commands/many.py:154-156 | inserting into a sorted unique list keeps it sorted and adds the name |
| `ParseMany.Dispatch` | blind_helix/management/commands/many.py:154-156 | the dispatch order is strictly sorted and has exactly the given names |
| `ParseMany.DispatchedOnce` | blind_helix/management/commands/many.py:154-156 | each library name is dispatched once |
| `ParseMany.SortedUnique` | blind_helix/management/commands/many.py:154-156 | there is only one strictly sorted list of a given set of names |
| `Compare.CommonKeysIff` | evaluation/scripts/performance/compare.py:9-15 | a key is common iff every argument has it |
| `Compare.Align` | evaluation/scripts/performance/compare.py:8-17 | one list per argument, each the argument's values at the common keys, in one key order |
| `Compare.PairKey` | evaluation/scripts/performance/compare.py:48 | the key holds the two samples, in sorted order |
| `Compare.PairKeySymmetric` | evaluation/scripts/performance/compare.py:48 | the key does not depend on the order of the samples |
| `Compare.LoadKeys` | evaluation/scripts/performance/compare.py:44-50 | the loaded keys are the sorted pairs of the records |
| `Compare.LoadLastWins` | evaluation/scripts/performance/compare.py:48 | a key holds the similarity of the last record with that key |
| `Compare.SwappedRecordsCollide` | evaluation/scripts/performance/compare.py:48 | the records (a, b) and (b, a) collide and the later wins |
| `Convert.FetchIff` | evaluation/scripts/convert-helix-labels/convert.py:12-13 | `fetch` keeps exactly the values of the "function" tags |
| `Convert.FetchComponent` | evaluation/scripts/convert-helix-labels/convert.py:12-13 | a component's function labels are its `lib-f` names for `included + [function]` |
| `Convert.Similarity` | evaluation/scripts/convert-helix-labels/convert.py:17 | the Jaccard index divides by zero exactly when both sets are empty |
| `Convert.SimilarityBounds` | evaluation/scripts/convert-helix-labels/convert.py:17 | the similarity lies between 0 and 1 |
| `Convert.SimilaritySymmetric` | evaluation/scripts/convert-helix-labels/convert.py:17 | the similarity is symmetric |
| `Convert.SimilarityIdentical` | evaluation/scripts/convert-helix-labels/convert.py:17 | identical non-empty sets have similarity 1 |
| `Convert.SimilarityDisjoint` | evaluation/scripts/convert-helix-labels/convert.py:17 | disjoint sets have similarity 0 |
| `Convert.Combinations` | evaluation/scripts/convert-helix-labels/convert.py:10 | there are n(n-1)/2 pairs |
| `Convert.CombinationsArePairs` | evaluation/scripts/convert-helix-labels/convert.py:10 | every pair is two samples at positions i < j |
| `Convert.CombinationsComplete` | evaluation/scripts/convert-helix-labels/convert.py:10 | every two positions i < j occur as a pair |
| `Convert.RecordsStop` | evaluation/scripts/convert-helix-labels/convert.py:10-19 | the first division by zero ends the conversion |
| `Convert.RecordsFacts` | evaluation/scripts/convert-helix-labels/convert.py:15-19 | each record names its pair in order, with a similarity between 0 and 1 |
| `Convert.Pairwise` | evaluation/scripts/convert-helix-labels/convert.py:7-19 | the loop yields one record per pair, n(n-1)/2 in all, or the division error |

## Left out

- Process pools, the global lock and progress output are concurrency and I/O; only the sequential path is modelled.
- The external tools are parameters of the model: lief and magic (`LinuxParser.File`, `Demangler`), `ar`, `objcopy` running the rename map, vcpkg installation and discovery, and the helix blueprint build (the build oracle).
- The `process` and `generate` helpers of the dataset command call the helix build and uuid; the strategies take the loaded collection as input and their output is not built.
- The command-line option parsing and the strategy lookup in `Command.handle` are not modelled; each strategy is a method of its own.
- Temporary files and directories, `os.path.abspath`/`expanduser`, `os.walk` itself and `os.makedirs` creating parent directories: files are maps, the walk is a list of `(root, files)`.
- `datetime.now()` is the parameter `now`.
- JSON text: `saves`/`loads` exchange an abstract record value, not a serialised string.
- Record.ToStrings, Record.ToMapping, Record.StringField, Component.Loads, Library.Loads: the loaded fields are typed (strings, lists of strings, a map of string lists), so the model rejects at load time, with TypeError, a record whose fields have another shape. Python's `loads` reads `data[...]` without checking and stores such values; they fail later, or never. The one type error Python does raise at load time, `capitalize()` on a non-string `name` (blind_helix/library.py:341-343), is an AttributeError, which the model reports as TypeError too. Because each field is checked as it is read, a record with a mis-shaped field before a missing key gives TypeError where Python gives KeyError. Only a missing key (KeyError) and a record that is not an object match the source exactly.
- Parser.BuildAsWritten: for a truthy `version`, the call as written stores the string as `included` and the build succeeds. The AttributeError comes only from `self.included.get` (blind_helix/library.py:165), once `components` is iterated over a library with at least one function. The model reports it already from the build, and so also reports it for a library with no functions, which never fails in the source. Both callers in the repository call `build()` without arguments.
- Parser.Refine, Parser.Test: each `included[f]` is `list(functions & base)` summed over the artifacts (blind_helix/parser.py:117-119). Set iteration has no defined order, and a name may repeat across artifacts, so the model promises only which names the list holds (`Elements`), not their order or multiplicity.
- Base64: Python's non-validating `b64decode` also skips characters outside the alphabet and ignores non-zero trailing bits in the last group (`"QR=="` gives `b"A"`); the model decodes only canonical, padded text and gives a decoding error otherwise.
- Dataset.StratifiedWalk: the bound on the changes per step is the parameter `bound`; `round(components * 0.02)` with Python's round-half-even on floats is not modelled.
- Random draws are nondeterministic choices; their distribution is not modelled.
- Dataset.StratifiedRandom: `list(options)` of a set has no defined order; the model promises the samples are distinct, not their order. The contract does not say that the AttributeError comes only from a repeated draw, because the draws are nondeterministic; it says that in range the call fails only with AttributeError, and only when two or more samples are asked for.
- ParseMany.Output.Process: the library's parser, build and test are one input value (`tested`), the outcome of `parser.test(parser.build())`.
- The RMSE and other metrics of `compare.py`, the TLSH scores and the other evaluation scripts are floating-point reporting outside this model.
- Logging and the colour output of `blind_helix/utils.py` are not part of this model.

## Findings

| source | as written | input that shows it | evidently intended | confidence | as-written member | corrected member |
|---|---|---|---|---|---|---|
| blind_helix/parser.py:96 | `library.build(self.name, finalized.name, functions, version, date)` passes version and date into the `included` and `version` slots | `build(version=None, date="2024-01-01")`: the library's version is "2024-01-01" and its date is the current time | pass `version=version, date=date` by keyword | not executed | `Parser.BuildAsWritten`, `Parser.BuildAsWrittenShiftsDate` | `Parser.Build` |
| blind_helix/management/commands/dataset.py:227 | `options.append(sample)` stores the list that the walk then mutates in place, so sample 0 ends equal to the last sample | a walk whose steps change anything: the first returned sample equals the last, and one step can leave a library represented twice | append a copy of the first sample | not executed | `Dataset.StratifiedWalkAsWritten`, `Dataset.WalkStepMixesLibraries` | `Dataset.StratifiedWalk` |
