/** blind_helix/parsers/linux.py: the generic Linux library parser. It
    lists the C functions a binary defines, reading the object files of an
    archive one by one, and prepares the map that makes a library's exported
    symbols unique.

    The symbol reader is abstract: a `Binary` is what the reader reports
    for one file, `demangle` is its demangler (a name for C++ symbols, `None`
    for C ones), and an archive's members are the files `ar x` extracts, in
    the order the directory lists them. */
module LinuxParser {
  import opened Common
  import opened Strings

  datatype Symbol = Symbol(name: string, isFunction: bool, imported: bool, exported: bool)

  /** A parsed binary: its symbol table and its exported-symbol table. */
  datatype Binary = Binary(symbols: seq<Symbol>, exportedSymbols: seq<Symbol>)

  /** An extracted archive member: its file name and what the reader makes
      of it. */
  datatype Member = Member(unit: string, binary: Binary)

  /** A file on disk: the description the file-type probe gives, the
      members `ar x` extracts (`None` when it rejects the file), and what the
      reader makes of the file itself. */
  datatype File = File(filetype: string, members: Option<seq<Member>>, image: Binary)

  type Demangler = string -> Option<string>

  /** Every character is a dot. */
  function AllDots(s: string): (r: bool)
    ensures r <==> forall i :: 0 <= i < |s| ==> s[i] == '.'
    decreases |s|
  {
    s == [] || (s[0] == '.' && AllDots(s[1..]))
  }

  /** `os.path.splitext(p)[1]`: from the last dot of the last path
      component, unless only dots precede it in that component. */
  function Extension(p: string): (r: string)
    ensures r == "" || (|r| >= 1 && r[0] == '.' && EndsWith(p, r))
  {
    var sep := LastIndexOf(p, '/');
    var dot := LastIndexOf(p, '.');
    if dot > sep && !AllDots(p[sep + 1..dot]) then
      assert |p[dot..]| == |p| - dot;
      p[dot..]
    else ""
  }

  /** A member name has the `.o` extension iff it ends in `.o` after a
      name that is not only dots. */
  lemma ObjectExtensionIff(unit: string)
    requires forall i :: 0 <= i < |unit| ==> unit[i] != '/'
    ensures Extension(unit) == ".o" <==>
              |unit| >= 2 && unit[|unit| - 2..] == ".o" && exists i :: 0 <= i < |unit| - 2 && unit[i] != '.'
  {
    var dot := LastIndexOf(unit, '.');
    assert LastIndexOf(unit, '/') == -1;
    if |unit| >= 2 && unit[|unit| - 2..] == ".o" {
      assert unit[|unit| - 1] == 'o' && unit[|unit| - 2] == '.';
      assert dot == |unit| - 2;
    }
    if Extension(unit) == ".o" {
      assert unit[dot..] == ".o";
      assert dot == |unit| - 2;
      var i :| 0 <= i < dot && unit[..dot][i] != '.';
      assert unit[i] != '.';
    }
    if |unit| >= 2 && unit[|unit| - 2..] == ".o" && exists i :: 0 <= i < |unit| - 2 && unit[i] != '.' {
      var i :| 0 <= i < |unit| - 2 && unit[i] != '.';
      assert unit[..dot][i] != '.';
    }
  }

  /** A member `_parse_archive` reads. */
  predicate IsObject(m: Member) {
    Extension(m.unit) == ".o"
  }

  /** The objects among an archive's members, in listing order. */
  function Objects(members: seq<Member>): (r: seq<Binary>)
    ensures |r| <= |members|
  {
    Selected(members, IsObject)
  }

  /** The binaries of the members `keep` accepts, in listing order. */
  function Selected(members: seq<Member>, keep: Member -> bool): (r: seq<Binary>)
    ensures |r| <= |members|
    decreases |members|
  {
    if members == [] then []
    else Selected(members[..|members| - 1], keep)
         + (if keep(members[|members| - 1]) then [members[|members| - 1].binary] else [])
  }

  /** Every object comes from a `.o` member. */
  lemma ObjectsComeFromObjectFiles(members: seq<Member>, b: Binary)
    requires b in Objects(members)
    ensures exists i :: 0 <= i < |members| && IsObject(members[i]) && members[i].binary == b
  {
    var i := SelectedSource(members, IsObject, b);
  }

  /** The position of an accepted member that yields `b`. */
  lemma {:induction false} SelectedSource(members: seq<Member>, keep: Member -> bool, b: Binary) returns (i: nat)
    requires b in Selected(members, keep)
    ensures i < |members| && keep(members[i]) && members[i].binary == b
    decreases |members|
  {
    var n := |members| - 1;
    var init := members[..n];
    if keep(members[n]) && members[n].binary == b {
      i := n;
    } else {
      assert b in Selected(init, keep);
      i := SelectedSource(init, keep, b);
      assert members[i] == init[i];
    }
  }

  /** Every `.o` member is read. */
  lemma ObjectFilesAreRead(members: seq<Member>, i: nat)
    requires i < |members| && IsObject(members[i])
    ensures members[i].binary in Objects(members)
  {
    AcceptedIsSelected(members, IsObject, i);
  }

  /** Every accepted member's binary is selected. */
  lemma {:induction false} AcceptedIsSelected(members: seq<Member>, keep: Member -> bool, i: nat)
    requires i < |members| && keep(members[i])
    ensures members[i].binary in Selected(members, keep)
    decreases |members|
  {
    var init := members[..|members| - 1];
    if i < |members| - 1 {
      AcceptedIsSelected(init, keep, i);
      assert init[i] == members[i];
    }
  }

  /** The binaries `parse` hands to its `add`: an archive's objects, or the
      file itself. */
  function Binaries(f: File): Result<seq<Binary>> {
    if Contains(f.filetype, "ar archive") then
      if f.members.Some? then Ok(Objects(f.members.value))
      else Err(BlindHelixException("invalid library file"))
    else Ok([f.image])
  }

  /** The test `add` applies to each symbol of `parse`. */
  predicate Kept(s: Symbol, exported: bool, demangle: Demangler) {
    s.isFunction && !s.imported && (!exported || s.exported) && demangle(s.name).None?
  }

  /** The names `add` appends for a symbol table, in table order. */
  function KeptNames(symbols: seq<Symbol>, exported: bool, demangle: Demangler): seq<string>
    decreases |symbols|
  {
    if symbols == [] then []
    else KeptNames(symbols[..|symbols| - 1], exported, demangle)
         + (if Kept(symbols[|symbols| - 1], exported, demangle) then [symbols[|symbols| - 1].name] else [])
  }

  /** The names `parse` returns for a list of binaries, in order. */
  function FunctionsOf(binaries: seq<Binary>, exported: bool, demangle: Demangler): seq<string>
    decreases |binaries|
  {
    if binaries == [] then []
    else FunctionsOf(binaries[..|binaries| - 1], exported, demangle)
         + KeptNames(binaries[|binaries| - 1].symbols, exported, demangle)
  }

  /** `add` for `parse`: appends the name of every kept symbol. */
  method AddFunctions(functions: seq<string>, b: Binary, exported: bool, demangle: Demangler)
    returns (r: seq<string>)
    ensures r == functions + KeptNames(b.symbols, exported, demangle)
  {
    r := functions;
    for i := 0 to |b.symbols|
      invariant r == functions + KeptNames(b.symbols[..i], exported, demangle)
    {
      assert b.symbols[..i + 1][..i] == b.symbols[..i];
      var s := b.symbols[i];
      if !s.isFunction || s.imported {
        continue;
      }
      if exported && !s.exported {
        continue;
      }
      if demangle(s.name).Some? {
        continue;
      }
      r := r + [s.name];
    }
    assert b.symbols[..|b.symbols|] == b.symbols;
  }

  /** `parse`: the kept functions of every binary of the file. */
  method Parse(f: File, exported: bool, demangle: Demangler) returns (r: Result<seq<string>>)
    ensures Binaries(f).Err? ==> r == Err(Binaries(f).error)
    ensures Binaries(f).Ok? ==> r == Ok(FunctionsOf(Binaries(f).value, exported, demangle))
  {
    var binaries := Binaries(f);
    if binaries.Err? {
      return Err(binaries.error);
    }
    var bs := binaries.value;
    var functions: seq<string> := [];
    for i := 0 to |bs|
      invariant functions == FunctionsOf(bs[..i], exported, demangle)
    {
      assert bs[..i + 1][..i] == bs[..i];
      functions := AddFunctions(functions, bs[i], exported, demangle);
    }
    assert bs[..|bs|] == bs;
    r := Ok(functions);
  }

  /** Every name `parse` returns is that of a kept symbol: a function
      that is not imported, exported when asked for, and not C++. */
  lemma {:induction false} KeptNamesAreKept(symbols: seq<Symbol>, exported: bool, demangle: Demangler, x: string)
    requires x in KeptNames(symbols, exported, demangle)
    ensures exists s :: s in symbols && s.name == x && Kept(s, exported, demangle)
    decreases |symbols|
  {
    var init := symbols[..|symbols| - 1];
    var last := symbols[|symbols| - 1];
    if x in KeptNames(init, exported, demangle) {
      KeptNamesAreKept(init, exported, demangle, x);
      var s :| s in init && s.name == x && Kept(s, exported, demangle);
      assert s in symbols;
    } else {
      assert last in symbols;
    }
  }

  lemma {:induction false} FunctionsAreKept(binaries: seq<Binary>, exported: bool, demangle: Demangler, x: string)
    requires x in FunctionsOf(binaries, exported, demangle)
    ensures exists b, s :: b in binaries && s in b.symbols && s.name == x && Kept(s, exported, demangle)
    decreases |binaries|
  {
    var init := binaries[..|binaries| - 1];
    var last := binaries[|binaries| - 1];
    if x in FunctionsOf(init, exported, demangle) {
      FunctionsAreKept(init, exported, demangle, x);
      var b, s :| b in init && s in b.symbols && s.name == x && Kept(s, exported, demangle);
      assert b in binaries;
    } else {
      KeptNamesAreKept(last.symbols, exported, demangle, x);
      assert last in binaries;
    }
  }

  /** A table whose every symbol is kept is returned whole: in order, with
      its duplicates. */
  lemma {:induction false} AllKept(symbols: seq<Symbol>, exported: bool, demangle: Demangler)
    requires forall i :: 0 <= i < |symbols| ==> Kept(symbols[i], exported, demangle)
    ensures KeptNames(symbols, exported, demangle) == seq(|symbols|, i requires 0 <= i < |symbols| => symbols[i].name)
    decreases |symbols|
  {
    if symbols != [] {
      var init := symbols[..|symbols| - 1];
      AllKept(init, exported, demangle);
    }
  }

  lemma {:induction false} KeptNamesSubsequence(symbols: seq<Symbol>, demangle: Demangler)
    ensures IsSubsequence(KeptNames(symbols, true, demangle), KeptNames(symbols, false, demangle))
    decreases |symbols|
  {
    if symbols == [] {
    } else {
      var init := symbols[..|symbols| - 1];
      var last := symbols[|symbols| - 1];
      KeptNamesSubsequence(init, demangle);
      var tail: seq<string> := if Kept(last, true, demangle) then [last.name] else [];
      var tailAll: seq<string> := if Kept(last, false, demangle) then [last.name] else [];
      assert IsSubsequence(tail, tailAll) by {
        if tail != [] {
          assert tail[..0] == [] && tailAll[..0] == [];
        }
      }
      SubsequenceConcat(KeptNames(init, true, demangle), KeptNames(init, false, demangle), tail, tailAll);
    }
  }

  /** The exported-only listing is an in-order subsequence of the full
      listing. */
  lemma {:induction false} ExportedIsSubsequence(binaries: seq<Binary>, demangle: Demangler)
    ensures IsSubsequence(FunctionsOf(binaries, true, demangle), FunctionsOf(binaries, false, demangle))
    decreases |binaries|
  {
    if binaries != [] {
      var init := binaries[..|binaries| - 1];
      var last := binaries[|binaries| - 1];
      ExportedIsSubsequence(init, demangle);
      KeptNamesSubsequence(last.symbols, demangle);
      SubsequenceConcat(FunctionsOf(init, true, demangle), FunctionsOf(init, false, demangle),
                        KeptNames(last.symbols, true, demangle), KeptNames(last.symbols, false, demangle));
    }
  }

  /** The C symbols of the exported-symbol tables of `finalize`'s `add`. */
  function ExportNames(binaries: seq<Binary>, demangle: Demangler): seq<string>
    decreases |binaries|
  {
    if binaries == [] then []
    else ExportNames(binaries[..|binaries| - 1], demangle)
         + CSymbols(binaries[|binaries| - 1].exportedSymbols, demangle)
  }

  /** The names of the symbols of a table that do not demangle. */
  function CSymbols(symbols: seq<Symbol>, demangle: Demangler): seq<string>
    decreases |symbols|
  {
    if symbols == [] then []
    else CSymbols(symbols[..|symbols| - 1], demangle)
         + (if demangle(symbols[|symbols| - 1].name).None? then [symbols[|symbols| - 1].name] else [])
  }

  /** The line of the rename map for `symbol` of library `library`. */
  function MappingLine(symbol: string, library: string): string {
    symbol + " " + library + "_" + symbol + "\n"
  }

  /** The lines of the rename map. */
  function MappingLines(symbols: seq<string>, library: string): (r: seq<string>)
    ensures |r| == |symbols| && forall i :: 0 <= i < |r| ==> r[i] == MappingLine(symbols[i], library)
  {
    seq(|symbols|, i requires 0 <= i < |symbols| => MappingLine(symbols[i], library))
  }

  /** A line `A B\n` read back as the pair (A, B). */
  function ParseMappingLine(line: string): Option<(string, string)> {
    var sp := LastIndexOf(line, ' ');
    if |line| >= 1 && line[|line| - 1] == '\n' && sp >= 0 then Some((line[..sp], line[sp + 1..|line| - 1]))
    else None
  }

  predicate Plain(s: string) {
    forall i :: 0 <= i < |s| ==> s[i] != ' ' && s[i] != '\n'
  }

  /** A rename line reads back as the symbol and its prefixed name. */
  lemma MappingLineRoundTrip(symbol: string, library: string)
    requires Plain(symbol) && Plain(library)
    ensures ParseMappingLine(MappingLine(symbol, library)) == Some((symbol, library + "_" + symbol))
  {
    var line := MappingLine(symbol, library);
    var target := library + "_" + symbol;
    assert line == symbol + " " + target + "\n";
    var n := |symbol|;
    assert forall j :: n < j < |line| ==> line[j] != ' ' by {
      forall j | n < j < |line| ensures line[j] != ' ' {
        if j < |line| - 1 {
          assert line[j] == target[j - n - 1];
        }
      }
    }
    assert line[n] == ' ';
    assert LastIndexOf(line, ' ') == n;
    assert line[..n] == symbol;
    assert line[n + 1..|line| - 1] == target;
  }

  /** `finalize`'s `add` for one binary: appends the names of its exported
      C symbols. */
  method AddExports(symbols: seq<string>, b: Binary, demangle: Demangler) returns (r: seq<string>)
    ensures r == symbols + CSymbols(b.exportedSymbols, demangle)
  {
    r := symbols;
    var table := b.exportedSymbols;
    for j := 0 to |table|
      invariant r == symbols + CSymbols(table[..j], demangle)
    {
      assert table[..j + 1][..j] == table[..j];
      if demangle(table[j].name).None? {
        r := r + [table[j].name];
      }
    }
    assert table[..|table|] == table;
  }

  /** Writes the rename map line by line. */
  method WriteMapping(symbols: seq<string>, name: string) returns (mapping: string)
    ensures mapping == Concat(MappingLines(symbols, name))
  {
    mapping := "";
    ghost var lines := MappingLines(symbols, name);
    for k := 0 to |symbols|
      invariant mapping == Concat(lines[..k])
    {
      assert lines[..k + 1] == lines[..k] + [lines[k]];
      ConcatAppend(lines[..k], lines[k]);
      mapping := mapping + MappingLine(symbols[k], name);
    }
    assert lines[..|symbols|] == lines;
  }

  /** `finalize` up to the rewrite: read the exported C symbols of the
      library's objects and write the rename map. The rewrite itself
      (`objcopy --redefine-syms`) is an external tool and is not part of
      this model. */
  method Finalize(library: File, name: string, demangle: Demangler) returns (r: Result<string>)
    ensures library.members.None? ==> r == Err(BlindHelixException("invalid library file"))
    ensures library.members.Some? ==>
              r == Ok(Concat(MappingLines(ExportNames(Objects(library.members.value), demangle), name)))
  {
    if library.members.None? {
      return Err(BlindHelixException("invalid library file"));
    }
    var bs := Objects(library.members.value);
    var symbols: seq<string> := [];
    for i := 0 to |bs|
      invariant symbols == ExportNames(bs[..i], demangle)
    {
      assert bs[..i + 1][..i] == bs[..i];
      symbols := AddExports(symbols, bs[i], demangle);
    }
    assert bs[..|bs|] == bs;
    var mapping := WriteMapping(symbols, name);
    r := Ok(mapping);
  }

  /** The text of a list of lines written one after the other. */
  function Concat(lines: seq<string>): string
    decreases |lines|
  {
    if lines == [] then "" else lines[0] + Concat(lines[1..])
  }

  lemma {:induction false} ConcatAppend(lines: seq<string>, line: string)
    ensures Concat(lines + [line]) == Concat(lines) + line
    decreases |lines|
  {
    if lines == [] {
      assert [line][1..] == [];
    } else {
      assert (lines + [line])[1..] == lines[1..] + [line];
      ConcatAppend(lines[1..], line);
    }
  }

  /** The number of line ends in a text. */
  function Newlines(s: string): nat
    decreases |s|
  {
    if s == [] then 0 else (if s[0] == '\n' then 1 else 0) + Newlines(s[1..])
  }

  lemma {:induction false} NewlinesAppend(a: string, b: string)
    ensures Newlines(a + b) == Newlines(a) + Newlines(b)
    decreases |a|
  {
    if a != [] {
      assert (a + b)[1..] == a[1..] + b;
      assert (a + b)[0] == a[0];
      NewlinesAppend(a[1..], b);
    } else {
      assert a + b == b;
    }
  }

  lemma {:induction false} PlainHasNoNewlines(s: string)
    requires Plain(s)
    ensures Newlines(s) == 0
    decreases |s|
  {
    if s != [] {
      PlainHasNoNewlines(s[1..]);
    }
  }

  /** A mapping line of plain names ends the only line it holds. */
  lemma MappingLineNewlines(s: string, library: string)
    requires Plain(s) && Plain(library)
    ensures Newlines(MappingLine(s, library)) == 1
  {
    var x1 := s + " ";
    var x2 := x1 + library;
    var x3 := x2 + "_";
    var x4 := x3 + s;
    assert MappingLine(s, library) == x4 + "\n";
    PlainHasNoNewlines(s);
    PlainHasNoNewlines(library);
    NewlinesAppend(s, " ");
    NewlinesAppend(x1, library);
    NewlinesAppend(x2, "_");
    NewlinesAppend(x3, s);
    NewlinesAppend(x4, "\n");
  }

  /** The rename map has exactly one line per exported C symbol. */
  lemma {:induction false} OneLinePerSymbol(symbols: seq<string>, library: string)
    requires forall i :: 0 <= i < |symbols| ==> Plain(symbols[i])
    requires Plain(library)
    ensures Newlines(Concat(MappingLines(symbols, library))) == |symbols|
    decreases |symbols|
  {
    if symbols != [] {
      assert MappingLines(symbols, library)[1..] == MappingLines(symbols[1..], library);
      OneLinePerSymbol(symbols[1..], library);
      NewlinesAppend(MappingLine(symbols[0], library), Concat(MappingLines(symbols[1..], library)));
      MappingLineNewlines(symbols[0], library);
    }
  }
}
