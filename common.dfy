/** Values shared by every module of the model: optional values, the
    exceptions the pipeline raises (blind_helix/exceptions.py and the Python
    built-in errors its code can raise), and Python truthiness. */
module Common {

  datatype Option<+T> = None | Some(value: T)

  /** The exceptions of the pipeline. Python raises them; the model returns
      them in the `Err` case of a `Result`. */
  datatype Error =
    | BlindHelixException(message: string)   // exceptions.BlindHELIXException itself
    | LibraryNotFound                         // exceptions.LibraryNotFound
    | UnexpectedBuildFailure(errors: string)  // exceptions.UnexpectedBuildFailure(errors=...)
    | VcpkgError(message: string)             // parsers.utils.VCPKGError
    | BuildFailure(stderr: string)            // helix.exceptions.BuildFailure
    | SamplingError(requested: int, reported: int) // dataset.SamplingError, with the two numbers of its message
    | RetriesExhausted                        // the plain Exception of stratified_random
    | FileNotFound(path: string)              // open() / shutil.copyfile on a missing file
    | DecodeError                             // binascii.Error from base64.b64decode
    | KeyError(key: string)                   // a missing field in a loaded record
    | TypeError                               // a loaded field of the wrong shape
    | ValueError                              // random.sample with a bad size
    | IndexError                              // random.choice on an empty list
    | AttributeError                          // a method called on a value that lacks it
    | ZeroDivisionError                       // `/` by zero

  datatype Result<+T> = Ok(value: T) | Err(error: Error) {
    predicate IsFailure() {
      Err?
    }

    function PropagateFailure<U>(): Result<U>
      requires Err?
    {
      Err(error)
    }

    function Extract(): T
      requires Ok?
    {
      value
    }
  }

  /** `except exceptions.BlindHELIXException` catches exactly these. */
  predicate IsBlindHelix(e: Error) {
    e.BlindHelixException? || e.LibraryNotFound? || e.UnexpectedBuildFailure? || e.VcpkgError?
  }

  /** Python truthiness of an optional string argument (`x or default`):
      `None` and `""` are both false. */
  predicate TruthyString(o: Option<string>) {
    o.Some? && o.value != ""
  }

  /** `o or default` for an optional string. */
  function OrString(o: Option<string>, default: string): (r: string)
    ensures TruthyString(o) ==> r == o.value
    ensures !TruthyString(o) ==> r == default
  {
    if o.Some? && o.value != "" then o.value else default
  }

  /** Python truthiness of an optional integer argument: `None` and `0` are false. */
  predicate TruthyInt(o: Option<int>) {
    o.Some? && o.value != 0
  }

  /** `o or default` for an optional integer. */
  function OrInt(o: Option<int>, default: int): (r: int)
    ensures TruthyInt(o) ==> r == o.value
    ensures !TruthyInt(o) ==> r == default
  {
    if o.Some? && o.value != 0 then o.value else default
  }

  /** The length of `range(n)`. */
  function RangeLength(n: int): (r: nat)
    ensures n >= 0 ==> r == n
    ensures n < 0 ==> r == 0
  {
    if n < 0 then 0 else n
  }

  /** The set of elements of a sequence. */
  function Elements<T>(s: seq<T>): set<T>
  {
    set x | x in s
  }

  /** No element occurs twice. */
  predicate Distinct<T(==)>(s: seq<T>) {
    forall i, j :: 0 <= i < j < |s| ==> s[i] != s[j]
  }

  /** `sub` is obtained from `s` by deleting elements, keeping order
      (matched greedily from the back). */
  predicate IsSubsequence<T(==)>(sub: seq<T>, s: seq<T>)
    decreases |s|
  {
    if sub == [] then true
    else if s == [] then false
    else if sub[|sub| - 1] == s[|s| - 1] then IsSubsequence(sub[..|sub| - 1], s[..|s| - 1])
    else IsSubsequence(sub, s[..|s| - 1])
  }

  /** Appending the same element to both keeps a subsequence. */
  lemma SubsequenceAppendBoth<T>(sub: seq<T>, s: seq<T>, x: T)
    requires IsSubsequence(sub, s)
    ensures IsSubsequence(sub + [x], s + [x])
  {
    assert (sub + [x])[..|sub|] == sub;
    assert (s + [x])[..|s|] == s;
  }

  /** Appending to the longer sequence keeps a subsequence. */
  lemma {:induction false} SubsequenceAppendRight<T>(sub: seq<T>, s: seq<T>, x: T)
    requires IsSubsequence(sub, s)
    ensures IsSubsequence(sub, s + [x])
    decreases |s|, 1
  {
    assert (s + [x])[..|s|] == s;
    if sub != [] && sub[|sub| - 1] == x {
      SubsequenceDropLast(sub, s);
    }
  }

  /** Dropping the last element keeps a subsequence. */
  lemma {:induction false} SubsequenceDropLast<T>(sub: seq<T>, s: seq<T>)
    requires sub != [] && IsSubsequence(sub, s)
    ensures IsSubsequence(sub[..|sub| - 1], s)
    decreases |s|, 0
  {
    var init := s[..|s| - 1];
    assert s == init + [s[|s| - 1]];
    if sub[|sub| - 1] == s[|s| - 1] {
      SubsequenceAppendRight(sub[..|sub| - 1], init, s[|s| - 1]);
    } else {
      SubsequenceDropLast(sub, init);
      SubsequenceAppendRight(sub[..|sub| - 1], init, s[|s| - 1]);
    }
  }

  /** Subsequences concatenate. */
  lemma {:induction false} SubsequenceConcat<T>(a: seq<T>, b: seq<T>, c: seq<T>, d: seq<T>)
    requires IsSubsequence(a, b) && IsSubsequence(c, d)
    ensures IsSubsequence(a + c, b + d)
    decreases |d|
  {
    if d == [] {
      assert c == [];
      assert a + c == a && b + d == b;
    } else {
      var d0 := d[..|d| - 1];
      var x := d[|d| - 1];
      assert b + d == (b + d0) + [x];
      if c != [] && c[|c| - 1] == x {
        var c0 := c[..|c| - 1];
        SubsequenceConcat(a, b, c0, d0);
        assert a + c == (a + c0) + [x];
        SubsequenceAppendBoth(a + c0, b + d0, x);
      } else {
        SubsequenceConcat(a, b, c, d0);
        SubsequenceAppendRight(a + c, b + d0, x);
      }
    }
  }

  /** A subset is no larger than its superset. */
  lemma {:induction false} SubsetCard<T>(a: set<T>, b: set<T>)
    requires a <= b
    ensures |a| <= |b|
    decreases b
  {
    if a != {} {
      var x :| x in a;
      SubsetCard(a - {x}, b - {x});
    }
  }

  /** A duplicate-free list has as many elements as its set. */
  lemma {:induction false} DistinctCard<T>(l: seq<T>)
    requires Distinct(l)
    ensures |Elements(l)| == |l|
    decreases |l|
  {
    if l != [] {
      var init := l[..|l| - 1];
      DistinctCard(init);
      assert Elements(l) == Elements(init) + {l[|l| - 1]};
      assert l[|l| - 1] !in Elements(init);
    }
  }

  /** `list(s)` or `tuple(s)` for a Python set: every element once, in an
      order the model leaves open. */
  method ListOf<T>(s: set<T>) returns (l: seq<T>)
    ensures Distinct(l) && Elements(l) == s
  {
    l := [];
    var rest := s;
    while rest != {}
      invariant rest !! Elements(l) && rest + Elements(l) == s
      invariant Distinct(l)
      decreases rest
    {
      var x :| x in rest;
      l := l + [x];
      rest := rest - {x};
    }
  }
}
