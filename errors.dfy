/** The build-failure classifier of blind_helix/errors.py: an ordered list of
    keyword matchers applied to a build command's stderr. */
module Errors {
  import opened Strings

  /** One class of known build error. `Base` is the abstract `Error` class,
      whose `check` answers False; `ContainsError` matches when its keyword
      occurs in the stderr text. */
  datatype Matcher = Base | ContainsError(keyword: string)

  /** A function is not declared in the headers the library ships. */
  const NotDeclared: Matcher := ContainsError("was not declared in this scope")

  /** A function is missing at link time. */
  const UndefinedReference: Matcher := ContainsError("undefined reference to")

  /** The registered matchers, in the order they are tried. */
  const Types: seq<Matcher> := [NotDeclared, UndefinedReference]

  /** `Error.check(errors)`. */
  function Check(m: Matcher, errors: string): (r: bool)
    ensures r <==> m.ContainsError? && IsSubstring(m.keyword, errors)
  {
    match m
    case Base => false
    case ContainsError(keyword) =>
      ContainsIffSubstring(errors, keyword);
      Contains(errors, keyword)
  }

  /** The loop of `known`, over an arbitrary list of matchers: it answers
      True at the first matcher that recognises `errors`. */
  function KnownBy(types: seq<Matcher>, errors: string): (r: bool)
    ensures r <==> exists i :: 0 <= i < |types| && Check(types[i], errors)
  {
    if |types| == 0 then false
    else if Check(types[0], errors) then true
    else
      var r := KnownBy(types[1..], errors);
      assert forall i :: 1 <= i < |types| ==> types[i] == types[1..][i - 1];
      r
  }

  /** `known(errors)`. */
  function Known(errors: string): bool {
    KnownBy(Types, errors)
  }

  /** A failure is known exactly when stderr contains one of the two keywords. */
  lemma KnownIff(errors: string)
    ensures Known(errors) <==>
              IsSubstring("was not declared in this scope", errors)
              || IsSubstring("undefined reference to", errors)
  {
    assert Types[0] == NotDeclared && Types[1] == UndefinedReference;
  }

  /** The empty stderr is not a known failure. */
  lemma EmptyIsUnknown()
    ensures !Known("")
  {
    KnownIff("");
    assert !OccursAt("undefined reference to", "", 0);
  }

  /** A stderr text that contains a known one is known. */
  lemma KnownMonotone(t: string, s: string)
    requires IsSubstring(t, s) && Known(t)
    ensures Known(s)
  {
    KnownIff(t);
    KnownIff(s);
    if IsSubstring("was not declared in this scope", t) {
      SubstringTransitive("was not declared in this scope", t, s);
    } else {
      SubstringTransitive("undefined reference to", t, s);
    }
  }

  /** The answer is a disjunction over the matchers: any reordering of the
      list gives the same answer. */
  lemma KnownByPermutation(ts: seq<Matcher>, us: seq<Matcher>, errors: string)
    requires multiset(ts) == multiset(us)
    ensures KnownBy(ts, errors) == KnownBy(us, errors)
  {
    if KnownBy(ts, errors) {
      var i :| 0 <= i < |ts| && Check(ts[i], errors);
      assert ts[i] in multiset(us);
      var j :| 0 <= j < |us| && us[j] == ts[i];
    }
    if KnownBy(us, errors) {
      var j :| 0 <= j < |us| && Check(us[j], errors);
      assert us[j] in multiset(ts);
      var i :| 0 <= i < |ts| && ts[i] == us[j];
    }
  }

  /** Registering another matcher never makes a known failure unknown. */
  lemma KnownByAppend(ts: seq<Matcher>, m: Matcher, errors: string)
    requires KnownBy(ts, errors)
    ensures KnownBy(ts + [m], errors)
  {
    var i :| 0 <= i < |ts| && Check(ts[i], errors);
    assert (ts + [m])[i] == ts[i];
  }

  /** Library.test strips the newlines around stderr before classifying it;
      the keywords hold no newline, so stripping never changes the answer. */
  lemma KnownIgnoresNewlinePadding(errors: string)
    ensures Known(StripNewlines(errors)) == Known(errors)
  {
    var a := "was not declared in this scope";
    var b := "undefined reference to";
    assert forall i :: 0 <= i < |a| ==> a[i] != '\n';
    assert forall i :: 0 <= i < |b| ==> b[i] != '\n';
    SubstringOfStrip(a, errors);
    SubstringOfStrip(b, errors);
    KnownIff(errors);
    KnownIff(StripNewlines(errors));
  }
}
