/** The three functions of Python's `random` module that the dataset
    strategies call. Each draw is a nondeterministic choice: the model
    states which results are possible and which arguments raise, not how
    likely each result is. */
module Random {
  import opened Common

  /** The positions `0 .. n-1`. */
  function Range(n: nat): (r: seq<nat>)
    ensures |r| == n && forall i :: 0 <= i < n ==> r[i] == i
  {
    seq(n, i requires 0 <= i < n => i)
  }

  /** Distinct positions of a population of size `bound`. */
  predicate Positions(pos: seq<nat>, bound: nat) {
    Distinct(pos) && forall i :: 0 <= i < |pos| ==> pos[i] < bound
  }

  /** `random.sample(population, k)`: `k` elements taken from distinct
      positions, or ValueError when `k` is negative or larger than the
      population. */
  method Sample<T>(population: seq<T>, k: int) returns (r: Result<seq<T>>, positions: seq<nat>)
    ensures r.Err? <==> k < 0 || k > |population|
    ensures r.Err? ==> r.error == ValueError
    ensures r.Ok? ==> |positions| == k && Positions(positions, |population|)
    ensures r.Ok? ==> |r.value| == k && forall i :: 0 <= i < k ==> r.value[i] == population[positions[i]]
  {
    if k < 0 || k > |population| {
      return Err(ValueError), [];
    }
    assert Positions(Range(k), |population|);
    positions :| |positions| == k && Positions(positions, |population|);
    assert Positions(positions, |population|);
    var picked := seq(k, i requires 0 <= i < k => population[positions[i]]);
    r := Ok(picked);
  }

  /** `random.choice(s)`: an element of `s`, or IndexError when `s` is
      empty. */
  method Choice<T>(s: seq<T>) returns (r: Result<T>, position: nat)
    ensures r.Err? <==> s == []
    ensures r.Err? ==> r.error == IndexError
    ensures r.Ok? ==> position < |s| && r.value == s[position]
  {
    if s == [] {
      return Err(IndexError), 0;
    }
    position :| position < |s|;
    r := Ok(s[position]);
  }

  /** `random.randint(a, b)`: a number from `a` to `b` inclusive, or
      ValueError when the range is empty. */
  method RandInt(a: int, b: int) returns (r: Result<int>)
    ensures r.Err? <==> a > b
    ensures r.Err? ==> r.error == ValueError
    ensures r.Ok? ==> a <= r.value <= b
  {
    if a > b {
      return Err(ValueError);
    }
    var x :| a <= x <= b;
    r := Ok(x);
  }
}
