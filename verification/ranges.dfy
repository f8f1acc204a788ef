/** Evenly spaced sample points, as np.linspace(start, stop, num) produces
    them with its default `endpoint=True`, computed over exact reals. */
module Ranges {

  /** Every pair of positions is in order. */
  predicate NonDecreasing(s: seq<real>) {
    forall i, j :: 0 <= i <= j < |s| ==> s[i] <= s[j]
  }

  /** The distance between neighbouring points; a single point has no step. */
  function Step(start: real, stop: real, num: nat): real {
    if num <= 1 then 0.0 else (stop - start) / (num - 1) as real
  }

  /** `num` points from `start` to `stop`, both included; one point is `start`. */
  function Linspace(start: real, stop: real, num: nat): (r: seq<real>)
    ensures |r| == num
    ensures num >= 1 ==> r[0] == start
    ensures num >= 2 ==> r[num - 1] == stop
  {
    var step := Step(start, stop, num);
    assert num >= 2 ==> step * (num - 1) as real == stop - start;
    seq(num, i requires 0 <= i < num => start + step * i as real)
  }

  /** Consecutive points are one step apart. */
  lemma LinspaceEvenlySpaced(start: real, stop: real, num: nat)
    ensures forall i :: 0 <= i < num - 1 ==>
      Linspace(start, stop, num)[i + 1] - Linspace(start, stop, num)[i] == Step(start, stop, num)
  {
    var r := Linspace(start, stop, num);
    var step := Step(start, stop, num);
    forall i | 0 <= i < num - 1
      ensures r[i + 1] - r[i] == step
    {
      assert r[i + 1] == start + step * (i + 1) as real;
      assert step * (i + 1) as real == step * i as real + step;
    }
  }

  /** An ascending range yields an ascending axis. */
  lemma LinspaceMonotone(start: real, stop: real, num: nat)
    requires start <= stop
    ensures NonDecreasing(Linspace(start, stop, num))
  {
    var r := Linspace(start, stop, num);
    var step := Step(start, stop, num);
    assert step >= 0.0;
    forall i, j | 0 <= i <= j < num
      ensures r[i] <= r[j]
    {
      assert step * j as real - step * i as real == step * (j - i) as real;
      assert step * (j - i) as real >= 0.0;
    }
  }

  /** An ascending range stays between its endpoints. */
  lemma LinspaceBounds(start: real, stop: real, num: nat)
    requires start <= stop
    ensures forall i :: 0 <= i < num ==>
      start <= Linspace(start, stop, num)[i] <= stop
  {
    var r := Linspace(start, stop, num);
    LinspaceMonotone(start, stop, num);
    forall i | 0 <= i < num
      ensures start <= r[i] <= stop
    {
      assert r[0] <= r[i] <= r[num - 1];
      assert num == 1 ==> r[num - 1] == start;
    }
  }

  /** Two ordered sequences whose seam is in order concatenate to an ordered one. */
  lemma ConcatNonDecreasing(s: seq<real>, t: seq<real>)
    requires NonDecreasing(s) && NonDecreasing(t)
    requires |s| > 0 && |t| > 0 ==> s[|s| - 1] <= t[0]
    ensures NonDecreasing(s + t)
  {
    var u := s + t;
    forall i, j | 0 <= i <= j < |u|
      ensures u[i] <= u[j]
    {
      if i < |s| && j >= |s| {
        assert u[i] == s[i] <= s[|s| - 1];
        assert t[0] <= t[j - |s|] == u[j];
      }
    }
  }
}
