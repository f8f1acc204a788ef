/** curve_props: the signed deflection angle and the impact decomposition of
    one integrated ray. */
module Deflection {
  import opened Geometry
  import opened Outcomes
  import opened External

  /** Python's indexing of a sequence of length `n`: a negative index counts
      from the end, and anything outside `-n .. n-1` raises IndexError. */
  function PyIndex(n: nat, i: int): (r: Option<nat>)
    ensures r.Some? <==> 0 <= n + i && i < n
    ensures r.Some? ==> r.value < n && (r.value == i || r.value == n + i)
  {
    if 0 <= i < n then Some(i)
    else if 0 <= n + i && i < 0 then Some(n + i)
    else None
  }

  /** Index -1 is the last element and every valid negative index names the
      same element as its non-negative counterpart. */
  lemma PyIndexNegative(n: nat, i: nat)
    requires i < n
    ensures PyIndex(n, i - n) == PyIndex(n, i) == Some(i)
    ensures i == n - 1 ==> PyIndex(n, -1) == Some(i)
  {
  }

  /** The sign rule: the unsigned angle is negated when the end direction has
      a non-negative component along the impact unit vector `p_`. */
  function SignedAngle(unsigned: real, endDir: Vec3, pDir: Vec3): real {
    if Dot(endDir, pDir) >= 0.0 then -unsigned else unsigned
  }

  /** The sign rule keeps the magnitude, and for a positive angle the result is
      negative exactly when the end direction leans towards `p_`. */
  lemma SignedAngleCharacterised(unsigned: real, endDir: Vec3, pDir: Vec3, d: real)
    requires unsigned > 0.0
    ensures d == SignedAngle(unsigned, endDir, pDir)
            <==> Abs(d) == unsigned && (d < 0.0 <==> Dot(endDir, pDir) >= 0.0)
  {
  }

  /** Two rays with the same unsigned angle whose end directions fall strictly
      on opposite sides of their impact vectors get opposite deflections. */
  lemma OppositeSidesOppositeSigns(unsigned: real, end1: Vec3, pDir1: Vec3, end2: Vec3, pDir2: Vec3)
    requires Dot(end1, pDir1) > 0.0 && Dot(end2, pDir2) < 0.0
    ensures SignedAngle(unsigned, end1, pDir1) == -SignedAngle(unsigned, end2, pDir2)
    ensures Abs(SignedAngle(unsigned, end1, pDir1)) == Abs(SignedAngle(unsigned, end2, pDir2))
  {
  }

  /** What curve_props returns: the signed deflection and (p, l, p_, l_). */
  datatype Props = Props(deflection: real, impact: Impact)

  /** The indexing at the start of curve_props succeeds: `x[0]`, `k[0]` and
      `k[last_index]` all exist. */
  predicate Indexable(momenta: seq<Vec3>, positions: seq<Vec3>, lastIndex: int) {
    |positions| > 0 && |momenta| > 0 && 0 <= |momenta| + lastIndex && lastIndex < |momenta|
  }

  /** curve_props(k, x, last_index): the ray's origin is the first position,
      its start direction the first momentum and its end direction the momentum
      at `lastIndex`; the deflection is the external angle between the two
      directions with the sign rule applied, and the impact decomposition is
      taken from (origin, start direction). The indexing, the angle and the
      impact vector are computed in that order, and each may fail. */
  function CurveProps(momenta: seq<Vec3>, positions: seq<Vec3>, lastIndex: int,
                      angle: (Vec3, Vec3) -> Result<real, string>,
                      impact: (Vec3, Vec3) -> Result<Impact, string>): (r: Result<Props, Error>)
    ensures !Indexable(momenta, positions, lastIndex) ==> r.Failure? && r.error.IndexOutOfRange?
    ensures Indexable(momenta, positions, lastIndex) ==>
      var e := PyIndex(|momenta|, lastIndex).value;
      var dTh := angle(momenta[0], momenta[e]);
      var imp := impact(positions[0], momenta[0]);
      && (r.Success? <==> dTh.Success? && imp.Success?)
      && (dTh.Failure? ==> r == Failure(AngleFailed(dTh.error)))
      && (dTh.Success? && imp.Failure? ==> r == Failure(ImpactFailed(imp.error)))
      && (r.Success? ==>
            && r.value.impact == imp.value
            && Abs(r.value.deflection) == Abs(dTh.value)
            && (Dot(momenta[e], imp.value.pDir) < 0.0 ==> r.value.deflection == dTh.value)
            && (Dot(momenta[e], imp.value.pDir) >= 0.0 ==> r.value.deflection == -dTh.value))
  {
    if |positions| == 0 then Failure(IndexOutOfRange(0, 0))
    else if |momenta| == 0 then Failure(IndexOutOfRange(0, 0))
    else match PyIndex(|momenta|, lastIndex)
      case None => Failure(IndexOutOfRange(lastIndex, |momenta|))
      case Some(e) =>
        var origin, startDir, endDir := positions[0], momenta[0], momenta[e];
        match angle(startDir, endDir)
        case Failure(reason) => Failure(AngleFailed(reason))
        case Success(dTh) =>
          match impact(origin, startDir)
          case Failure(reason) => Failure(ImpactFailed(reason))
          case Success(imp) => Success(Props(SignedAngle(dTh, endDir, imp.pDir), imp))
  }

  /** With the default `last_index = -1` the end direction is the final momentum. */
  lemma DefaultLastIndexIsFinal(momenta: seq<Vec3>, positions: seq<Vec3>,
                                angle: (Vec3, Vec3) -> Result<real, string>,
                                impact: (Vec3, Vec3) -> Result<Impact, string>)
    requires |momenta| > 0
    ensures CurveProps(momenta, positions, -1, angle, impact)
            == CurveProps(momenta, positions, |momenta| - 1, angle, impact)
  {
    PyIndexNegative(|momenta|, |momenta| - 1);
  }

  /** For a non-empty trajectory and the default `last_index`, curve_props
      succeeds exactly when the angle and the impact vector do, and when the
      external angle is unsigned the magnitude of the deflection is exactly that
      angle between the first and the final momentum. */
  lemma DeflectionMagnitude(momenta: seq<Vec3>, positions: seq<Vec3>,
                            angle: (Vec3, Vec3) -> Result<real, string>,
                            impact: (Vec3, Vec3) -> Result<Impact, string>)
    requires UnsignedAngle(angle)
    requires |momenta| > 0 && |positions| > 0
    ensures var r := CurveProps(momenta, positions, -1, angle, impact);
      var dTh := angle(momenta[0], momenta[|momenta| - 1]);
      && (r.Success? <==> dTh.Success? && impact(positions[0], momenta[0]).Success?)
      && (r.Success? ==> Abs(r.value.deflection) == dTh.value)
  {
    PyIndexNegative(|momenta|, |momenta| - 1);
    var dTh := angle(momenta[0], momenta[|momenta| - 1]);
    if dTh.Success? {
      assert 0.0 <= dTh.value;
    }
  }
}
