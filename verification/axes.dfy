/** The two sample axes of the table: `l` is always uniform; `p` is uniform or,
    in adaptive mode, refined around the Schwarzschild radius R_sch = 2m. */
module Axes {
  import opened Ranges

  /** The offset that keeps neighbouring sub-ranges of the adaptive axis apart. */
  const Gap: real := 0.01

  function SchwarzschildRadius(m: real): real {
    2.0 * m
  }

  /** The boundary between the fine middle part and the coarse outer part: 5·R_sch. */
  function SplitRadius(m: real): real {
    5.0 * SchwarzschildRadius(m)
  }

  /** Sample counts of the three adaptive sub-ranges; Python's int(num/10) is
      integer division for the non-negative `num` that reaches this point. */
  function InnerCount(num: nat): nat {
    num / 10
  }

  /** The `l` axis: `num` points over [lStart, lEnd]. */
  function LAxis(lStart: real, lEnd: real, num: nat): (r: seq<real>)
    ensures |r| == num
  {
    Linspace(lStart, lEnd, num)
  }

  /** The `p` axis, uniform or the three adaptive sub-ranges in order. */
  function PAxis(pStart: real, pEnd: real, num: nat, adaptGrid: bool, m: real): (r: seq<real>)
    ensures |r| == if adaptGrid then InnerCount(num) + num + num else num
  {
    if adaptGrid then
      var rSch := SchwarzschildRadius(m);
      var pSplit := SplitRadius(m);
      Linspace(pStart, rSch, InnerCount(num))
        + Linspace(rSch + Gap, pSplit, num)
        + Linspace(pSplit + Gap, pEnd, num)
    else
      Linspace(pStart, pEnd, num)
  }

  /** Without adaptation both axes have `num` points and span the requested ranges. */
  lemma UniformAxes(pStart: real, pEnd: real, lStart: real, lEnd: real, num: nat, m: real)
    ensures |PAxis(pStart, pEnd, num, false, m)| == num == |LAxis(lStart, lEnd, num)|
    ensures num >= 1 ==> PAxis(pStart, pEnd, num, false, m)[0] == pStart
    ensures num >= 2 ==> PAxis(pStart, pEnd, num, false, m)[num - 1] == pEnd
    ensures num >= 1 ==> LAxis(lStart, lEnd, num)[0] == lStart
    ensures num >= 2 ==> LAxis(lStart, lEnd, num)[num - 1] == lEnd
  {
  }

  /** In adaptive mode the axis is the inner part (num/10 points ending at
      R_sch), then the middle part (num points from R_sch + 0.01 to 5·R_sch),
      then the outer part (num points from 5·R_sch + 0.01 to pEnd). */
  lemma AdaptiveAxisLayout(pStart: real, pEnd: real, num: nat, m: real)
    ensures var r := PAxis(pStart, pEnd, num, true, m);
      var k := InnerCount(num);
      && |r| == k + 2 * num
      && r[..k] == Linspace(pStart, 2.0 * m, k)
      && r[k..k + num] == Linspace(2.0 * m + 0.01, 10.0 * m, num)
      && r[k + num..] == Linspace(10.0 * m + 0.01, pEnd, num)
      && (num < 10 ==> k == 0)
      && (k >= 1 ==> r[0] == pStart)
      && (k >= 2 ==> r[k - 1] == 2.0 * m)
      && (num >= 1 ==> r[k] == 2.0 * m + 0.01 && r[k + num] == 10.0 * m + 0.01)
      && (num >= 2 ==> r[k + num - 1] == 10.0 * m && r[k + 2 * num - 1] == pEnd)
  {
    var r := PAxis(pStart, pEnd, num, true, m);
    var k := InnerCount(num);
    var rSch, pSplit := SchwarzschildRadius(m), SplitRadius(m);
    assert rSch == 2.0 * m && rSch + Gap == 2.0 * m + 0.01;
    assert pSplit == 10.0 * m && pSplit + Gap == 10.0 * m + 0.01;
    var part1 := Linspace(pStart, rSch, k);
    var part2 := Linspace(rSch + Gap, pSplit, num);
    var part3 := Linspace(pSplit + Gap, pEnd, num);
    assert r == part1 + part2 + part3;
    assert r[..k] == part1;
    assert r[k..k + num] == part2;
    assert r[k + num..] == part3;
  }

  /** The adaptive axis is ordered end to end, across both seams, whenever the
      requested range starts no later than R_sch, the middle part is not
      reversed and pEnd lies beyond the outer part's first point. */
  lemma AdaptiveAxisNonDecreasing(pStart: real, pEnd: real, num: nat, m: real)
    requires pStart <= 2.0 * m
    requires 2.0 * m + 0.01 <= 10.0 * m
    requires 10.0 * m + 0.01 <= pEnd
    ensures NonDecreasing(PAxis(pStart, pEnd, num, true, m))
  {
    var k := InnerCount(num);
    var rSch, pSplit := SchwarzschildRadius(m), SplitRadius(m);
    var part1 := Linspace(pStart, rSch, k);
    var part2 := Linspace(rSch + Gap, pSplit, num);
    var part3 := Linspace(pSplit + Gap, pEnd, num);
    LinspaceMonotone(pStart, rSch, k);
    LinspaceMonotone(rSch + Gap, pSplit, num);
    LinspaceMonotone(pSplit + Gap, pEnd, num);
    if k > 0 {
      LinspaceLastAtMost(pStart, rSch, k);
    }
    if num > 0 {
      LinspaceLastAtMost(rSch + Gap, pSplit, num);
    }
    ThreePartsNonDecreasing(part1, part2, part3);
    assert PAxis(pStart, pEnd, num, true, m) == part1 + part2 + part3;
  }

  /** The first range condition cannot be dropped: once the inner part has
      two points, a start beyond R_sch puts its first point above its last. */
  lemma AdaptiveAxisOutOfOrder(pStart: real, pEnd: real, num: nat, m: real)
    requires num >= 20 && pStart > 2.0 * m
    ensures !NonDecreasing(PAxis(pStart, pEnd, num, true, m))
  {
    var r := PAxis(pStart, pEnd, num, true, m);
    var k := InnerCount(num);
    AdaptiveAxisLayout(pStart, pEnd, num, m);
    assert r[0] == pStart && r[k - 1] == 2.0 * m;
  }

  /** Three ordered parts, the last two equally long, whose seams are in order
      concatenate to an ordered sequence. */
  lemma ThreePartsNonDecreasing(part1: seq<real>, part2: seq<real>, part3: seq<real>)
    requires NonDecreasing(part1) && NonDecreasing(part2) && NonDecreasing(part3)
    requires |part2| == |part3|
    requires |part1| > 0 && |part2| > 0 ==> part1[|part1| - 1] <= part2[0]
    requires |part2| > 0 ==> part2[|part2| - 1] <= part3[0]
    ensures NonDecreasing(part1 + part2 + part3)
  {
    ConcatNonDecreasing(part2, part3);
    ConcatNonDecreasing(part1, part2 + part3);
    assert part1 + (part2 + part3) == part1 + part2 + part3;
  }

  /** The last point of an ascending range does not pass its stop. */
  lemma LinspaceLastAtMost(start: real, stop: real, num: nat)
    requires start <= stop && num > 0
    ensures Linspace(start, stop, num)[num - 1] <= stop
  {
    LinspaceBounds(start, stop, num);
  }

  /** The uniform axis is ordered whenever its range is. */
  lemma UniformAxisNonDecreasing(pStart: real, pEnd: real, num: nat, m: real)
    requires pStart <= pEnd
    ensures NonDecreasing(PAxis(pStart, pEnd, num, false, m))
  {
    LinspaceMonotone(pStart, pEnd, num);
  }
}
