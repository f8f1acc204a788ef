/** The nested sweep of generate_data_file: for every (p, l) pair, outer loop
    over the `p` axis and inner loop over the `l` axis, build a ray, either skip
    it (it starts inside the boundary) or integrate it, and record a hit flag
    and a deflection angle in two grids of shape (|p axis|, |l axis|). */
module Sweep {
  import opened Geometry
  import opened Outcomes
  import opened External
  import opened Deflection

  type Grid = seq<seq<real>>

  /** A cell position: (index on the p axis, index on the l axis). */
  type Cell = (nat, nat)

  /** `g` has `rows` rows of `cols` entries each. */
  predicate Shape(g: Grid, rows: nat, cols: nat) {
    |g| == rows && forall a :: 0 <= a < rows ==> |g[a]| == cols
  }

  /** np.zeros((rows, cols)). */
  function Zeros(rows: nat, cols: nat): (g: Grid)
    ensures Shape(g, rows, cols)
    ensures forall a, b :: 0 <= a < rows && 0 <= b < cols ==> g[a][b] == 0.0
  {
    seq(rows, _ => seq(cols, _ => 0.0))
  }

  /** `g[i, j] = v`: one cell changes, the shape and every other cell stay. */
  function Write(g: Grid, i: nat, j: nat, v: real): (r: Grid)
    requires i < |g| && j < |g[i]|
    ensures |r| == |g| && forall a :: 0 <= a < |g| ==> |r[a]| == |g[a]|
    ensures r[i][j] == v
    ensures forall a :: 0 <= a < |g| && a != i ==> r[a] == g[a]
    ensures forall a, b :: 0 <= a < |g| && 0 <= b < |g[a]| && (a != i || b != j) ==> r[a][b] == g[a][b]
  {
    g[i := g[i][j := v]]
  }

  /** The ray of cell (p, l): it starts at (-l, p, 0). */
  function Origin(p: real, l: real): Vec3 {
    Vec3(-l, p, 0.0)
  }

  /** Every ray starts travelling along -x. */
  const Heading: Vec3 := Vec3(-1.0, 0.0, 0.0)

  /** The boundary test `norm(origin) > 2m + 0.1`, over squared norms: a
      negative bound is exceeded by every norm. */
  predicate StartsOutside(origin: Vec3, m: real) {
    var bound := 2.0 * m + 0.1;
    bound < 0.0 || NormSq(origin) > bound * bound
  }

  /** The squared-norm test agrees with comparing the norm itself. */
  lemma StartsOutsideIsNormTest(origin: Vec3, m: real, norm: real)
    requires norm >= 0.0 && norm * norm == NormSq(origin)
    ensures StartsOutside(origin, m) <==> norm > 2.0 * m + 0.1
  {
    var bound := 2.0 * m + 0.1;
    if bound >= 0.0 {
      if norm > bound {
        SquareMonotone(bound, norm);
      } else if norm < bound {
        SquareMonotone(norm, bound);
      }
    }
  }

  /** Squaring is strictly increasing on the non-negative reals. */
  lemma SquareMonotone(a: real, b: real)
    requires 0.0 <= a < b
    ensures a * a < b * b
  {
    var d := b - a;
    assert b * b == a * a + 2.0 * a * d + d * d;
    assert a * d >= 0.0;
    assert d * d > 0.0;
  }

  /** How the integrator's hit_blackhole flag is stored in the float grid. */
  function HitFlag(hitBlackhole: bool): real {
    if hitBlackhole then 1.0 else 0.0
  }

  /** The hit value of a cell whose ray was never integrated. */
  const StartInside: real := -1.0

  /** The integrator call made for the ray starting at `origin`. */
  function CallFor(setup: IntegratorSetup, origin: Vec3): IntegratorCall {
    IntegratorCall(setup, Heading, origin)
  }

  /** The values one cell receives. */
  datatype Sample = Sample(hit: real, th: real)

  /** The per-cell rule: a ray starting inside the boundary gets (-1, 0) and
      is not integrated; any other ray gets the integrator's hit flag and the
      deflection curve_props computes from its trajectory. */
  function SampleAt(setup: IntegratorSetup, o: Oracles, p: real, l: real): (r: Result<Sample, Error>)
    ensures !StartsOutside(Origin(p, l), setup.mass) ==> r == Success(Sample(StartInside, 0.0))
    ensures r.Success? ==> (r.value.hit == StartInside <==> !StartsOutside(Origin(p, l), setup.mass))
    ensures StartsOutside(Origin(p, l), setup.mass) ==>
      var traced := o.geodesic(CallFor(setup, Origin(p, l)));
      && (traced.Failure? ==> r == Failure(IntegrationFailed(traced.error)))
      && (traced.Success? ==>
            var props := CurveProps(traced.value.momenta, traced.value.positions, -1, o.angle, o.impact);
            && (props.Failure? ==> r == Failure(props.error))
            && (props.Success? ==> r == Success(Sample(HitFlag(traced.value.hitBlackhole), props.value.deflection))))
  {
    var origin := Origin(p, l);
    if !StartsOutside(origin, setup.mass) then Success(Sample(StartInside, 0.0))
    else match o.geodesic(CallFor(setup, origin))
      case Failure(reason) => Failure(IntegrationFailed(reason))
      case Success(t) =>
        match CurveProps(t.momenta, t.positions, -1, o.angle, o.impact)
        case Failure(e) => Failure(e)
        case Success(props) => Success(Sample(HitFlag(t.hitBlackhole), props.deflection))
  }

  /** Cell (a, b) comes before cell (i, j) in the outer-p, inner-l order. */
  predicate Before(a: nat, b: nat, i: nat, j: nat) {
    a < i || (a == i && b < j)
  }

  /** The cells (i, 0), ..., (i, n - 1) of one row, in order. */
  function RowCells(i: nat, n: nat): seq<Cell> {
    if n == 0 then [] else RowCells(i, n - 1) + [(i, n - 1)]
  }

  /** The first `rows` rows of a grid with `cols` columns, row after row. */
  function RowMajor(rows: nat, cols: nat): seq<Cell> {
    if rows == 0 then [] else RowMajor(rows - 1, cols) + RowCells(rows - 1, cols)
  }

  /** Every cell of `cells` lies in a grid of `rows` by `cols`. */
  predicate AllInGrid(cells: seq<Cell>, rows: nat, cols: nat) {
    forall k :: 0 <= k < |cells| ==> cells[k].0 < rows && cells[k].1 < cols
  }

  /** The elements of a concatenation are those of its two parts. */
  lemma InAppend<T>(x: T, s: seq<T>, t: seq<T>)
    ensures x in s + t <==> x in s || x in t
  {
  }

  /** The integrator calls made along the first `n` cells of the row at `p`:
      one per ray that starts outside the boundary, none for the others. */
  function RowCalls(setup: IntegratorSetup, p: real, lAxis: seq<real>, n: nat): seq<IntegratorCall>
    requires n <= |lAxis|
  {
    if n == 0 then []
    else
      var origin := Origin(p, lAxis[n - 1]);
      RowCalls(setup, p, lAxis, n - 1)
        + (if StartsOutside(origin, setup.mass) then [CallFor(setup, origin)] else [])
  }

  /** The integrator calls made along the first `rows` rows, row after row. */
  function GridCalls(setup: IntegratorSetup, pAxis: seq<real>, lAxis: seq<real>, rows: nat): seq<IntegratorCall>
    requires rows <= |pAxis|
  {
    if rows == 0 then []
    else GridCalls(setup, pAxis, lAxis, rows - 1) + RowCalls(setup, pAxis[rows - 1], lAxis, |lAxis|)
  }

  /** A call made along the first `n` cells of a row starts outside the
      boundary, with heading -x and the integrator's setup. */
  lemma {:induction false} RowCallIsOutside(setup: IntegratorSetup, p: real, lAxis: seq<real>, n: nat, call: IntegratorCall)
    requires n <= |lAxis|
    requires call in RowCalls(setup, p, lAxis, n)
    ensures StartsOutside(call.x0, setup.mass) && call.k0 == Heading && call.setup == setup
  {
    var origin := Origin(p, lAxis[n - 1]);
    var front, last := RowCalls(setup, p, lAxis, n - 1), if StartsOutside(origin, setup.mass) then [CallFor(setup, origin)] else [];
    assert RowCalls(setup, p, lAxis, n) == front + last;
    if call in front {
      RowCallIsOutside(setup, p, lAxis, n - 1, call);
    }
  }

  /** A row makes at most one call per cell. */
  lemma {:induction false} RowCallsLength(setup: IntegratorSetup, p: real, lAxis: seq<real>, n: nat)
    requires n <= |lAxis|
    ensures |RowCalls(setup, p, lAxis, n)| <= n
  {
    if n > 0 {
      RowCallsLength(setup, p, lAxis, n - 1);
    }
  }

  /** Along a row, only rays starting outside the boundary are integrated,
      each with heading -x and the integrator's own setup. */
  lemma RowCallsSound(setup: IntegratorSetup, p: real, lAxis: seq<real>, n: nat)
    requires n <= |lAxis|
    ensures forall call :: call in RowCalls(setup, p, lAxis, n) ==>
      StartsOutside(call.x0, setup.mass) && call.k0 == Heading && call.setup == setup
  {
    forall call | call in RowCalls(setup, p, lAxis, n)
      ensures StartsOutside(call.x0, setup.mass) && call.k0 == Heading && call.setup == setup
    {
      RowCallIsOutside(setup, p, lAxis, n, call);
    }
  }

  /** The ray of cell b of a row, when it starts outside the boundary, is
      integrated by the time the row has reached its n-th cell, for b < n. */
  lemma {:induction false} RowCellCalled(setup: IntegratorSetup, p: real, lAxis: seq<real>, n: nat, b: nat)
    requires b < n <= |lAxis|
    requires StartsOutside(Origin(p, lAxis[b]), setup.mass)
    ensures CallFor(setup, Origin(p, lAxis[b])) in RowCalls(setup, p, lAxis, n)
  {
    var origin := Origin(p, lAxis[n - 1]);
    var front, last := RowCalls(setup, p, lAxis, n - 1), if StartsOutside(origin, setup.mass) then [CallFor(setup, origin)] else [];
    assert RowCalls(setup, p, lAxis, n) == front + last;
    if b < n - 1 {
      RowCellCalled(setup, p, lAxis, n - 1, b);
      assert CallFor(setup, Origin(p, lAxis[b])) in front;
    } else {
      assert CallFor(setup, Origin(p, lAxis[b])) in last;
    }
  }

  /** Along a row, every ray that starts outside the boundary is integrated. */
  lemma RowCallsComplete(setup: IntegratorSetup, p: real, lAxis: seq<real>, n: nat)
    requires n <= |lAxis|
    ensures forall b :: 0 <= b < n && StartsOutside(Origin(p, lAxis[b]), setup.mass) ==>
      CallFor(setup, Origin(p, lAxis[b])) in RowCalls(setup, p, lAxis, n)
  {
    forall b | 0 <= b < n && StartsOutside(Origin(p, lAxis[b]), setup.mass)
      ensures CallFor(setup, Origin(p, lAxis[b])) in RowCalls(setup, p, lAxis, n)
    {
      RowCellCalled(setup, p, lAxis, n, b);
    }
  }

  /** `call` is one of the calls made along row a. */
  ghost predicate CalledInRow(setup: IntegratorSetup, pAxis: seq<real>, lAxis: seq<real>, a: nat, call: IntegratorCall)
    requires a < |pAxis|
  {
    call in RowCalls(setup, pAxis[a], lAxis, |lAxis|)
  }

  /** Every call of the first `rows` rows was made along one of those rows. */
  lemma {:induction false} GridCallRow(setup: IntegratorSetup, pAxis: seq<real>, lAxis: seq<real>, rows: nat, call: IntegratorCall)
    requires rows <= |pAxis|
    requires call in GridCalls(setup, pAxis, lAxis, rows)
    ensures exists a :: 0 <= a < rows && CalledInRow(setup, pAxis, lAxis, a, call)
  {
    var front, row := GridCalls(setup, pAxis, lAxis, rows - 1), RowCalls(setup, pAxis[rows - 1], lAxis, |lAxis|);
    InAppend(call, front, row);
    if call in front {
      GridCallRow(setup, pAxis, lAxis, rows - 1, call);
    } else {
      assert CalledInRow(setup, pAxis, lAxis, rows - 1, call);
    }
  }

  /** A call made somewhere in the first `rows` rows starts outside the
      boundary, with heading -x and the integrator's setup. */
  lemma CalledCellIsOutside(setup: IntegratorSetup, pAxis: seq<real>, lAxis: seq<real>, rows: nat, call: IntegratorCall)
    requires rows <= |pAxis|
    requires call in GridCalls(setup, pAxis, lAxis, rows)
    ensures StartsOutside(call.x0, setup.mass) && call.k0 == Heading && call.setup == setup
  {
    GridCallRow(setup, pAxis, lAxis, rows, call);
    var a :| 0 <= a < rows && CalledInRow(setup, pAxis, lAxis, a, call);
    RowCallIsOutside(setup, pAxis[a], lAxis, |lAxis|, call);
  }

  /** Over the whole sweep no ray starting inside the boundary is integrated:
      every call starts outside it, with heading -x and the integrator's setup. */
  lemma GridCallsSound(setup: IntegratorSetup, pAxis: seq<real>, lAxis: seq<real>, rows: nat)
    requires rows <= |pAxis|
    ensures forall call :: call in GridCalls(setup, pAxis, lAxis, rows) ==>
      StartsOutside(call.x0, setup.mass) && call.k0 == Heading && call.setup == setup
  {
    forall call | call in GridCalls(setup, pAxis, lAxis, rows)
      ensures StartsOutside(call.x0, setup.mass) && call.k0 == Heading && call.setup == setup
    {
      CalledCellIsOutside(setup, pAxis, lAxis, rows, call);
    }
  }

  /** A call made along row a is among the calls of any `rows` rows past a. */
  lemma {:induction false} RowInGrid(setup: IntegratorSetup, pAxis: seq<real>, lAxis: seq<real>, rows: nat, a: nat, call: IntegratorCall)
    requires a < rows <= |pAxis|
    requires CalledInRow(setup, pAxis, lAxis, a, call)
    ensures call in GridCalls(setup, pAxis, lAxis, rows)
  {
    var front, row := GridCalls(setup, pAxis, lAxis, rows - 1), RowCalls(setup, pAxis[rows - 1], lAxis, |lAxis|);
    if a < rows - 1 {
      RowInGrid(setup, pAxis, lAxis, rows - 1, a, call);
    }
    InAppend(call, front, row);
  }

  /** The ray of cell (a, b), when it starts outside the boundary, is
      integrated by the time the sweep has finished `rows` rows past row a. */
  lemma CellCalled(setup: IntegratorSetup, pAxis: seq<real>, lAxis: seq<real>, rows: nat, a: nat, b: nat)
    requires a < rows <= |pAxis| && b < |lAxis|
    requires StartsOutside(Origin(pAxis[a], lAxis[b]), setup.mass)
    ensures CallFor(setup, Origin(pAxis[a], lAxis[b])) in GridCalls(setup, pAxis, lAxis, rows)
  {
    RowCellCalled(setup, pAxis[a], lAxis, |lAxis|, b);
    RowInGrid(setup, pAxis, lAxis, rows, a, CallFor(setup, Origin(pAxis[a], lAxis[b])));
  }

  /** Over the whole sweep every ray that starts outside the boundary is integrated. */
  lemma GridCallsComplete(setup: IntegratorSetup, pAxis: seq<real>, lAxis: seq<real>, rows: nat)
    requires rows <= |pAxis|
    ensures forall a, b :: 0 <= a < rows && 0 <= b < |lAxis| && StartsOutside(Origin(pAxis[a], lAxis[b]), setup.mass) ==>
      CallFor(setup, Origin(pAxis[a], lAxis[b])) in GridCalls(setup, pAxis, lAxis, rows)
  {
    forall a, b | 0 <= a < rows && 0 <= b < |lAxis| && StartsOutside(Origin(pAxis[a], lAxis[b]), setup.mass)
      ensures CallFor(setup, Origin(pAxis[a], lAxis[b])) in GridCalls(setup, pAxis, lAxis, rows)
    {
      CellCalled(setup, pAxis, lAxis, rows, a, b);
    }
  }

  /** The sweep makes at most one integrator call per cell. */
  lemma {:induction false} GridCallsCount(setup: IntegratorSetup, pAxis: seq<real>, lAxis: seq<real>, rows: nat)
    requires rows <= |pAxis|
    ensures |GridCalls(setup, pAxis, lAxis, rows)| <= rows * |lAxis|
  {
    if rows > 0 {
      GridCallsCount(setup, pAxis, lAxis, rows - 1);
      RowCallsLength(setup, pAxis[rows - 1], lAxis, |lAxis|);
      assert rows * |lAxis| == (rows - 1) * |lAxis| + |lAxis|;
    }
  }

  /** The cells visited up to and including cell (i, j) of a grid with `cols` columns. */
  function CellsUpTo(i: nat, j: nat, cols: nat): seq<Cell> {
    RowMajor(i, cols) + RowCells(i, j + 1)
  }

  /** The integrator calls made up to and including cell (i, j). */
  function CallsUpTo(setup: IntegratorSetup, pAxis: seq<real>, lAxis: seq<real>, i: nat, j: nat): seq<IntegratorCall>
    requires i < |pAxis| && j < |lAxis|
  {
    GridCalls(setup, pAxis, lAxis, i) + RowCalls(setup, pAxis[i], lAxis, j + 1)
  }

  /** Being a prefix is transitive. */
  lemma PrefixTrans<T>(a: seq<T>, b: seq<T>, c: seq<T>)
    requires a <= b && b <= c
    ensures a <= c
  {
    assert a == c[..|a|];
  }

  /** A common front keeps a prefix a prefix. */
  lemma PrefixAppend<T>(s: seq<T>, t: seq<T>, u: seq<T>)
    requires t <= u
    ensures s + t <= s + u
  {
    assert s + t == (s + u)[..|s + t|];
  }

  /** A row's calls so far are a prefix of its calls further along. */
  lemma {:induction false} RowCallsPrefix(setup: IntegratorSetup, p: real, lAxis: seq<real>, n: nat, m: nat)
    requires n <= m <= |lAxis|
    ensures RowCalls(setup, p, lAxis, n) <= RowCalls(setup, p, lAxis, m)
  {
    if n < m {
      RowCallsPrefix(setup, p, lAxis, n, m - 1);
      PrefixTrans(RowCalls(setup, p, lAxis, n), RowCalls(setup, p, lAxis, m - 1), RowCalls(setup, p, lAxis, m));
    }
  }

  /** The calls of the first rows are a prefix of those of more rows. */
  lemma {:induction false} GridCallsPrefix(setup: IntegratorSetup, pAxis: seq<real>, lAxis: seq<real>, i: nat, rows: nat)
    requires i <= rows <= |pAxis|
    ensures GridCalls(setup, pAxis, lAxis, i) <= GridCalls(setup, pAxis, lAxis, rows)
  {
    if i < rows {
      GridCallsPrefix(setup, pAxis, lAxis, i, rows - 1);
      PrefixTrans(GridCalls(setup, pAxis, lAxis, i), GridCalls(setup, pAxis, lAxis, rows - 1), GridCalls(setup, pAxis, lAxis, rows));
    }
  }

  /** A sweep stopped at cell (i, j) has made the calls a complete sweep
      makes, up to that cell: a prefix of them. */
  lemma CallsUpToPrefix(setup: IntegratorSetup, pAxis: seq<real>, lAxis: seq<real>, i: nat, j: nat)
    requires i < |pAxis| && j < |lAxis|
    ensures CallsUpTo(setup, pAxis, lAxis, i, j) <= GridCalls(setup, pAxis, lAxis, |pAxis|)
  {
    var front, row := GridCalls(setup, pAxis, lAxis, i), RowCalls(setup, pAxis[i], lAxis, |lAxis|);
    RowCallsPrefix(setup, pAxis[i], lAxis, j + 1, |lAxis|);
    PrefixAppend(front, RowCalls(setup, pAxis[i], lAxis, j + 1), row);
    GridCallsPrefix(setup, pAxis, lAxis, i + 1, |pAxis|);
    PrefixTrans(CallsUpTo(setup, pAxis, lAxis, i, j), front + row, GridCalls(setup, pAxis, lAxis, |pAxis|));
  }

  /** A row's cells so far are a prefix of its cells further along. */
  lemma {:induction false} RowCellsPrefix(i: nat, n: nat, m: nat)
    requires n <= m
    ensures RowCells(i, n) <= RowCells(i, m)
  {
    if n < m {
      RowCellsPrefix(i, n, m - 1);
      PrefixTrans(RowCells(i, n), RowCells(i, m - 1), RowCells(i, m));
    }
  }

  /** The visits of the first rows are a prefix of those of more rows. */
  lemma {:induction false} RowMajorPrefix(i: nat, rows: nat, cols: nat)
    requires i <= rows
    ensures RowMajor(i, cols) <= RowMajor(rows, cols)
  {
    if i < rows {
      RowMajorPrefix(i, rows - 1, cols);
      PrefixTrans(RowMajor(i, cols), RowMajor(rows - 1, cols), RowMajor(rows, cols));
    }
  }

  /** A sweep stopped at cell (i, j) has visited the cells a complete sweep
      visits, in the same order, up to and including (i, j), which is its
      last visit and the (i * cols + j + 1)-th one. */
  lemma CellsUpToPrefix(i: nat, j: nat, rows: nat, cols: nat)
    requires i < rows && j < cols
    ensures CellsUpTo(i, j, cols) <= RowMajor(rows, cols)
    ensures |CellsUpTo(i, j, cols)| == i * cols + j + 1
    ensures CellsUpTo(i, j, cols)[i * cols + j] == (i, j)
  {
    RowCellsPrefix(i, j + 1, cols);
    PrefixAppend(RowMajor(i, cols), RowCells(i, j + 1), RowCells(i, cols));
    RowMajorPrefix(i + 1, rows, cols);
    PrefixTrans(CellsUpTo(i, j, cols), RowMajor(i + 1, cols), RowMajor(rows, cols));
    RowMajorShape(i, cols);
    RowCellsIndex(i, j + 1);
  }

  /** Every cell of the grid yields a sample. */
  ghost predicate AllSucceed(setup: IntegratorSetup, o: Oracles, pAxis: seq<real>, lAxis: seq<real>) {
    RowsSucceed(setup, o, pAxis, lAxis, |pAxis|)
  }

  /** Every cell of rows `0 .. n-1` yields a sample. */
  ghost predicate RowsSucceed(setup: IntegratorSetup, o: Oracles, pAxis: seq<real>, lAxis: seq<real>, n: nat)
    requires n <= |pAxis|
  {
    forall a, b :: 0 <= a < n && 0 <= b < |lAxis| ==> SampleAt(setup, o, pAxis[a], lAxis[b]).Success?
  }

  /** Cell (i, j) fails with `e` and every cell before it in sweep order
      yields a sample, so (i, j) is where the sweep stops. */
  ghost predicate FailsFirstAt(setup: IntegratorSetup, o: Oracles, pAxis: seq<real>, lAxis: seq<real>, i: nat, j: nat, e: Error)
    requires i < |pAxis| && j < |lAxis|
  {
    && SampleAt(setup, o, pAxis[i], lAxis[j]) == Failure(e)
    && forall a, b :: 0 <= a < |pAxis| && 0 <= b < |lAxis| && Before(a, b, i, j)
         ==> SampleAt(setup, o, pAxis[a], lAxis[b]).Success?
  }

  /** Both grids have the axes' shape and every cell holds its sample. */
  ghost predicate GridsHoldSamples(setup: IntegratorSetup, o: Oracles, pAxis: seq<real>, lAxis: seq<real>, hit: Grid, th: Grid) {
    && Shape(hit, |pAxis|, |lAxis|)
    && Shape(th, |pAxis|, |lAxis|)
    && forall a, b :: 0 <= a < |pAxis| && 0 <= b < |lAxis| ==>
         SampleAt(setup, o, pAxis[a], lAxis[b]) == Success(Sample(hit[a][b], th[a][b]))
  }


  /** The cells of a row are (i, 0), ..., (i, n - 1). */
  lemma {:induction false} RowCellsIndex(i: nat, n: nat)
    ensures |RowCells(i, n)| == n
    ensures forall k :: 0 <= k < n ==> RowCells(i, n)[k] == (i, k)
  {
    if n > 0 {
      RowCellsIndex(i, n - 1);
    }
  }

  /** The visits come in strictly increasing outer-p, inner-l order. */
  predicate StrictlyOrdered(cells: seq<Cell>) {
    forall x, y :: 0 <= x < y < |cells| ==> Before(cells[x].0, cells[x].1, cells[y].0, cells[y].1)
  }

  /** The sweep of `rows` rows visits `rows * cols` cells, all inside the grid. */
  lemma {:induction false} RowMajorShape(rows: nat, cols: nat)
    ensures |RowMajor(rows, cols)| == rows * cols
    ensures AllInGrid(RowMajor(rows, cols), rows, cols)
  {
    if rows > 0 {
      RowMajorShape(rows - 1, cols);
      RowCellsIndex(rows - 1, cols);
      assert (rows - 1) * cols + cols == rows * cols;
    }
  }

  /** The sweep never goes back: its visits are strictly increasing. */
  lemma {:induction false} RowMajorIncreasing(rows: nat, cols: nat)
    ensures StrictlyOrdered(RowMajor(rows, cols))
  {
    if rows > 0 {
      RowMajorIncreasing(rows - 1, cols);
      RowMajorShape(rows - 1, cols);
      RowCellsIndex(rows - 1, cols);
      var front, row := RowMajor(rows - 1, cols), RowCells(rows - 1, cols);
      var s := front + row;
      forall x, y | 0 <= x < y < |s|
        ensures Before(s[x].0, s[x].1, s[y].0, s[y].1)
      {
        if y < |front| {
          assert s[x] == front[x] && s[y] == front[y];
        } else if x < |front| {
          assert front[x].0 < rows - 1;
          assert s[y] == row[y - |front|] == (rows - 1, y - |front|);
        } else {
          assert s[x] == row[x - |front|] && s[y] == row[y - |front|];
        }
      }
    }
  }

  /** Cell (i, j) is among `cells`. */
  predicate Visits(cells: seq<Cell>, i: nat, j: nat) {
    (i, j) in cells
  }

  /** Every cell of the grid is visited. */
  lemma {:induction false} RowMajorComplete(rows: nat, cols: nat)
    ensures forall i, j :: 0 <= i < rows && 0 <= j < cols ==> Visits(RowMajor(rows, cols), i, j)
  {
    if rows > 0 {
      RowMajorComplete(rows - 1, cols);
      var front, row := RowMajor(rows - 1, cols), RowCells(rows - 1, cols);
      assert RowMajor(rows, cols) == front + row;
      forall i, j | 0 <= i < rows && 0 <= j < cols
        ensures Visits(front + row, i, j)
      {
        if i < rows - 1 {
          assert Visits(front, i, j);
        } else {
          RowCellsIndex(rows - 1, cols);
          assert row[j] == (i, j);
        }
      }
    }
  }

  /** The sweep visits exactly the cells of the grid, each once, in
      outer-p, inner-l order: the visits are in the grid, strictly increasing
      in that order (so none repeats), and every cell of the grid is among them. */
  lemma RowMajorOrder(rows: nat, cols: nat)
    ensures |RowMajor(rows, cols)| == rows * cols
    ensures AllInGrid(RowMajor(rows, cols), rows, cols)
    ensures StrictlyOrdered(RowMajor(rows, cols))
    ensures forall i, j :: 0 <= i < rows && 0 <= j < cols ==> Visits(RowMajor(rows, cols), i, j)
  {
    RowMajorShape(rows, cols);
    RowMajorIncreasing(rows, cols);
    RowMajorComplete(rows, cols);
  }

  /** The boundary policy over filled grids: a cell records -1 exactly when
      its ray starts inside the boundary, and then its angle is 0; every other
      cell records 0 or 1, the integrator's hit flag for that ray. */
  lemma BoundaryPolicy(setup: IntegratorSetup, o: Oracles, pAxis: seq<real>, lAxis: seq<real>, hit: Grid, th: Grid)
    requires GridsHoldSamples(setup, o, pAxis, lAxis, hit, th)
    ensures forall a, b :: 0 <= a < |pAxis| && 0 <= b < |lAxis| ==>
      && (hit[a][b] == StartInside <==> !StartsOutside(Origin(pAxis[a], lAxis[b]), setup.mass))
      && (hit[a][b] == StartInside ==> th[a][b] == 0.0)
      && (hit[a][b] != StartInside ==>
            var traced := o.geodesic(CallFor(setup, Origin(pAxis[a], lAxis[b])));
            traced.Success? && hit[a][b] == HitFlag(traced.value.hitBlackhole) && (hit[a][b] == 0.0 || hit[a][b] == 1.0))
  {
    forall a, b | 0 <= a < |pAxis| && 0 <= b < |lAxis|
      ensures hit[a][b] == StartInside <==> !StartsOutside(Origin(pAxis[a], lAxis[b]), setup.mass)
    {
      assert SampleAt(setup, o, pAxis[a], lAxis[b]) == Success(Sample(hit[a][b], th[a][b]));
    }
  }

  datatype Grids = Grids(hit: Grid, th: Grid)

  /** One iteration of the inner loop: the ray of cell (ip, il) is built,
      integrated only if it starts outside the boundary, and its sample is
      written to cell (ip, il) of both grids and nowhere else. */
  method VisitCell(setup: IntegratorSetup, o: Oracles, pAxis: seq<real>, lAxis: seq<real>,
                   ip: nat, il: nat, hit: Grid, th: Grid)
    returns (res: Result<Grids, Error>, calls: seq<IntegratorCall>)
    requires ip < |pAxis| && il < |lAxis|
    requires Shape(hit, |pAxis|, |lAxis|) && Shape(th, |pAxis|, |lAxis|)
    requires th[ip][il] == 0.0
    ensures calls == if StartsOutside(Origin(pAxis[ip], lAxis[il]), setup.mass)
                     then [CallFor(setup, Origin(pAxis[ip], lAxis[il]))] else []
    ensures res.Success? <==> SampleAt(setup, o, pAxis[ip], lAxis[il]).Success?
    ensures res.Failure? ==> SampleAt(setup, o, pAxis[ip], lAxis[il]) == Failure(res.error)
    ensures res.Success? ==>
      && Shape(res.value.hit, |pAxis|, |lAxis|) && Shape(res.value.th, |pAxis|, |lAxis|)
      && SampleAt(setup, o, pAxis[ip], lAxis[il]) == Success(Sample(res.value.hit[ip][il], res.value.th[ip][il]))
      && (forall a :: 0 <= a < |pAxis| && a != ip ==> res.value.hit[a] == hit[a] && res.value.th[a] == th[a])
      && (forall b :: 0 <= b < |lAxis| && b != il ==> res.value.hit[ip][b] == hit[ip][b] && res.value.th[ip][b] == th[ip][b])
  {
    var origin := Origin(pAxis[ip], lAxis[il]);
    if StartsOutside(origin, setup.mass) {
      var call := CallFor(setup, origin);
      calls := [call];
      var traced := o.geodesic(call);
      if traced.Failure? {
        res := Failure(IntegrationFailed(traced.error));
        return;
      }
      var t := traced.value;
      var props := CurveProps(t.momenta, t.positions, -1, o.angle, o.impact);
      if props.Failure? {
        res := Failure(props.error);
        return;
      }
      res := Success(Grids(Write(hit, ip, il, HitFlag(t.hitBlackhole)), Write(th, ip, il, props.value.deflection)));
    } else {
      calls := [];
      res := Success(Grids(Write(hit, ip, il, StartInside), th));
    }
  }

  /** The inner loop: row `ip` of both grids, starting from zeros, receives
      its samples left to right; every other row is left as it was. The loop
      visits the cells of the row in order and stops at the first that fails. */
  method FillRow(setup: IntegratorSetup, o: Oracles, pAxis: seq<real>, lAxis: seq<real>, ip: nat, hit0: Grid, th0: Grid)
    returns (res: Result<Grids, Error>, visits: seq<Cell>, calls: seq<IntegratorCall>)
    requires ip < |pAxis|
    requires Shape(hit0, |pAxis|, |lAxis|) && Shape(th0, |pAxis|, |lAxis|)
    requires forall b :: 0 <= b < |lAxis| ==> th0[ip][b] == 0.0
    ensures res.Success? <==> forall b :: 0 <= b < |lAxis| ==> SampleAt(setup, o, pAxis[ip], lAxis[b]).Success?
    ensures res.Success? ==>
      && Shape(res.value.hit, |pAxis|, |lAxis|) && Shape(res.value.th, |pAxis|, |lAxis|)
      && (forall b :: 0 <= b < |lAxis| ==>
            SampleAt(setup, o, pAxis[ip], lAxis[b]) == Success(Sample(res.value.hit[ip][b], res.value.th[ip][b])))
      && (forall a :: 0 <= a < |pAxis| && a != ip ==> res.value.hit[a] == hit0[a] && res.value.th[a] == th0[a])
    ensures res.Success? ==>
      visits == RowCells(ip, |lAxis|) && calls == RowCalls(setup, pAxis[ip], lAxis, |lAxis|)
    ensures res.Failure? ==>
      && 0 < |visits| <= |lAxis|
      && visits == RowCells(ip, |visits|)
      && calls == RowCalls(setup, pAxis[ip], lAxis, |visits|)
      && SampleAt(setup, o, pAxis[ip], lAxis[|visits| - 1]) == Failure(res.error)
      && forall b :: 0 <= b < |visits| - 1 ==> SampleAt(setup, o, pAxis[ip], lAxis[b]).Success?
  {
    var cols := |lAxis|;
    var hit, th := hit0, th0;
    visits, calls := [], [];
    var il := 0;
    while il < cols
      invariant 0 <= il <= cols
      invariant Shape(hit, |pAxis|, cols) && Shape(th, |pAxis|, cols)
      invariant forall a :: 0 <= a < |pAxis| && a != ip ==> hit[a] == hit0[a] && th[a] == th0[a]
      invariant forall b :: 0 <= b < il ==>
        SampleAt(setup, o, pAxis[ip], lAxis[b]) == Success(Sample(hit[ip][b], th[ip][b]))
      invariant forall b :: il <= b < cols ==> th[ip][b] == 0.0
      invariant |visits| == il && visits == RowCells(ip, il)
      invariant calls == RowCalls(setup, pAxis[ip], lAxis, il)
    {
      visits := visits + [(ip, il)];
      var cell, cellCalls := VisitCell(setup, o, pAxis, lAxis, ip, il, hit, th);
      calls := calls + cellCalls;
      if cell.Failure? {
        res := Failure(cell.error);
        return;
      }
      hit, th := cell.value.hit, cell.value.th;
      il := il + 1;
    }
    res := Success(Grids(hit, th));
  }

  /** Rows `0 .. n-1` of both grids hold their samples. */
  ghost predicate RowsFilled(setup: IntegratorSetup, o: Oracles, pAxis: seq<real>, lAxis: seq<real>, hit: Grid, th: Grid, n: nat)
    requires n <= |pAxis| && Shape(hit, |pAxis|, |lAxis|) && Shape(th, |pAxis|, |lAxis|)
  {
    forall a, b :: 0 <= a < n && 0 <= b < |lAxis| ==>
      SampleAt(setup, o, pAxis[a], lAxis[b]) == Success(Sample(hit[a][b], th[a][b]))
  }

  /** Filling row `ip` after rows `0 .. ip-1`, leaving them as they were,
      fills rows `0 .. ip`. */
  lemma ExtendRowsFilled(setup: IntegratorSetup, o: Oracles, pAxis: seq<real>, lAxis: seq<real>,
                         hit: Grid, th: Grid, hit': Grid, th': Grid, ip: nat)
    requires ip < |pAxis|
    requires Shape(hit, |pAxis|, |lAxis|) && Shape(th, |pAxis|, |lAxis|)
    requires Shape(hit', |pAxis|, |lAxis|) && Shape(th', |pAxis|, |lAxis|)
    requires RowsFilled(setup, o, pAxis, lAxis, hit, th, ip)
    requires forall a :: 0 <= a < |pAxis| && a != ip ==> hit'[a] == hit[a] && th'[a] == th[a]
    requires forall b :: 0 <= b < |lAxis| ==>
      SampleAt(setup, o, pAxis[ip], lAxis[b]) == Success(Sample(hit'[ip][b], th'[ip][b]))
    ensures RowsFilled(setup, o, pAxis, lAxis, hit', th', ip + 1)
  {
    forall a, b | 0 <= a < ip && 0 <= b < |lAxis|
      ensures SampleAt(setup, o, pAxis[a], lAxis[b]) == Success(Sample(hit'[a][b], th'[a][b]))
    {
      assert hit'[a] == hit[a] && th'[a] == th[a];
    }
  }

  /** Filled rows are rows whose cells all succeed. */
  lemma FilledRowsSucceed(setup: IntegratorSetup, o: Oracles, pAxis: seq<real>, lAxis: seq<real>, hit: Grid, th: Grid, n: nat)
    requires n <= |pAxis| && Shape(hit, |pAxis|, |lAxis|) && Shape(th, |pAxis|, |lAxis|)
    requires RowsFilled(setup, o, pAxis, lAxis, hit, th, n)
    ensures RowsSucceed(setup, o, pAxis, lAxis, n)
  {
    forall a, b | 0 <= a < n && 0 <= b < |lAxis|
      ensures SampleAt(setup, o, pAxis[a], lAxis[b]).Success?
    {
      assert SampleAt(setup, o, pAxis[a], lAxis[b]) == Success(Sample(hit[a][b], th[a][b]));
    }
  }

  /** A failing cell of row `ip`, after every earlier cell succeeded, is the
      first failure of the sweep, and the sweep does not succeed everywhere. */
  lemma RowFailureIsFirst(setup: IntegratorSetup, o: Oracles, pAxis: seq<real>, lAxis: seq<real>, ip: nat, j: nat, e: Error)
    requires ip < |pAxis| && j < |lAxis|
    requires RowsSucceed(setup, o, pAxis, lAxis, ip)
    requires forall b :: 0 <= b < j ==> SampleAt(setup, o, pAxis[ip], lAxis[b]).Success?
    requires SampleAt(setup, o, pAxis[ip], lAxis[j]) == Failure(e)
    ensures FailsFirstAt(setup, o, pAxis, lAxis, ip, j, e)
    ensures !AllSucceed(setup, o, pAxis, lAxis)
  {
    assert forall a, b :: 0 <= a < |pAxis| && 0 <= b < |lAxis| && Before(a, b, ip, j) ==>
      SampleAt(setup, o, pAxis[a], lAxis[b]).Success?;
  }

  /** A sweep whose complete rows `0 .. ip-1` succeeded and whose row `ip`
      stopped at its first failing cell has stopped at the first failing cell
      of the grid, with the visits and calls made up to that cell. */
  lemma SweepStopsInRow(setup: IntegratorSetup, o: Oracles, pAxis: seq<real>, lAxis: seq<real>, ip: nat,
                        rowVisits: seq<Cell>, rowCalls: seq<IntegratorCall>,
                        visits: seq<Cell>, calls: seq<IntegratorCall>, e: Error)
    requires ip < |pAxis|
    requires RowsSucceed(setup, o, pAxis, lAxis, ip)
    requires 0 < |rowVisits| <= |lAxis|
    requires rowVisits == RowCells(ip, |rowVisits|)
    requires rowCalls == RowCalls(setup, pAxis[ip], lAxis, |rowVisits|)
    requires SampleAt(setup, o, pAxis[ip], lAxis[|rowVisits| - 1]) == Failure(e)
    requires forall b :: 0 <= b < |rowVisits| - 1 ==> SampleAt(setup, o, pAxis[ip], lAxis[b]).Success?
    requires visits == RowMajor(ip, |lAxis|) + rowVisits
    requires calls == GridCalls(setup, pAxis, lAxis, ip) + rowCalls
    ensures !AllSucceed(setup, o, pAxis, lAxis)
    ensures
      exists i, j :: 0 <= i < |pAxis| && 0 <= j < |lAxis|
        && FailsFirstAt(setup, o, pAxis, lAxis, i, j, e)
        && visits == CellsUpTo(i, j, |lAxis|)
        && calls == CallsUpTo(setup, pAxis, lAxis, i, j)
  {
    var j := |rowVisits| - 1;
    RowFailureIsFirst(setup, o, pAxis, lAxis, ip, j, e);
    assert visits == CellsUpTo(ip, j, |lAxis|);
    assert calls == CallsUpTo(setup, pAxis, lAxis, ip, j);
  }

  /** The outer loop: rows are filled in order, so on success every cell of
      both grids holds its sample, the cells were visited row after row and the
      integrator was called exactly for the rays that start outside the boundary.
      A failure is that of the first failing cell, where the visits and the
      calls stop. */
  method FillGrids(setup: IntegratorSetup, o: Oracles, pAxis: seq<real>, lAxis: seq<real>)
    returns (res: Result<Grids, Error>, visits: seq<Cell>, calls: seq<IntegratorCall>)
    ensures res.Success? <==> AllSucceed(setup, o, pAxis, lAxis)
    ensures res.Success? ==> GridsHoldSamples(setup, o, pAxis, lAxis, res.value.hit, res.value.th)
    ensures res.Success? ==> visits == RowMajor(|pAxis|, |lAxis|)
    ensures res.Success? ==> calls == GridCalls(setup, pAxis, lAxis, |pAxis|)
    ensures res.Failure? ==>
      exists i, j :: 0 <= i < |pAxis| && 0 <= j < |lAxis|
        && FailsFirstAt(setup, o, pAxis, lAxis, i, j, res.error)
        && visits == CellsUpTo(i, j, |lAxis|)
        && calls == CallsUpTo(setup, pAxis, lAxis, i, j)
  {
    var rows, cols := |pAxis|, |lAxis|;
    var hit := Zeros(rows, cols);
    var th := Zeros(rows, cols);
    visits, calls := [], [];
    var ip := 0;
    while ip < rows
      invariant 0 <= ip <= rows
      invariant Shape(hit, rows, cols) && Shape(th, rows, cols)
      invariant visits == RowMajor(ip, cols)
      invariant calls == GridCalls(setup, pAxis, lAxis, ip)
      invariant RowsFilled(setup, o, pAxis, lAxis, hit, th, ip)
      invariant forall a, b :: ip <= a < rows && 0 <= b < cols ==> th[a][b] == 0.0
    {
      var row, rowVisits, rowCalls := FillRow(setup, o, pAxis, lAxis, ip, hit, th);
      visits, calls := visits + rowVisits, calls + rowCalls;
      if row.Failure? {
        res := Failure(row.error);
        FilledRowsSucceed(setup, o, pAxis, lAxis, hit, th, ip);
        SweepStopsInRow(setup, o, pAxis, lAxis, ip, rowVisits, rowCalls, visits, calls, row.error);
        return;
      }
      ExtendRowsFilled(setup, o, pAxis, lAxis, hit, th, row.value.hit, row.value.th, ip);
      forall a, b | ip < a < rows && 0 <= b < cols
        ensures row.value.th[a][b] == 0.0
      {
        assert row.value.th[a] == th[a];
      }
      hit, th := row.value.hit, row.value.th;
      ip := ip + 1;
    }
    FilledRowsSucceed(setup, o, pAxis, lAxis, hit, th, rows);
    assert GridsHoldSamples(setup, o, pAxis, lAxis, hit, th);
    res := Success(Grids(hit, th));
  }
}
