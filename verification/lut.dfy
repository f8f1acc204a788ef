/** generate_data_file: build the two axes, run the sweep, and hand back the
    table (hit, th, l_p, l_l) that is also written out as one record; plus the
    unpacking of that record by load_data_file. */
module Lut {
  import opened Geometry
  import opened Outcomes
  import opened External
  import opened Ranges
  import opened Axes
  import opened Sweep

  /** The keyword arguments of generate_data_file that reach the computation.
      `pRange` and `lRange` are the lists `p` and `l`, which the code unpacks
      into a start and an end. */
  datatype Config = Config(
    num: int,
    pRange: seq<real>,
    lRange: seq<real>,
    adaptGrid: bool,
    coordinates: string,
    m: real,
    maxStep: real,
    rEnd: real)

  /** The default keyword arguments. */
  const Defaults: Config := Config(100, [0.0, 200.0], [-200.0, 200.0], false, "SPH", 1.0, 0.1, 300.0)

  /** The integrator is built with the mass and coordinate system and every
      call passes the step bound and the end radius. */
  function SetupOf(cfg: Config): IntegratorSetup {
    IntegratorSetup(cfg.m, cfg.coordinates, cfg.maxStep, cfg.rEnd)
  }

  /** The table: hit grid, deflection grid, p axis, l axis. */
  datatype Table = Table(hit: Grid, th: Grid, pAxis: seq<real>, lAxis: seq<real>)

  /** One element of the stored list. */
  datatype Field = GridField(grid: Grid) | AxisField(axis: seq<real>)

  type Record = seq<Field>

  /** The list [hit, th, l_p, l_l] that is written out. */
  function Pack(t: Table): (r: Record)
    ensures |r| == 4
  {
    [GridField(t.hit), GridField(t.th), AxisField(t.pAxis), AxisField(t.lAxis)]
  }

  /** The four names a loaded record is bound to, whatever each element holds. */
  datatype Loaded = Loaded(hit: Field, th: Field, pAxis: Field, lAxis: Field)

  /** `hit, th, l_p, l_l = record`: Python's unpacking binds the four elements
      in order and raises ValueError for a list of any other length; it does
      not look at what the elements are. */
  function Unpack(r: Record): (t: Result<Loaded, Error>)
    ensures t.Success? <==> |r| == 4
    ensures t.Failure? ==> t.error == UnpackMismatch(|r|)
    ensures t.Success? ==> [t.value.hit, t.value.th, t.value.pAxis, t.value.lAxis] == r
  {
    if |r| == 4 then Success(Loaded(r[0], r[1], r[2], r[3])) else Failure(UnpackMismatch(|r|))
  }

  /** Reading back a written table gives its four values in the same order. */
  lemma UnpackPack(t: Table)
    ensures Unpack(Pack(t)).Success?
    ensures var l := Unpack(Pack(t)).value;
      && l.hit == GridField(t.hit) && l.th == GridField(t.th)
      && l.pAxis == AxisField(t.pAxis) && l.lAxis == AxisField(t.lAxis)
  {
  }

  /** A record that unpacks into two grids followed by two axes is the packing
      of the table they form. */
  lemma PackUnpack(r: Record)
    requires Unpack(r).Success?
    requires var l := Unpack(r).value;
      l.hit.GridField? && l.th.GridField? && l.pAxis.AxisField? && l.lAxis.AxisField?
    ensures var l := Unpack(r).value;
      Pack(Table(l.hit.grid, l.th.grid, l.pAxis.axis, l.lAxis.axis)) == r
  {
  }

  /** load_data_file(path, give_interpolate=False) over a store of files: a
      missing file gives nothing back (the Python function falls off its end
      and returns None); an existing one is unpacked. */
  function LoadDataFile(files: map<string, Record>, path: string): (r: Option<Result<Loaded, Error>>)
    ensures r.None? <==> path !in files
    ensures path in files ==> r.value == Unpack(files[path])
  {
    if path in files then Some(Unpack(files[path])) else None
  }

  /** A table written under a path is read back with its four values unchanged. */
  lemma LoadAfterSave(files: map<string, Record>, path: string, t: Table)
    ensures LoadDataFile(files[path := Pack(t)], path)
            == Some(Success(Loaded(GridField(t.hit), GridField(t.th), AxisField(t.pAxis), AxisField(t.lAxis))))
  {
    UnpackPack(t);
  }

  /** `p_start, p_end = p` and then `l_start, l_end = l`: each list must have
      exactly two elements, or unpacking raises ValueError. */
  function UnpackRanges(cfg: Config): (r: Result<((real, real), (real, real)), Error>)
    ensures r.Success? <==> |cfg.pRange| == 2 && |cfg.lRange| == 2
    ensures |cfg.pRange| != 2 ==> r == Failure(UnpackMismatch(|cfg.pRange|))
    ensures |cfg.pRange| == 2 && |cfg.lRange| != 2 ==> r == Failure(UnpackMismatch(|cfg.lRange|))
    ensures r.Success? ==>
      [r.value.0.0, r.value.0.1] == cfg.pRange && [r.value.1.0, r.value.1.1] == cfg.lRange
  {
    if |cfg.pRange| != 2 then Failure(UnpackMismatch(|cfg.pRange|))
    else if |cfg.lRange| != 2 then Failure(UnpackMismatch(|cfg.lRange|))
    else Success(((cfg.pRange[0], cfg.pRange[1]), (cfg.lRange[0], cfg.lRange[1])))
  }

  /** generate_data_file. The integrator is built first, and a constructor
      that raises ends the run before anything else. Then `p` and `l` are
      unpacked, and a list that is not a pair fails. Then a negative `num`
      fails in np.linspace. Otherwise the axes are the uniform `l` axis and the
      uniform or adaptive `p` axis, and on success the table is returned and
      the record written out is that same table packed: both grids have shape
      (|p axis|, |l axis|) and every cell holds its sample, and the integrator
      was called exactly for the cells whose ray starts outside the boundary,
      row after row. A failure is that of the first failing cell, and the
      calls made are those up to and including it. Nothing is written on
      failure. */
  method GenerateDataFile(cfg: Config, o: Oracles)
    returns (res: Result<Table, Error>, written: Option<Record>, calls: seq<IntegratorCall>)
    ensures var built := o.construct(cfg.m, cfg.coordinates);
      built.Failure? ==> res == Failure(ConstructionFailed(built.error)) && calls == []
    ensures o.construct(cfg.m, cfg.coordinates).Success? && UnpackRanges(cfg).Failure? ==>
      res == Failure(UnpackRanges(cfg).error) && calls == []
    ensures o.construct(cfg.m, cfg.coordinates).Success? && UnpackRanges(cfg).Success? && cfg.num < 0 ==>
      res == Failure(NegativeSampleCount(cfg.num)) && calls == []
    ensures o.construct(cfg.m, cfg.coordinates).Success? && UnpackRanges(cfg).Success? && cfg.num >= 0 ==>
      var lAxis := LAxis(cfg.lRange[0], cfg.lRange[1], cfg.num);
      var pAxis := PAxis(cfg.pRange[0], cfg.pRange[1], cfg.num, cfg.adaptGrid, cfg.m);
      && (res.Success? <==> AllSucceed(SetupOf(cfg), o, pAxis, lAxis))
      && (res.Failure? ==>
            exists i, j :: 0 <= i < |pAxis| && 0 <= j < |lAxis|
              && FailsFirstAt(SetupOf(cfg), o, pAxis, lAxis, i, j, res.error)
              && calls == CallsUpTo(SetupOf(cfg), pAxis, lAxis, i, j))
      && (res.Success? ==>
            && res.value.pAxis == pAxis
            && res.value.lAxis == lAxis
            && GridsHoldSamples(SetupOf(cfg), o, pAxis, lAxis, res.value.hit, res.value.th)
            && calls == GridCalls(SetupOf(cfg), pAxis, lAxis, |pAxis|))
    ensures res.Success? ==>
      && |res.value.lAxis| == cfg.num
      && |res.value.pAxis| == (if cfg.adaptGrid then cfg.num / 10 + 2 * cfg.num else cfg.num)
      && Shape(res.value.hit, |res.value.pAxis|, |res.value.lAxis|)
      && Shape(res.value.th, |res.value.pAxis|, |res.value.lAxis|)
    ensures written.Some? <==> res.Success?
    ensures res.Success? ==> written == Some(Pack(res.value))
  {
    calls := [];
    var built := o.construct(cfg.m, cfg.coordinates);
    if built.Failure? {
      res, written := Failure(ConstructionFailed(built.error)), None;
      return;
    }
    var ranges := UnpackRanges(cfg);
    if ranges.Failure? {
      res, written := Failure(ranges.error), None;
      return;
    }
    var (p, l) := ranges.value;
    if cfg.num < 0 {
      res, written := Failure(NegativeSampleCount(cfg.num)), None;
      return;
    }
    var setup := SetupOf(cfg);
    var lAxis := LAxis(l.0, l.1, cfg.num);
    var pAxis := PAxis(p.0, p.1, cfg.num, cfg.adaptGrid, cfg.m);
    var grids, visits;
    grids, visits, calls := FillGrids(setup, o, pAxis, lAxis);
    if grids.Failure? {
      res, written := Failure(grids.error), None;
      return;
    }
    var table := Table(grids.value.hit, grids.value.th, pAxis, lAxis);
    res, written := Success(table), Some(Pack(table));
  }

  /** With the defaults switched to adaptive mode (m = 1, p from 0 to 200) the
      p axis is ordered end to end: 10 points up to 2, 100 from 2.01 to 10,
      100 from 10.01 to 200. */
  lemma DefaultAdaptiveAxisOrdered()
    ensures var d := Defaults;
      var r := PAxis(d.pRange[0], d.pRange[1], d.num, true, d.m);
      && |r| == 210
      && NonDecreasing(r)
  {
    var d := Defaults;
    AdaptiveAxisNonDecreasing(d.pRange[0], d.pRange[1], d.num, d.m);
  }

  /** The ray of cell (0, 2) in the scenario num = 5, p in [0, 10],
      l in [-10, 10], m = 1 starts at the centre, so whatever the integrator
      does, that cell is skipped and records hit = -1 and th = 0. */
  lemma SmallScenarioSkipsCentre(o: Oracles, coordinates: string, maxStep: real, rEnd: real)
    ensures var pAxis := PAxis(0.0, 10.0, 5, false, 1.0);
      var lAxis := LAxis(-10.0, 10.0, 5);
      && |pAxis| == 5 && |lAxis| == 5
      && Origin(pAxis[0], lAxis[2]) == Vec3(0.0, 0.0, 0.0)
      && SampleAt(IntegratorSetup(1.0, coordinates, maxStep, rEnd), o, pAxis[0], lAxis[2])
         == Success(Sample(StartInside, 0.0))
  {
    var lAxis := LAxis(-10.0, 10.0, 5);
    assert lAxis[2] == -10.0 + 5.0 * 2.0;
  }
}
