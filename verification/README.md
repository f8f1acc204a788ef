# Skydome deflection look-up table, modelled in Dafny

This project models the table generator in `skydome_LUT_generation.py`. The generator samples a black-hole geodesic integrator over a two-dimensional grid of ray parameters `(p, l)`. For each grid point it records two values: whether the ray hits the black hole, and its signed deflection angle. The model covers three pieces:

- the construction of the two sample axes, including the adaptive `p` axis refined around the Schwarzschild radius `R_sch = 2m`;
- the nested outer-`p`, inner-`l` sweep that fills the grids `hit` and `th`, including the rule that skips rays starting within `2m + 0.1` of the centre;
- `curve_props`, which picks the sample points of a trajectory and applies the sign rule to the unsigned deflection angle.

Everything is over exact reals. The curvedpy library is outside the model. Its entry points are the function-valued fields of `External.Oracles`: the `BlackholeGeodesicIntegrator` constructor, `geodesic`, `angle` and `impact_vector_2`. Each of them may raise, which the model represents as a `Failure` result. The properties are proved for every choice of them. The one exception is where a lemma requires `angle` to be non-negative whenever it returns, which holds because it is an inverse cosine.

Modules:

- `Outcomes` holds `Option`, `Result` and the error kinds. Python raises in each failure case and never catches. The model returns a failure, and the first failure ends the run.
- `Geometry` holds 3-vectors and the dot product.
- `External` is the curvedpy interface.
- `Ranges` models `np.linspace`.
- `Axes` builds the two axes.
- `Deflection` models `curve_props`.
- `Sweep` holds the per-cell rule, the loops and the trace of integrator calls.
- `Lut` models `generate_data_file`, the stored record and `load_data_file` without interpolation.

## Model

| member | source | states |
|---|---|---|
| Ranges.Linspace | curvedApproxPy/skydome/skydome_LUT_generation.py:57 | `num` points; the first is `start`, and with two or more points the last is `stop` |
| Ranges.LinspaceEvenlySpaced | curvedApproxPy/skydome/skydome_LUT_generation.py:57 | neighbouring points are exactly one step `(stop-start)/(num-1)` apart |
| Ranges.LinspaceMonotone | curvedApproxPy/skydome/skydome_LUT_generation.py:57-66 | an ascending range gives an ordered axis |
| Ranges.LinspaceBounds | curvedApproxPy/skydome/skydome_LUT_generation.py:57-66 | every point of an ascending range lies between its endpoints |
| Axes.LAxis | curvedApproxPy/skydome/skydome_LUT_generation.py:57 | the `l` axis has `num` entries |
| Axes.PAxis | curvedApproxPy/skydome/skydome_LUT_generation.py:55-66 | the `p` axis has `num` entries, or `num/10 + num + num` in adaptive mode |
| Axes.UniformAxes | curvedApproxPy/skydome/skydome_LUT_generation.py:57-66 | without adaptation both axes have `num` entries and run from the requested start to the requested end |
| Axes.AdaptiveAxisLayout | curvedApproxPy/skydome/skydome_LUT_generation.py:55-64 | the adaptive axis is the three parts in order. First `np.linspace(p_start, 2m, num/10)`: no points when `num < 10`, only `p_start` when `num < 20`, otherwise points from `p_start` ending at `2m`. Then `num` points from `2m+0.01` to `10m`, then `num` from `10m+0.01` to `p_end` |
| Axes.AdaptiveAxisNonDecreasing | curvedApproxPy/skydome/skydome_LUT_generation.py:55-64 | the adaptive axis is ordered across both seams when `p_start <= 2m`, `2m+0.01 <= 10m` and `10m+0.01 <= p_end` |
| Axes.AdaptiveAxisOutOfOrder | curvedApproxPy/skydome/skydome_LUT_generation.py:60 | with `num >= 20` and `p_start > 2m` the adaptive axis is not ordered, so the first range condition above is needed |
| Axes.UniformAxisNonDecreasing | curvedApproxPy/skydome/skydome_LUT_generation.py:66 | the uniform `p` axis is ordered when `p_start <= p_end` |
| Deflection.PyIndex | curvedApproxPy/skydome/skydome_LUT_generation.py:27 | Python indexing is defined exactly on `-n..n-1`; a negative index counts from the end |
| Deflection.PyIndexNegative | curvedApproxPy/skydome/skydome_LUT_generation.py:15-27 | index `-1` names the last element, and `i-n` names the same element as `i` |
| Deflection.SignedAngleCharacterised | curvedApproxPy/skydome/skydome_LUT_generation.py:41-42 | for a positive unsigned angle, the signed value is the one with the same magnitude that is negative exactly when `dot(end_dir, p_) >= 0` |
| Deflection.OppositeSidesOppositeSigns | curvedApproxPy/skydome/skydome_LUT_generation.py:41-42 | end directions strictly on opposite sides of `p_` give deflections of equal magnitude and opposite sign |
| Deflection.CurveProps | curvedApproxPy/skydome/skydome_LUT_generation.py:24-44 | an empty trajectory or an out-of-range `last_index` fails with an index error. Otherwise `angle` is evaluated first and then `impact_vector`, and the first of them to raise gives the failure. When both return, the impact decomposition comes from the first position and first momentum, and the deflection is `+angle` or `-angle` between the first momentum and the momentum at `last_index`, by the sign rule |
| Deflection.DefaultLastIndexIsFinal | curvedApproxPy/skydome/skydome_LUT_generation.py:15-27 | the default `last_index = -1` uses the final momentum as end direction |
| Deflection.DeflectionMagnitude | curvedApproxPy/skydome/skydome_LUT_generation.py:27-44 | for a non-empty trajectory, `curve_props` succeeds exactly when `angle` and `impact_vector` both return; with an unsigned `angle`, the magnitude of the deflection then equals the angle between the first and the final momentum |
| Sweep.Zeros | curvedApproxPy/skydome/skydome_LUT_generation.py:69-70 | both grids start as all zeros of shape `(len(l_p), len(l_l))` |
| Sweep.Write | curvedApproxPy/skydome/skydome_LUT_generation.py:85-89 | a cell assignment changes that cell only: same shape, every other cell and row unchanged |
| Sweep.StartsOutsideIsNormTest | curvedApproxPy/skydome/skydome_LUT_generation.py:80-82 | the squared-norm boundary test agrees with `norm(x0) > 2m+0.1` |
| Sweep.SampleAt | curvedApproxPy/skydome/skydome_LUT_generation.py:78-89 | a ray from `(-l, p, 0)` inside the boundary gives `(-1, 0)`; otherwise the ray is integrated: an integrator failure or a `curve_props` failure is passed on, and a success gives the integrator's hit flag as 0 or 1 and the `curve_props` deflection. So `hit == -1` exactly for skipped rays |
| Sweep.RowCellsIndex | curvedApproxPy/skydome/skydome_LUT_generation.py:75 | the inner loop visits `(ip, 0)` to `(ip, n-1)` in order |
| Sweep.RowMajorOrder | curvedApproxPy/skydome/skydome_LUT_generation.py:74-75 | the sweep visits `len(l_p)*len(l_l)` cells, all inside the grid and strictly increasing in outer-`p`/inner-`l` order (so none twice), and every cell appears |
| Sweep.RowCallsSound | curvedApproxPy/skydome/skydome_LUT_generation.py:75-83 | along a row, every integrator call is for a ray that starts outside the boundary, with heading `(-1,0,0)` and the integrator's setup |
| Sweep.RowCallsComplete | curvedApproxPy/skydome/skydome_LUT_generation.py:75-83 | along a row, every ray that starts outside the boundary is passed to the integrator |
| Sweep.RowCallsLength | curvedApproxPy/skydome/skydome_LUT_generation.py:75-83 | a row makes at most one integrator call per cell |
| Sweep.GridCallsSound | curvedApproxPy/skydome/skydome_LUT_generation.py:74-83 | over the whole grid no ray that starts inside the boundary is integrated: every call starts outside it, with heading `(-1,0,0)` and the integrator's setup |
| Sweep.GridCallsComplete | curvedApproxPy/skydome/skydome_LUT_generation.py:74-83 | over the whole grid every ray that starts outside the boundary is passed to the integrator |
| Sweep.GridCallsCount | curvedApproxPy/skydome/skydome_LUT_generation.py:74-83 | the sweep makes no more integrator calls than there are cells |
| Sweep.RowFailureIsFirst | curvedApproxPy/skydome/skydome_LUT_generation.py:74-89 | a failing cell of row `ip`, after every earlier cell of the sweep succeeded, is the first failure of the sweep, and the sweep does not succeed everywhere |
| Sweep.CallsUpToPrefix | curvedApproxPy/skydome/skydome_LUT_generation.py:74-89 | the calls made by a sweep that stops at cell `(i, j)` are a prefix of the calls a complete sweep makes |
| Sweep.CellsUpToPrefix | curvedApproxPy/skydome/skydome_LUT_generation.py:74-75 | the visits of a sweep that stops at cell `(i, j)` are a prefix of the complete row-major order; there are `i*len(l_l) + j + 1` of them, and the last is `(i, j)` |
| Sweep.BoundaryPolicy | curvedApproxPy/skydome/skydome_LUT_generation.py:82-89 | in filled grids `hit == -1` exactly where the ray starts inside the boundary, and there `th == 0`; every other cell holds 0 or 1, the integrator's flag |
| Sweep.VisitCell | curvedApproxPy/skydome/skydome_LUT_generation.py:78-89 | one iteration calls the integrator exactly when the ray starts outside, fails exactly when its sample fails, and otherwise writes that cell's sample to cell `(ip, il)` of both grids and changes nothing else |
| Sweep.FillRow | curvedApproxPy/skydome/skydome_LUT_generation.py:75-89 | the inner loop visits `(ip, 0), (ip, 1), …` in order, one cell per iteration, and calls the integrator for the outside rays among them. On success it has visited the whole row and filled it with its samples, leaving other rows untouched. On failure its last visit is the first failing cell of the row, and the visits and calls stop there |
| Sweep.FillGrids | curvedApproxPy/skydome/skydome_LUT_generation.py:69-89 | the nested loop succeeds exactly when every cell does. Then both grids have shape `(len(l_p), len(l_l))` and every cell holds its sample. The visits produced by the inner loops are the row-major order, and the calls are those of outside rays in sweep order. A failure is that of the first failing cell `(i, j)`, and the visits and calls are exactly those up to and including `(i, j)` |
| Lut.Pack | curvedApproxPy/skydome/skydome_LUT_generation.py:98 | the written record has four entries |
| Lut.Unpack | curvedApproxPy/skydome/skydome_LUT_generation.py:105 | a record unpacks exactly when it has four elements, whatever they hold, and they are bound in order to `hit, th, l_p, l_l`; any other length fails |
| Lut.UnpackPack | curvedApproxPy/skydome/skydome_LUT_generation.py:98-105 | reading back a written table gives its `hit`, `th`, `l_p` and `l_l` unchanged and in that order |
| Lut.PackUnpack | curvedApproxPy/skydome/skydome_LUT_generation.py:98-105 | a record that unpacks into two grids followed by two axes is the packing of the table they form |
| Lut.LoadDataFile | curvedApproxPy/skydome/skydome_LUT_generation.py:102-110 | a missing file gives nothing back; an existing file is unpacked |
| Lut.LoadAfterSave | curvedApproxPy/skydome/skydome_LUT_generation.py:97-105 | a table stored under a path loads back with its four values unchanged |
| Lut.UnpackRanges | curvedApproxPy/skydome/skydome_LUT_generation.py:52-53 | `p` is unpacked before `l`; the unpacking succeeds exactly when both are two-element lists, a list of any other length fails with its length, and the start and end are its two elements in order |
| Lut.GenerateDataFile | curvedApproxPy/skydome/skydome_LUT_generation.py:46-100 | a failing integrator constructor ends the run first, with no calls. Next a `p` or an `l` that is not a pair fails unpacking, and then a negative `num` fails; neither makes a call. Otherwise the run succeeds exactly when every cell does, and a failure is that of the first failing cell, with exactly the integrator calls up to and including it. On success: the axes are the `l` and `p` axes built from the configuration; both grids have shape `(len(l_p), len(l_l))` and hold every cell's sample; the calls are those of outside rays; the returned table equals the record written |
| Lut.DefaultAdaptiveAxisOrdered | curvedApproxPy/skydome/skydome_LUT_generation.py:46-64 | with the default range and mass, the adaptive `p` axis has 210 entries and is ordered end to end |
| Lut.SmallScenarioSkipsCentre | curvedApproxPy/skydome/skydome_LUT_generation.py:57-89 | for `num=5`, `p=[0,10]`, `l=[-10,10]`, `m=1`, cell `(0, 2)` starts at the centre, so for any integrator it records `hit = -1`, `th = 0` |

## Left out

- The geodesic integrator, its constructor, and curvedpy's `angle` and `impact_vector_2` are foreign code and are not part of this model. They are the parameters `External.Oracles`, and an exception any of them raises is a `Failure` result. `create_quat` is imported at line 8 but never used.
- `np.column_stack` is left out. A trajectory is given directly as its sequences of momentum and position points, plus the `hit_blackhole` metadata flag as a boolean.
- Floating point is left out. `np.linspace` values, the offsets `0.01` and `0.1`, and `np.linalg.norm` are exact reals. The norm test uses squared norms, which `Sweep.StartsOutsideIsNormTest` shows equivalent to the norm test.
- `int(num/10)` is modelled as integer division. This differs from Python's float division only for `num` beyond float precision.
- The filename string (lines 91-93) and the pickle file I/O are left out. `load_data_file` is modelled over a map from paths to records.
- `save_directory`, `add_str_to_filename` and `verbose` only affect the file's path or diagnostics, so they are left out. `save` is never consulted by the code: the record is always written on success, and the model does the same.
- `create_interpolation` and `load_data_file(..., give_interpolate=True)` are left out. They are thin wrappers over scipy's `RegularGridInterpolator`, a float library call.
- Print statements and verbose diagnostics are left out. So is `setup.py`.
- Configuration validation is left out because the code has none. The code does not reject `p_start >= p_end`. The configuration is checked only where Python itself fails. Unpacking `p` and `l` (lines 52-53) fails for a list that is not a pair, which `Lut.UnpackRanges` models. `np.linspace` refuses a negative `num`. The integrator constructor and the curvedpy functions may still raise.
- Axes.AdaptiveAxisNonDecreasing: proves ordering only under its three range conditions. The code does not enforce them, and `Axes.AdaptiveAxisOutOfOrder` shows the axis out of order when, for example, `num >= 20` and `p_start > 2m`.
- `Config` types `p` and `l` as lists of reals and `num` as an integer. So `np.linspace`'s error for a non-integer `num`, and the errors for list elements that are not numbers, are left out.
- Deflection.OppositeSidesOppositeSigns: does not prove that mirror-image trajectories get opposite signs. Whether they do depends on how the external `impact_vector_2` orients `p_`.
- The reassignments of `x`, `p` and `l` at lines 83-84 are left out. They shadow names without affecting the sweep.
