# Cluster fly-through camera planner

A Dafny model of the camera planner that drives the cluster video in
`demo/save_video.py` of isovis. The planner takes the behaviour-annotated
trajectory, split by `groupby("state")`, and works through the groups in order.
For each group it:

- subsamples the group with `iloc[:nsmp[st]:stp[st]]`, skipping a state that
  either table lacks;
- aims the turntable camera at the per-axis median of the subsample, using
  `vec_to_ae`;
- sets the view distance to the largest norm in the subsample;
- sweeps the azimuth across a window `a ± view_azi_offset`, oriented so that
  its entry is the end nearer where the previous group's sweep ended;
- gives every row the same offset elevation.

The per-group tables are concatenated into `plan_df`, and its three camera
columns are then smoothed.

The model has three modules:

- `Camera` (camera.dfy): `vec_to_ae`, the elevation offset, numpy's
  `linspace` and the two-element stable sort that orients each window.
- `Subsample` (subsample.dfy): pandas' `iloc[:stop:step]` with Python slice
  semantics for a positive step.
- `ClusterPlan` (planner.dfy): the planning loop `PlanClusters` and the loop
  body `PlanGroup`. Their specification is `Segments`, one segment per
  included group in group order. The lemmas proved about `Segments` are:
  - the plan's rows are exactly the included subsamples;
  - the plan's length;
  - when `pd.concat` raises;
  - the `last_ang` chain;
  - the per-row bounds;
  - the order of the states;
  - a worked example with the script's own tables.

The floating-point library calls are not computed. These are
`np.degrees(np.arctan2(..))`, `np.sqrt` and pandas' `median`. They are
parameters (`Camera.Numerics`), and `Camera.Lawful` states the only facts the
proofs use:

- arctan2 in degrees lies in [-180, 180];
- it lies in [-90, 90] when its second argument is not negative;
- a square root of a non-negative number is not negative.

Grouping is an input: a sequence of `(state, rows)` groups as
`groupby("state")` yields them. `ClusterPlan.GroupByOf` states what that
means for a trajectory: ascending labels, each group holding exactly the rows
of its label in the original order (`ClusterPlan.RowsWithState`), and every
row's label having a group. `ClusterPlan.GroupByIsGrouped` derives from this
`ClusterPlan.GroupedByState`, the shape the planner's proofs use.

### Behaviour worth noting

- **Grouping.** `groupby("state")` makes one group per label, in sorted label
  order, so a label never appears twice. Rows of one label that are not
  consecutive in the trajectory still land in the same group.
- **Subsample length.** A group keeps `ceil(min(nsmp, len) / stp)` rows
  (`ClusterPlan.PlanLength`).
- **Last row.** The subsample always starts with the group's first row, but
  with a stride of 2 it can leave out the group's last row.
- **Elevation.** The offset elevation has no clamp. A cluster whose
  elevation is not zero but is smaller in size than the offset has its camera
  moved to the other side of the horizon, so the elevation changes sign. An
  elevation of exactly zero stays zero, because `np.sign(0)` is 0
  (`Camera.OffsetElevation`).
- **Opacity.** The plan keeps every column of the trajectory. The loop adds
  only the `azi`, `ele` and `view_dist` columns; none of them is an overlay
  opacity.

## Model

| member | source | states |
|---|---|---|
| Camera.VecToAe | demo/save_video.py:198-206 | The `a > 180` branch is dead. The azimuth is always the raw arctan2 angle plus 90, within [-90, 270]. The elevation is arctan2 of z against the square root of x² + y², and lies in [-90, 90] because that second argument is not negative. |
| Camera.OffsetElevation | demo/save_video.py:254 | `sign(e) * (abs(e) - off)`. It is 0 when e is 0. Its magnitude is `abs(abs(e) - off)`, and exactly `abs(e) - off` when `abs(e) >= off`. It keeps e's sign when `abs(e) > off` and flips it when `0 < abs(e) < off` (no clamp). With 0 <= off <= 90 and e in [-90, 90] it stays in [-90, 90]. |
| Camera.Linspace | demo/save_video.py:253 | `num` values. The first is `start`. With two or more values the last is `stop` and consecutive values differ by `(stop - start) / (num - 1)`. Every value lies between `start` and `stop`. |
| Camera.TieBreak | demo/save_video.py:250-251 | The result is the two window ends in some order, the one nearer `last_ang` first. On a tie the original order is kept (stable sort). |
| Camera.TieBreakDirection | demo/save_video.py:250-251 | For a window `a - off .. a + off` with off > 0, the sweep runs upward exactly when `last_ang <= a`. |
| Subsample.SliceStop | demo/save_video.py:242 | Python's normalised slice bound never exceeds the length. |
| Subsample.StridedShape | demo/save_video.py:242 | `s[::step]` has `ceil(len / step)` elements, and element k is `s[k * step]`. |
| Subsample.StridedLength | demo/save_video.py:242 | The length half of `StridedShape`, by induction. |
| Subsample.StridedElements | demo/save_video.py:242 | The element half of `StridedShape`, by induction. |
| Subsample.ILoc | demo/save_video.py:242 | With a positive bound, the subsample of a non-empty group is non-empty and starts with the group's first row. |
| Subsample.ILocKeepsStrideRows | demo/save_video.py:242 | `iloc[:stop:step]` has `ceil(SliceStop / step)` rows, and row k is the group's row `k * step`, below the bound. |
| Subsample.ILocKeepsEveryStrideRow | demo/save_video.py:242 | Conversely, every position below the bound that is a multiple of the step is kept, at index `j / step`. |
| Subsample.ILocUnitStride | demo/save_video.py:242 | With stride 1 the subsample is the plain prefix `s[:stop]`. |
| ClusterPlan.ScriptConfig | demo/save_video.py:211-214 | The script's tables have positive caps and strides for every listed state: caps of at most 400 and strides of at most 2. |
| ClusterPlan.Norm | demo/save_video.py:246-248 | A row's Euclidean norm is not negative. |
| ClusterPlan.MaxNorm | demo/save_video.py:246-248 | `view_dist` is at least every subsampled row's norm and equals one of them. |
| ClusterPlan.PlanSegment | demo/save_video.py:242-255 | One included group gives a segment with these properties: its state; the subsample; a first row equal to the group's first row; a centre equal to `vec_to_ae`'s azimuth of the per-axis medians (`ViewVec`), in [-90, 270]; a window oriented against `last_ang`; an elevation equal to the offset elevation of `vec_to_ae`'s elevation of the medians, in [-90, 90] for an offset in [0, 90]; and a view distance equal to the largest norm of the subsample. |
| ClusterPlan.SegmentRows | demo/save_video.py:253-255 | A group's table has one row per subsampled row, in order, all with the same elevation and view distance. Every azimuth lies between entry and exit. The first row gets the entry angle. With two or more rows, the last row gets the exit angle and consecutive azimuths differ by `(exit - entry) / (n - 1)`. |
| ClusterPlan.PlanGroup | demo/save_video.py:242-255 | The loop body returns the group's table and its exit angle, as `PlanSegment` and `SegmentRows` define them. |
| ClusterPlan.PlanClusters | demo/save_video.py:238-257 | The loop builds `plan_ls` one table per included group, in group order, and concatenates it. If no group is included, `pd.concat` raises. The final `last_ang` is the last segment's exit angle, or 0. |
| ClusterPlan.PlanHoldsIncludedSubsamples | demo/save_video.py:240-257 | The rows of `plan_df` are exactly the subsamples of the groups whose state is in both tables, in group order. A skipped state contributes nothing. |
| ClusterPlan.IncludedRowsLength | demo/save_video.py:242 | The included subsamples together have `sum ceil(min(nsmp, len) / stp)` rows. |
| ClusterPlan.PlanLength | demo/save_video.py:240-257 | `plan_df` has `sum ceil(min(nsmp, len) / stp)` rows over the included groups. |
| ClusterPlan.NothingToConcatenate | demo/save_video.py:240-257 | There is no segment, so `pd.concat` raises, if and only if no group's state is in both tables. |
| ClusterPlan.WindowsFollowLastAngle | demo/save_video.py:239-252 | Each segment's window is `center ± offset`, ordered by the tie-break against the `last_ang` in force when its group was reached: 0 for the first segment, the previous segment's exit angle after that. |
| ClusterPlan.SegmentBounded | demo/save_video.py:246-255 | Every row of one group's table keeps the row bounds: norm not negative and at most `view_dist`; azimuth within the offset of [-90, 270]; elevation in [-90, 90] for an offset in [0, 90]. |
| ClusterPlan.PlanRowBounds | demo/save_video.py:246-257 | Every row of `plan_df` keeps those bounds. |
| ClusterPlan.SegmentStatesBelow | demo/save_video.py:240 | Segments carry group states, so a bound on the groups' labels bounds the segments' labels. |
| ClusterPlan.SegmentsFollowLabelOrder | demo/save_video.py:240-242 | With `groupby` input, the plan has at most one segment per state, in ascending label order, and each segment holds rows of its own state only. |
| ClusterPlan.SmoothPlan | demo/save_video.py:258-260 | Smoothing the three camera columns keeps `plan_df`'s length and its rows in order. |
| ClusterPlan.RowsWithStateMembers | demo/save_video.py:240 | A row is in the filtered sequence if and only if it is in the trajectory and has the label. |
| ClusterPlan.GroupByIsGrouped | demo/save_video.py:240 | Every group `groupby` yields holds rows of its own label only, in ascending label order. |
| ClusterPlan.ExampleGroupsGrouped | demo/save_video.py:240 | The trajectory `run_left, run_left, drink_left, stand` groups as `drink_left: [row 2]`, `run_left: [rows 0, 1]`, `stand: [row 3]`, and this is exactly what `groupby` yields for it. |
| ClusterPlan.ExampleSubsamples | demo/save_video.py:211-244 | With the script's tables, the included subsamples of that example are the `drink_left` row and then the first `run_left` row. |
| ClusterPlan.ScriptPlanExample | demo/save_video.py:211-257 | With the script's tables, the plan holds that `drink_left` row and then only the first `run_left` row (stride 2). The `stand` group is skipped. |

## Left out

- Rendering, the vispy canvas and cameras, and `fm_change` (demo/save_video.py:51-160): GUI and rendering.
- ffmpeg encoding and the playback loop that applies each `plan_df` row to the camera and writes frames (demo/save_video.py:163-195, 217-237, 261-270): side-effecting I/O. This also leaves out `view_dist_offset` (line 215), which is used only there.
- Data loading, merging and the upstream smoothing of `comp0..2` (demo/save_video.py:15-35): file I/O.
- Floating-point behaviour: angles and coordinates are reals. arctan2 in degrees, sqrt and median are uninterpreted apart from the range facts in `Camera.Lawful`, so NaN and rounding are not modelled. The azimuth of a vector with x = y = 0 is whatever arctan2 gives.
- ClusterPlan.SmoothPlan: `gaussian_filter1d` is an abstract length-preserving function on a column. Its values, its sigma of 10 and its boundary mode are not modelled.
- Non-positive caps and zero strides: `ConfigOk` requires `nsmp[st] >= 1` and `stp[st] >= 1` for every state in both tables. A zero stride makes the slice raise ValueError, which the loop does not catch. A non-positive cap can give an empty subsample whose medians and maximum are NaN. The script's tables hold 150 or 400 and 1 or 2.
- Negative strides: Python's slice rules for a negative step are not modelled, because the strides are positive.
- src/main/python/main.py and src/main/python/save_video.py are not part of this model: a PyQt window and a quaternion-camera render loop.
