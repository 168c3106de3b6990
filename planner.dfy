/**
 The cluster fly-through planner of demo/save_video.py: for each state group
 of the trajectory, in the order `groupby("state")` yields them, it
 subsamples the group, computes a view direction and distance, orients an
 azimuth window so that it starts near where the previous group's window
 ended, and assigns every subsampled row an azimuth, an elevation and a view
 distance. The per-group tables are concatenated into `plan_df`.

 `Segments` is the specification of the loop, written group by group from
 the front so that each loop iteration extends it by one group;
 `PlanClusters` is the loop itself.
 */
module ClusterPlan {
  import opened Camera
  import opened Subsample

  /** One row of the trajectory table: its index label (the value the playback
      loop hands to `fm_change`), its behavioural state and its embedding
      coordinates `comp0`, `comp1`, `comp2`. */
  datatype Row = Row(index: int, state: string, x: real, y: real, z: real)

  /** One `(st, st_df)` pair yielded by `groupby("state")`. */
  datatype Group = Group(state: string, rows: seq<Row>)

  /** The planner's settings: the per-state sample cap `nsmp` and stride
      `stp`, and the elevation and azimuth offsets in degrees. */
  datatype Config = Config(
    nsmp: map<string, int>,
    stp: map<string, int>,
    viewEleOffset: real,
    viewAziOffset: real)

  /** One row of `plan_df` before smoothing: the trajectory row and the three
      columns the loop assigns to it. */
  datatype PlanRow = PlanRow(row: Row, azi: real, ele: real, viewDist: real)

  /** The outcome of `pd.concat(plan_ls)`: the ValueError it raises on an
      empty list, or the concatenated table. */
  datatype Concatenated = NoObjectsToConcatenate | Frame(rows: seq<PlanRow>)

  /** What one iteration computes for an included group: its subsample, the
      azimuth `center` of its view vector, the oriented window `entry ..
      exit`, the offset elevation and the view distance. */
  datatype Segment = Segment(
    state: string,
    rows: seq<Row>,
    center: real,
    entry: real,
    exit: real,
    ele: real,
    viewDist: real)

  /** The settings of the cluster video in demo/save_video.py. */
  function ScriptConfig(): (cfg: Config)
    ensures ConfigOk(cfg)
    ensures forall st :: Included(st, cfg) ==> cfg.nsmp[st] <= 400 && cfg.stp[st] <= 2
  {
    Config(
      map["drink_left" := 150, "drink_right" := 150, "run_left" := 400, "run_right" := 400],
      map["drink_left" := 1, "drink_right" := 1, "run_left" := 2, "run_right" := 2],
      10.0, 8.0)
  }

  /** A group takes part in the plan only when both tables have its state:
      otherwise `nsmp[st]` or `stp[st]` raises the KeyError that the loop
      catches to skip the group. */
  predicate Included(state: string, cfg: Config) {
    state in cfg.nsmp && state in cfg.stp
  }

  /** The tables hold a positive cap and a positive stride for every state
      they both list: a zero stride makes the slice raise ValueError, which
      the loop does not catch, and the script's tables hold 150 or 400 and
      1 or 2. */
  ghost predicate ConfigOk(cfg: Config) {
    forall st :: Included(st, cfg) ==> cfg.nsmp[st] >= 1 && cfg.stp[st] >= 1
  }

  /** Python's `<` on strings: lexicographic order of the characters. */
  predicate LabelLess(a: string, b: string)
    decreases |a|
  {
    0 < |b| && (|a| == 0 || a[0] < b[0] || (a[0] == b[0] && LabelLess(a[1..], b[1..])))
  }

  predicate NonEmptyGroups(gs: seq<Group>) {
    forall i :: 0 <= i < |gs| ==> |gs[i].rows| > 0
  }

  /** The rows of `traj` whose state is `st`, in their original order. */
  function RowsWithState(traj: seq<Row>, st: string): seq<Row>
    decreases |traj|
  {
    if traj == [] then []
    else (if traj[0].state == st then [traj[0]] else []) + RowsWithState(traj[1..], st)
  }

  /** The rows kept are exactly the rows of `traj` with state `st`. */
  lemma {:induction false} RowsWithStateMembers(traj: seq<Row>, st: string)
    ensures forall r :: r in RowsWithState(traj, st) <==> r in traj && r.state == st
    decreases |traj|
  {
    if traj != [] {
      RowsWithStateMembers(traj[1..], st);
      assert forall r :: r in traj <==> r == traj[0] || r in traj[1..];
    }
  }

  /** `gs` is what `traj.groupby("state")` yields: one group per state that
      occurs in `traj`, in ascending order of the state labels, each holding
      every row of its state in the original order. */
  ghost predicate GroupByOf(traj: seq<Row>, gs: seq<Group>) {
    && (forall i, j :: 0 <= i < j < |gs| ==> LabelLess(gs[i].state, gs[j].state))
    && (forall i :: 0 <= i < |gs| ==> |gs[i].rows| > 0 && gs[i].rows == RowsWithState(traj, gs[i].state))
    && (forall r :: r in traj ==> exists i :: 0 <= i < |gs| && gs[i].state == r.state)
  }

  /** The shape of `groupby` output the planner's proofs rely on: non-empty
      groups, each holding rows of its own state only, in ascending order of
      the state labels (so no label occurs twice). */
  ghost predicate GroupedByState(gs: seq<Group>) {
    && NonEmptyGroups(gs)
    && (forall i, r :: 0 <= i < |gs| && r in gs[i].rows ==> r.state == gs[i].state)
    && (forall i, j :: 0 <= i < j < |gs| ==> LabelLess(gs[i].state, gs[j].state))
  }

  /** The output of `groupby` over any trajectory has that shape. */
  lemma GroupByIsGrouped(traj: seq<Row>, gs: seq<Group>)
    requires GroupByOf(traj, gs)
    ensures GroupedByState(gs)
  {
    forall i, r | 0 <= i < |gs| && r in gs[i].rows ensures r.state == gs[i].state {
      RowsWithStateMembers(traj, gs[i].state);
    }
  }

  function Comp0(rows: seq<Row>): seq<real> {
    seq(|rows|, i requires 0 <= i < |rows| => rows[i].x)
  }

  function Comp1(rows: seq<Row>): seq<real> {
    seq(|rows|, i requires 0 <= i < |rows| => rows[i].y)
  }

  function Comp2(rows: seq<Row>): seq<real> {
    seq(|rows|, i requires 0 <= i < |rows| => rows[i].z)
  }

  /** `view_vec`: the per-axis median of a subsample's positions. */
  function ViewVec(rows: seq<Row>, m: Numerics): (real, real, real) {
    (m.median(Comp0(rows)), m.median(Comp1(rows)), m.median(Comp2(rows)))
  }

  /** The Euclidean norm of a row's position. */
  function Norm(r: Row, m: Numerics): (n: real)
    requires Lawful(m)
    ensures 0.0 <= n
  {
    var sq := r.x * r.x + r.y * r.y;
    SquaresNonNegative(r.x, r.y);
    ProductNonNegativeSquare(r.z);
    m.sqrt(sq + r.z * r.z)
  }

  lemma ProductNonNegativeSquare(z: real)
    ensures 0.0 <= z * z
  {
    if z < 0.0 { ProductNonNegative(-z, -z); } else { ProductNonNegative(z, z); }
  }

  /** `view_dist`: the largest norm among the rows, attained by one of them. */
  function MaxNorm(rows: seq<Row>, m: Numerics): (d: real)
    requires Lawful(m) && |rows| > 0
    ensures forall i :: 0 <= i < |rows| ==> Norm(rows[i], m) <= d
    ensures exists i :: 0 <= i < |rows| && d == Norm(rows[i], m)
    decreases |rows|
  {
    if |rows| == 1 then Norm(rows[0], m)
    else
      var rest := MaxNorm(rows[1..], m);
      var head := Norm(rows[0], m);
      assert forall i :: 1 <= i < |rows| ==> rows[i] == rows[1..][i - 1];
      if head >= rest then head else rest
  }

  /** The subsample with its three assigned columns: `azi[i]` to row `i`,
      and the same elevation and view distance to every row. */
  function Assign(rows: seq<Row>, azi: seq<real>, ele: real, viewDist: real): (t: seq<PlanRow>)
    requires |azi| == |rows|
    ensures |t| == |rows|
    ensures forall i :: 0 <= i < |t| ==> t[i] == PlanRow(rows[i], azi[i], ele, viewDist)
  {
    seq(|rows|, i requires 0 <= i < |rows| => PlanRow(rows[i], azi[i], ele, viewDist))
  }

  /** The window `entry .. exit` of `s` is `center - off .. center + off`
      ordered by `TieBreak` against `last`: its entry is the end nearer
      `last`, and on a tie it is `center - off`. */
  predicate Oriented(s: Segment, off: real, last: real) {
    (s.entry, s.exit) == TieBreak(s.center - off, s.center + off, last)
  }

  /** `last_ang` when the loop reaches the group of segment `k`: 0 for the
      first segment, the previous segment's exit angle after that. */
  function PrevExit(segs: seq<Segment>, k: nat): real
    requires k < |segs|
  {
    if k == 0 then 0.0 else segs[k - 1].exit
  }

  /** One iteration of the loop for an included group, given `last_ang`. */
  function PlanSegment(g: Group, cfg: Config, m: Numerics, lastAng: real): (s: Segment)
    requires Lawful(m) && ConfigOk(cfg) && Included(g.state, cfg) && |g.rows| > 0
    ensures s.state == g.state
    ensures s.rows == ILoc(g.rows, cfg.nsmp[g.state], cfg.stp[g.state])
    ensures 0 < |s.rows| && s.rows[0] == g.rows[0]
    ensures s.center == VecToAe(ViewVec(s.rows, m), m).0
    ensures -90.0 <= s.center <= 270.0
    ensures Oriented(s, cfg.viewAziOffset, lastAng)
    ensures s.ele == OffsetElevation(VecToAe(ViewVec(s.rows, m), m).1, cfg.viewEleOffset)
    ensures 0.0 <= cfg.viewEleOffset <= 90.0 ==> -90.0 <= s.ele <= 90.0
    ensures forall i :: 0 <= i < |s.rows| ==> Norm(s.rows[i], m) <= s.viewDist
    ensures s.viewDist == MaxNorm(s.rows, m)
  {
    var sub := ILoc(g.rows, cfg.nsmp[g.state], cfg.stp[g.state]);
    var viewVec := ViewVec(sub, m);
    var ae := VecToAe(viewVec, m);
    var a, e := ae.0, ae.1;
    var window := TieBreak(a - cfg.viewAziOffset, a + cfg.viewAziOffset, lastAng);
    var a0, a1 := window.0, window.1;
    Segment(g.state, sub, a, a0, a1, OffsetElevation(e, cfg.viewEleOffset), MaxNorm(sub, m))
  }

  /** The table one segment contributes to `plan_ls`. */
  function SegmentRows(s: Segment): (t: seq<PlanRow>)
    ensures |t| == |s.rows|
    ensures forall i :: 0 <= i < |t| ==>
      && t[i].row == s.rows[i]
      && t[i].ele == s.ele
      && t[i].viewDist == s.viewDist
      && Between(t[i].azi, s.entry, s.exit)
    ensures |t| >= 1 ==> t[0].azi == s.entry
    ensures |t| >= 2 ==> t[|t| - 1].azi == s.exit
    ensures |t| >= 2 ==> forall i :: 0 <= i < |t| - 1 ==>
      t[i + 1].azi - t[i].azi == (s.exit - s.entry) / (|t| - 1) as real
  {
    Assign(s.rows, Linspace(s.entry, s.exit, |s.rows|), s.ele, s.viewDist)
  }

  /** `last_ang` after the given segments: 0 before the first, then the exit
      angle of the latest. */
  function LastAngle(segs: seq<Segment>): real {
    if segs == [] then 0.0 else segs[|segs| - 1].exit
  }

  /** The segments of the included groups, in group order. */
  function Segments(gs: seq<Group>, cfg: Config, m: Numerics): (segs: seq<Segment>)
    requires Lawful(m) && ConfigOk(cfg) && NonEmptyGroups(gs)
    decreases |gs|
  {
    if gs == [] then []
    else
      var prev := Segments(gs[..|gs| - 1], cfg, m);
      var g := gs[|gs| - 1];
      if Included(g.state, cfg) then prev + [PlanSegment(g, cfg, m, LastAngle(prev))] else prev
  }

  /** `plan_ls`: one table per segment. */
  function Tables(segs: seq<Segment>): (ts: seq<seq<PlanRow>>)
    ensures |ts| == |segs|
    decreases |segs|
  {
    if segs == [] then [] else Tables(segs[..|segs| - 1]) + [SegmentRows(segs[|segs| - 1])]
  }

  /** `pd.concat`: the tables one after the other. */
  function Concat<T>(ts: seq<seq<T>>): seq<T>
    decreases |ts|
  {
    if ts == [] then [] else Concat(ts[..|ts| - 1]) + ts[|ts| - 1]
  }

  /** Appending a segment appends its table to `plan_ls`. */
  lemma TablesAppend(prev: seq<Segment>, seg: Segment)
    ensures Tables(prev + [seg]) == Tables(prev) + [SegmentRows(seg)]
  {
    assert (prev + [seg])[..|prev|] == prev;
  }

  /** `Segments` of the first `i + 1` groups, from those of the first `i`. */
  lemma SegmentsPrefix(gs: seq<Group>, i: nat, cfg: Config, m: Numerics)
    requires Lawful(m) && ConfigOk(cfg) && NonEmptyGroups(gs) && i < |gs|
    ensures NonEmptyGroups(gs[..i]) && NonEmptyGroups(gs[..i + 1])
    ensures var prev := Segments(gs[..i], cfg, m);
      Segments(gs[..i + 1], cfg, m)
        == if Included(gs[i].state, cfg) then prev + [PlanSegment(gs[i], cfg, m, LastAngle(prev))] else prev
  {
    assert gs[..i + 1][..i] == gs[..i];
  }

  /** The body of the loop for one included group: subsample, aim the
      camera, orient the azimuth window against `lastAng` and build the
      group's table. Returns the table and the new `last_ang`. It computes
      step by step what `PlanSegment` and `SegmentRows` specify. */
  method PlanGroup(g: Group, cfg: Config, m: Numerics, lastAng: real)
    returns (table: seq<PlanRow>, exit: real)
    requires Lawful(m) && ConfigOk(cfg) && Included(g.state, cfg) && |g.rows| > 0
    ensures table == SegmentRows(PlanSegment(g, cfg, m, lastAng))
    ensures exit == PlanSegment(g, cfg, m, lastAng).exit
  {
    var st, stDf := g.state, g.rows;
    var subdf := ILoc(stDf, cfg.nsmp[st], cfg.stp[st]);
    var viewVec := ViewVec(subdf, m);
    var viewDist := MaxNorm(subdf, m);
    var ae := VecToAe(viewVec, m);
    var a, e := ae.0, ae.1;
    var window := TieBreak(a - cfg.viewAziOffset, a + cfg.viewAziOffset, lastAng);
    var a0, a1 := window.0, window.1;
    exit := a1;
    var azi := Linspace(a0, a1, |subdf|);
    var ele := OffsetElevation(e, cfg.viewEleOffset);
    table := Assign(subdf, azi, ele, viewDist);
    ghost var seg := PlanSegment(g, cfg, m, lastAng);
    assert seg == Segment(st, subdf, a, a0, a1, ele, viewDist);
  }

  /** The planning loop: returns `plan_df` (before smoothing) and the final
      `last_ang`. `pd.concat` of an empty `plan_ls` raises ValueError ("No
      objects to concatenate"), so when no group is included there is no
      `plan_df`. */
  method PlanClusters(groups: seq<Group>, cfg: Config, m: Numerics)
    returns (planDf: Concatenated, lastAng: real)
    requires Lawful(m) && ConfigOk(cfg) && NonEmptyGroups(groups)
    ensures Segments(groups, cfg, m) == [] ==> planDf == NoObjectsToConcatenate
    ensures Segments(groups, cfg, m) != [] ==> planDf == Frame(Concat(Tables(Segments(groups, cfg, m))))
    ensures lastAng == LastAngle(Segments(groups, cfg, m))
  {
    var planLs: seq<seq<PlanRow>> := [];
    lastAng := 0.0;
    for i := 0 to |groups|
      invariant NonEmptyGroups(groups[..i])
      invariant planLs == Tables(Segments(groups[..i], cfg, m))
      invariant lastAng == LastAngle(Segments(groups[..i], cfg, m))
    {
      ghost var prev := Segments(groups[..i], cfg, m);
      SegmentsPrefix(groups, i, cfg, m);
      if !Included(groups[i].state, cfg) {
        // `nsmp[st]` or `stp[st]` raised KeyError: skip the group
        continue;
      }
      ghost var seg := PlanSegment(groups[i], cfg, m, lastAng);
      var table;
      table, lastAng := PlanGroup(groups[i], cfg, m, lastAng);
      planLs := planLs + [table];
      TablesAppend(prev, seg);
    }
    assert groups[..|groups|] == groups;
    if planLs == [] {
      planDf := NoObjectsToConcatenate;
    } else {
      planDf := Frame(Concat(planLs));
    }
  }

  /** The trajectory rows of a plan, in order. */
  function RowsOf(plan: seq<PlanRow>): (rs: seq<Row>)
    ensures |rs| == |plan|
    ensures forall i :: 0 <= i < |plan| ==> rs[i] == plan[i].row
  {
    seq(|plan|, i requires 0 <= i < |plan| => plan[i].row)
  }

  /** The subsamples of the included groups, one after the other in group
      order. */
  function IncludedRows(gs: seq<Group>, cfg: Config): seq<Row>
    requires ConfigOk(cfg)
    decreases |gs|
  {
    if gs == [] then []
    else
      var g := gs[|gs| - 1];
      IncludedRows(gs[..|gs| - 1], cfg)
        + if Included(g.state, cfg) then ILoc(g.rows, cfg.nsmp[g.state], cfg.stp[g.state]) else []
  }

  /** The sum, over the included groups, of `min(nsmp, len)` divided by the
      stride and rounded up. */
  function ExpectedLength(gs: seq<Group>, cfg: Config): int
    requires ConfigOk(cfg)
    decreases |gs|
  {
    if gs == [] then 0
    else
      var g := gs[|gs| - 1];
      ExpectedLength(gs[..|gs| - 1], cfg)
        + if Included(g.state, cfg)
          then (Min(cfg.nsmp[g.state], |g.rows|) + cfg.stp[g.state] - 1) / cfg.stp[g.state]
          else 0
  }

  /** The rows of two concatenated tables. */
  lemma RowsOfAppend(a: seq<PlanRow>, b: seq<PlanRow>)
    ensures RowsOf(a + b) == RowsOf(a) + RowsOf(b)
  {
  }

  /** `Segments` of a non-empty list of groups, from those of all but the
      last group. */
  lemma SegmentsLast(gs: seq<Group>, cfg: Config, m: Numerics)
    requires Lawful(m) && ConfigOk(cfg) && NonEmptyGroups(gs) && gs != []
    ensures NonEmptyGroups(gs[..|gs| - 1])
    ensures var prev, g := Segments(gs[..|gs| - 1], cfg, m), gs[|gs| - 1];
      Segments(gs, cfg, m)
        == if Included(g.state, cfg) then prev + [PlanSegment(g, cfg, m, LastAngle(prev))] else prev
  {
  }

  /** Appending a segment appends its rows to the plan's rows. */
  lemma RowsAfterAppend(prev: seq<Segment>, seg: Segment)
    ensures RowsOf(Concat(Tables(prev + [seg]))) == RowsOf(Concat(Tables(prev))) + seg.rows
  {
    PlanAppend(prev, seg);
    RowsOfAppend(Concat(Tables(prev)), SegmentRows(seg));
    assert RowsOf(SegmentRows(seg)) == seg.rows;
  }

  /** The plan holds exactly the subsampled rows of the included groups, in
      group order: a group whose state is missing from either table
      contributes nothing. */
  lemma {:induction false} PlanHoldsIncludedSubsamples(gs: seq<Group>, cfg: Config, m: Numerics)
    requires Lawful(m) && ConfigOk(cfg) && NonEmptyGroups(gs)
    ensures RowsOf(Concat(Tables(Segments(gs, cfg, m)))) == IncludedRows(gs, cfg)
  {
    if gs != [] {
      var init, g := gs[..|gs| - 1], gs[|gs| - 1];
      if Included(g.state, cfg) {
        SegmentsLast(gs, cfg, m);
        var prev := Segments(init, cfg, m);
        var seg := PlanSegment(g, cfg, m, LastAngle(prev));
        PlanHoldsIncludedSubsamples(init, cfg, m);
        RowsAfterAppend(prev, seg);
      } else {
        SegmentsLast(gs, cfg, m);
        PlanHoldsIncludedSubsamples(init, cfg, m);
      }
    }
  }

  /** The number of subsampled rows of the included groups. */
  lemma {:induction false} IncludedRowsLength(gs: seq<Group>, cfg: Config)
    requires ConfigOk(cfg)
    ensures |IncludedRows(gs, cfg)| == ExpectedLength(gs, cfg)
  {
    if gs != [] {
      var g := gs[|gs| - 1];
      IncludedRowsLength(gs[..|gs| - 1], cfg);
      if Included(g.state, cfg) {
        ILocKeepsStrideRows(g.rows, cfg.nsmp[g.state], cfg.stp[g.state]);
      }
    }
  }

  /** The length of `plan_df` is the sum of the included groups' subsample
      lengths, `ceil(min(nsmp, len) / stp)` each. */
  lemma PlanLength(gs: seq<Group>, cfg: Config, m: Numerics)
    requires Lawful(m) && ConfigOk(cfg) && NonEmptyGroups(gs)
    ensures |Concat(Tables(Segments(gs, cfg, m)))| == ExpectedLength(gs, cfg)
  {
    PlanHoldsIncludedSubsamples(gs, cfg, m);
    IncludedRowsLength(gs, cfg);
  }

  /** The plan has no segment, so `pd.concat` raises, exactly when no
      group's state is in both tables. */
  lemma {:induction false} NothingToConcatenate(gs: seq<Group>, cfg: Config, m: Numerics)
    requires Lawful(m) && ConfigOk(cfg) && NonEmptyGroups(gs)
    ensures Segments(gs, cfg, m) == [] <==> forall i :: 0 <= i < |gs| ==> !Included(gs[i].state, cfg)
  {
    if gs != [] {
      SegmentsLast(gs, cfg, m);
      NothingToConcatenate(gs[..|gs| - 1], cfg, m);
      assert forall i :: 0 <= i < |gs| - 1 ==> gs[..|gs| - 1][i] == gs[i];
    }
  }

  /** Every segment's window is `center - offset .. center + offset`,
      ordered by `TieBreak` against the `last_ang` in force when its group
      was reached: 0 for the first segment, the previous segment's exit angle
      after that. So its entry is the end nearer that angle and, on a tie,
      `center - offset`. */
  lemma {:induction false} WindowsFollowLastAngle(gs: seq<Group>, cfg: Config, m: Numerics, k: nat)
    requires Lawful(m) && ConfigOk(cfg) && NonEmptyGroups(gs)
    requires k < |Segments(gs, cfg, m)|
    ensures var segs := Segments(gs, cfg, m);
      Oriented(segs[k], cfg.viewAziOffset, PrevExit(segs, k))
  {
    var init, g := gs[..|gs| - 1], gs[|gs| - 1];
    if Included(g.state, cfg) {
      SegmentsLast(gs, cfg, m);
      var prev := Segments(init, cfg, m);
      var segs := prev + [PlanSegment(g, cfg, m, LastAngle(prev))];
      if k < |prev| {
        WindowsFollowLastAngle(init, cfg, m, k);
        assert segs[k] == prev[k] && PrevExit(segs, k) == PrevExit(prev, k);
      } else {
        assert PrevExit(segs, k) == LastAngle(prev);
      }
    } else {
      SegmentsLast(gs, cfg, m);
      WindowsFollowLastAngle(init, cfg, m, k);
    }
  }

  /** The bounds every row of the plan keeps: the view distance is at least
      the row's own norm, which is not negative; the azimuth lies within the
      azimuth offset of [-90, 270]; and with an elevation offset between 0
      and 90 the elevation stays within [-90, 90]. */
  predicate RowBounded(r: PlanRow, cfg: Config, m: Numerics)
    requires Lawful(m)
  {
    && 0.0 <= Norm(r.row, m) <= r.viewDist
    && -90.0 - Abs(cfg.viewAziOffset) <= r.azi <= 270.0 + Abs(cfg.viewAziOffset)
    && (0.0 <= cfg.viewEleOffset <= 90.0 ==> -90.0 <= r.ele <= 90.0)
  }

  /** Every row of `plan` keeps the bounds of `RowBounded`. */
  predicate AllBounded(plan: seq<PlanRow>, cfg: Config, m: Numerics)
    requires Lawful(m)
  {
    forall i :: 0 <= i < |plan| ==> RowBounded(plan[i], cfg, m)
  }

  /** The bounds survive concatenation. */
  lemma AppendBounded(a: seq<PlanRow>, b: seq<PlanRow>, cfg: Config, m: Numerics)
    requires Lawful(m) && AllBounded(a, cfg, m) && AllBounded(b, cfg, m)
    ensures AllBounded(a + b, cfg, m)
  {
    forall i | 0 <= i < |a + b| ensures RowBounded((a + b)[i], cfg, m) {
      if i < |a| { assert (a + b)[i] == a[i]; } else { assert (a + b)[i] == b[i - |a|]; }
    }
  }

  /** The rows of one planned segment keep the bounds. */
  lemma SegmentBounded(g: Group, cfg: Config, m: Numerics, lastAng: real)
    requires Lawful(m) && ConfigOk(cfg) && Included(g.state, cfg) && |g.rows| > 0
    ensures AllBounded(SegmentRows(PlanSegment(g, cfg, m, lastAng)), cfg, m)
  {
    var seg := PlanSegment(g, cfg, m, lastAng);
    var t := SegmentRows(seg);
    var off := cfg.viewAziOffset;
    assert seg.entry == seg.center - off || seg.entry == seg.center + off;
    assert seg.exit == seg.center - off || seg.exit == seg.center + off;
    forall i | 0 <= i < |t| ensures RowBounded(t[i], cfg, m) {
      assert t[i].row == seg.rows[i];
    }
  }

  /** Appending a segment appends its table's rows to the concatenated plan. */
  lemma PlanAppend(prev: seq<Segment>, seg: Segment)
    ensures Concat(Tables(prev + [seg])) == Concat(Tables(prev)) + SegmentRows(seg)
  {
    TablesAppend(prev, seg);
    assert (Tables(prev) + [SegmentRows(seg)])[..|prev|] == Tables(prev);
  }

  /** Every row of the plan keeps the bounds of `RowBounded`. */
  lemma {:induction false} PlanRowBounds(gs: seq<Group>, cfg: Config, m: Numerics)
    requires Lawful(m) && ConfigOk(cfg) && NonEmptyGroups(gs)
    ensures AllBounded(Concat(Tables(Segments(gs, cfg, m))), cfg, m)
  {
    if gs != [] {
      var init, g := gs[..|gs| - 1], gs[|gs| - 1];
      if Included(g.state, cfg) {
        SegmentsLast(gs, cfg, m);
        var prev := Segments(init, cfg, m);
        var seg := PlanSegment(g, cfg, m, LastAngle(prev));
        PlanRowBounds(init, cfg, m);
        SegmentBounded(g, cfg, m, LastAngle(prev));
        PlanAppend(prev, seg);
        AppendBounded(Concat(Tables(prev)), SegmentRows(seg), cfg, m);
      } else {
        SegmentsLast(gs, cfg, m);
        PlanRowBounds(init, cfg, m);
      }
    }
  }

  /** Every segment carries the state of one of the groups, so a bound on
      the groups' states bounds the segments' states. */
  lemma {:induction false} SegmentStatesBelow(gs: seq<Group>, cfg: Config, m: Numerics, bound: string)
    requires Lawful(m) && ConfigOk(cfg) && NonEmptyGroups(gs)
    requires forall i :: 0 <= i < |gs| ==> LabelLess(gs[i].state, bound)
    ensures var segs := Segments(gs, cfg, m);
      forall k :: 0 <= k < |segs| ==> LabelLess(segs[k].state, bound)
  {
    if gs != [] {
      SegmentsLast(gs, cfg, m);
      SegmentStatesBelow(gs[..|gs| - 1], cfg, m, bound);
    }
  }

  /** At most one segment per state, in ascending order of the states, each
      holding rows of its own state only. */
  predicate InLabelOrder(segs: seq<Segment>) {
    && (forall k, l :: 0 <= k < l < |segs| ==> LabelLess(segs[k].state, segs[l].state))
    && (forall k, r :: 0 <= k < |segs| && r in segs[k].rows ==> r.state == segs[k].state)
  }

  /** A segment whose state is above every earlier one and whose rows all
      carry that state keeps the order. */
  lemma AppendInLabelOrder(prev: seq<Segment>, seg: Segment)
    requires InLabelOrder(prev)
    requires forall k :: 0 <= k < |prev| ==> LabelLess(prev[k].state, seg.state)
    requires forall r :: r in seg.rows ==> r.state == seg.state
    ensures InLabelOrder(prev + [seg])
  {
    var segs := prev + [seg];
    assert forall k :: 0 <= k < |prev| ==> segs[k] == prev[k];
  }

  /** Because `groupby` yields each state once, in ascending order, the plan
      has at most one segment per state, in ascending order of the states,
      and each segment holds rows of its own state only. */
  lemma {:induction false} SegmentsFollowLabelOrder(gs: seq<Group>, cfg: Config, m: Numerics)
    requires Lawful(m) && ConfigOk(cfg) && GroupedByState(gs)
    ensures InLabelOrder(Segments(gs, cfg, m))
  {
    if gs != [] {
      var init, g := gs[..|gs| - 1], gs[|gs| - 1];
      assert GroupedByState(init);
      if Included(g.state, cfg) {
        SegmentsLast(gs, cfg, m);
        var prev := Segments(init, cfg, m);
        SegmentsFollowLabelOrder(init, cfg, m);
        SegmentStatesBelow(init, cfg, m, g.state);
        var seg := PlanSegment(g, cfg, m, LastAngle(prev));
        ILocKeepsStrideRows(g.rows, cfg.nsmp[g.state], cfg.stp[g.state]);
        forall r | r in seg.rows ensures r.state == g.state {
          var j :| 0 <= j < |seg.rows| && seg.rows[j] == r;
          assert r == g.rows[j * cfg.stp[g.state]];
        }
        AppendInLabelOrder(prev, seg);
      } else {
        SegmentsLast(gs, cfg, m);
        SegmentsFollowLabelOrder(init, cfg, m);
      }
    }
  }

  function Azis(plan: seq<PlanRow>): seq<real> {
    seq(|plan|, i requires 0 <= i < |plan| => plan[i].azi)
  }

  function Eles(plan: seq<PlanRow>): seq<real> {
    seq(|plan|, i requires 0 <= i < |plan| => plan[i].ele)
  }

  function Dists(plan: seq<PlanRow>): seq<real> {
    seq(|plan|, i requires 0 <= i < |plan| => plan[i].viewDist)
  }

  /** The post-pass that smooths the `azi`, `ele` and `view_dist` columns of
      `plan_df`, each on its own, with the Gaussian filter left abstract: it
      keeps the table's length and the order of its rows. */
  function SmoothPlan(plan: seq<PlanRow>, gauss: seq<real> -> seq<real>): (r: seq<PlanRow>)
    requires forall col :: |gauss(col)| == |col|
    ensures |r| == |plan|
    ensures RowsOf(r) == RowsOf(plan)
  {
    var azi, ele, dist := gauss(Azis(plan)), gauss(Eles(plan)), gauss(Dists(plan));
    seq(|plan|, i requires 0 <= i < |plan| => PlanRow(plan[i].row, azi[i], ele[i], dist[i]))
  }

  /** The groups `groupby("state")` yields for four trajectory rows: two of
      state `run_left`, one of `drink_left` and one of `stand`. */
  function ExampleGroups(r0: Row, r1: Row, r2: Row, r3: Row): seq<Group> {
    [Group("drink_left", [r2]), Group("run_left", [r0, r1]), Group("stand", [r3])]
  }

  /** Those groups are what `groupby("state")` yields for the trajectory
      `[r0, r1, r2, r3]`: `drink_left` sorts first, and the `run_left` group
      holds both of its rows in order. */
  lemma ExampleGroupsGrouped(r0: Row, r1: Row, r2: Row, r3: Row)
    requires r0.state == "run_left" && r1.state == "run_left"
    requires r2.state == "drink_left" && r3.state == "stand"
    ensures GroupByOf([r0, r1, r2, r3], ExampleGroups(r0, r1, r2, r3))
  {
    var traj, gs := [r0, r1, r2, r3], ExampleGroups(r0, r1, r2, r3);
    ExampleLabelOrder();
    ExampleFilters(r0, r1, r2, r3);
    forall r | r in traj ensures exists i :: 0 <= i < |gs| && gs[i].state == r.state {
      if r == r2 { assert gs[0].state == r.state; }
      else if r == r3 { assert gs[2].state == r.state; }
      else { assert gs[1].state == r.state; }
    }
  }

  /** `groupby` sorts the example's labels as `drink_left < run_left < stand`. */
  lemma ExampleLabelOrder()
    ensures LabelLess("drink_left", "run_left") && LabelLess("run_left", "stand")
    ensures LabelLess("drink_left", "stand")
  {
  }

  /** The `groupby` filter of the example trajectory, one label at a time. */
  lemma ExampleFilters(r0: Row, r1: Row, r2: Row, r3: Row)
    requires r0.state == "run_left" && r1.state == "run_left"
    requires r2.state == "drink_left" && r3.state == "stand"
    ensures RowsWithState([r0, r1, r2, r3], "drink_left") == [r2]
    ensures RowsWithState([r0, r1, r2, r3], "run_left") == [r0, r1]
    ensures RowsWithState([r0, r1, r2, r3], "stand") == [r3]
  {
    assert [r3] + [] == [r3];
    assert [r2] + [r3] == [r2, r3];
    assert [r1] + [r2, r3] == [r1, r2, r3];
    assert [r0] + [r1, r2, r3] == [r0, r1, r2, r3];
    RowsWithStateCons(r3, [], "drink_left");
    RowsWithStateCons(r2, [r3], "drink_left");
    RowsWithStateCons(r1, [r2, r3], "drink_left");
    RowsWithStateCons(r0, [r1, r2, r3], "drink_left");
    RowsWithStateCons(r3, [], "run_left");
    RowsWithStateCons(r2, [r3], "run_left");
    RowsWithStateCons(r1, [r2, r3], "run_left");
    RowsWithStateCons(r0, [r1, r2, r3], "run_left");
    RowsWithStateCons(r3, [], "stand");
    RowsWithStateCons(r2, [r3], "stand");
    RowsWithStateCons(r1, [r2, r3], "stand");
    RowsWithStateCons(r0, [r1, r2, r3], "stand");
  }

  lemma RowsWithStateCons(r: Row, rest: seq<Row>, st: string)
    ensures RowsWithState([r] + rest, st) == (if r.state == st then [r] else []) + RowsWithState(rest, st)
  {
    assert ([r] + rest)[1..] == rest;
  }

  /** With the script's tables, the `drink_left` group comes first and keeps
      its one row, the `run_left` group keeps every second row (stride 2),
      and the `stand` group, in neither table, is skipped. */
  lemma ScriptPlanExample(m: Numerics, r0: Row, r1: Row, r2: Row, r3: Row)
    requires Lawful(m)
    ensures var plan := Concat(Tables(Segments(ExampleGroups(r0, r1, r2, r3), ScriptConfig(), m)));
      RowsOf(plan) == [r2, r0]
  {
    PlanHoldsIncludedSubsamples(ExampleGroups(r0, r1, r2, r3), ScriptConfig(), m);
    ExampleSubsamples(r0, r1, r2, r3);
  }

  /** The subsamples of the example groups under the script's tables. */
  lemma ExampleSubsamples(r0: Row, r1: Row, r2: Row, r3: Row)
    ensures IncludedRows(ExampleGroups(r0, r1, r2, r3), ScriptConfig()) == [r2, r0]
  {
    var gs, cfg := ExampleGroups(r0, r1, r2, r3), ScriptConfig();
    ILocUnitStride([r2], 150);
    ILocKeepsStrideRows([r0, r1], 400, 2);
    assert ILoc([r0, r1], 400, 2) == [r0];
    assert !Included("stand", cfg);
    assert gs[..2][..1][..0] == [];
    assert IncludedRows(gs[..2][..1], cfg) == [r2];
    assert IncludedRows(gs[..2], cfg) == [r2, r0];
  }
}
