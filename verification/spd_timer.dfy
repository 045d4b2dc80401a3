/** One SPD3303 channel's Timer mode: the five-row table of voltage,
    current and duration, how the panel edits and clamps it, and how it
    estimates which row the instrument is on. */
module SpdTimer {
  import opened Wrappers

  /** Rows in each channel's table (`_timer_mode_num_steps`). */
  const Steps: nat := 5

  /** One timer row: voltage, current and duration in seconds. */
  datatype Row = Row(v: real, i: real, t: real)

  /** `row[col] = x` for the table's columns 0, 1 and 2; any other column
      matches no case and changes nothing. */
  function SetField(r: Row, col: nat, x: real): Row {
    if col == 0 then r.(v := x)
    else if col == 1 then r.(i := x)
    else if col == 2 then r.(t := x)
    else r
  }

  /* ---------- the table and its aliasing ---------- */

  /** A channel's table as Python holds it: a list of five references to
      row lists. `refs[k]` is the list row k refers to; rows with equal
      refs are one list. */
  datatype Table = Table(store: seq<Row>, refs: seq<nat>)

  predicate WellFormed(t: Table) {
    |t.refs| == Steps && forall k :: 0 <= k < |t.refs| ==> t.refs[k] < |t.store|
  }

  /** The rows as the panel reads them. */
  function Rows(t: Table): (r: seq<Row>)
    requires WellFormed(t)
    ensures |r| == Steps
  {
    seq(Steps, k requires 0 <= k < Steps => t.store[t.refs[k]])
  }

  /** No two rows are the same list. */
  predicate Independent(t: Table)
    requires WellFormed(t)
  {
    forall j, k :: 0 <= j < k < Steps ==> t.refs[j] != t.refs[k]
  }

  /** The table the panel starts with: `[[0., 0., 0.]] * 5` is five
      references to one zero row. */
  const Initial: Table := Table([Row(0.0, 0.0, 0.0)], [0, 0, 0, 0, 0])

  /** Five separate row lists, as `refresh` and loading a configuration
      leave the table. */
  function Fresh(rows: seq<Row>): (t: Table)
    requires |rows| == Steps
    ensures WellFormed(t) && Independent(t)
    ensures Rows(t) == rows
  {
    Table(rows, [0, 1, 2, 3, 4])
  }

  /** The table the panel evidently means to start with: five separate zero
      rows. */
  function InitialFresh(): (t: Table)
    ensures WellFormed(t) && Independent(t)
    ensures forall k :: 0 <= k < Steps ==> Rows(t)[k] == Row(0.0, 0.0, 0.0)
  {
    Fresh(seq(Steps, _ => Row(0.0, 0.0, 0.0)))
  }

  /** `params[k] = [v, i, t]`: row k becomes a new list. */
  function Assign(t: Table, k: nat, row: Row): (r: Table)
    requires WellFormed(t) && k < Steps
    ensures WellFormed(r)
    ensures Rows(r) == Rows(t)[k := row]
    ensures Independent(t) ==> Independent(r)
  {
    Table(t.store + [row], t.refs[k := |t.store|])
  }

  /** `params[k][col] = x` (`_on_timer_table_change`): the list row k refers
      to changes in place, and so does every row that is the same list. */
  function SetCell(t: Table, k: nat, col: nat, x: real): (r: Table)
    requires WellFormed(t) && k < Steps
    ensures WellFormed(r) && r.refs == t.refs
    ensures forall j :: 0 <= j < Steps ==>
              Rows(r)[j] == if t.refs[j] == t.refs[k] then SetField(Rows(t)[k], col, x) else Rows(t)[j]
  {
    var r := Table(t.store[t.refs[k] := SetField(t.store[t.refs[k]], col, x)], t.refs);
    assert forall j :: 0 <= j < Steps ==> Rows(r)[j] == r.store[t.refs[j]];
    r
  }

  /** In a table of separate lists an edit changes its own row only. */
  lemma EditIndependent(t: Table, k: nat, col: nat, x: real)
    requires WellFormed(t) && k < Steps && Independent(t)
    ensures Rows(SetCell(t, k, col, x)) == Rows(t)[k := SetField(Rows(t)[k], col, x)]
    ensures Independent(SetCell(t, k, col, x))
  {
    var r := SetCell(t, k, col, x);
    forall j | 0 <= j < Steps
      ensures Rows(r)[j] == Rows(t)[k := SetField(Rows(t)[k], col, x)][j]
    {
      if j < k {
        assert t.refs[j] != t.refs[k];
      } else if j > k {
        assert t.refs[k] != t.refs[j];
      }
    }
  }

  /** In the starting table an edit of any cell changes that cell in every
      row: setting row 3's duration to 5 s gives all five rows 5 s. */
  lemma EditInitial(k: nat, col: nat, x: real)
    requires k < Steps
    ensures WellFormed(Initial)
    ensures forall j :: 0 <= j < Steps ==> Rows(SetCell(Initial, k, col, x))[j] == SetField(Row(0.0, 0.0, 0.0), col, x)
    ensures Rows(SetCell(Initial, 2, 2, 5.0)) == seq(Steps, _ => Row(0.0, 0.0, 5.0))
  {
    assert WellFormed(Initial);
    var r := SetCell(Initial, 2, 2, 5.0);
    assert forall j :: 0 <= j < Steps ==> Rows(r)[j] == Row(0.0, 0.0, 5.0);
  }

  /** The evidently intended starting table edits one row only. */
  lemma EditInitialFresh(k: nat, col: nat, x: real)
    requires k < Steps
    ensures Rows(SetCell(InitialFresh(), k, col, x)) == Rows(InitialFresh())[k := SetField(Row(0.0, 0.0, 0.0), col, x)]
  {
    EditIndependent(InitialFresh(), k, col, x);
  }

  /* ---------- the min/max clamp ---------- */

  /** A channel's Min/Max spin boxes for voltage and current. */
  datatype Limits = Limits(minV: real, maxV: real, minI: real, maxI: real)

  /** Python `max(lo, min(hi, x))`. */
  function Clamp(lo: real, hi: real, x: real): (r: real)
    ensures lo <= hi ==> lo <= r <= hi
    ensures lo <= x <= hi ==> r == x
    ensures lo > hi ==> r == lo
    ensures lo <= hi && x < lo ==> r == lo
    ensures lo <= hi && x > hi ==> r == hi
  {
    var m := if hi < x then hi else x;
    if lo > m then lo else m
  }

  /** A row with its voltage and current clamped to the limits; the
      duration is untouched. */
  function ClampRow(row: Row, lim: Limits): Row {
    Row(Clamp(lim.minV, lim.maxV, row.v), Clamp(lim.minI, lim.maxI, row.i), row.t)
  }

  predicate InLimits(row: Row, lim: Limits) {
    lim.minV <= row.v <= lim.maxV && lim.minI <= row.i <= lim.maxI
  }

  /** A row in the limits is left alone, one outside is moved into them,
      and clamping twice is clamping once. */
  lemma ClampRowSpec(row: Row, lim: Limits)
    ensures InLimits(row, lim) ==> ClampRow(row, lim) == row
    ensures lim.minV <= lim.maxV && lim.minI <= lim.maxI ==>
              InLimits(ClampRow(row, lim), lim) && (ClampRow(row, lim) == row <==> InLimits(row, lim))
    ensures ClampRow(row, lim).t == row.t
    ensures ClampRow(ClampRow(row, lim), lim) == ClampRow(row, lim)
  {
  }

  /** Row indices, strictly increasing. */
  predicate Increasing(ks: seq<nat>) {
    forall a, b :: 0 <= a < b < |ks| ==> ks[a] < ks[b]
  }

  /** `_update_timer_minmax` from row `k` on: each row is clamped, a changed
      row becomes a new list, and the changed rows are listed (each gets a
      `TIMER:SET`). */
  function ClampFrom(t: Table, lim: Limits, k: nat): (r: (Table, seq<nat>))
    requires WellFormed(t) && k <= Steps
    ensures WellFormed(r.0)
    ensures forall j :: 0 <= j < k ==> Rows(r.0)[j] == Rows(t)[j]
    ensures forall j :: k <= j < Steps ==> Rows(r.0)[j] == ClampRow(Rows(t)[j], lim)
    ensures forall j :: j in r.1 <==> k <= j < Steps && ClampRow(Rows(t)[j], lim) != Rows(t)[j]
    ensures Increasing(r.1)
    ensures forall a :: 0 <= a < |r.1| ==> k <= r.1[a] < Steps
    decreases Steps - k
  {
    if k == Steps then (t, [])
    else
      var row := Rows(t)[k];
      var row1 := ClampRow(row, lim);
      if row1 != row then
        var rest := ClampFrom(Assign(t, k, row1), lim, k + 1);
        ClampRowSpec(row, lim);
        (rest.0, [k] + rest.1)
      else
        ClampFrom(t, lim, k + 1)
  }

  /** The whole table clamped. */
  function ClampTable(t: Table, lim: Limits): (r: (Table, seq<nat>))
    requires WellFormed(t)
    ensures WellFormed(r.0)
    ensures forall a :: 0 <= a < |r.1| ==> r.1[a] < Steps
  {
    ClampFrom(t, lim, 0)
  }

  /** Every row ends up clamped with its duration kept, exactly the rows
      that moved are re-sent, in order, and a second clamp sends nothing. */
  lemma ClampTableSpec(t: Table, lim: Limits)
    requires WellFormed(t)
    ensures var r := ClampTable(t, lim);
            && (forall j :: 0 <= j < Steps ==> Rows(r.0)[j] == ClampRow(Rows(t)[j], lim) && Rows(r.0)[j].t == Rows(t)[j].t)
            && (forall j :: j in r.1 <==> 0 <= j < Steps && ClampRow(Rows(t)[j], lim) != Rows(t)[j])
            && Increasing(r.1)
            && ClampTable(r.0, lim).1 == []
            && Rows(ClampTable(r.0, lim).0) == Rows(r.0)
  {
    var r := ClampTable(t, lim);
    forall j | 0 <= j < Steps
      ensures ClampRow(Rows(r.0)[j], lim) == Rows(r.0)[j]
    {
      ClampRowSpec(Rows(t)[j], lim);
    }
    var r2 := ClampTable(r.0, lim);
    assert Rows(r2.0) == Rows(r.0);
  }

  /* ---------- starting the timer ---------- */

  /** The first row from `k` on with a positive duration, or 0. */
  function FirstPositiveFrom(rows: seq<Row>, k: nat): (r: nat)
    requires |rows| == Steps && k <= Steps
    ensures r < Steps
    ensures (exists j :: k <= j < Steps && rows[j].t > 0.0) ==>
              k <= r && rows[r].t > 0.0 && forall j :: k <= j < r ==> rows[j].t <= 0.0
    ensures (forall j :: k <= j < Steps ==> rows[j].t <= 0.0) ==> r == 0
    decreases Steps - k
  {
    if k == Steps then 0
    else if rows[k].t > 0.0 then k
    else FirstPositiveFrom(rows, k + 1)
  }

  /** The step `_on_click_timer_on_off` starts at: it skips rows of zero
      (or negative) duration, and stays at row 0 when no row has a positive
      duration. */
  function StartStep(rows: seq<Row>): (r: nat)
    requires |rows| == Steps
    ensures r < Steps
  {
    FirstPositiveFrom(rows, 0)
  }

  lemma StartStepSpec(rows: seq<Row>)
    requires |rows| == Steps
    ensures (exists j :: 0 <= j < Steps && rows[j].t > 0.0) ==>
              rows[StartStep(rows)].t > 0.0 && forall j :: 0 <= j < StartStep(rows) ==> rows[j].t <= 0.0
    ensures (forall j :: 0 <= j < Steps ==> rows[j].t <= 0.0) ==> StartStep(rows) == 0
  {
  }

  /** `any([x[2] for x in rows])`: some row's duration is non-zero. */
  predicate AnyDuration(rows: seq<Row>) {
    exists k :: 0 <= k < |rows| && rows[k].t != 0.0
  }

  /** With no negative durations, a table the TIMER button accepts starts on
      a row that has a duration. */
  lemma EnabledStartsOnDuration(rows: seq<Row>)
    requires |rows| == Steps && AnyDuration(rows)
    requires forall k :: 0 <= k < Steps ==> rows[k].t >= 0.0
    ensures rows[StartStep(rows)].t > 0.0
  {
    var k :| 0 <= k < |rows| && rows[k].t != 0.0;
    assert rows[k].t > 0.0;
  }

  /* ---------- following the steps ---------- */

  /** The panel's estimate of one channel's timer: whether it runs, the
      step it is on and the time spent in that step. */
  datatype Run = Run(running: bool, step: nat, elapsed: real)

  predicate RunValid(run: Run) {
    run.running ==> run.step < Steps
  }

  function Widths(rows: seq<Row>): (w: seq<real>)
    ensures |w| == |rows|
    ensures forall k :: 0 <= k < |rows| ==> w[k] == rows[k].t
  {
    seq(|rows|, k requires 0 <= k < |rows| => rows[k].t)
  }

  /** The total duration of the rows before `k`. */
  function Before(w: seq<real>, k: nat): real
    requires k <= |w|
  {
    if k == 0 then 0.0 else Before(w, k - 1) + w[k - 1]
  }

  /** The `while delta >= widths[step]` loop: each passed row's duration is
      taken off `d` and the step moves on; passing the last row stops the
      timer. Returns whether it still runs, the step and what is left of
      `d`. The step grows by one each round, so the loop ends even over
      rows of zero duration. */
  function Pass(w: seq<real>, step: nat, d: real): (r: (bool, nat, real))
    requires |w| == Steps && step < Steps && d >= w[step]
    ensures step <= r.1 < Steps
    ensures r.0 ==> step < r.1 && 0.0 <= r.2 < w[r.1] && Before(w, r.1) + r.2 == Before(w, step) + d
    ensures !r.0 ==> r.1 == Steps - 1 && Before(w, Steps) <= Before(w, step) + d
    decreases Steps - step
  {
    var d1 := d - w[step];
    if step + 1 >= Steps then (false, step, d1)
    else if d1 >= w[step + 1] then Pass(w, step + 1, d1)
    else (true, step + 1, d1)
  }

  /** Where the estimate is: the durations of the rows passed plus the
      time spent in the current one. */
  function Position(rows: seq<Row>, run: Run): real
    requires |rows| == Steps && run.step <= Steps
  {
    Before(Widths(rows), run.step) + run.elapsed
  }

  /** One heartbeat of `hb` seconds for one channel
      (`_update_timer_table_heartbeat`): the time only counts while the
      output is on; when it reaches the step's duration the step moves on.
      Returns the new estimate, the row whose setpoints the panel now shows
      (when the step moved and the timer still runs) and whether the panel
      must be redrawn. */
  function Tick(run: Run, rows: seq<Row>, on: bool, hb: real): (r: (Run, Option<Row>, bool))
    requires |rows| == Steps && RunValid(run)
    ensures RunValid(r.0)
  {
    if !run.running then (run, None, false)
    else
      var w := Widths(rows);
      var e := if on then run.elapsed + hb else run.elapsed;
      if e >= w[run.step] then
        var p := Pass(w, run.step, e);
        if p.0 then (Run(true, p.1, p.2), Some(rows[p.1]), true)
        else (Run(false, p.1, e), None, true)
      else (Run(true, run.step, e), None, false)
  }

  /** What a heartbeat does: a stopped timer is left alone; a running one
      moves its position on by the time the output was on, and stays on a
      step whose duration it has not used up, showing that step's
      setpoints; running past the last row stops it on the last row with
      the time it had, past the total duration. */
  lemma TickSpec(run: Run, rows: seq<Row>, on: bool, hb: real)
    requires |rows| == Steps && RunValid(run)
    ensures var r := Tick(run, rows, on, hb);
            var inc := if on then hb else 0.0;
            && (!run.running ==> r == (run, None, false))
            && (run.running && r.0.running ==>
                  && Position(rows, r.0) == Position(rows, run) + inc
                  && r.0.elapsed < rows[r.0.step].t
                  && r.0.step >= run.step)
            && (run.running && r.0.step == run.step && r.0.running ==>
                  r.0.elapsed == run.elapsed + inc && r.1 == None && !r.2)
            && (run.running && r.0.step > run.step && r.0.running ==>
                  r.1 == Some(rows[r.0.step]) && r.2 && 0.0 <= r.0.elapsed)
            && (run.running && !r.0.running ==>
                  && r.0.step == Steps - 1 && r.0.elapsed == run.elapsed + inc
                  && Before(Widths(rows), Steps) <= Position(rows, run) + inc
                  && r.1 == None && r.2)
  {
  }

  /** While the output is off no time passes: the estimate does not move. */
  lemma TickOffHolds(run: Run, rows: seq<Row>, hb: real)
    requires |rows| == Steps && RunValid(run) && run.running
    requires run.elapsed < rows[run.step].t
    ensures Tick(run, rows, false, hb) == (run, None, false)
  {
  }
}
