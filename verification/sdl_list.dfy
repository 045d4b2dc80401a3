/** The SDL1000 driver's List mode: the table of steps it keeps beside the
    parameter snapshot, how it reads the table from the load and writes it
    back, how it clamps the table to the current ranges, how the table is
    flattened into a saved configuration, and the estimator that follows
    the running list on the screen. */
module SdlList {
  import opened Wrappers
  import opened Text
  import opened Values
  import opened OrderedMap
  import opened SdlRegistry

  /** The List table: level, width and slew of each step, kept as three
      parallel lists (`_list_mode_levels`, `_list_mode_widths`,
      `_list_mode_slews`). */
  datatype Rows = Rows(levels: seq<real>, widths: seq<real>, slews: seq<real>)
  {
    predicate Aligned() { |levels| == |widths| == |slews| }

    /** The first `n` steps. */
    function Take(n: nat): (r: Rows)
      requires Aligned() && n <= |levels|
      ensures r.Aligned() && |r.levels| == n
    {
      Rows(levels[..n], widths[..n], slews[..n])
    }
  }

  const NoRows := Rows([], [], [])

  /** `ps[':LIST:STEP']` as the bound Python's `range` takes: an int (a bool
      is an int); a missing key is a KeyError, any other value a TypeError. */
  function StepCount(ps: Dict<string, Value>): (r: Result<int, Error>)
    ensures r.Success? <==> HasKey(ps, ":LIST:STEP") && (Get(ps, ":LIST:STEP").value.VInt? || Get(ps, ":LIST:STEP").value.VBool?)
    ensures r.Success? ==> PyEq(VInt(r.value), Get(ps, ":LIST:STEP").value)
    ensures r.Failure? ==> r.error == (if HasKey(ps, ":LIST:STEP") then TypeError else KeyError)
  {
    var v :- Lookup(ps, ":LIST:STEP");
    match v
    case VInt(n) => Success(n)
    case VBool(b) => Success(if b then 1 else 0)
    case _ => Failure(TypeError)
  }

  /* ---------- reading and writing the table ---------- */

  /** The three columns, in the order the driver handles them. */
  const Columns: seq<string> := ["LEVEL", "WIDTH", "SLEW"]

  /** The query for one cell: `:LIST:<col>? <i>`. */
  function Query(col: string, i: nat): string { ":LIST:" + col + "? " + NatToString(i) }

  /** `float(query(q))`. */
  function AskNumber(ask: string -> Reply, q: string): (r: Result<real, Error>)
    ensures r.Success? <==> ask(q).Reply? && ask(q).number.Some?
    ensures r.Success? ==> r.value == ask(q).number.value
    ensures r.Failure? ==> r.error == (if ask(q).Raised? then ask(q).e else ValueError)
  {
    match ask(q)
    case Raised(e) => Failure(e)
    case Reply(_, n) => if n.None? then Failure(ValueError) else Success(n.value)
  }

  /** The table as read so far and the queries sent. */
  datatype Read = Read(rows: Rows, asked: seq<string>)

  /** The three queries for step `i`. */
  function RowQueries(i: nat): seq<string> { [Query("LEVEL", i), Query("WIDTH", i), Query("SLEW", i)] }

  /** Reads steps `i` to `steps` (1-based) and appends them. */
  function ReadFrom(rows: Rows, i: nat, steps: int, ask: string -> Reply): (r: Result<Read, Error>)
    requires rows.Aligned() && i == |rows.levels| + 1
    decreases steps - i + 1
  {
    if i > steps then Success(Read(rows, []))
    else
      var l :- AskNumber(ask, Query("LEVEL", i));
      var w :- AskNumber(ask, Query("WIDTH", i));
      var s :- AskNumber(ask, Query("SLEW", i));
      var rest :- ReadFrom(Rows(rows.levels + [l], rows.widths + [w], rows.slews + [s]), i + 1, steps, ask);
      Success(Read(rest.rows, RowQueries(i) + rest.asked))
  }

  /** `_update_list_mode_from_instrument(new_rows_only)`: start from an
      empty table (or, reading new rows only, from the current one) and read
      every step up to `:LIST:STEP` it does not hold yet. */
  function ReadRows(ps: Dict<string, Value>, rows: Rows, newOnly: bool, ask: string -> Reply): (r: Result<Read, Error>)
    requires rows.Aligned()
  {
    var start := if newOnly then rows else NoRows;
    var steps :- StepCount(ps);
    ReadFrom(start, |start.levels| + 1, steps, ask)
  }

  /** The answer to `q` is step `j`'s `col` cell of `rows`. */
  predicate Answered(ask: string -> Reply, col: string, j: nat, x: real) {
    ask(Query(col, j)).Reply? && ask(Query(col, j)).number == Some(x)
  }

  /** Reading keeps the rows already there and adds one row per missing
      step up to `steps`, sending three queries per added row. */
  lemma {:induction false} ReadFromShape(rows: Rows, i: nat, steps: int, ask: string -> Reply)
    requires rows.Aligned() && i == |rows.levels| + 1
    requires ReadFrom(rows, i, steps, ask).Success?
    ensures var r := ReadFrom(rows, i, steps, ask).value;
            var n := |rows.levels|;
            && r.rows.Aligned()
            && |r.rows.levels| == (if steps > n then steps else n)
            && r.rows.Take(n) == rows
            && |r.asked| == 3 * (|r.rows.levels| - n)
    decreases steps - i + 1
  {
    var n := |rows.levels|;
    if i <= steps {
      var l := AskNumber(ask, Query("LEVEL", i)).value;
      var w := AskNumber(ask, Query("WIDTH", i)).value;
      var s := AskNumber(ask, Query("SLEW", i)).value;
      var next := Rows(rows.levels + [l], rows.widths + [w], rows.slews + [s]);
      ReadFromShape(next, i + 1, steps, ask);
      var rest := ReadFrom(next, i + 1, steps, ask).value;
      var r := ReadFrom(rows, i, steps, ask).value;
      assert r.rows == rest.rows && r.asked == RowQueries(i) + rest.asked;
      assert rest.rows.Take(n + 1) == next;
      assert r.rows.levels[..n] == rest.rows.levels[..n + 1][..n];
      assert r.rows.widths[..n] == rest.rows.widths[..n + 1][..n];
      assert r.rows.slews[..n] == rest.rows.slews[..n + 1][..n];
    } else {
      assert rows.Take(n) == rows;
    }
  }

  /** Step `j` (0-based) of a read that started with `n` rows holds the
      instrument's answers, and its three queries sit at their place. */
  predicate RowRead(ask: string -> Reply, r: Read, n: nat, j: nat)
    requires r.rows.Aligned() && n <= j < |r.rows.levels| && |r.asked| == 3 * (|r.rows.levels| - n)
  {
    && Answered(ask, "LEVEL", j + 1, r.rows.levels[j])
    && Answered(ask, "WIDTH", j + 1, r.rows.widths[j])
    && Answered(ask, "SLEW", j + 1, r.rows.slews[j])
    && r.asked[3 * (j - n)..3 * (j - n) + 3] == RowQueries(j + 1)
  }

  /** ... and each added row holds the instrument's answers for its step,
      asked in order. */
  lemma {:induction false} ReadFromAnswers(rows: Rows, i: nat, steps: int, ask: string -> Reply)
    requires rows.Aligned() && i == |rows.levels| + 1
    requires ReadFrom(rows, i, steps, ask).Success?
    ensures var r := ReadFrom(rows, i, steps, ask).value;
            var n := |rows.levels|;
            && r.rows.Aligned() && |r.asked| == 3 * (|r.rows.levels| - n)
            && (forall j :: n <= j < |r.rows.levels| ==> RowRead(ask, r, n, j))
    decreases steps - i + 1
  {
    var n := |rows.levels|;
    ReadFromShape(rows, i, steps, ask);
    if i <= steps {
      var l := AskNumber(ask, Query("LEVEL", i)).value;
      var w := AskNumber(ask, Query("WIDTH", i)).value;
      var s := AskNumber(ask, Query("SLEW", i)).value;
      var next := Rows(rows.levels + [l], rows.widths + [w], rows.slews + [s]);
      ReadFromAnswers(next, i + 1, steps, ask);
      ReadFromShape(next, i + 1, steps, ask);
      var rest := ReadFrom(next, i + 1, steps, ask).value;
      var r := ReadFrom(rows, i, steps, ask).value;
      assert r.rows == rest.rows && r.asked == RowQueries(i) + rest.asked;
      forall j | n <= j < |r.rows.levels|
        ensures RowRead(ask, r, n, j)
      {
        if j == n {
          assert r.rows.levels[j] == rest.rows.levels[..n + 1][n] == l;
          assert r.rows.widths[j] == rest.rows.widths[..n + 1][n] == w;
          assert r.rows.slews[j] == rest.rows.slews[..n + 1][n] == s;
        } else {
          assert RowRead(ask, rest, n + 1, j);
          assert r.asked[3 * (j - n)..3 * (j - n) + 3] == rest.asked[3 * (j - n - 1)..3 * (j - n - 1) + 3];
        }
      }
    }
  }

  /** After a full read the table holds exactly `:LIST:STEP` steps (none if
      it is not positive), each the instrument's answer for that step; a
      read of new rows only keeps every row already held. */
  lemma ReadRowsSpec(ps: Dict<string, Value>, rows: Rows, newOnly: bool, ask: string -> Reply)
    requires rows.Aligned()
    requires ReadRows(ps, rows, newOnly, ask).Success?
    ensures var r := ReadRows(ps, rows, newOnly, ask).value;
            var steps := StepCount(ps).value;
            var n := if newOnly then |rows.levels| else 0;
            && r.rows.Aligned()
            && |r.rows.levels| == (if steps > n then steps else n)
            && (newOnly ==> r.rows.Take(n) == rows)
            && |r.asked| == 3 * (|r.rows.levels| - n)
            && (forall j :: n <= j < |r.rows.levels| ==> RowRead(ask, r, n, j))
  {
    var start := if newOnly then rows else NoRows;
    ReadFromShape(start, |start.levels| + 1, StepCount(ps).value, ask);
    ReadFromAnswers(start, |start.levels| + 1, StepCount(ps).value, ask);
  }

  /** One cell written: `:LIST:<col> <i>,<x:.3f>`. */
  function CellWrite(col: string, i: nat, x: real): Cmd {
    Cmd(":LIST:" + col, [Text(NatToString(i)), Fixed(x, 3)])
  }

  /** The writes of step `i`: its level, width and slew. */
  function RowWrites(rows: Rows, i: nat): seq<Cmd>
    requires rows.Aligned() && 1 <= i <= |rows.levels|
  {
    [CellWrite("LEVEL", i, rows.levels[i - 1]), CellWrite("WIDTH", i, rows.widths[i - 1]),
     CellWrite("SLEW", i, rows.slews[i - 1])]
  }

  /** Writes steps `i` to `steps` (1-based); a step the table does not hold
      is an IndexError. */
  function WriteFrom(rows: Rows, i: nat, steps: int): (r: Result<seq<Cmd>, Error>)
    requires rows.Aligned() && i >= 1
    ensures r.Failure? ==> r.error == IndexError
    decreases steps - i + 1
  {
    if i > steps then Success([])
    else if i > |rows.levels| then Failure(IndexError)
    else
      var rest :- WriteFrom(rows, i + 1, steps);
      Success(RowWrites(rows, i) + rest)
  }

  /** The List part of `update_instrument`: every step up to `steps`. */
  function WriteRows(rows: Rows, steps: int): (r: Result<seq<Cmd>, Error>)
    requires rows.Aligned()
    ensures r.Success? <==> steps <= |rows.levels|
  {
    WriteFromFails(rows, 1, steps);
    WriteFrom(rows, 1, steps)
  }

  lemma {:induction false} WriteFromFails(rows: Rows, i: nat, steps: int)
    requires rows.Aligned() && i >= 1
    ensures WriteFrom(rows, i, steps).Success? <==> i > steps || steps <= |rows.levels|
    decreases steps - i + 1
  {
    if i <= steps && i <= |rows.levels| {
      WriteFromFails(rows, i + 1, steps);
    }
  }

  /* ---------- the load's table ---------- */

  /** The load's List table: the number stored in each (column, step) cell. */
  type Table = map<(string, nat), real>

  /** What the load does with the cell writes: each stores its number in the
      cell its column and step name (the step read back by `int()`). */
  function Store(t: Table, cmds: seq<Cmd>): Table
    decreases |cmds|
  {
    if cmds == [] then t
    else
      var c := cmds[0];
      var t' := if |c.head| > 6 && c.head[..6] == ":LIST:" && |c.args| == 2 && c.args[0].Text? && c.args[1].Fixed?
                   && PyInt(c.args[0].t).Some? && PyInt(c.args[0].t).value >= 0
                then t[(c.head[6..], PyInt(c.args[0].t).value as nat) := c.args[1].x]
                else t;
      Store(t', cmds[1..])
  }

  /** The load answers a cell query with the number in that cell. */
  ghost function TableAsk(t: Table): string -> Reply {
    q => if exists k :: k in t && k.0 in Columns && Query(k.0, k.1) == q
         then var k :| k in t && k.0 in Columns && Query(k.0, k.1) == q; Reply("", Some(t[k]))
         else Reply("", None)
  }

  /** Cell names are distinct: `<pre><col><mid><i>` determines the column and
      the step. */
  lemma CellNameInjective(pre: string, mid: string, a: string, b: string, i: nat, j: nat)
    requires a in Columns && b in Columns && |mid| >= 1 && IsUpper(mid[0]) == false
    requires pre + a + mid + NatToString(i) == pre + b + mid + NatToString(j)
    ensures a == b && i == j
  {
    var s := pre + a + mid + NatToString(i);
    var t := pre + b + mid + NatToString(j);
    if |a| == |b| {
      assert a == s[|pre|..|pre| + |a|] == t[|pre|..|pre| + |b|] == b;
      assert NatToString(i) == s[|pre| + |a| + |mid|..] == t[|pre| + |b| + |mid|..] == NatToString(j);
      NatToStringInjective(i, j);
    } else if |a| < |b| {
      assert s[|pre| + |a|] == mid[0];
      assert t[|pre| + |a|] == b[|a|];
      assert IsUpper(b[|a|]);
    } else {
      assert t[|pre| + |b|] == mid[0];
      assert s[|pre| + |b|] == a[|b|];
      assert IsUpper(a[|b|]);
    }
  }

  lemma TableAskCell(t: Table, col: string, i: nat)
    requires (col, i) in t && col in Columns
    ensures TableAsk(t)(Query(col, i)) == Reply("", Some(t[(col, i)]))
  {
    var q := Query(col, i);
    forall k | k in t && k.0 in Columns && Query(k.0, k.1) == q
      ensures k == (col, i)
    {
      assert Query(k.0, k.1) == ":LIST:" + k.0 + "? " + NatToString(k.1);
      CellNameInjective(":LIST:", "? ", k.0, col, k.1, i);
    }
  }

  /** The number the table holds for cell (`col`, step `j`). */
  function Cell(rows: Rows, col: string, j: nat): real
    requires rows.Aligned() && 1 <= j <= |rows.levels|
  {
    if col == "LEVEL" then rows.levels[j - 1] else if col == "WIDTH" then rows.widths[j - 1] else rows.slews[j - 1]
  }

  /** A cell write stores its number in its cell. */
  lemma StoreCell(t: Table, col: string, i: nat, x: real, rest: seq<Cmd>)
    requires col != ""
    ensures Store(t, [CellWrite(col, i, x)] + rest) == Store(t[(col, i) := x], rest)
  {
    var c := CellWrite(col, i, x);
    assert c.head[..6] == ":LIST:" && c.head[6..] == col;
    PyIntOfIntToString(i);
    assert ([c] + rest)[1..] == rest;
  }

  /** The table after step `i`'s writes. */
  function WithRow(t: Table, rows: Rows, i: nat): Table
    requires rows.Aligned() && 1 <= i <= |rows.levels|
  {
    t[("LEVEL", i) := rows.levels[i - 1]][("WIDTH", i) := rows.widths[i - 1]][("SLEW", i) := rows.slews[i - 1]]
  }

  lemma StoreRow(t: Table, rows: Rows, i: nat, rest: seq<Cmd>)
    requires rows.Aligned() && 1 <= i <= |rows.levels|
    ensures Store(t, RowWrites(rows, i) + rest) == Store(WithRow(t, rows, i), rest)
  {
    var l := CellWrite("LEVEL", i, rows.levels[i - 1]);
    var w := CellWrite("WIDTH", i, rows.widths[i - 1]);
    var sl := CellWrite("SLEW", i, rows.slews[i - 1]);
    assert RowWrites(rows, i) + rest == [l] + ([w] + ([sl] + rest));
    StoreCell(t, "LEVEL", i, rows.levels[i - 1], [w] + ([sl] + rest));
    StoreCell(t[("LEVEL", i) := rows.levels[i - 1]], "WIDTH", i, rows.widths[i - 1], [sl] + rest);
    StoreCell(t[("LEVEL", i) := rows.levels[i - 1]][("WIDTH", i) := rows.widths[i - 1]], "SLEW", i, rows.slews[i - 1], rest);
  }

  /** Writing steps `i` onwards leaves the cells of earlier steps alone. */
  lemma {:induction false} StoreKeepsEarlier(t: Table, rows: Rows, i: nat, steps: int, k: (string, nat))
    requires rows.Aligned() && i >= 1 && WriteFrom(rows, i, steps).Success?
    requires k.1 < i && k in t
    ensures var t' := Store(t, WriteFrom(rows, i, steps).value); k in t' && t'[k] == t[k]
    decreases steps - i + 1
  {
    if i <= steps {
      var rest := WriteFrom(rows, i + 1, steps).value;
      StoreRow(t, rows, i, rest);
      StoreKeepsEarlier(WithRow(t, rows, i), rows, i + 1, steps, k);
    }
  }

  /** Writing steps `i` to `steps` stores each of their cells. */
  lemma {:induction false} StoreFrom(t: Table, rows: Rows, i: nat, steps: int)
    requires rows.Aligned() && i >= 1 && steps <= |rows.levels|
    ensures WriteFrom(rows, i, steps).Success?
    ensures var t' := Store(t, WriteFrom(rows, i, steps).value);
            forall j, col :: i <= j <= steps && col in Columns ==> (col, j) in t' && t'[(col, j)] == Cell(rows, col, j)
    decreases steps - i + 1
  {
    WriteFromFails(rows, i, steps);
    if i <= steps {
      var rest := WriteFrom(rows, i + 1, steps).value;
      var t3 := WithRow(t, rows, i);
      StoreRow(t, rows, i, rest);
      StoreFrom(t3, rows, i + 1, steps);
      var t' := Store(t3, rest);
      forall j, col | i <= j <= steps && col in Columns
        ensures (col, j) in t' && t'[(col, j)] == Cell(rows, col, j)
      {
        if j == i {
          assert (col, i) in t3 && t3[(col, i)] == Cell(rows, col, i) by {
            assert col == "LEVEL" || col == "WIDTH" || col == "SLEW";
          }
          StoreKeepsEarlier(t3, rows, i + 1, steps, (col, i));
        }
      }
    }
  }

  /** Reading back a table the load holds gives the rows it was written. */
  lemma {:induction false} ReadBack(rows: Rows, t: Table, j: nat, steps: nat)
    requires rows.Aligned() && 1 <= j && steps <= |rows.levels|
    requires forall k, col :: j <= k <= steps && col in Columns ==> (col, k) in t && t[(col, k)] == Cell(rows, col, k)
    requires j <= steps + 1
    ensures ReadFrom(rows.Take(j - 1), j, steps, TableAsk(t)).Success?
    ensures ReadFrom(rows.Take(j - 1), j, steps, TableAsk(t)).value.rows == rows.Take(steps)
    decreases steps - j + 1
  {
    var ask := TableAsk(t);
    if j <= steps {
      assert "LEVEL" in Columns && "WIDTH" in Columns && "SLEW" in Columns;
      TableAskCell(t, "LEVEL", j);
      TableAskCell(t, "WIDTH", j);
      TableAskCell(t, "SLEW", j);
      ReadStep(rows, ask, j, steps);
      ReadBack(rows, t, j + 1, steps);
    }
  }

  /** Reading step `j` of a table whose cells the load answers with the
      rows' own numbers extends the rows read so far by that step. */
  lemma ReadStep(rows: Rows, ask: string -> Reply, j: nat, steps: nat)
    requires rows.Aligned() && 1 <= j <= steps <= |rows.levels|
    requires ask(Query("LEVEL", j)) == Reply("", Some(rows.levels[j - 1]))
    requires ask(Query("WIDTH", j)) == Reply("", Some(rows.widths[j - 1]))
    requires ask(Query("SLEW", j)) == Reply("", Some(rows.slews[j - 1]))
    ensures var a := ReadFrom(rows.Take(j - 1), j, steps, ask);
            var b := ReadFrom(rows.Take(j), j + 1, steps, ask);
            && (a.Success? <==> b.Success?)
            && (a.Success? ==> a.value.rows == b.value.rows)
  {
    var prev := rows.Take(j - 1);
    var next := Rows(prev.levels + [rows.levels[j - 1]], prev.widths + [rows.widths[j - 1]], prev.slews + [rows.slews[j - 1]]);
    assert next == rows.Take(j);
  }

  /** The List table survives a trip through the load: writing the first
      `steps` rows as `update_instrument` does and reading them back as
      `refresh` does gives those rows. */
  lemma WriteReadRoundTrip(rows: Rows, ps: Dict<string, Value>)
    requires rows.Aligned() && StepCount(ps).Success? && 0 <= StepCount(ps).value <= |rows.levels|
    ensures var steps := StepCount(ps).value;
            && WriteRows(rows, steps).Success?
            && var ask := TableAsk(Store(map[], WriteRows(rows, steps).value));
            && ReadRows(ps, NoRows, false, ask).Success?
            && ReadRows(ps, NoRows, false, ask).value.rows == rows.Take(steps)
  {
    var steps := StepCount(ps).value;
    var t := StoredTable(rows, steps);
    ReadAll(rows, t, steps);
    ReadRowsFromStart(ps, TableAsk(t));
  }

  /** Reading everything reads from step 1 with an empty table. */
  lemma ReadRowsFromStart(ps: Dict<string, Value>, ask: string -> Reply)
    requires StepCount(ps).Success?
    ensures ReadRows(ps, NoRows, false, ask) == ReadFrom(NoRows, 1, StepCount(ps).value, ask)
  {
  }

  /** `ReadBack` from the first step. */
  lemma ReadAll(rows: Rows, t: Table, steps: nat)
    requires rows.Aligned() && steps <= |rows.levels|
    requires forall k, col :: 1 <= k <= steps && col in Columns ==> (col, k) in t && t[(col, k)] == Cell(rows, col, k)
    ensures ReadFrom(NoRows, 1, steps, TableAsk(t)).Success?
    ensures ReadFrom(NoRows, 1, steps, TableAsk(t)).value.rows == rows.Take(steps)
  {
    ReadBack(rows, t, 1, steps);
    assert rows.Take(0) == NoRows;
  }

  /** The table the load holds after the first `steps` rows are written
      into an empty one: each of their cells. */
  lemma StoredTable(rows: Rows, steps: nat) returns (t: Table)
    requires rows.Aligned() && steps <= |rows.levels|
    ensures WriteRows(rows, steps).Success? && t == Store(map[], WriteRows(rows, steps).value)
    ensures forall k, col :: 1 <= k <= steps && col in Columns ==> (col, k) in t && t[(col, k)] == Cell(rows, col, k)
  {
    StoreFrom(map[], rows, 1, steps);
    t := Store(map[], WriteFrom(rows, 1, steps).value);
  }

  /* ---------- holding the table inside the ranges ---------- */

  /** Python `min(a, b)` and `max(a, b)` on floats. */
  function Min(a: real, b: real): real { if b < a then b else a }
  function Max(a: real, b: real): real { if b > a then b else a }

  /** `min(max(x, lo), hi)`. */
  function Clip(x: real, lo: real, hi: real): real { Min(Max(x, lo), hi) }

  function ClipAll(xs: seq<real>, lo: real, hi: real): (r: seq<real>)
    ensures |r| == |xs|
  {
    seq(|xs|, i requires 0 <= i < |xs| => Clip(xs[i], lo, hi))
  }

  function MinAll(xs: seq<real>, hi: real): (r: seq<real>)
    ensures |r| == |xs|
  {
    seq(|xs|, i requires 0 <= i < |xs| => Min(xs[i], hi))
  }

  datatype Range = Range(lo: real, hi: real)

  /** The ranges of level, width and (in constant current only) slew for a
      constant mode, from the List ranges `vrange`/`irange` and the model's
      maximum power. */
  function Ranges(c: Const, vrange: real, irange: real, maxPower: real): (r: seq<Range>)
    ensures |r| == (if c == Current then 3 else 2)
  {
    match c
    case Voltage => [Range(0.0, vrange), Range(0.001, 999.0)]
    case Current => [Range(0.0, irange), Range(0.001, 999.0), Range(0.001, if irange == 5.0 then 0.5 else 2.5)]
    case Power => [Range(0.0, maxPower), Range(0.001, 999.0)]
    case Resistance => [Range(0.03, 10000.0), Range(0.001, 999.0)]
  }

  /** The ceiling the levels are cut to first, before clipping. */
  function Ceiling(c: Const, vrange: real, irange: real, maxPower: real): Option<real> {
    match c
    case Voltage => Some(vrange)
    case Current => Some(irange)
    case Power => Some(maxPower)
    case Resistance => None
  }

  /** The table after `_update_list_table_graph` has clipped it in List mode. */
  function Clamp(rows: Rows, c: Const, vrange: real, irange: real, maxPower: real): (r: Rows)
    ensures |r.levels| == |rows.levels| && |r.widths| == |rows.widths| && |r.slews| == |rows.slews|
  {
    var rg := Ranges(c, vrange, irange, maxPower);
    var levels := match Ceiling(c, vrange, irange, maxPower)
                  case Some(hi) => MinAll(rows.levels, hi)
                  case None => rows.levels;
    Rows(ClipAll(levels, rg[0].lo, rg[0].hi), ClipAll(rows.widths, rg[1].lo, rg[1].hi),
         if |rg| == 3 then ClipAll(rows.slews, rg[2].lo, rg[2].hi) else rows.slews)
  }

  predicate Within(xs: seq<real>, g: Range) {
    forall i :: 0 <= i < |xs| ==> g.lo <= xs[i] <= g.hi
  }

  /** Every cell lies in its column's range. */
  predicate InRanges(rows: Rows, c: Const, vrange: real, irange: real, maxPower: real) {
    var rg := Ranges(c, vrange, irange, maxPower);
    Within(rows.levels, rg[0]) && Within(rows.widths, rg[1]) && (|rg| == 3 ==> Within(rows.slews, rg[2]))
  }

  /** Clipping puts every cell in range, leaves alone each cell already in
      range, touches slews only in constant current, and leaves every step a
      positive width. */
  lemma ClampSpec(rows: Rows, c: Const, vrange: real, irange: real, maxPower: real)
    requires vrange >= 0.0 && irange >= 0.0 && maxPower >= 0.0
    ensures var r := Clamp(rows, c, vrange, irange, maxPower);
            var rg := Ranges(c, vrange, irange, maxPower);
            && InRanges(r, c, vrange, irange, maxPower)
            && (forall i :: 0 <= i < |rows.levels| && rg[0].lo <= rows.levels[i] <= rg[0].hi ==> r.levels[i] == rows.levels[i])
            && (forall i :: 0 <= i < |rows.widths| && rg[1].lo <= rows.widths[i] <= rg[1].hi ==> r.widths[i] == rows.widths[i])
            && (c != Current ==> r.slews == rows.slews)
            && (forall i :: 0 <= i < |r.widths| ==> r.widths[i] > 0.0)
  {
  }

  /** The clipped table is the table itself exactly when it is in range. */
  lemma ClampFixedPoint(rows: Rows, c: Const, vrange: real, irange: real, maxPower: real)
    requires vrange >= 0.0 && irange >= 0.0 && maxPower >= 0.0
    ensures Clamp(rows, c, vrange, irange, maxPower) == rows <==> InRanges(rows, c, vrange, irange, maxPower)
  {
    var r := Clamp(rows, c, vrange, irange, maxPower);
    ClampSpec(rows, c, vrange, irange, maxPower);
    if InRanges(rows, c, vrange, irange, maxPower) {
      assert r.levels == rows.levels;
      assert r.widths == rows.widths;
      assert r.slews == rows.slews;
    }
  }

  /** Clipping twice is clipping once. */
  lemma ClampIdempotent(rows: Rows, c: Const, vrange: real, irange: real, maxPower: real)
    requires vrange >= 0.0 && irange >= 0.0 && maxPower >= 0.0
    ensures var r := Clamp(rows, c, vrange, irange, maxPower);
            Clamp(r, c, vrange, irange, maxPower) == r
  {
    var r := Clamp(rows, c, vrange, irange, maxPower);
    ClampSpec(rows, c, vrange, irange, maxPower);
    ClampFixedPoint(r, c, vrange, irange, maxPower);
  }

  /* ---------- following the load through the steps ---------- */

  /** The panel's estimate of where the load is in its List sequence: the
      step (None before the first trigger), whether it is running, whether a
      trigger asked it to stop after the current step, and when the current
      step began. Time is a parameter. */
  datatype Estimator = Estimator(step: Option<nat>, running: bool, stopping: bool, start: real)

  const Idle := Estimator(None, false, false, 0.0)

  /** A running sequence has a step and a load that is on; only a running
      sequence can be stopping. */
  predicate Consistent(e: Estimator, loadOn: bool) {
    (e.running ==> e.step.Some? && loadOn) && (e.stopping ==> e.running)
  }

  /** The Trigger button is usable only with the bus as trigger source, the
      load on, and a mode that triggers: a non-continuous dynamic mode, List
      or Program. */
  predicate TriggerEnabled(src: Value, input: Value, overall: Overall, dyn: Option<Dyn>) {
    && PyEq(src, VStr("BUS"))
    && Truthy(input)
    && ((overall == Dynamic && dyn != Some(Continuous)) || overall == List || overall == Program)
  }

  /** Clicking Trigger: `*TRG` goes out; in List mode a stopped sequence
      starts (from step 0 the first time) and a running one is asked to stop
      after its current step. */
  function Trigger(e: Estimator, enabled: bool, inList: bool, now: real): (r: (seq<Cmd>, Estimator))
    ensures !enabled ==> r == ([], e)
    ensures enabled ==> r.0 == [Plain("*TRG")]
    ensures enabled && inList && !e.running ==>
              r.1.running && !r.1.stopping && r.1.start == now && r.1.step == Some(if e.step.Some? then e.step.value else 0)
    ensures enabled && inList && e.running ==> r.1 == e.(stopping := true)
    ensures !inList ==> r.1 == e
  {
    if !enabled then ([], e)
    else if !inList then ([Plain("*TRG")], e)
    else if !e.running then
      ([Plain("*TRG")], Estimator(Some(if e.step.Some? then e.step.value else 0), true, false, now))
    else ([Plain("*TRG")], e.(stopping := true))
  }

  /** Triggering a running sequence again changes nothing more, and a trigger
      keeps the estimate consistent with the load. */
  lemma TriggerAgain(e: Estimator, inList: bool, now: real, later: real, loadOn: bool)
    ensures var e1 := Trigger(e, true, inList, now).1;
            e1.running ==> Trigger(e1, true, inList, later).1 == Trigger(e1, true, inList, now).1
    ensures Consistent(e, loadOn) && loadOn ==> Consistent(Trigger(e, true, inList, now).1, loadOn)
  {
  }

  /** Turning the load on restarts List mode from "no step"; turning it off
      stops the sequence whatever the mode. A non-change does nothing. */
  function LoadSwitched(e: Estimator, was: bool, on: bool, inList: bool): (r: Estimator)
    ensures was == on ==> r == e
    ensures was != on && !on ==> r.step.None? && !r.running && !r.stopping
    ensures was != on && on && inList ==> r.step.None? && r.running == e.running
  {
    if was == on then e
    else if on then (if inList then e.(step := None) else e)
    else e.(step := None, running := false, stopping := false)
  }

  /** Switching the load keeps the estimate consistent with it. */
  lemma LoadSwitchedConsistent(e: Estimator, was: bool, on: bool, inList: bool)
    requires Consistent(e, was)
    ensures Consistent(LoadSwitched(e, was, on, inList), on)
  {
  }

  predicate Positive(widths: seq<real>) {
    forall i :: 0 <= i < |widths| ==> widths[i] > 0.0
  }

  /** The shortest width. */
  function Shortest(widths: seq<real>): (m: real)
    requires |widths| > 0
    ensures m in widths
    ensures forall i :: 0 <= i < |widths| ==> m <= widths[i]
  {
    if |widths| == 1 then widths[0]
    else
      var m := Shortest(widths[1..]);
      assert forall i :: 1 <= i < |widths| ==> widths[i] == widths[1..][i - 1];
      if widths[0] <= m then widths[0] else m
  }

  /** The heartbeat's inner loop: while the time spent is at least the
      current step's width, take that width off and move to the next step,
      wrapping at the step count. */
  function Advance(delta: real, step: nat, widths: seq<real>, steps: nat): (r: (real, nat))
    requires Positive(widths) && 1 <= steps <= |widths| && step < steps && delta >= 0.0
    ensures r.1 < steps && 0.0 <= r.0 < widths[r.1]
    ensures r.0 <= delta
    decreases (delta / Shortest(widths)).Floor
  {
    if delta < widths[step] then (delta, step)
    else
      var m := Shortest(widths);
      DivStep(delta, widths[step], m);
      Advance(delta - widths[step], (step + 1) % steps, widths, steps)
  }

  lemma DivStep(a: real, w: real, m: real)
    requires m > 0.0 && w >= m
    ensures (a - w) / m <= a / m - 1.0
  {
    var x, y, q := (a - w) / m, a / m, w / m;
    assert x * m == a - w && y * m == a && q * m == w;
    assert q >= 1.0;
    assert y - x == q;
  }

  /** The heartbeat as written: once the current step's width has passed, a
      stopping sequence stops, and the step moves on past every width that
      has passed. */
  function Heartbeat(e: Estimator, widths: seq<real>, steps: nat, now: real): (r: Result<Estimator, Error>)
    requires Positive(widths) && 1 <= steps <= |widths|
    requires e.step.Some? ==> e.step.value < steps
    ensures r.Failure? <==> e.running && e.step.None?
    ensures r.Failure? ==> r.error == TypeError
  {
    if !e.running then Success(e)
    else if e.step.None? then Failure(TypeError)
    else
      var k := e.step.value;
      var delta := now - e.start;
      if delta < widths[k] then Success(e)
      else
        var (d, s) := Advance(delta, k, widths, steps);
        Success(Estimator(Some(s), !e.stopping, false, now - d))
  }

  /** After a heartbeat a running sequence is in a step it has not outlived,
      and after a crossing that step began no later than now. A stopping
      sequence that crossed has stopped; the estimate stays consistent. */
  lemma HeartbeatSpec(e: Estimator, widths: seq<real>, steps: nat, now: real, loadOn: bool)
    requires Positive(widths) && 1 <= steps <= |widths|
    requires e.step.Some? ==> e.step.value < steps
    requires Consistent(e, loadOn)
    ensures var r := Heartbeat(e, widths, steps, now);
            && r.Success?
            && Consistent(r.value, loadOn)
            && (r.value.step.Some? ==> r.value.step.value < steps)
            && (e.running ==> now - r.value.start < widths[r.value.step.value])
            && (r.value != e ==> r.value.running == !e.stopping && !r.value.stopping && r.value.start <= now)
  {
  }

  /** The heartbeat as evidently intended: the load finishes the step it was
      on when told to stop, so a stopping sequence moves exactly one step and
      then waits there. */
  function HeartbeatIntended(e: Estimator, widths: seq<real>, steps: nat, now: real): (r: Result<Estimator, Error>)
    requires Positive(widths) && 1 <= steps <= |widths|
    requires e.step.Some? ==> e.step.value < steps
    ensures r.Failure? <==> e.running && e.step.None?
  {
    if !e.running then Success(e)
    else if e.step.None? then Failure(TypeError)
    else
      var k := e.step.value;
      var delta := now - e.start;
      if delta < widths[k] then Success(e)
      else if e.stopping then Success(Estimator(Some((k + 1) % steps), false, false, e.start + widths[k]))
      else
        var (d, s) := Advance(delta, k, widths, steps);
        Success(Estimator(Some(s), true, false, now - d))
  }

  /** The intended heartbeat stops a stopping sequence on the step after the
      one it was on, and otherwise agrees with the heartbeat as written. */
  lemma HeartbeatIntendedSpec(e: Estimator, widths: seq<real>, steps: nat, now: real)
    requires Positive(widths) && 1 <= steps <= |widths|
    requires e.step.Some? ==> e.step.value < steps
    ensures e.running && e.stopping && e.step.Some? && now - e.start >= widths[e.step.value] ==>
              HeartbeatIntended(e, widths, steps, now) == Success(Estimator(Some((e.step.value + 1) % steps), false, false, e.start + widths[e.step.value]))
    ensures !e.stopping ==> HeartbeatIntended(e, widths, steps, now) == Heartbeat(e, widths, steps, now)
  {
  }

  /** A sequence told to stop at step 0 that is observed 2.5 widths later is
      left at step 2 by the heartbeat as written, one step beyond where the
      load stopped. */
  lemma HeartbeatOvershoots()
    ensures var e := Estimator(Some(0), true, true, 0.0);
            && Heartbeat(e, [1.0, 1.0, 1.0], 3, 2.5) == Success(Estimator(Some(2), false, false, 2.0))
            && HeartbeatIntended(e, [1.0, 1.0, 1.0], 3, 2.5) == Success(Estimator(Some(1), false, false, 1.0))
  {
    var w := [1.0, 1.0, 1.0];
    assert Advance(0.5, 2, w, 3) == (0.5, 2);
    assert Advance(1.5, 1, w, 3) == (0.5, 2);
    assert Advance(2.5, 0, w, 3) == (0.5, 2);
  }

  /* ---------- the table in a saved configuration ---------- */

  /** The key a saved configuration keeps one cell under: `:LIST:<col> <i>`. */
  function RowKey(col: string, i: nat): string { ":LIST:" + col + " " + NatToString(i) }

  /** The three entries for step `i` (1-based). */
  function RowEntries(rows: Rows, i: nat): Dict<string, Value>
    requires rows.Aligned() && 1 <= i <= |rows.levels|
  {
    [(RowKey("LEVEL", i), VFloat(rows.levels[i - 1])),
     (RowKey("WIDTH", i), VFloat(rows.widths[i - 1])),
     (RowKey("SLEW", i), VFloat(rows.slews[i - 1]))]
  }

  function SaveFrom(ps: Dict<string, Value>, rows: Rows, i: nat, steps: int): (r: Result<Dict<string, Value>, Error>)
    requires rows.Aligned() && 1 <= i <= |rows.levels| + 1
    ensures r.Failure? <==> steps > |rows.levels|
    ensures r.Failure? ==> r.error == IndexError
    decreases steps - i + 1
  {
    if i > steps then Success(ps)
    else if i > |rows.levels| then Failure(IndexError)
    else
      var e := RowEntries(rows, i);
      SaveFrom(Put(Put(Put(ps, e[0].0, e[0].1), e[1].0, e[1].1), e[2].0, e[2].1), rows, i + 1, steps)
  }

  /** The snapshot a configuration file holds: the parameters plus one entry
      per cell of the first `:LIST:STEP` steps. */
  function SaveRows(ps: Dict<string, Value>, rows: Rows): (r: Result<Dict<string, Value>, Error>)
    requires rows.Aligned()
    ensures r.Success? <==> StepCount(ps).Success? && StepCount(ps).value <= |rows.levels|
    ensures r.Failure? && StepCount(ps).Success? ==> r.error == IndexError
  {
    var steps :- StepCount(ps);
    SaveFrom(ps, rows, 1, steps)
  }

  /** A saved cell as a number; other values fail (see README). */
  function NumberOf(v: Value): (r: Result<real, Error>)
    ensures r.Success? <==> IsNumber(v)
    ensures r.Success? ==> PyEq(VFloat(r.value), v)
  {
    if IsNumber(v) then Success(NumOf(v)) else Failure(ValueError)
  }

  /** Takes one cell out of a loaded snapshot. */
  function TakeCell(ps: Dict<string, Value>, col: string, i: nat): (r: Result<(real, Dict<string, Value>), Error>)
  {
    var v :- Lookup(ps, RowKey(col, i));
    var x :- NumberOf(v);
    Success((x, Remove(ps, RowKey(col, i))))
  }

  function LoadFrom(ps: Dict<string, Value>, i: nat, steps: int, acc: Rows): (r: Result<(Dict<string, Value>, Rows), Error>)
    ensures acc.Aligned() && r.Success? ==> r.value.1.Aligned()
    decreases steps - i + 1
  {
    if i > steps then Success((ps, acc))
    else
      var (l, ps1) :- TakeCell(ps, "LEVEL", i);
      var (w, ps2) :- TakeCell(ps1, "WIDTH", i);
      var (s, ps3) :- TakeCell(ps2, "SLEW", i);
      LoadFrom(ps3, i + 1, steps, Rows(acc.levels + [l], acc.widths + [w], acc.slews + [s]))
  }

  /** Loading a configuration: the table comes out of the snapshot, cell by
      cell, and the cell entries are deleted. */
  function LoadRows(ps: Dict<string, Value>): (r: Result<(Dict<string, Value>, Rows), Error>)
    ensures r.Success? ==> r.value.1.Aligned()
  {
    var steps :- StepCount(ps);
    LoadFrom(ps, 1, steps, NoRows)
  }

  /** The entries for steps `i..steps`. */
  function Block(rows: Rows, i: nat, steps: nat): Dict<string, Value>
    requires rows.Aligned() && 1 <= i && steps <= |rows.levels|
    decreases steps - i + 1
  {
    if i > steps then [] else RowEntries(rows, i) + Block(rows, i + 1, steps)
  }

  /** A key no cell entry uses. */
  ghost predicate NoRowKeys(ps: Dict<string, Value>) {
    forall col, j: nat :: col in Columns ==> !HasKey(ps, RowKey(col, j))
  }

  lemma RowKeyInjective(a: string, b: string, i: nat, j: nat)
    requires a in Columns && b in Columns && RowKey(a, i) == RowKey(b, j)
    ensures a == b && i == j
  {
    assert RowKey(a, i) == ":LIST:" + a + " " + NatToString(i);
    assert RowKey(b, j) == ":LIST:" + b + " " + NatToString(j);
    CellNameInjective(":LIST:", " ", a, b, i, j);
  }

  /** The block for steps `i..` holds no cell of an earlier step. */
  lemma {:induction false} BlockAvoids(rows: Rows, i: nat, steps: nat, col: string, j: nat)
    requires rows.Aligned() && 1 <= i && steps <= |rows.levels| && col in Columns && j < i
    ensures Get(Block(rows, i, steps), RowKey(col, j)) == None
    decreases steps - i + 1
  {
    if i <= steps {
      var k := RowKey(col, j);
      forall c | c in Columns ensures RowKey(c, i) != k {
        if RowKey(c, i) == k { RowKeyInjective(c, col, i, j); }
      }
      BlockAvoids(rows, i + 1, steps, col, j);
      GetConcat(RowEntries(rows, i), Block(rows, i + 1, steps), k);
    }
  }

  /** Saving appends the block of cell entries to a snapshot that has none. */
  lemma {:induction false} SaveFromBlock(d: Dict<string, Value>, rows: Rows, i: nat, steps: nat)
    requires rows.Aligned() && 1 <= i <= steps + 1 && steps <= |rows.levels|
    requires forall col, j: nat :: col in Columns && i <= j ==> !HasKey(d, RowKey(col, j))
    ensures SaveFrom(d, rows, i, steps) == Success(d + Block(rows, i, steps))
    decreases steps - i + 1
  {
    if i <= steps {
      CellsAfterRow(d, rows, i);
      SaveFromBlock(d + RowEntries(rows, i), rows, i + 1, steps);
      SaveBlockStep(d, rows, i, steps);
    } else {
      assert d + Block(rows, i, steps) == d;
    }
  }

  /** If the steps after `i` save as their block, so do the steps from `i`. */
  lemma SaveBlockStep(d: Dict<string, Value>, rows: Rows, i: nat, steps: nat)
    requires rows.Aligned() && 1 <= i <= steps && steps <= |rows.levels|
    requires forall col :: col in Columns ==> !HasKey(d, RowKey(col, i))
    requires var e := RowEntries(rows, i);
             SaveFrom(d + e, rows, i + 1, steps) == Success((d + e) + Block(rows, i + 1, steps))
    ensures SaveFrom(d, rows, i, steps) == Success(d + Block(rows, i, steps))
  {
    var e := RowEntries(rows, i);
    var b := Block(rows, i + 1, steps);
    SaveStep(d, rows, i, steps);
    BlockUnfold(rows, i, steps);
    AppendAssoc(d, e, b);
  }

  /** The block from step `i` is that step's entries followed by the rest. */
  lemma BlockUnfold(rows: Rows, i: nat, steps: nat)
    requires rows.Aligned() && 1 <= i <= steps && steps <= |rows.levels|
    ensures Block(rows, i, steps) == RowEntries(rows, i) + Block(rows, i + 1, steps)
  {
  }

  lemma AppendAssoc<T>(a: seq<T>, b: seq<T>, c: seq<T>)
    ensures (a + b) + c == a + (b + c)
  {
  }

  /** One step of saving appends that step's entries. */
  lemma SaveStep(d: Dict<string, Value>, rows: Rows, i: nat, steps: nat)
    requires rows.Aligned() && 1 <= i <= steps && steps <= |rows.levels|
    requires forall col :: col in Columns ==> !HasKey(d, RowKey(col, i))
    ensures SaveFrom(d, rows, i, steps) == SaveFrom(d + RowEntries(rows, i), rows, i + 1, steps)
  {
    PutRow(d, rows, i);
  }

  /** Appending a step's entries adds no cell of a later step. */
  lemma CellsAfterRow(d: Dict<string, Value>, rows: Rows, i: nat)
    requires rows.Aligned() && 1 <= i <= |rows.levels|
    requires forall col, j: nat :: col in Columns && i <= j ==> !HasKey(d, RowKey(col, j))
    ensures forall col, j: nat :: col in Columns && i + 1 <= j ==> !HasKey(d + RowEntries(rows, i), RowKey(col, j))
  {
    forall col, j: nat | col in Columns && i + 1 <= j
      ensures !HasKey(d + RowEntries(rows, i), RowKey(col, j))
    {
      EntriesAvoid(d, rows, i, col, j);
    }
  }

  /** The three puts of one step append its entries to a snapshot without them. */
  lemma PutRow(d: Dict<string, Value>, rows: Rows, i: nat)
    requires rows.Aligned() && 1 <= i <= |rows.levels|
    requires forall col :: col in Columns ==> !HasKey(d, RowKey(col, i))
    ensures var e := RowEntries(rows, i);
            Put(Put(Put(d, e[0].0, e[0].1), e[1].0, e[1].1), e[2].0, e[2].1) == d + e
  {
    var e := RowEntries(rows, i);
    assert !HasKey(d, e[0].0) && !HasKey(d, e[1].0) && !HasKey(d, e[2].0);
    RowKeyDistinct(i);
    var d1 := Put(d, e[0].0, e[0].1);
    assert d1 == d + [e[0]];
    assert !HasKey(d1, e[1].0) by { GetConcat(d, [e[0]], e[1].0); }
    var d2 := Put(d1, e[1].0, e[1].1);
    assert d2 == d + e[..2];
    assert !HasKey(d2, e[2].0) by { GetConcat(d, e[..2], e[2].0); }
    assert Put(d2, e[2].0, e[2].1) == d + e;
  }

  lemma EntriesAvoid(d: Dict<string, Value>, rows: Rows, i: nat, col: string, j: nat)
    requires rows.Aligned() && 1 <= i <= |rows.levels| && col in Columns && i != j
    requires !HasKey(d, RowKey(col, j))
    ensures !HasKey(d + RowEntries(rows, i), RowKey(col, j))
  {
    GetConcat(d, RowEntries(rows, i), RowKey(col, j));
    forall c | c in Columns ensures RowKey(c, i) != RowKey(col, j) {
      if RowKey(c, i) == RowKey(col, j) { RowKeyInjective(c, col, i, j); }
    }
  }

  lemma RowKeyDistinct(i: nat)
    ensures RowKey("LEVEL", i) != RowKey("WIDTH", i) && RowKey("LEVEL", i) != RowKey("SLEW", i) && RowKey("WIDTH", i) != RowKey("SLEW", i)
  {
    if RowKey("LEVEL", i) == RowKey("WIDTH", i) { RowKeyInjective("LEVEL", "WIDTH", i, i); }
    if RowKey("LEVEL", i) == RowKey("SLEW", i) { RowKeyInjective("LEVEL", "SLEW", i, i); }
    if RowKey("WIDTH", i) == RowKey("SLEW", i) { RowKeyInjective("WIDTH", "SLEW", i, i); }
  }

  /** The entries of step `i` after its `n`th cell, followed by the later
      steps, hold no more of that cell. */
  lemma BlockTail(rows: Rows, i: nat, steps: nat, n: nat)
    requires rows.Aligned() && 1 <= i <= steps <= |rows.levels| && 1 <= n <= 3
    ensures !HasKey(RowEntries(rows, i)[n..] + Block(rows, i + 1, steps), RowKey(Columns[n - 1], i))
  {
    var k := RowKey(Columns[n - 1], i);
    RowKeyDistinct(i);
    BlockAvoids(rows, i + 1, steps, Columns[n - 1], i);
    GetConcat(RowEntries(rows, i)[n..], Block(rows, i + 1, steps), k);
  }

  lemma TakeCellFront(d: Dict<string, Value>, col: string, i: nat, x: real, rest: Dict<string, Value>)
    requires !HasKey(d, RowKey(col, i)) && !HasKey(rest, RowKey(col, i))
    ensures TakeCell(d + ([(RowKey(col, i), VFloat(x))] + rest), col, i) == Success((x, d + rest))
  {
    RemoveFront(d, RowKey(col, i), VFloat(x), rest);
  }

  /** One step of loading takes step `i`'s three entries back out. */
  lemma LoadStep(d: Dict<string, Value>, rows: Rows, i: nat, steps: nat)
    requires rows.Aligned() && 1 <= i <= steps <= |rows.levels|
    requires !HasKey(d, RowKey("LEVEL", i)) && !HasKey(d, RowKey("WIDTH", i)) && !HasKey(d, RowKey("SLEW", i))
    ensures LoadFrom(d + Block(rows, i, steps), i, steps, rows.Take(i - 1))
         == LoadFrom(d + Block(rows, i + 1, steps), i + 1, steps, rows.Take(i))
  {
    var rest := Block(rows, i + 1, steps);
    var s := [(RowKey("SLEW", i), VFloat(rows.slews[i - 1]))] + rest;
    var w := [(RowKey("WIDTH", i), VFloat(rows.widths[i - 1]))] + s;
    BlockFront(rows, i, steps);
    TakeCellFront(d, "LEVEL", i, rows.levels[i - 1], w);
    TakeCellFront(d, "WIDTH", i, rows.widths[i - 1], s);
    TakeCellFront(d, "SLEW", i, rows.slews[i - 1], rest);
    var prev := rows.Take(i - 1);
    assert Rows(prev.levels + [rows.levels[i - 1]], prev.widths + [rows.widths[i - 1]], prev.slews + [rows.slews[i - 1]]) == rows.Take(i);
  }

  /** A block starts with its first step's three cells, each of which the
      rest of the block does not repeat. */
  lemma BlockFront(rows: Rows, i: nat, steps: nat)
    requires rows.Aligned() && 1 <= i <= steps <= |rows.levels|
    ensures var rest := Block(rows, i + 1, steps);
            var s := [(RowKey("SLEW", i), VFloat(rows.slews[i - 1]))] + rest;
            var w := [(RowKey("WIDTH", i), VFloat(rows.widths[i - 1]))] + s;
            && Block(rows, i, steps) == [(RowKey("LEVEL", i), VFloat(rows.levels[i - 1]))] + w
            && !HasKey(w, RowKey("LEVEL", i)) && !HasKey(s, RowKey("WIDTH", i)) && !HasKey(rest, RowKey("SLEW", i))
  {
    var e := RowEntries(rows, i);
    var rest := Block(rows, i + 1, steps);
    assert Block(rows, i, steps) == e + rest;
    assert e + rest == [e[0]] + ([e[1]] + ([e[2]] + rest));
    BlockTail(rows, i, steps, 1);
    assert e[1..] + rest == [e[1]] + ([e[2]] + rest);
    BlockTail(rows, i, steps, 2);
    assert e[2..] + rest == [e[2]] + rest;
    BlockTail(rows, i, steps, 3);
    assert e[3..] + rest == rest;
  }

  /** Loading takes back out exactly the block that saving appended. */
  lemma {:induction false} LoadFromBlock(d: Dict<string, Value>, rows: Rows, i: nat, steps: nat)
    requires rows.Aligned() && 1 <= i <= steps + 1 && steps <= |rows.levels|
    requires forall col, j: nat :: col in Columns && i <= j ==> !HasKey(d, RowKey(col, j))
    ensures LoadFrom(d + Block(rows, i, steps), i, steps, rows.Take(i - 1)) == Success((d, rows.Take(steps)))
    decreases steps - i + 1
  {
    if i <= steps {
      assert "LEVEL" in Columns && "WIDTH" in Columns && "SLEW" in Columns;
      LoadStep(d, rows, i, steps);
      LoadFromBlock(d, rows, i + 1, steps);
    } else {
      assert d + Block(rows, i, steps) == d;
    }
  }

  /** A cell key is never the step-count key. */
  lemma RowKeyNotStep(col: string, j: nat)
    requires col in Columns
    ensures RowKey(col, j) != ":LIST:STEP"
  {
    assert |RowKey(col, j)| >= 12;
  }

  /** A configuration saved from parameters without cell entries loads back
      as those parameters and the first `:LIST:STEP` rows of the table. */
  lemma SaveLoadRoundTrip(ps: Dict<string, Value>, rows: Rows)
    requires rows.Aligned() && NoRowKeys(ps)
    requires StepCount(ps).Success? && 0 <= StepCount(ps).value <= |rows.levels|
    ensures SaveRows(ps, rows).Success?
    ensures LoadRows(SaveRows(ps, rows).value) == Success((ps, rows.Take(StepCount(ps).value)))
  {
    var steps := StepCount(ps).value;
    SaveFromBlock(ps, rows, 1, steps);
    var saved := ps + Block(rows, 1, steps);
    GetConcat(ps, Block(rows, 1, steps), ":LIST:STEP");
    assert StepCount(saved) == StepCount(ps);
    LoadFromBlock(ps, rows, 1, steps);
    assert rows.Take(0) == NoRows;
  }
}
