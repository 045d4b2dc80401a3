/** The SPD3303 control panel: what it holds about the two channels, how it
    reads the instrument, the commands its buttons, menus and heartbeat
    write, and an instrument that carries those commands out. */
module Spd3303 {
  import opened Wrappers
  import opened Text
  import opened Values
  import opened OrderedMap
  import opened SpdStatus
  import opened SpdTimer

  /* ---------- commands ---------- */

  /** The command lines the panel writes, by meaning. `ch` is the 0-based
      channel; the line names channel ch+1. */
  datatype SpdCmd =
    | SetVolt(ch: nat, x: real)               // CH<n>:VOLT <x>
    | SetCurr(ch: nat, x: real)               // CH<n>:CURR <x>
    | TimerSet(ch: nat, step: nat, row: Row)  // TIMER:SET CH<n>,<step+1>,<v>,<i>,<t>
    | Output(ch: nat, on: bool)               // OUTPUT CH<n>,ON|OFF
    | TrackSet(code: nat)                     // OUTPUT:TRACK <code>
    | TimerRun(ch: nat, on: bool)             // TIMER CH<n>,ON|OFF

  function ChName(ch: nat): string { "CH" + NatToString(ch + 1) }

  function OnOff(b: bool): string { if b then "ON" else "OFF" }

  /** The line each command is written as; numbers carry three decimals. */
  function Line(c: SpdCmd): Cmd {
    match c
    case SetVolt(ch, x) => Cmd(ChName(ch) + ":VOLT", [Fixed(x, 3)])
    case SetCurr(ch, x) => Cmd(ChName(ch) + ":CURR", [Fixed(x, 3)])
    case TimerSet(ch, step, row) =>
      Cmd("TIMER:SET", [Text(ChName(ch)), Text(NatToString(step + 1)), Fixed(row.v, 3), Fixed(row.i, 3), Fixed(row.t, 3)])
    case Output(ch, on) => Cmd("OUTPUT", [Text(ChName(ch)), Text(OnOff(on))])
    case TrackSet(code) => Cmd("OUTPUT:TRACK", [Text(NatToString(code))])
    case TimerRun(ch, on) => Cmd("TIMER", [Text(ChName(ch)), Text(OnOff(on))])
  }

  /* ---------- the instrument ---------- */

  /** What the instrument holds, as its command set describes it: each
      channel's setpoints and timer rows, the three outputs, the tracking
      mode, the timers and the CV/CC state. */
  datatype Inst = Inst(volt: seq<real>, curr: seq<real>, timer: seq<seq<Row>>, out: seq<bool>,
                       track: Track, timerOn: seq<bool>, cc: seq<bool>)

  predicate InstValid(i: Inst) {
    && |i.volt| == 2 && |i.curr| == 2 && |i.out| == 3 && |i.timerOn| == 2 && |i.cc| == 2
    && |i.timer| == 2 && |i.timer[0]| == Steps && |i.timer[1]| == Steps
  }

  /** The mode each `OUTPUT:TRACK` argument selects. */
  function TrackOfCode(code: nat): Option<Track> {
    if code == 0 then Some(Independent)
    else if code == 1 then Some(Series)
    else if code == 2 then Some(Parallel)
    else None
  }

  lemma TrackCodeRoundTrip(m: Track, code: nat)
    ensures TrackOfCode(TrackCode(m)) == Some(m)
    ensures TrackOfCode(code).Some? ==> TrackCode(TrackOfCode(code).value) == code
  {
  }

  /** One command carried out. A command naming a channel or step the
      instrument does not have changes nothing; changing the tracking mode
      turns the two outputs off. */
  function Exec(i: Inst, c: SpdCmd): (r: Inst)
    requires InstValid(i)
    ensures InstValid(r)
  {
    match c
    case SetVolt(ch, x) => if ch < 2 then i.(volt := i.volt[ch := x]) else i
    case SetCurr(ch, x) => if ch < 2 then i.(curr := i.curr[ch := x]) else i
    case TimerSet(ch, step, row) =>
      if ch < 2 && step < Steps then i.(timer := i.timer[ch := i.timer[ch][step := row]]) else i
    case Output(ch, on) => if ch < 3 then i.(out := i.out[ch := on]) else i
    case TrackSet(code) =>
      if TrackOfCode(code).Some? then i.(track := TrackOfCode(code).value, out := [false, false, i.out[2]]) else i
    case TimerRun(ch, on) => if ch < 2 then i.(timerOn := i.timerOn[ch := on]) else i
  }

  function ExecAll(i: Inst, cs: seq<SpdCmd>): (r: Inst)
    requires InstValid(i)
    ensures InstValid(r)
    decreases |cs|
  {
    if cs == [] then i else ExecAll(Exec(i, cs[0]), cs[1..])
  }

  lemma {:induction false} ExecAllConcat(i: Inst, a: seq<SpdCmd>, b: seq<SpdCmd>)
    requires InstValid(i)
    ensures ExecAll(i, a + b) == ExecAll(ExecAll(i, a), b)
    decreases |a|
  {
    if a != [] {
      assert (a + b)[0] == a[0];
      assert (a + b)[1..] == a[1..] + b;
      ExecAllConcat(Exec(i, a[0]), a[1..], b);
    } else {
      assert a + b == b;
    }
  }

  /** The status word the instrument answers: CV/CC in bits 0-1, the mode
      in bits 2-3, the outputs in bits 4-5 and the timers in bits 6-7. */
  function StatusWord(i: Inst): nat
    requires InstValid(i)
  {
    Word(i.cc[0], i.cc[1], TrackBits(i.track), i.out[0], i.out[1], B(i.timerOn[0]) + 2 * B(i.timerOn[1]))
  }

  /** The panel reads back from the word the instrument's mode, outputs and
      CV/CC state. */
  lemma StatusWordReads(i: Inst, prev: Track)
    requires InstValid(i)
    ensures TrackOf(StatusWord(i), prev) == i.track
    ensures OutputOn(StatusWord(i), 0) == i.out[0] && OutputOn(StatusWord(i), 1) == i.out[1]
    ensures InCc(StatusWord(i), 0) == i.cc[0] && InCc(StatusWord(i), 1) == i.cc[1]
  {
    WordReads(i.cc[0], i.cc[1], i.track, i.out[0], i.out[1], B(i.timerOn[0]) + 2 * B(i.timerOn[1]), prev);
  }

  /* ---------- the panel's state ---------- */

  /** What the panel holds about one channel: voltage and current
      setpoints, the timer table, whether the output is on and in constant
      current, the Min/Max limits and the timer estimate. */
  datatype Channel = Channel(volt: real, curr: real, table: Table, on: bool, cc: bool, lim: Limits, run: Run)

  /** The panel: two channels, the third output (which it cannot read), the
      tracking mode and the time of the last heartbeat. */
  datatype Psu = Psu(chans: seq<Channel>, out3: bool, mode: Track, lastHb: Option<real>)

  predicate ChannelValid(c: Channel) {
    WellFormed(c.table) && RunValid(c.run)
  }

  predicate Valid(p: Psu) {
    |p.chans| == 2 && ChannelValid(p.chans[0]) && ChannelValid(p.chans[1])
  }

  /** Channel 2 follows channel 1: the setpoints and limits agree. */
  predicate Mirrored(p: Psu)
    requires |p.chans| == 2
  {
    p.chans[1].volt == p.chans[0].volt && p.chans[1].curr == p.chans[0].curr && p.chans[1].lim == p.chans[0].lim
  }

  /** The state part of `_update_widgets`: in series or parallel mode
      channel 2's limits and setpoints are copied from channel 1. */
  function Slave(p: Psu): (r: Psu)
    requires Valid(p)
    ensures Valid(r)
  {
    if p.mode == Independent then p
    else
      var c1 := p.chans[1].(volt := p.chans[0].volt, curr := p.chans[0].curr, lim := p.chans[0].lim);
      p.(chans := [p.chans[0], c1])
  }

  /** In series or parallel mode the panel leaves channel 2 mirroring
      channel 1; in independent mode it changes nothing; channel 1, the
      timer tables, outputs and estimates are never touched, and slaving
      twice is slaving once. */
  lemma SlaveSpec(p: Psu)
    requires Valid(p)
    ensures p.mode != Independent ==> Mirrored(Slave(p))
    ensures p.mode == Independent ==> Slave(p) == p
    ensures Slave(p).chans[0] == p.chans[0] && Slave(p).mode == p.mode && Slave(p).out3 == p.out3
    ensures Slave(p).chans[1].table == p.chans[1].table && Slave(p).chans[1].on == p.chans[1].on
    ensures Slave(p).chans[1].run == p.chans[1].run && Slave(p).chans[1].cc == p.chans[1].cc
    ensures Slave(Slave(p)) == Slave(p)
  {
  }

  /* ---------- reading the instrument ---------- */

  /** `float(reply)`: `float` is Python's parse, `None` when it raises. */
  function Number(reply: Result<string, Error>, float: string -> Option<real>): (r: Result<real, Error>)
    ensures reply.Success? && float(reply.value).Some? <==> r.Success?
    ensures r.Success? ==> r.value == float(reply.value).value
    ensures r.Failure? && reply.Success? ==> r.error == ValueError
  {
    var s :- reply;
    match float(s)
    case None => Failure(ValueError)
    case Some(x) => Success(x)
  }

  /** One `TIMER:SET?` reply: the fields before the (trailing) comma are
      voltage, current and duration, converted in that order, so a bad
      field is a ValueError and a missing one an IndexError. */
  function TimerRow(reply: Result<string, Error>, float: string -> Option<real>): (r: Result<Row, Error>)
    ensures r.Success? ==> reply.Success? && |Split(reply.value, ',')| >= 3
    ensures r.Success? ==> var f := Split(reply.value, ',');
              && float(f[0]).Some? && float(f[1]).Some? && float(f[2]).Some?
              && r.value == Row(float(f[0]).value, float(f[1]).value, float(f[2]).value)
    ensures reply.Success? && r.Failure? ==> r.error == ValueError || r.error == IndexError
  {
    var s :- reply;
    var f := Split(s, ',');
    var v :- Number(Success(f[0]), float);
    if |f| < 2 then Failure(IndexError)
    else
      var c :- Number(Success(f[1]), float);
      if |f| < 3 then Failure(IndexError)
      else
        var t :- Number(Success(f[2]), float);
        Success(Row(v, c, t))
  }

  /** The queries `refresh` asks. */
  function VoltQuery(ch: nat): string { ChName(ch) + ":VOLT?" }
  function CurrQuery(ch: nat): string { ChName(ch) + ":CURRENT?" }
  function TimerQuery(ch: nat, step: nat): string { "TIMER:SET? " + ChName(ch) + "," + NatToString(step + 1) }
  const StatusQuery: string := "SYST:STATUS?"

  /** The timer rows of channel `ch` from step `k` on. */
  function RowsFrom(ch: nat, k: nat, ask: string -> Result<string, Error>, float: string -> Option<real>): (r: Result<seq<Row>, Error>)
    requires k <= Steps
    ensures r.Success? ==> |r.value| == Steps - k
    ensures r.Success? ==> forall j :: k <= j < Steps ==> TimerRow(ask(TimerQuery(ch, j)), float) == Success(r.value[j - k])
    decreases Steps - k
  {
    if k == Steps then Success([])
    else
      var row :- TimerRow(ask(TimerQuery(ch, k)), float);
      var rest :- RowsFrom(ch, k + 1, ask, float);
      Success([row] + rest)
  }

  /** One channel of `refresh`: voltage, current, the output bit of the
      status word and the five timer rows, each a new list. */
  function ReadChannel(c: Channel, ch: nat, w: nat, ask: string -> Result<string, Error>, float: string -> Option<real>): (r: Result<Channel, Error>)
    ensures r.Success? ==> r.value == c.(volt := r.value.volt, curr := r.value.curr, on := OutputOn(w, ch), table := r.value.table)
    ensures r.Success? ==> Number(ask(VoltQuery(ch)), float) == Success(r.value.volt)
    ensures r.Success? ==> Number(ask(CurrQuery(ch)), float) == Success(r.value.curr)
    ensures r.Success? ==> WellFormed(r.value.table) && SpdTimer.Independent(r.value.table)
    ensures r.Success? ==> forall j :: 0 <= j < Steps ==> TimerRow(ask(TimerQuery(ch, j)), float) == Success(Rows(r.value.table)[j])
  {
    var v :- Number(ask(VoltQuery(ch)), float);
    var cu :- Number(ask(CurrQuery(ch)), float);
    var rows :- RowsFrom(ch, 0, ask, float);
    Success(c.(volt := v, curr := cu, on := OutputOn(w, ch), table := Fresh(rows)))
  }

  /** `refresh`: the status word, then each channel; CH3's output cannot
      be read and is taken as off; bits 2-3 give the mode; then channel 2
      is slaved. */
  function Refresh(p: Psu, ask: string -> Result<string, Error>, float: string -> Option<real>): (r: Result<Psu, Error>)
    requires Valid(p)
    ensures r.Success? ==> Valid(r.value)
  {
    var reply :- ask(StatusQuery);
    var w :- StatusOf(reply);
    var c0 :- ReadChannel(p.chans[0], 0, w, ask, float);
    var c1 :- ReadChannel(p.chans[1], 1, w, ask, float);
    Success(Slave(Psu([c0, c1], false, TrackOf(w, p.mode), p.lastHb)))
  }

  /** After `refresh`: CH3 is off, the outputs are the status bits, the mode
      is read from bits 2-3 (kept when they are 00), the timer estimates and
      CV/CC flags are untouched, and outside independent mode channel 2
      mirrors channel 1. */
  lemma RefreshSpec(p: Psu, ask: string -> Result<string, Error>, float: string -> Option<real>)
    requires Valid(p)
    requires Refresh(p, ask, float).Success?
    ensures ask(StatusQuery).Success? && StatusOf(ask(StatusQuery).value).Success?
    ensures var r := Refresh(p, ask, float).value;
            var w := StatusOf(ask(StatusQuery).value).value;
            && !r.out3
            && r.mode == TrackOf(w, p.mode)
            && r.lastHb == p.lastHb
            && r.chans[0].on == OutputOn(w, 0) && r.chans[1].on == OutputOn(w, 1)
            && r.chans[0].run == p.chans[0].run && r.chans[1].run == p.chans[1].run
            && r.chans[0].cc == p.chans[0].cc && r.chans[1].cc == p.chans[1].cc
            && (r.mode != Independent ==> Mirrored(r))
  {
    var w, c0, c1 := RefreshParts(p, ask, float);
    SlaveSpec(Psu([c0, c1], false, TrackOf(w, p.mode), p.lastHb));
  }

  /** `t` is five separate rows, each the one the instrument reported for
      that step of channel `ch`. */
  predicate TableRead(t: Table, ch: nat, ask: string -> Result<string, Error>, float: string -> Option<real>) {
    && WellFormed(t)
    && SpdTimer.Independent(t)
    && forall j :: 0 <= j < Steps ==> TimerRow(ask(TimerQuery(ch, j)), float) == Success(Rows(t)[j])
  }

  /** After `refresh` every timer table is five separate lists holding the
      rows read for its channel. */
  lemma RefreshTables(p: Psu, ask: string -> Result<string, Error>, float: string -> Option<real>, ch: nat)
    requires Valid(p) && ch < 2
    requires Refresh(p, ask, float).Success?
    ensures TableRead(Refresh(p, ask, float).value.chans[ch].table, ch, ask, float)
  {
    var w, c0, c1 := RefreshParts(p, ask, float);
    SlaveSpec(Psu([c0, c1], false, TrackOf(w, p.mode), p.lastHb));
    var r := Refresh(p, ask, float).value;
    if ch == 0 {
      ChannelKept(p.chans[0], 0, w, ask, float, c0, r.chans[0]);
    } else {
      ChannelKept(p.chans[1], 1, w, ask, float, c1, r.chans[1]);
    }
  }

  /** After `refresh` the setpoints are the ones read: channel 1's always,
      channel 2's in independent mode (elsewhere it mirrors channel 1). */
  lemma RefreshSetpoints(p: Psu, ask: string -> Result<string, Error>, float: string -> Option<real>)
    requires Valid(p)
    requires Refresh(p, ask, float).Success?
    ensures var r := Refresh(p, ask, float).value;
            && Number(ask(VoltQuery(0)), float) == Success(r.chans[0].volt)
            && Number(ask(CurrQuery(0)), float) == Success(r.chans[0].curr)
            && (r.mode == Independent ==>
                  Number(ask(VoltQuery(1)), float) == Success(r.chans[1].volt)
                  && Number(ask(CurrQuery(1)), float) == Success(r.chans[1].curr))
  {
    var w, c0, c1 := RefreshParts(p, ask, float);
    SlaveSpec(Psu([c0, c1], false, TrackOf(w, p.mode), p.lastHb));
  }

  /** The table a channel read stores is the one read, and slaving keeps it. */
  lemma ChannelKept(c: Channel, ch: nat, w: nat, ask: string -> Result<string, Error>, float: string -> Option<real>,
                    read: Channel, slaved: Channel)
    requires ReadChannel(c, ch, w, ask, float) == Success(read)
    requires slaved.table == read.table
    ensures TableRead(slaved.table, ch, ask, float)
  {
  }

  /** A successful `refresh` slaves the status-word mode and the two channels
      read. */
  lemma RefreshParts(p: Psu, ask: string -> Result<string, Error>, float: string -> Option<real>)
    returns (w: nat, c0: Channel, c1: Channel)
    requires Valid(p)
    requires Refresh(p, ask, float).Success?
    ensures ask(StatusQuery).Success? && StatusOf(ask(StatusQuery).value) == Success(w)
    ensures ReadChannel(p.chans[0], 0, w, ask, float) == Success(c0)
    ensures ReadChannel(p.chans[1], 1, w, ask, float) == Success(c1)
    ensures Valid(Psu([c0, c1], false, TrackOf(w, p.mode), p.lastHb))
    ensures Refresh(p, ask, float).value == Slave(Psu([c0, c1], false, TrackOf(w, p.mode), p.lastHb))
  {
    w := StatusOf(ask(StatusQuery).value).value;
    c0 := ReadChannel(p.chans[0], 0, w, ask, float).value;
    c1 := ReadChannel(p.chans[1], 1, w, ask, float).value;
  }

  /** A status reply that is not hexadecimal fails `refresh` with a
      ValueError before anything else is asked. */
  lemma RefreshBadStatus(p: Psu, ask: string -> Result<string, Error>, float: string -> Option<real>)
    requires Valid(p)
    requires ask(StatusQuery).Success? && StatusOf(ask(StatusQuery).value).Failure?
    ensures Refresh(p, ask, float) == Failure(ValueError)
  {
  }

  /** When the instrument answers its own status word, `refresh` reads back
      its mode and output states. */
  lemma RefreshReadsInstrument(p: Psu, i: Inst, ask: string -> Result<string, Error>, float: string -> Option<real>)
    requires Valid(p) && InstValid(i)
    requires ask(StatusQuery) == Success("0x" + Hex(StatusWord(i)))
    requires Refresh(p, ask, float).Success?
    ensures Refresh(p, ask, float).value.mode == i.track
    ensures Refresh(p, ask, float).value.chans[0].on == i.out[0]
    ensures Refresh(p, ask, float).value.chans[1].on == i.out[1]
  {
    StatusOfHex(StatusWord(i));
    StatusWordReads(i, p.mode);
    RefreshSpec(p, ask, float);
  }

  /* ---------- writing the panel's state to the instrument ---------- */

  /** `TIMER:SET` for the listed rows of one channel, in order. */
  function RowCmds(ch: nat, rows: seq<Row>, ks: seq<nat>): seq<SpdCmd>
    requires |rows| == Steps && forall a :: 0 <= a < |ks| ==> ks[a] < Steps
  {
    if ks == [] then [] else [TimerSet(ch, ks[0], rows[ks[0]])] + RowCmds(ch, rows, ks[1..])
  }

  const AllSteps: seq<nat> := [0, 1, 2, 3, 4]

  /** The instrument holds the listed rows afterwards, every other row as
      it was, and nothing else changes. */
  lemma {:induction false} ExecRowCmds(i: Inst, ch: nat, rows: seq<Row>, ks: seq<nat>)
    requires InstValid(i) && ch < 2 && |rows| == Steps
    requires forall a :: 0 <= a < |ks| ==> ks[a] < Steps
    ensures var j := ExecAll(i, RowCmds(ch, rows, ks));
            && j == i.(timer := j.timer)
            && j.timer[1 - ch] == i.timer[1 - ch]
            && forall k :: 0 <= k < Steps ==> j.timer[ch][k] == if k in ks then rows[k] else i.timer[ch][k]
    decreases |ks|
  {
    if ks != [] {
      var cs := RowCmds(ch, rows, ks);
      var i1 := Exec(i, cs[0]);
      ExecRowCmds(i1, ch, rows, ks[1..]);
      assert cs[1..] == RowCmds(ch, rows, ks[1..]);
      forall k | 0 <= k < Steps
        ensures k in ks <==> k == ks[0] || k in ks[1..]
      {
        if k in ks {
          var a :| 0 <= a < |ks| && ks[a] == k;
          if a > 0 { assert ks[1..][a - 1] == k; }
        }
      }
    }
  }

  /** Voltage, current and the five timer rows of one channel. */
  function ChannelCmds(ch: nat, volt: real, curr: real, rows: seq<Row>): seq<SpdCmd>
    requires |rows| == Steps
  {
    [SetVolt(ch, volt), SetCurr(ch, curr)] + RowCmds(ch, rows, AllSteps)
  }

  /** The instrument ends with the channel's setpoints and rows. */
  lemma ChannelCmdsEffect(i: Inst, ch: nat, volt: real, curr: real, rows: seq<Row>)
    requires InstValid(i) && ch < 2 && |rows| == Steps
    ensures ExecAll(i, ChannelCmds(ch, volt, curr, rows))
         == i.(volt := i.volt[ch := volt], curr := i.curr[ch := curr], timer := i.timer[ch := rows])
  {
    var i2 := i.(volt := i.volt[ch := volt], curr := i.curr[ch := curr]);
    ExecAllTwo(i, SetVolt(ch, volt), SetCurr(ch, curr));
    ExecAllConcat(i, [SetVolt(ch, volt), SetCurr(ch, curr)], RowCmds(ch, rows, AllSteps));
    ExecRowCmds(i2, ch, rows, AllSteps);
    var j := ExecAll(i2, RowCmds(ch, rows, AllSteps));
    assert j.timer[ch] == rows;
    assert j.timer == i.timer[ch := rows];
  }

  lemma ExecAllTwo(i: Inst, a: SpdCmd, b: SpdCmd)
    requires InstValid(i)
    ensures ExecAll(i, [a, b]) == Exec(Exec(i, a), b)
  {
    var i1 := Exec(i, a);
    assert [a, b][1..] == [b];
    assert ExecAll(i, [a, b]) == ExecAll(i1, [b]);
    assert [b][1..] == [];
    assert ExecAll(i1, [b]) == ExecAll(Exec(i1, b), []);
  }

  /** `OUTPUT` for the three outputs, as the panel holds them. */
  function OutputCmds(p: Psu): seq<SpdCmd>
    requires Valid(p)
  {
    [Output(0, p.chans[0].on), Output(1, p.chans[1].on), Output(2, p.out3)]
  }

  /** The instrument's outputs end as the panel holds them. */
  lemma OutputCmdsEffect(i: Inst, p: Psu)
    requires InstValid(i) && Valid(p)
    ensures ExecAll(i, OutputCmds(p)) == i.(out := [p.chans[0].on, p.chans[1].on, p.out3])
  {
    var cs := OutputCmds(p);
    assert cs == [cs[0]] + [cs[1], cs[2]];
    ExecAllConcat(i, [cs[0]], [cs[1], cs[2]]);
    assert [cs[0]][1..] == [];
    ExecAllTwo(Exec(i, cs[0]), cs[1], cs[2]);
  }

  /** `update_instrument` as written: each channel's current setpoint is
      sent with the voltage's value, and the tracking mode it assembles is
      never sent. */
  function UpdateInstrumentAsWritten(p: Psu): seq<SpdCmd>
    requires Valid(p)
  {
    var c0 := p.chans[0];
    var c1 := p.chans[1];
    ChannelCmds(0, c0.volt, c0.volt, Rows(c0.table)) + ChannelCmds(1, c1.volt, c1.volt, Rows(c1.table)) + OutputCmds(p)
  }

  /** `update_instrument` as evidently intended: the tracking mode first
      (it turns the outputs off, so it must come before them), then each
      channel's voltage, current and timer rows, then the outputs. */
  function UpdateInstrument(p: Psu): seq<SpdCmd>
    requires Valid(p)
  {
    var c0 := p.chans[0];
    var c1 := p.chans[1];
    [TrackSet(TrackCode(p.mode))] + ChannelCmds(0, c0.volt, c0.curr, Rows(c0.table))
      + ChannelCmds(1, c1.volt, c1.curr, Rows(c1.table)) + OutputCmds(p)
  }

  /** What the panel holds, as the instrument would hold it. */
  predicate InSync(p: Psu, i: Inst)
    requires Valid(p) && InstValid(i)
  {
    && i.volt == [p.chans[0].volt, p.chans[1].volt]
    && i.curr == [p.chans[0].curr, p.chans[1].curr]
    && i.timer == [Rows(p.chans[0].table), Rows(p.chans[1].table)]
    && i.out == [p.chans[0].on, p.chans[1].on, p.out3]
    && i.track == p.mode
  }

  /** Whatever the instrument held, after the corrected update it holds
      the panel's state, keeping only its timers and CV/CC state. */
  lemma UpdateRestores(p: Psu, i: Inst)
    requires Valid(p) && InstValid(i)
    ensures var j := ExecAll(i, UpdateInstrument(p));
            InSync(p, j) && j.timerOn == i.timerOn && j.cc == i.cc
  {
    var c0 := p.chans[0];
    var c1 := p.chans[1];
    var a := [TrackSet(TrackCode(p.mode))];
    var b := ChannelCmds(0, c0.volt, c0.curr, Rows(c0.table));
    var c := ChannelCmds(1, c1.volt, c1.curr, Rows(c1.table));
    var i1 := ExecAll(i, a);
    TrackCodeRoundTrip(p.mode, 0);
    ExecAllConcat(i, a + b + c, OutputCmds(p));
    ExecAllConcat(i, a + b, c);
    ExecAllConcat(i, a, b);
    ChannelCmdsEffect(i1, 0, c0.volt, c0.curr, Rows(c0.table));
    ChannelCmdsEffect(ExecAll(i1, b), 1, c1.volt, c1.curr, Rows(c1.table));
    assert a[1..] == [];
    OutputCmdsEffect(ExecAll(i, a + b + c), p);
  }

  /** After the corrected update the status word reads back the panel's
      mode and output states. */
  lemma UpdateThenStatus(p: Psu, i: Inst, prev: Track)
    requires Valid(p) && InstValid(i)
    ensures var w := StatusWord(ExecAll(i, UpdateInstrument(p)));
            TrackOf(w, prev) == p.mode && OutputOn(w, 0) == p.chans[0].on && OutputOn(w, 1) == p.chans[1].on
  {
    UpdateRestores(p, i);
    StatusWordReads(ExecAll(i, UpdateInstrument(p)), prev);
  }

  /** As written, each channel's current setpoint ends equal to its voltage
      setpoint and the instrument keeps its own tracking mode; everything
      else is restored. */
  lemma UpdateAsWrittenSpec(p: Psu, i: Inst)
    requires Valid(p) && InstValid(i)
    ensures var j := ExecAll(i, UpdateInstrumentAsWritten(p));
            && j.curr == [p.chans[0].volt, p.chans[1].volt]
            && j.track == i.track
            && j.volt == [p.chans[0].volt, p.chans[1].volt]
            && j.timer == [Rows(p.chans[0].table), Rows(p.chans[1].table)]
            && j.out == [p.chans[0].on, p.chans[1].on, p.out3]
  {
    var c0 := p.chans[0];
    var c1 := p.chans[1];
    var b := ChannelCmds(0, c0.volt, c0.volt, Rows(c0.table));
    var c := ChannelCmds(1, c1.volt, c1.volt, Rows(c1.table));
    ExecAllConcat(i, b + c, OutputCmds(p));
    ExecAllConcat(i, b, c);
    ChannelCmdsEffect(i, 0, c0.volt, c0.volt, Rows(c0.table));
    ChannelCmdsEffect(ExecAll(i, b), 1, c1.volt, c1.volt, Rows(c1.table));
    OutputCmdsEffect(ExecAll(i, b + c), p);
  }

  /** A panel at 5 V / 1 A on channel 1 in independent mode, written to an
      instrument in series mode: as written, the instrument ends at 5 A and
      in series mode; the corrected update leaves it at 1 A, independent. */
  lemma UpdateAsWrittenLoses()
    ensures var lim := Limits(0.0, 32.0, 0.0, 3.2);
            var p0 := StartAsWritten(lim, lim);
            var p := p0.(chans := p0.chans[0 := p0.chans[0].(volt := 5.0, curr := 1.0)]);
            var i := Inst([0.0, 0.0], [0.0, 0.0], [Rows(Initial), Rows(Initial)], [false, false, false], Series, [false, false], [false, false]);
            && Valid(p) && InstValid(i)
            && ExecAll(i, UpdateInstrumentAsWritten(p)).curr[0] == 5.0
            && ExecAll(i, UpdateInstrumentAsWritten(p)).track == Series
            && ExecAll(i, UpdateInstrument(p)).curr[0] == 1.0
            && ExecAll(i, UpdateInstrument(p)).track == Independent
  {
    var lim := Limits(0.0, 32.0, 0.0, 3.2);
    var p0 := StartAsWritten(lim, lim);
    var p := p0.(chans := p0.chans[0 := p0.chans[0].(volt := 5.0, curr := 1.0)]);
    var i := Inst([0.0, 0.0], [0.0, 0.0], [Rows(Initial), Rows(Initial)], [false, false, false], Series, [false, false], [false, false]);
    assert p.chans[0].volt == 5.0 && p.chans[0].curr == 1.0 && p.mode == Independent;
    UpdateAsWrittenSpec(p, i);
    UpdateRestores(p, i);
  }

  /* ---------- measurements and triggers ---------- */

  /** One measurement as `update_measurements_and_triggers` reports it. */
  datatype Meta = Meta(name: string, unit: string, format: string, val: Option<real>)

  /** One trigger: its display name and value. */
  datatype Flag = Flag(name: string, val: bool)

  /** Which of voltage, current and power the panel measures. */
  datatype Enables = Enables(volt: bool, curr: bool, power: bool)

  /** The panel after a reading, with the measurements and triggers. */
  datatype Readings = Readings(p: Psu, meas: Dict<string, Meta>, trig: Dict<string, Flag>)

  /** Quantity `q`: 0 voltage, 1 current, 2 power. */
  function Enabled(en: Enables, q: nat): bool {
    if q == 0 then en.volt else if q == 1 then en.curr else en.power
  }

  function MeasQuery(q: nat, ch: nat): string {
    (if q == 0 then "MEAS:VOLT? " else if q == 1 then "MEAS:CURR? " else "MEAS:POWER? ") + ChName(ch)
  }

  /** One reading: none without an instrument read, when the quantity is
      not measured or when the output is off; otherwise the instrument's
      reply as a float. */
  function Measure(on: bool, q: nat, readInst: bool, en: Enables,
                   ask: string -> Result<string, Error>, float: string -> Option<real>, ch: nat): (r: Result<Option<real>, Error>)
  {
    if !readInst || !Enabled(en, q) || !on then Success(None)
    else
      var x :- Number(ask(MeasQuery(q, ch)), float);
      Success(Some(x))
  }

  /** The three measurements of one channel, `Voltage<n>`, `Current<n>`,
      `Power<n>`. */
  function ChannelMeas(p: Psu, ch: nat, readInst: bool, en: Enables,
                       ask: string -> Result<string, Error>, float: string -> Option<real>): (r: Result<Dict<string, Meta>, Error>)
    requires Valid(p) && ch < 2
  {
    var on := p.chans[ch].on;
    var n := NatToString(ch + 1);
    var v :- Measure(on, 0, readInst, en, ask, float, ch);
    var c :- Measure(on, 1, readInst, en, ask, float, ch);
    var w :- Measure(on, 2, readInst, en, ask, float, ch);
    Success([("Voltage" + n, Meta(ChName(ch) + " Voltage", "V", "6.3f", v)),
             ("Current" + n, Meta(ChName(ch) + " Current", "A", "5.3f", c)),
             ("Power" + n, Meta(ChName(ch) + " Power", "W", "6.3f", w))])
  }

  /** The eight triggers: outputs on, CV, CC and timers running. */
  function Triggers(p: Psu): Dict<string, Flag>
    requires Valid(p)
  {
    var c0 := p.chans[0];
    var c1 := p.chans[1];
    [("CH1On", Flag("CH1 On", c0.on)), ("CH2On", Flag("CH2 On", c1.on)),
     ("CH1CV", Flag("CH1 CV Mode", !c0.cc)), ("CH2CV", Flag("CH2 CV Mode", !c1.cc)),
     ("CH1CC", Flag("CH1 CC Mode", c0.cc)), ("CH2CC", Flag("CH2 CC Mode", c1.cc)),
     ("CH1TimerRunning", Flag("CH1 Timer Running", c0.run.running)),
     ("CH2TimerRunning", Flag("CH2 Timer Running", c1.run.running))]
  }

  /** `update_measurements_and_triggers`: with an instrument read the
      status word sets the CV/CC and output states; then the triggers, then
      each channel's measurements. */
  function MeasureAndTrigger(p: Psu, readInst: bool, en: Enables,
                             ask: string -> Result<string, Error>, float: string -> Option<real>): (r: Result<Readings, Error>)
    requires Valid(p)
    ensures r.Success? ==> Valid(r.value.p)
  {
    var p1 :- ReadState(p, readInst, ask);
    var m0 :- ChannelMeas(p1, 0, readInst, en, ask, float);
    var m1 :- ChannelMeas(p1, 1, readInst, en, ask, float);
    Success(Readings(p1, m0 + m1, Triggers(p1)))
  }

  /** The panel state a reading leaves: without an instrument read the
      panel as it was; with one, the CV/CC and output states of the status
      word's bits and nothing else changed. */
  function ReadState(p: Psu, readInst: bool, ask: string -> Result<string, Error>): (r: Result<Psu, Error>)
    requires Valid(p)
    ensures r.Success? ==> Valid(r.value)
  {
    if !readInst then Success(p)
    else
      var reply :- ask(StatusQuery);
      var w :- StatusOf(reply);
      Success(p.(chans := [p.chans[0].(cc := InCc(w, 0), on := OutputOn(w, 0)),
                           p.chans[1].(cc := InCc(w, 1), on := OutputOn(w, 1))]))
  }

  /** One measurement as read: present exactly when the instrument was read,
      the quantity is measured and the output is on, and then the
      instrument's reply to the quantity's query; in volts, amperes or
      watts. */
  predicate MeasuredAs(m: Meta, on: bool, q: nat, ch: nat, readInst: bool, en: Enables,
                       ask: string -> Result<string, Error>, float: string -> Option<real>) {
    && (m.val.Some? <==> readInst && Enabled(en, q) && on)
    && (m.val.Some? ==> Number(ask(MeasQuery(q, ch)), float) == Success(m.val.value))
    && m.unit == (if q == 0 then "V" else if q == 1 then "A" else "W")
  }

  /** A channel's three measurements, voltage, current and power, each as
      read. */
  lemma ChannelMeasSpec(p: Psu, ch: nat, readInst: bool, en: Enables,
                        ask: string -> Result<string, Error>, float: string -> Option<real>)
    requires Valid(p) && ch < 2
    requires ChannelMeas(p, ch, readInst, en, ask, float).Success?
    ensures var m := ChannelMeas(p, ch, readInst, en, ask, float).value;
            && |m| == 3
            && forall q :: 0 <= q < 3 ==> MeasuredAs(m[q].1, p.chans[ch].on, q, ch, readInst, en, ask, float)
  {
  }

  /** The six measurements come in channel order, voltage, current, power,
      each present exactly when the instrument was read, the quantity is
      measured and the output (as just read) is on, and then the
      instrument's reply. */
  lemma MeasureSpec(p: Psu, readInst: bool, en: Enables,
                    ask: string -> Result<string, Error>, float: string -> Option<real>)
    requires Valid(p)
    requires MeasureAndTrigger(p, readInst, en, ask, float).Success?
    ensures var r := MeasureAndTrigger(p, readInst, en, ask, float).value;
            && ReadState(p, readInst, ask) == Success(r.p)
            && |r.meas| == 6
            && (forall i :: 0 <= i < 6 ==>
                  MeasuredAs(r.meas[i].1, r.p.chans[i / 3].on, i % 3, i / 3, readInst, en, ask, float))
  {
    var p1: Psu, m0: Dict<string, Meta>, m1: Dict<string, Meta> := MeasureParts(p, readInst, en, ask, float);
    ChannelMeasSpec(p1, 0, readInst, en, ask, float);
    ChannelMeasSpec(p1, 1, readInst, en, ask, float);
    forall i | 0 <= i < 6
      ensures MeasuredAs((m0 + m1)[i].1, p1.chans[i / 3].on, i % 3, i / 3, readInst, en, ask, float)
    {
      if i < 3 { assert (m0 + m1)[i] == m0[i % 3]; } else { assert (m0 + m1)[i] == m1[i % 3]; }
    }
  }

  /** A reading is the panel state read, then the two channels'
      measurements. */
  lemma MeasureParts(p: Psu, readInst: bool, en: Enables,
                     ask: string -> Result<string, Error>, float: string -> Option<real>)
    returns (p1: Psu, m0: Dict<string, Meta>, m1: Dict<string, Meta>)
    requires Valid(p)
    requires MeasureAndTrigger(p, readInst, en, ask, float).Success?
    ensures ReadState(p, readInst, ask) == Success(p1) && Valid(p1)
    ensures ChannelMeas(p1, 0, readInst, en, ask, float) == Success(m0)
    ensures ChannelMeas(p1, 1, readInst, en, ask, float) == Success(m1)
    ensures MeasureAndTrigger(p, readInst, en, ask, float).value == Readings(p1, m0 + m1, Triggers(p1))
  {
    p1 := ReadState(p, readInst, ask).value;
    m0 := ChannelMeas(p1, 0, readInst, en, ask, float).value;
    m1 := ChannelMeas(p1, 1, readInst, en, ask, float).value;
  }

  /** The triggers report each output, CV as the opposite of CC, and each
      timer; a read changes only the CV/CC and output states, to the status
      word's bits. */
  lemma TriggerSpec(p: Psu, readInst: bool, en: Enables,
                    ask: string -> Result<string, Error>, float: string -> Option<real>)
    requires Valid(p)
    requires MeasureAndTrigger(p, readInst, en, ask, float).Success?
    ensures var r := MeasureAndTrigger(p, readInst, en, ask, float).value;
            && |r.trig| == 8
            && (forall ch :: 0 <= ch < 2 ==>
                  && r.trig[ch].1.val == r.p.chans[ch].on
                  && r.trig[2 + ch].1.val == !r.p.chans[ch].cc
                  && r.trig[4 + ch].1.val == r.p.chans[ch].cc
                  && r.trig[6 + ch].1.val == r.p.chans[ch].run.running
                  && r.p.chans[ch] == p.chans[ch].(cc := r.p.chans[ch].cc, on := r.p.chans[ch].on))
            && r.p == p.(chans := r.p.chans)
            && (!readInst ==> r.p == p)
            && (readInst ==> (&& ask(StatusQuery).Success? && StatusOf(ask(StatusQuery).value).Success?
                              && forall ch :: 0 <= ch < 2 ==>
                                   && r.p.chans[ch].cc == InCc(StatusOf(ask(StatusQuery).value).value, ch)
                                   && r.p.chans[ch].on == OutputOn(StatusOf(ask(StatusQuery).value).value, ch)))
  {
  }

  /** Without an instrument read nothing is asked: the result does not
      depend on the instrument, it always succeeds and every measurement is
      empty. */
  lemma MeasureOffline(p: Psu, en: Enables, ask: string -> Result<string, Error>, float: string -> Option<real>,
                       ask': string -> Result<string, Error>, float': string -> Option<real>)
    requires Valid(p)
    ensures MeasureAndTrigger(p, false, en, ask, float) == MeasureAndTrigger(p, false, en, ask', float')
    ensures MeasureAndTrigger(p, false, en, ask, float).Success?
    ensures forall a :: 0 <= a < 6 ==> MeasureAndTrigger(p, false, en, ask, float).value.meas[a].1.val.None?
  {
  }

  /* ---------- the timer ---------- */

  /** What a panel action leaves: the new panel and the lines it wrote. */
  datatype Step = Step(p: Psu, cmds: seq<SpdCmd>)

  /** A panel action that can raise part-way: what it had done by the time
      it returned or raised, and whether it raised. */
  datatype Outcome = Outcome(step: Step, result: Result<(), Error>)

  /** The TIMER button can be pressed: independent mode, and some row has a
      non-zero duration. */
  predicate TimerButtonEnabled(p: Psu, ch: nat)
    requires Valid(p) && ch < 2
  {
    p.mode == Independent && AnyDuration(Rows(p.chans[ch].table))
  }

  /** The TIMER button: only in independent mode (an assert otherwise).
      Starting begins at the first row with a positive duration, takes the
      first row's setpoints and shows the output on; stopping shows the
      output off. Either way `TIMER CH<n>,ON|OFF` is written. */
  function ClickTimer(p: Psu, ch: nat): (r: Result<Step, Error>)
    requires Valid(p) && ch < 2
    ensures r.Success? ==> Valid(r.value.p)
  {
    var c := p.chans[ch];
    var state := !c.run.running;
    if p.mode != Independent then Failure(AssertionError)
    else
      var rows := Rows(c.table);
      var c1 := if state then c.(run := Run(true, StartStep(rows), 0.0), volt := rows[0].v, curr := rows[0].i, on := true)
                else c.(run := c.run.(running := false), on := false);
      Success(Step(p.(chans := p.chans[ch := c1]), [TimerRun(ch, state)]))
  }

  /** The button fails exactly outside independent mode; it flips the
      timer, shows the output as the timer's new state, and tells the
      instrument; a start begins at the first row with a duration, at its
      start, with the first row's setpoints; the other channel, the tables
      and the mode are untouched. */
  lemma ClickTimerSpec(p: Psu, ch: nat, i: Inst)
    requires Valid(p) && ch < 2 && InstValid(i)
    ensures ClickTimer(p, ch).Failure? <==> p.mode != Independent
    ensures ClickTimer(p, ch).Failure? ==> ClickTimer(p, ch).error == AssertionError
    ensures ClickTimer(p, ch).Success? ==>
              var r := ClickTimer(p, ch).value;
              var c := r.p.chans[ch];
              var rows := Rows(p.chans[ch].table);
              && c.run.running == !p.chans[ch].run.running
              && c.on == c.run.running
              && r.cmds == [TimerRun(ch, c.run.running)]
              && ExecAll(i, r.cmds).timerOn[ch] == c.run.running
              && r.p.chans[1 - ch] == p.chans[1 - ch]
              && c.table == p.chans[ch].table && r.p.mode == p.mode
              && (c.run.running ==> c.run.step == StartStep(rows) && c.run.elapsed == 0.0
                                    && c.volt == rows[0].v && c.curr == rows[0].i)
              && (!c.run.running ==> c.volt == p.chans[ch].volt && c.curr == p.chans[ch].curr)
  {
    if ClickTimer(p, ch).Success? {
      var r := ClickTimer(p, ch).value;
      assert [TimerRun(ch, r.p.chans[ch].run.running)][1..] == [];
    }
  }

  /** An enabled button starts the timer on a row that has a duration
      (the table editor only accepts durations from 0). */
  lemma EnabledTimerStarts(p: Psu, ch: nat)
    requires Valid(p) && ch < 2 && TimerButtonEnabled(p, ch)
    requires !p.chans[ch].run.running
    requires forall k :: 0 <= k < Steps ==> Rows(p.chans[ch].table)[k].t >= 0.0
    ensures ClickTimer(p, ch).Success?
    ensures var c := ClickTimer(p, ch).value.p.chans[ch];
            c.run.running && Rows(c.table)[c.run.step].t > 0.0
  {
    EnabledStartsOnDuration(Rows(p.chans[ch].table));
  }

  /** Editing one cell of the timer table (`_on_timer_table_change`): the
      cell is changed in its row list, shared or not, and that one row is
      written to the instrument. */
  function EditTimer(p: Psu, ch: nat, row: nat, col: nat, x: real): (r: Step)
    requires Valid(p) && ch < 2 && row < Steps
    ensures Valid(r.p)
  {
    var t := SetCell(p.chans[ch].table, row, col, x);
    Step(p.(chans := p.chans[ch := p.chans[ch].(table := t)]), [TimerSet(ch, row, Rows(t)[row])])
  }

  /** With separate row lists, an edit changes the one cell, and an
      instrument that held the panel's rows still does. */
  lemma EditTimerInSync(p: Psu, ch: nat, row: nat, col: nat, x: real, i: Inst)
    requires Valid(p) && ch < 2 && row < Steps && InstValid(i)
    requires SpdTimer.Independent(p.chans[ch].table)
    requires i.timer[ch] == Rows(p.chans[ch].table)
    ensures var r := EditTimer(p, ch, row, col, x);
            && Rows(r.p.chans[ch].table) == Rows(p.chans[ch].table)[row := SetField(Rows(p.chans[ch].table)[row], col, x)]
            && ExecAll(i, r.cmds).timer[ch] == Rows(r.p.chans[ch].table)
  {
    var r := EditTimer(p, ch, row, col, x);
    EditIndependent(p.chans[ch].table, row, col, x);
    assert r.cmds[1..] == [];
  }

  /** The panel as it starts: zero setpoints, outputs off, independent
      mode, every timer table five separate zero rows. */
  function Start(lim0: Limits, lim1: Limits): (p: Psu)
    ensures Valid(p)
    ensures forall ch :: 0 <= ch < 2 ==> Rows(p.chans[ch].table) == seq(Steps, _ => Row(0.0, 0.0, 0.0))
    ensures forall ch :: 0 <= ch < 2 ==> SpdTimer.Independent(p.chans[ch].table)
  {
    var c := Channel(0.0, 0.0, InitialFresh(), false, false, lim0, Run(false, 0, 0.0));
    Psu([c, c.(lim := lim1)], false, Independent, None)
  }

  /** The panel as it starts as written: each timer table is one row list
      five times over. */
  function StartAsWritten(lim0: Limits, lim1: Limits): (p: Psu)
    ensures Valid(p)
    ensures forall ch :: 0 <= ch < 2 ==> p.chans[ch].table == Initial
  {
    assert WellFormed(Initial);
    var c := Channel(0.0, 0.0, Initial, false, false, lim0, Run(false, 0, 0.0));
    Psu([c, c.(lim := lim1)], false, Independent, None)
  }

  /** As written, setting step 3's duration to 5 s on a fresh panel shows
      every step at 5 s while the instrument, told only of step 3, keeps
      the others at 0 s; started with separate rows, panel and instrument
      agree. The shared list is latent: the constructor's `refresh`
      replaces every row before a cell can be edited
      (`ConstructedPanelEditsOneRow`). */
  lemma EditFreshPanel(lim0: Limits, lim1: Limits)
    ensures var i := Inst([0.0, 0.0], [0.0, 0.0], [Rows(Initial), Rows(Initial)], [false, false, false],
                          Independent, [false, false], [false, false]);
            var bad := EditTimer(StartAsWritten(lim0, lim1), 0, 2, 2, 5.0);
            var good := EditTimer(Start(lim0, lim1), 0, 2, 2, 5.0);
            && InstValid(i)
            && Rows(bad.p.chans[0].table)[0] == Row(0.0, 0.0, 5.0)
            && ExecAll(i, bad.cmds).timer[0][0] == Row(0.0, 0.0, 0.0)
            && Rows(good.p.chans[0].table)[0] == Row(0.0, 0.0, 0.0)
            && ExecAll(i, good.cmds).timer[0] == Rows(good.p.chans[0].table)
  {
    var i := Inst([0.0, 0.0], [0.0, 0.0], [Rows(Initial), Rows(Initial)], [false, false, false],
                  Independent, [false, false], [false, false]);
    EditInitial(2, 2, 5.0);
    var bad := EditTimer(StartAsWritten(lim0, lim1), 0, 2, 2, 5.0);
    assert bad.cmds[1..] == [];
    var good := Start(lim0, lim1);
    assert i.timer[0] == Rows(good.chans[0].table);
    EditTimerInSync(good, 0, 2, 2, 5.0, i);
  }

  /** The panel's constructor refreshes before any cell can be edited, and
      `refresh` stores a new list for every step, so whatever rows the
      panel started with (`StartAsWritten` shares one list among them) an
      edit on the refreshed panel changes one row only. */
  lemma ConstructedPanelEditsOneRow(p0: Psu, ask: string -> Result<string, Error>,
                                    float: string -> Option<real>, p: Psu, ch: nat, k: nat, col: nat, x: real)
    requires ch < 2 && k < Steps
    requires Valid(p0) && Refresh(p0, ask, float) == Success(p)
    ensures Valid(p)
    ensures WellFormed(p.chans[ch].table) && SpdTimer.Independent(p.chans[ch].table)
    ensures var t := p.chans[ch].table;
            Rows(EditTimer(p, ch, k, col, x).p.chans[ch].table) == Rows(t)[k := SetField(Rows(t)[k], col, x)]
  {
    RefreshTables(p0, ask, float, ch);
    EditSeparateRows(p, ch, k, col, x);
  }

  /** On a panel whose table has separate rows, a timer edit changes one
      row. */
  lemma EditSeparateRows(p: Psu, ch: nat, k: nat, col: nat, x: real)
    requires Valid(p) && ch < 2 && k < Steps && SpdTimer.Independent(p.chans[ch].table)
    ensures var t := p.chans[ch].table;
            Rows(EditTimer(p, ch, k, col, x).p.chans[ch].table) == Rows(t)[k := SetField(Rows(t)[k], col, x)]
  {
    EditIndependent(p.chans[ch].table, k, col, x);
  }

  /* ---------- the heartbeat ---------- */

  /** One channel's share of a heartbeat: the estimate moves on, and when
      it reaches a new step that still runs the panel shows that step's
      setpoints. Also says whether the panel must be redrawn. */
  function TickChannel(c: Channel, hb: real): (r: (Channel, bool))
    requires ChannelValid(c)
    ensures ChannelValid(r.0)
  {
    var t := Tick(c.run, Rows(c.table), c.on, hb);
    var c1 := c.(run := t.0);
    if t.1.Some? then (c1.(volt := t.1.value.v, curr := t.1.value.i), t.2) else (c1, t.2)
  }

  /** The time since the previous heartbeat; the first counts as 0. */
  function Elapsed(p: Psu, now: real): real {
    if p.lastHb.None? then 0.0 else now - p.lastHb.value
  }

  /** `_update_timer_table_heartbeat` at time `now`. */
  function Heartbeat(p: Psu, now: real): (r: Psu)
    requires Valid(p)
    ensures Valid(r)
  {
    var hb := Elapsed(p, now);
    var a := TickChannel(p.chans[0], hb);
    var b := TickChannel(p.chans[1], hb);
    var q := p.(chans := [a.0, b.0], lastHb := Some(now));
    if a.1 || b.1 then Slave(q) else q
  }

  /** One channel's heartbeat never starts a timer and leaves a stopped
      one alone; a running one moves on by the time its output was on; a
      step change shows the new step's setpoints and no step change leaves
      them; only the estimate and the setpoints change. */
  lemma TickChannelSpec(c: Channel, hb: real)
    requires ChannelValid(c)
    ensures var c' := TickChannel(c, hb).0;
            var rows := Rows(c.table);
            var inc := if c.on then hb else 0.0;
            && c' == c.(run := c'.run, volt := c'.volt, curr := c'.curr)
            && (!c.run.running ==> c' == c)
            && (c'.run.running ==> c.run.running && c'.run.step >= c.run.step)
            && (c.run.running && c'.run.running ==>
                  Position(rows, c'.run) == Position(rows, c.run) + inc && c'.run.elapsed < rows[c'.run.step].t)
            && (c'.run.running && c'.run.step != c.run.step ==>
                  c'.volt == rows[c'.run.step].v && c'.curr == rows[c'.run.step].i)
            && (c'.run.step == c.run.step ==> c'.volt == c.volt && c'.curr == c.curr)
  {
    TickSpec(c.run, Rows(c.table), c.on, hb);
  }

  /** A heartbeat applies the channel step to both channels with the time
      since the last heartbeat and keeps the heartbeat's time; outside
      independent mode channel 2 then mirrors channel 1. */
  lemma HeartbeatSpec(p: Psu, now: real)
    requires Valid(p)
    ensures var r := Heartbeat(p, now);
            var hb := Elapsed(p, now);
            && r.lastHb == Some(now) && r.mode == p.mode && r.out3 == p.out3
            && r.chans[0] == TickChannel(p.chans[0], hb).0
            && (p.mode == Independent ==> r.chans[1] == TickChannel(p.chans[1], hb).0)
            && (p.mode != Independent ==>
                  r.chans[1] == TickChannel(p.chans[1], hb).0.(volt := r.chans[1].volt, curr := r.chans[1].curr, lim := r.chans[1].lim))
  {
    var hb := Elapsed(p, now);
    var a := TickChannel(p.chans[0], hb);
    var b := TickChannel(p.chans[1], hb);
    SlaveSpec(p.(chans := [a.0, b.0], lastHb := Some(now)));
  }

  /** The first heartbeat counts no time: a timer whose step still has time
      left does not move. */
  lemma FirstHeartbeat(p: Psu, now: real, ch: nat)
    requires Valid(p) && ch < 2 && p.lastHb.None?
    requires p.chans[ch].run.running && p.chans[ch].run.elapsed < Rows(p.chans[ch].table)[p.chans[ch].run.step].t
    ensures Heartbeat(p, now).chans[ch].run == p.chans[ch].run
  {
    HeartbeatSpec(p, now);
    TickSpec(p.chans[ch].run, Rows(p.chans[ch].table), p.chans[ch].on, 0.0);
  }

  /* ---------- setpoints and Min/Max limits ---------- */

  /** The SetPoint branch of `_on_value_change`: a changed value is
      written to the instrument and stored; outside independent mode the
      code then asserts the channel is channel 1, and copies the value to
      channel 2. A channel-2 change there has already been written and
      stored when the assert fails. An unchanged value writes nothing. */
  function ChangeSetpoint(p: Psu, ch: nat, isVolt: bool, x: real): (r: Outcome)
    requires Valid(p) && ch < 2
    ensures Valid(r.step.p)
  {
    var c := p.chans[ch];
    var cur := if isVolt then c.volt else c.curr;
    if cur == x then Outcome(Step(Slave(p), []), Success(()))
    else
      var q := p.(chans := p.chans[ch := if isVolt then c.(volt := x) else c.(curr := x)]);
      var w := [if isVolt then SetVolt(ch, x) else SetCurr(ch, x)];
      if p.mode != Independent && ch != 0 then Outcome(Step(q, w), Failure(AssertionError))
      else Outcome(Step(Slave(q), w), Success(()))
  }

  /** Only a changed channel-2 setpoint outside independent mode fails.
      Either way the channel ends at the new value (channel 2 outside
      independent mode, when the call succeeds, at channel 1's), a line is
      written exactly when the value changed, and an instrument that agreed
      with the panel on that setpoint still does. On success outside
      independent mode channel 2 mirrors channel 1; on failure channel 1 is
      left as it was. */
  lemma ChangeSetpointSpec(p: Psu, ch: nat, isVolt: bool, x: real, i: Inst)
    requires Valid(p) && ch < 2 && InstValid(i)
    requires isVolt ==> i.volt[ch] == p.chans[ch].volt
    requires !isVolt ==> i.curr[ch] == p.chans[ch].curr
    ensures var cur := if isVolt then p.chans[ch].volt else p.chans[ch].curr;
            var r := ChangeSetpoint(p, ch, isVolt, x);
            var c := r.step.p.chans[ch];
            && (r.result.Failure? <==> p.mode != Independent && ch != 0 && cur != x)
            && (r.result.Failure? ==> r.result.error == AssertionError && r.step.p.chans[0] == p.chans[0])
            && (r.result.Failure? || p.mode == Independent || ch == 0 ==>
                  && (if isVolt then c.volt else c.curr) == x
                  && (if isVolt then c.curr == p.chans[ch].curr else c.volt == p.chans[ch].volt))
            && (r.step.cmds == [] <==> cur == x)
            && (isVolt ==> ExecAll(i, r.step.cmds).volt[ch] == x)
            && (!isVolt ==> ExecAll(i, r.step.cmds).curr[ch] == x)
            && (r.result.Success? && p.mode != Independent ==> Mirrored(r.step.p))
            && r.step.p.mode == p.mode
            && c.table == p.chans[ch].table
  {
    var r := ChangeSetpoint(p, ch, isVolt, x);
    if r.step.cmds != [] {
      assert r.step.cmds[1..] == [];
    }
    SlaveSpec(p);
    var c := p.chans[ch];
    SlaveSpec(p.(chans := p.chans[ch := if isVolt then c.(volt := x) else c.(curr := x)]));
  }

  /** Which limit box changed. */
  datatype Bound = MinV | MaxV | MinI | MaxI

  function SetBound(lim: Limits, b: Bound, x: real): Limits {
    match b
    case MinV => lim.(minV := x)
    case MaxV => lim.(maxV := x)
    case MinI => lim.(minI := x)
    case MaxI => lim.(maxI := x)
  }

  /** The value the setpoint box shows after one of its bounds moves to
      `x`: kept in range, and when a new minimum passes the maximum (or a
      new maximum the minimum) the range closes on `x`. */
  function SpinValue(lo: real, hi: real, b: Bound, x: real, v: real): (r: real)
    ensures (b.MinV? || b.MinI?) ==> (x <= hi ==> x <= r <= hi) && (x > hi ==> r == x)
    ensures (b.MaxV? || b.MaxI?) ==> (lo <= x ==> lo <= r <= x) && (x < lo ==> r == x)
  {
    if b.MinV? || b.MinI? then Clamp(x, hi, v)
    else if x < lo then x else Clamp(lo, x, v)
  }

  /** Re-clamping one channel's timer rows to its limits
      (`_update_timer_minmax`): every row that moves becomes a new list
      and is written to the instrument. */
  function ClampChannel(p: Psu, ch: nat): (r: Step)
    requires Valid(p) && ch < 2
    ensures Valid(r.p)
  {
    var c := p.chans[ch];
    var t := ClampTable(c.table, c.lim);
    Step(p.(chans := p.chans[ch := c.(table := t.0)]), RowCmds(ch, Rows(t.0), t.1))
  }

  /** Afterwards every row lies within the channel's (ordered) limits with
      its duration kept, a second clamp writes nothing, and an instrument
      that held the panel's rows still does. */
  lemma ClampChannelSpec(p: Psu, ch: nat, i: Inst)
    requires Valid(p) && ch < 2 && InstValid(i)
    requires i.timer[ch] == Rows(p.chans[ch].table)
    ensures var r := ClampChannel(p, ch);
            var lim := p.chans[ch].lim;
            && (lim.minV <= lim.maxV && lim.minI <= lim.maxI ==>
                  forall k :: 0 <= k < Steps ==> InLimits(Rows(r.p.chans[ch].table)[k], lim))
            && (forall k :: 0 <= k < Steps ==> Rows(r.p.chans[ch].table)[k].t == Rows(p.chans[ch].table)[k].t)
            && ClampChannel(r.p, ch).cmds == []
            && ExecAll(i, r.cmds).timer[ch] == Rows(r.p.chans[ch].table)
            && r.p.chans[1 - ch] == p.chans[1 - ch]
  {
    var c := p.chans[ch];
    ClampTableSpec(c.table, c.lim);
    ClampInLimits(c.table, c.lim);
    ClampSync(i, ch, c.table, c.lim);
  }

  lemma ClampInLimits(t: Table, lim: Limits)
    requires WellFormed(t)
    ensures lim.minV <= lim.maxV && lim.minI <= lim.maxI ==>
              forall k :: 0 <= k < Steps ==> InLimits(Rows(ClampTable(t, lim).0)[k], lim)
  {
    ClampTableSpec(t, lim);
    forall k | 0 <= k < Steps
      ensures lim.minV <= lim.maxV && lim.minI <= lim.maxI ==> InLimits(Rows(ClampTable(t, lim).0)[k], lim)
    {
      ClampRowSpec(Rows(t)[k], lim);
    }
  }

  /** Writing the moved rows brings an instrument that held the old rows
      to the clamped ones. */
  lemma ClampSync(i: Inst, ch: nat, t: Table, lim: Limits)
    requires InstValid(i) && ch < 2 && WellFormed(t)
    requires i.timer[ch] == Rows(t)
    ensures var r := ClampTable(t, lim);
            ExecAll(i, RowCmds(ch, Rows(r.0), r.1)).timer[ch] == Rows(r.0)
  {
    var r := ClampFrom(t, lim, 0);
    assert r == ClampTable(t, lim);
    ExecRowCmds(i, ch, Rows(r.0), r.1);
    var j := ExecAll(i, RowCmds(ch, Rows(r.0), r.1));
    RowsAgree(j.timer[ch], Rows(t), Rows(r.0), r.1);
  }

  /** Rows rewritten at the moved steps, and left alone where the new rows
      equal the old, are the new rows. */
  lemma RowsAgree(x: seq<Row>, before: seq<Row>, rows: seq<Row>, ks: seq<nat>)
    requires |x| == Steps && |before| == Steps && |rows| == Steps
    requires forall k :: 0 <= k < Steps ==> x[k] == if k in ks then rows[k] else before[k]
    requires forall k :: 0 <= k < Steps && k !in ks ==> rows[k] == before[k]
    ensures x == rows
  {
    forall k | 0 <= k < Steps
      ensures x[k] == rows[k]
    {
    }
  }

  /** A Min/Max box's new value (`_on_value_change`, Min and Max branches):
      the limit is set, the timer rows are clamped to the limits, and the
      setpoint is carried on with the value its box now shows. */
  function ChangeLimit(p: Psu, ch: nat, b: Bound, x: real): (r: Outcome)
    requires Valid(p) && ch < 2
    ensures Valid(r.step.p)
  {
    var c := p.chans[ch];
    var lim := SetBound(c.lim, b, x);
    var s1 := ClampChannel(p.(chans := p.chans[ch := c.(lim := lim)]), ch);
    var isVolt := b.MinV? || b.MaxV?;
    var v := if isVolt then SpinValue(c.lim.minV, c.lim.maxV, b, x, c.volt)
             else SpinValue(c.lim.minI, c.lim.maxI, b, x, c.curr);
    var s2 := ChangeSetpoint(s1.p, ch, isVolt, v);
    Outcome(Step(s2.step.p, s1.cmds + s2.step.cmds), s2.result)
  }

  /** In independent mode a setpoint change always succeeds and changes
      only that setpoint. */
  lemma SetpointIndependent(p: Psu, ch: nat, isVolt: bool, x: real)
    requires Valid(p) && ch < 2 && p.mode == Independent
    ensures var c := p.chans[ch];
            ChangeSetpoint(p, ch, isVolt, x).result.Success?
            && ChangeSetpoint(p, ch, isVolt, x).step.p == p.(chans := p.chans[ch := if isVolt then c.(volt := x) else c.(curr := x)])
  {
  }

  /** A limit change in independent mode always succeeds; the limit is
      set, the rows are clamped (writing the moved ones) and the setpoint
      the limit bounds, when the new range is ordered, ends inside it. */
  lemma ChangeLimitSpec(p: Psu, ch: nat, b: Bound, x: real)
    requires Valid(p) && ch < 2 && p.mode == Independent
    ensures var r := ChangeLimit(p, ch, b, x);
            var lim := SetBound(p.chans[ch].lim, b, x);
            && r.result.Success?
            && r.step.p.chans[ch].lim == lim
            && (lim.minV <= lim.maxV && lim.minI <= lim.maxI ==>
                  forall k :: 0 <= k < Steps ==> InLimits(Rows(r.step.p.chans[ch].table)[k], lim))
            && ((b.MinV? || b.MaxV?) && lim.minV <= lim.maxV ==> lim.minV <= r.step.p.chans[ch].volt <= lim.maxV)
            && ((b.MinI? || b.MaxI?) && lim.minI <= lim.maxI ==> lim.minI <= r.step.p.chans[ch].curr <= lim.maxI)
  {
    var c0 := p.chans[ch];
    var lim := SetBound(c0.lim, b, x);
    var q := p.(chans := p.chans[ch := c0.(lim := lim)]);
    ClampInLimits(c0.table, lim);
    var s1 := ClampChannel(q, ch);
    var isVolt := b.MinV? || b.MaxV?;
    var v := if isVolt then SpinValue(c0.lim.minV, c0.lim.maxV, b, x, c0.volt)
             else SpinValue(c0.lim.minI, c0.lim.maxI, b, x, c0.curr);
    SetpointIndependent(s1.p, ch, isVolt, v);
  }

  /* ---------- outputs ---------- */

  /** An OUTPUT button: the output flips; outside independent mode only
      channel 1's button may be used (an assert) and channel 2 is shown
      following it, as the instrument slaves it. */
  function ClickOutput(p: Psu, ch: nat): (r: Result<Step, Error>)
    requires Valid(p) && ch < 2
    ensures r.Success? ==> Valid(r.value.p)
  {
    var state := !p.chans[ch].on;
    if p.mode != Independent && ch != 0 then Failure(AssertionError)
    else
      var q := if p.mode != Independent then p.(chans := p.chans[1 := p.chans[1].(on := state)]) else p;
      Success(Step(q.(chans := q.chans[ch := q.chans[ch].(on := state)]), [Output(ch, state)]))
  }

  /** The click flips the output and tells the instrument, which then
      agrees with the panel; outside independent mode both channels show
      channel 1's new state; two clicks restore the output. */
  lemma ClickOutputSpec(p: Psu, ch: nat, i: Inst)
    requires Valid(p) && ch < 2 && InstValid(i)
    ensures ClickOutput(p, ch).Failure? <==> p.mode != Independent && ch != 0
    ensures ClickOutput(p, ch).Success? ==>
              var r := ClickOutput(p, ch).value;
              && r.p.chans[ch].on == !p.chans[ch].on
              && ExecAll(i, r.cmds).out[ch] == r.p.chans[ch].on
              && (p.mode != Independent ==> r.p.chans[1].on == r.p.chans[0].on)
              && (p.mode == Independent ==> r.p.chans[1 - ch] == p.chans[1 - ch])
              && r.p.chans[ch] == p.chans[ch].(on := r.p.chans[ch].on)
              && ClickOutput(r.p, ch).Success? && ClickOutput(r.p, ch).value.p.chans[ch].on == p.chans[ch].on
  {
    if ClickOutput(p, ch).Success? {
      assert ClickOutput(p, ch).value.cmds[1..] == [];
    }
  }

  /** ALL OUTPUTS ON/OFF: channel 1, and channel 2 too in independent
      mode (outside it the instrument slaves channel 2 and the panel's
      view of it is left as it was). */
  function AllOutputs(p: Psu, on: bool): (r: Step)
    requires Valid(p)
    ensures Valid(r.p)
  {
    var q := p.(chans := p.chans[0 := p.chans[0].(on := on)]);
    if p.mode == Independent then Step(q.(chans := q.chans[1 := q.chans[1].(on := on)]), [Output(0, on), Output(1, on)])
    else Step(q, [Output(0, on)])
  }

  /** Channel 1 (and channel 2 in independent mode) ends in the requested
      state on the panel and on the instrument. */
  lemma AllOutputsSpec(p: Psu, on: bool, i: Inst)
    requires Valid(p) && InstValid(i)
    ensures var r := AllOutputs(p, on);
            var j := ExecAll(i, r.cmds);
            && r.p.chans[0].on == on && j.out[0] == on
            && (p.mode == Independent ==> r.p.chans[1].on == on && j.out[1] == on)
            && (p.mode != Independent ==> r.p.chans[1] == p.chans[1] && j.out[1] == i.out[1])
            && j.out[2] == i.out[2]
  {
    if p.mode == Independent {
      ExecAllTwo(i, Output(0, on), Output(1, on));
    } else {
      assert [Output(0, on)][1..] == [];
    }
  }

  /* ---------- the tracking mode ---------- */

  function Stopped(c: Channel): Channel {
    c.(run := c.run.(running := false))
  }

  /** The Independent/Series/Parallel menu: both outputs are shown off and
      both timers stopped, `OUTPUT:TRACK <code>` is written (the instrument
      turns its outputs off), then channel 2 is slaved. */
  function SetTrack(p: Psu, m: Track): (r: Step)
    requires Valid(p)
    ensures Valid(r.p)
  {
    var cs := [Stopped(p.chans[0]).(on := false), Stopped(p.chans[1]).(on := false)];
    Step(Slave(p.(chans := cs, mode := m)), [TrackSet(TrackCode(m))])
  }

  /** After a menu choice the panel and the instrument agree on the mode
      and on both outputs being off, the status word reads the mode back,
      no timer runs, and outside independent mode channel 2 mirrors
      channel 1. */
  lemma SetTrackSpec(p: Psu, m: Track, i: Inst, prev: Track)
    requires Valid(p) && InstValid(i)
    ensures var r := SetTrack(p, m);
            var j := ExecAll(i, r.cmds);
            && r.p.mode == m && j.track == m
            && TrackOf(StatusWord(j), prev) == m
            && !r.p.chans[0].on && !r.p.chans[1].on && !j.out[0] && !j.out[1]
            && !r.p.chans[0].run.running && !r.p.chans[1].run.running
            && (m != Independent ==> Mirrored(r.p))
            && r.p.chans[0].table == p.chans[0].table && r.p.chans[1].table == p.chans[1].table
  {
    var r := SetTrack(p, m);
    assert r.cmds[1..] == [];
    TrackCodeRoundTrip(m, 0);
    StatusWordReads(ExecAll(i, r.cmds), prev);
    SlaveSpec(p.(chans := [Stopped(p.chans[0]).(on := false), Stopped(p.chans[1]).(on := false)], mode := m));
  }

  /** The configuration key of the tracking mode. */
  const TrackKey: string := "OUTPUT:TRACK"

  /** The saved `OUTPUT:TRACK` value: 0, 1 or 2. */
  function SaveTrack(p: Psu): Value {
    VInt(TrackCode(p.mode))
  }

  /** The loaded `OUTPUT:TRACK` value, matched against the literals 0, 1
      and 2 by Python equality; anything else fails an assert. */
  function LoadTrack(v: Value): (r: Result<Track, Error>)
    ensures r.Failure? ==> r.error == AssertionError
  {
    if PyEq(v, VInt(0)) then Success(Independent)
    else if PyEq(v, VInt(1)) then Success(Series)
    else if PyEq(v, VInt(2)) then Success(Parallel)
    else Failure(AssertionError)
  }

  /** A value loads as a mode exactly when it equals that mode's code, so
      a saved mode loads back; `True` and `2.0` load too. */
  lemma LoadTrackSpec(v: Value, m: Track, p: Psu)
    ensures LoadTrack(v) == Success(m) <==> PyEq(v, VInt(TrackCode(m)))
    ensures LoadTrack(SaveTrack(p)) == Success(p.mode)
    ensures LoadTrack(VBool(true)) == Success(Series) && LoadTrack(VFloat(2.0)) == Success(Parallel)
    ensures LoadTrack(VStr("0")) == Failure(AssertionError)
  {
  }

  /** The tracking-mode part of loading a configuration: both timers are
      stopped first; then the mode is read (a missing key is a KeyError, a
      value that is no mode's code fails an assert, and the timers stay
      stopped either way) and written (with both timers turned off in
      independent mode); output 1 is shown off and written off, and so is
      output 2 in independent mode. Channel 2 is then slaved. */
  function LoadMode(p: Psu, cfg: Dict<string, Value>): (r: Outcome)
    requires Valid(p)
    ensures Valid(r.step.p)
  {
    var halted := p.(chans := [Stopped(p.chans[0]), Stopped(p.chans[1])]);
    match Get(cfg, TrackKey)
    case None => Outcome(Step(halted, []), Failure(KeyError))
    case Some(v) =>
      match LoadTrack(v)
      case Failure(e) => Outcome(Step(halted, []), Failure(e))
      case Success(m) =>
        var indep := m == Independent;
        var c0 := Stopped(p.chans[0]).(on := false);
        var c1 := if indep then Stopped(p.chans[1]).(on := false) else Stopped(p.chans[1]);
        var cmds := [TrackSet(TrackCode(m))]
                    + (if indep then [TimerRun(0, false), TimerRun(1, false)] else [])
                    + [Output(0, false)]
                    + (if indep then [Output(1, false)] else []);
        Outcome(Step(Slave(Psu([c0, c1], p.out3, m, p.lastHb)), cmds), Success(()))
  }

  /** Loading stops both timers on the panel whatever happens next. A
      missing `OUTPUT:TRACK` is a KeyError and a value no mode has fails
      the assert, both before anything is written. Otherwise loading sets
      the mode the value names on the panel and on the instrument, stops
      both timers on the instrument in independent mode, and turns output 1
      off on both; in independent mode output 2 too. */
  lemma LoadModeSpec(p: Psu, cfg: Dict<string, Value>, i: Inst)
    requires Valid(p) && InstValid(i)
    ensures var r := LoadMode(p, cfg);
            && !r.step.p.chans[0].run.running && !r.step.p.chans[1].run.running
            && (Get(cfg, TrackKey).None? ==> r.result == Failure(KeyError) && r.step.cmds == [])
            && (Get(cfg, TrackKey).Some? ==>
                  (r.result.Success? <==> LoadTrack(Get(cfg, TrackKey).value).Success?))
            && (r.result.Failure? ==> r.step.cmds == [] && r.step.p.mode == p.mode)
    ensures LoadMode(p, cfg).result.Success? ==>
              var m := LoadTrack(Get(cfg, TrackKey).value).value;
              var r := LoadMode(p, cfg).step;
              var j := ExecAll(i, r.cmds);
              && r.p.mode == m && j.track == m
              && !r.p.chans[0].on && !j.out[0] && !j.out[1]
              && (m == Independent ==> !r.p.chans[1].on && !j.timerOn[0] && !j.timerOn[1])
  {
    if LoadMode(p, cfg).result.Success? {
      var m := LoadTrack(Get(cfg, TrackKey).value).value;
      var r := LoadMode(p, cfg).step;
      TrackCodeRoundTrip(m, 0);
      var a := [TrackSet(TrackCode(m))];
      assert a[1..] == [];
      if m == Independent {
        var b := [TimerRun(0, false), TimerRun(1, false)];
        var c := [Output(0, false), Output(1, false)];
        assert r.cmds == a + b + c;
        ExecAllConcat(i, a + b, c);
        ExecAllConcat(i, a, b);
        ExecAllTwo(ExecAll(i, a), b[0], b[1]);
        ExecAllTwo(ExecAll(i, a + b), c[0], c[1]);
      } else {
        var c := [Output(0, false)];
        assert r.cmds == a + c;
        ExecAllConcat(i, a, c);
        assert c[1..] == [];
      }
    }
  }

  /** A saved mode loads back, on the panel and on the instrument. */
  lemma SaveLoadMode(p: Psu, q: Psu, cfg: Dict<string, Value>, i: Inst)
    requires Valid(p) && Valid(q) && InstValid(i)
    ensures var r := LoadMode(q, Put(cfg, TrackKey, SaveTrack(p)));
            r.result.Success? && r.step.p.mode == p.mode && ExecAll(i, r.step.cmds).track == p.mode
  {
    PutGet(cfg, TrackKey, SaveTrack(p), TrackKey);
    LoadTrackSpec(SaveTrack(p), p.mode, p);
    LoadModeSpec(q, Put(cfg, TrackKey, SaveTrack(p)), i);
  }
}
