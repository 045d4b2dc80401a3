/** The RANGE conversion tables of the SDM3000 multimeter driver
    (conductor/device/siglent_sdm3000.py). A range travels three ways: the
    number the instrument answers to `...:RANGE?` (wire-read), the token the
    driver writes back (`200MV`, wire-write) and the label on the radio
    button (`200 mV`, display). Each model has its own tables; the
    display-to-write tables are the inversions of the write-to-display
    tables. The generic table lemmas here are reused by the older driver. */
module SdmRanges {
  import opened Wrappers
  import opened Values
  import opened OrderedMap

  datatype SdmModel = SDM3045X | SDM3055 | SDM3065X

  /** The six range families: AC/DC voltage, AC/DC current, resistance and
      capacitance. */
  datatype Family = VAC | VDC | IAC | IDC | R | C

  /* ---------- generic table facts ---------- */

  predicate DistinctValues<K, V(==)>(d: Dict<K, V>) {
    forall i, j :: 0 <= i < j < |d| ==> d[i].1 != d[j].1
  }

  predicate HasValue<K, V(==)>(d: Dict<K, V>, v: V) {
    exists i :: 0 <= i < |d| && d[i].1 == v
  }

  function Swap<K, V>(d: Dict<K, V>): (r: Dict<V, K>)
    ensures |r| == |d|
    ensures forall i :: 0 <= i < |d| ==> r[i] == (d[i].1, d[i].0)
  {
    seq(|d|, i requires 0 <= i < |d| => (d[i].1, d[i].0))
  }

  /** `{value: key for key, value in d.items()}`: every swapped pair is
      assigned in order, so a repeated value keeps its last key. */
  function Invert<K, V(==)>(d: Dict<K, V>): Dict<V, K> {
    Update([], Swap(d))
  }

  /** With distinct keys and values, the inversion maps each value back to
      its key, and knows no other value. */
  lemma InvertSpec<K, V>(d: Dict<K, V>, v: V)
    requires DistinctKeys(d) && DistinctValues(d)
    ensures forall i :: 0 <= i < |d| && d[i].1 == v ==> Get(Invert(d), v) == Some(d[i].0)
    ensures !HasValue(d, v) ==> Get(Invert(d), v) == None
  {
    var sw := Swap(d);
    assert DistinctKeys<V, K>([]);
    UpdateSpec([], sw);
    forall i | 0 <= i < |d| && d[i].1 == v
      ensures Get(Invert(d), v) == Some(d[i].0)
    {
      assert sw[i] == (v, d[i].0);
      assert forall j :: i < j < |sw| ==> sw[j].0 != sw[i].0;
    }
    if !HasValue(d, v) {
      assert !HasKey(sw, v) by {
        assert forall i :: 0 <= i < |sw| ==> sw[i].0 == d[i].1;
      }
    }
  }

  lemma InvertAt<K, V>(d: Dict<K, V>, i: int)
    requires DistinctKeys(d) && DistinctValues(d) && 0 <= i < |d|
    ensures Get(Invert(d), d[i].1) == Some(d[i].0)
  {
    InvertSpec(d, d[i].1);
  }

  /** Looking a key up and then its value up in the inversion returns the
      key; looking a value up in the inversion and then the result up in the
      table returns the value. */
  lemma InvertRoundTrip<K, V>(d: Dict<K, V>, k: K, v: V)
    requires DistinctKeys(d) && DistinctValues(d)
    ensures HasKey(d, k) ==> Get(Invert(d), Get(d, k).value) == Some(k)
    ensures Get(Invert(d), v).Some? <==> HasValue(d, v)
    ensures Get(Invert(d), v).Some? ==> Get(d, Get(Invert(d), v).value) == Some(v)
  {
    GetAtIndex(d, k);
    InvertSpec(d, v);
    if HasKey(d, k) {
      var i :| 0 <= i < |d| && d[i].0 == k;
      InvertSpec(d, d[i].1);
    }
    if HasValue(d, v) {
      var i :| 0 <= i < |d| && d[i].1 == v;
      GetAtIndex(d, d[i].0);
    }
  }

  /** A table with distinct values maps distinct keys to distinct values. */
  lemma ValuesInjective<K, V>(d: Dict<K, V>, a: K, b: K)
    requires DistinctKeys(d) && DistinctValues(d)
    requires HasKey(d, a) && HasKey(d, b) && Get(d, a) == Get(d, b)
    ensures a == b
  {
    GetAtIndex(d, a);
    GetAtIndex(d, b);
  }

  /* ---------- the per-model tables ---------- */

  /** `_RANGE_<family>_SCPI_READ_TO_WRITE[model]`. */
  function ReadToWrite(f: Family, m: SdmModel): Dict<real, string> {
    match f
    case VAC =>
      if m == SDM3045X then [(0.6, "600MV"), (6.0, "6V"), (60.0, "60V"), (600.0, "600V"), (750.0, "750V")]
      else [(0.2, "200MV"), (2.0, "2V"), (20.0, "20V"), (200.0, "200V"), (750.0, "750V")]
    case VDC =>
      if m == SDM3045X then [(0.6, "600MV"), (6.0, "6V"), (60.0, "60V"), (600.0, "600V"), (1000.0, "1000V")]
      else [(0.2, "200MV"), (2.0, "2V"), (20.0, "20V"), (200.0, "200V"), (1000.0, "1000V")]
    case IAC =>
      (match m
       case SDM3045X => [(0.06, "60MA"), (0.6, "600MA"), (6.0, "6A"), (10.0, "10A")]
       case SDM3055 => [(0.02, "20MA"), (0.2, "200MA"), (2.0, "2A"), (10.0, "10A")]
       case SDM3065X =>
         [(0.0002, "200UA"), (0.002, "2MA"), (0.02, "20MA"), (0.2, "200MA"), (2.0, "2A"), (10.0, "10A")])
    case IDC =>
      if m == SDM3045X then
        [(0.0006, "600UA"), (0.006, "6MA"), (0.06, "60MA"), (0.6, "600MA"), (6.0, "6A"), (10.0, "10A")]
      else [(0.0002, "200UA"), (0.002, "2MA"), (0.02, "20MA"), (0.2, "200MA"), (2.0, "2A"), (10.0, "10A")]
    case R =>
      (match m
       case SDM3045X =>
         [(600.0, "600OHM"), (6000.0, "6KOHM"), (60000.0, "60KOHM"), (600000.0, "600KOHM"),
          (6000000.0, "6MOHM"), (60000000.0, "60MOHM"), (100000000.0, "100MOHM")]
       case SDM3055 =>
         [(200.0, "200OHM"), (2000.0, "2KOHM"), (20000.0, "20KOHM"), (200000.0, "200KOHM"),
          (2000000.0, "2MOHM"), (10000000.0, "10MOHM"), (100000000.0, "100MOHM")]
       case SDM3065X =>
         [(200.0, "200OHM"), (2000.0, "2KOHM"), (20000.0, "20KOHM"), (200000.0, "200KOHM"),
          (1000000.0, "1MOHM"), (10000000.0, "10MOHM"), (100000000.0, "100MOHM")])
    case C =>
      if m == SDM3065X then
        [(0.000000002, "2NF"), (0.000000020, "20NF"), (0.000000200, "200NF"), (0.000002000, "2UF"),
         (0.000020000, "20UF"), (0.000200000, "200UF"), (0.002, "2MF"), (0.02, "20MF"), (0.1, "100MF")]
      else
        [(0.000000002, "2NF"), (0.000000020, "20NF"), (0.000000200, "200NF"), (0.000002000, "2UF"),
         (0.000020000, "20UF"), (0.000200000, "200UF"), (0.01, "10000UF")]
  }

  /** `_RANGE_<family>_SCPI_WRITE_TO_DISP[model]` exactly as the driver
      defines it, including the SDM3055 AC-current entries for 200 µA and
      2 mA. */
  function WriteToDisp(f: Family, m: SdmModel): Dict<string, string> {
    match f
    case VAC =>
      if m == SDM3045X then [("600MV", "600 mV"), ("6V", "6 V"), ("60V", "60 V"), ("600V", "600 V"), ("750V", "750 V")]
      else [("200MV", "200 mV"), ("2V", "2 V"), ("20V", "20 V"), ("200V", "200 V"), ("750V", "750 V")]
    case VDC =>
      if m == SDM3045X then [("600MV", "600 mV"), ("6V", "6 V"), ("60V", "60 V"), ("600V", "600 V"), ("1000V", "1000 V")]
      else [("200MV", "200 mV"), ("2V", "2 V"), ("20V", "20 V"), ("200V", "200 V"), ("1000V", "1000 V")]
    case IAC =>
      if m == SDM3045X then [("60MA", "60 mA"), ("600MA", "600 mA"), ("6A", "6 A"), ("10A", "10 A")]
      else
        [("200UA", "200 \U{00B5}A"), ("2MA", "2 mA"), ("20MA", "20 mA"), ("200MA", "200 mA"),
         ("2A", "2 A"), ("10A", "10 A")]
    case IDC =>
      if m == SDM3045X then
        [("600UA", "600 \U{00B5}A"), ("6MA", "6 mA"), ("60MA", "60 mA"), ("600MA", "600 mA"),
         ("6A", "6 A"), ("10A", "10 A")]
      else
        [("200UA", "200 \U{00B5}A"), ("2MA", "2 mA"), ("20MA", "20 mA"), ("200MA", "200 mA"),
         ("2A", "2 A"), ("10A", "10 A")]
    case R =>
      (match m
       case SDM3045X =>
         [("600OHM", "600 \U{2126}"), ("6KOHM", "6 k\U{2126}"), ("60KOHM", "60 k\U{2126}"), ("600KOHM", "600 k\U{2126}"),
          ("6MOHM", "6 M\U{2126}"), ("60MOHM", "60 M\U{2126}"), ("100MOHM", "100 M\U{2126}")]
       case SDM3055 =>
         [("200OHM", "200 \U{2126}"), ("2KOHM", "2 k\U{2126}"), ("20KOHM", "20 k\U{2126}"), ("200KOHM", "200 k\U{2126}"),
          ("2MOHM", "2 M\U{2126}"), ("10MOHM", "10 M\U{2126}"), ("100MOHM", "100 M\U{2126}")]
       case SDM3065X =>
         [("200OHM", "200 \U{2126}"), ("2KOHM", "2 k\U{2126}"), ("20KOHM", "20 k\U{2126}"), ("200KOHM", "200 k\U{2126}"),
          ("1MOHM", "1 M\U{2126}"), ("10MOHM", "10 M\U{2126}"), ("100MOHM", "100 M\U{2126}")])
    case C =>
      if m == SDM3065X then
        [("2NF", "2 nF"), ("20NF", "20 nF"), ("200NF", "200 nF"), ("2UF", "2 \U{00B5}F"),
         ("20UF", "20 \U{00B5}F"), ("200UF", "200 \U{00B5}F"),
         ("2MF", "2 mF"), ("20MF", "20 mF"), ("100MF", "100 mF")]
      else
        [("2NF", "2 nF"), ("20NF", "20 nF"), ("200NF", "200 nF"), ("2UF", "2 \U{00B5}F"),
         ("20UF", "20 \U{00B5}F"), ("200UF", "200 \U{00B5}F"),
         ("10000UF", "10000 \U{00B5}F")]
  }

  /** The write-to-display tables as the readings imply they were meant:
      the driver's, except that the SDM3055 AC-current table offers only
      the four ranges its read table knows. */
  function WriteToDispIntended(f: Family, m: SdmModel): (r: Dict<string, string>)
    ensures !(f == IAC && m == SDM3055) ==> r == WriteToDisp(f, m)
  {
    if f == IAC && m == SDM3055 then [("20MA", "20 mA"), ("200MA", "200 mA"), ("2A", "2 A"), ("10A", "10 A")]
    else WriteToDisp(f, m)
  }

  /** `_RANGE_<family>_DISP_TO_SCPI_WRITE[model]`. */
  function DispToWrite(f: Family, m: SdmModel): Dict<string, string> {
    Invert(WriteToDisp(f, m))
  }

  /* ---------- the converters ---------- */

  /** `_range_<family>_scpi_read_to_scpi_write(param)`: `float(param)` fails
      with ValueError when the reply is not a number (`reading == None`); a
      number missing from the table is a KeyError. */
  function ReadToWriteConv(f: Family, m: SdmModel, reading: Option<real>): (r: Result<string, Values.Error>)
    ensures reading.None? ==> r == Failure(ValueError)
    ensures reading.Some? && !HasKey(ReadToWrite(f, m), reading.value) ==> r == Failure(KeyError)
    ensures r.Success? ==> reading.Some? && Get(ReadToWrite(f, m), reading.value) == Some(r.value)
  {
    if reading.None? then Failure(ValueError)
    else
      match Get(ReadToWrite(f, m), reading.value)
      case None => Failure(KeyError)
      case Some(t) => Success(t)
  }

  /** `_range_<family>_scpi_write_to_disp(range)`. */
  function WriteToDispConv(f: Family, m: SdmModel, token: string): (r: Result<string, Values.Error>)
    ensures r.Failure? <==> !HasKey(WriteToDisp(f, m), token)
    ensures r.Failure? ==> r.error == KeyError
    ensures r.Success? ==> Get(WriteToDisp(f, m), token) == Some(r.value)
  {
    match Get(WriteToDisp(f, m), token)
    case None => Failure(KeyError)
    case Some(l) => Success(l)
  }

  /** `_range_<family>_disp_to_scpi_write(range)`. */
  function DispToWriteConv(f: Family, m: SdmModel, disp: string): (r: Result<string, Values.Error>)
    ensures r.Failure? <==> !HasKey(DispToWrite(f, m), disp)
    ensures r.Failure? ==> r.error == KeyError
    ensures r.Success? ==> Get(DispToWrite(f, m), disp) == Some(r.value)
  {
    match Get(DispToWrite(f, m), disp)
    case None => Failure(KeyError)
    case Some(t) => Success(t)
  }

  /* ---------- table properties ---------- */

  /** No table repeats a reading, a token or a label. */
  lemma TablesDistinct(f: Family, m: SdmModel)
    ensures DistinctKeys(ReadToWrite(f, m))
    ensures DistinctKeys(WriteToDisp(f, m)) && DistinctValues(WriteToDisp(f, m))
    ensures DistinctKeys(WriteToDispIntended(f, m)) && DistinctValues(WriteToDispIntended(f, m))
  {
    match m
    case SDM3045X => TablesDistinctOf(f, SDM3045X);
    case SDM3055 => TablesDistinctOf(f, SDM3055);
    case SDM3065X => TablesDistinctOf(f, SDM3065X);
  }

  lemma TablesDistinctOf(f: Family, m: SdmModel)
    ensures DistinctKeys(ReadToWrite(f, m))
    ensures DistinctKeys(WriteToDisp(f, m)) && DistinctValues(WriteToDisp(f, m))
    ensures DistinctKeys(WriteToDispIntended(f, m)) && DistinctValues(WriteToDispIntended(f, m))
  {
    match f
    case VAC => DistinctVAC(m);
    case VDC => DistinctVDC(m);
    case IAC => DistinctIAC(m);
    case IDC => DistinctIDC(m);
    case R => DistinctR(m);
    case C => DistinctC(m);
  }

  lemma DistinctVAC(m: SdmModel)
    ensures DistinctKeys(ReadToWrite(VAC, m))
    ensures DistinctKeys(WriteToDisp(VAC, m)) && DistinctValues(WriteToDisp(VAC, m))
    ensures DistinctKeys(WriteToDispIntended(VAC, m)) && DistinctValues(WriteToDispIntended(VAC, m))
  {
    match m
    case SDM3045X =>
    case SDM3055 =>
    case SDM3065X =>
  }

  lemma DistinctVDC(m: SdmModel)
    ensures DistinctKeys(ReadToWrite(VDC, m))
    ensures DistinctKeys(WriteToDisp(VDC, m)) && DistinctValues(WriteToDisp(VDC, m))
    ensures DistinctKeys(WriteToDispIntended(VDC, m)) && DistinctValues(WriteToDispIntended(VDC, m))
  {
    match m
    case SDM3045X =>
    case SDM3055 =>
    case SDM3065X =>
  }

  lemma DistinctIAC(m: SdmModel)
    ensures DistinctKeys(ReadToWrite(IAC, m))
    ensures DistinctKeys(WriteToDisp(IAC, m)) && DistinctValues(WriteToDisp(IAC, m))
    ensures DistinctKeys(WriteToDispIntended(IAC, m)) && DistinctValues(WriteToDispIntended(IAC, m))
  {
    match m
    case SDM3045X =>
    case SDM3055 =>
    case SDM3065X =>
  }

  lemma DistinctIDC(m: SdmModel)
    ensures DistinctKeys(ReadToWrite(IDC, m))
    ensures DistinctKeys(WriteToDisp(IDC, m)) && DistinctValues(WriteToDisp(IDC, m))
    ensures DistinctKeys(WriteToDispIntended(IDC, m)) && DistinctValues(WriteToDispIntended(IDC, m))
  {
    match m
    case SDM3045X =>
    case SDM3055 =>
    case SDM3065X =>
  }

  lemma DistinctR(m: SdmModel)
    ensures DistinctKeys(ReadToWrite(R, m))
    ensures DistinctKeys(WriteToDisp(R, m)) && DistinctValues(WriteToDisp(R, m))
    ensures DistinctKeys(WriteToDispIntended(R, m)) && DistinctValues(WriteToDispIntended(R, m))
  {
    match m
    case SDM3045X =>
    case SDM3055 =>
    case SDM3065X =>
  }

  lemma DistinctC(m: SdmModel)
    ensures DistinctKeys(ReadToWrite(C, m))
    ensures DistinctKeys(WriteToDisp(C, m)) && DistinctValues(WriteToDisp(C, m))
    ensures DistinctKeys(WriteToDispIntended(C, m)) && DistinctValues(WriteToDispIntended(C, m))
  {
    match m
    case SDM3045X =>
    case SDM3055 =>
    case SDM3065X =>
  }

  /** display-to-write undoes write-to-display, and the other way round,
      for every model and family. */
  lemma RangeRoundTrip(f: Family, m: SdmModel, token: string, disp: string)
    ensures WriteToDispConv(f, m, token).Success? ==>
              DispToWriteConv(f, m, WriteToDispConv(f, m, token).value) == Success(token)
    ensures DispToWriteConv(f, m, disp).Success? ==>
              WriteToDispConv(f, m, DispToWriteConv(f, m, disp).value) == Success(disp)
    ensures DispToWriteConv(f, m, disp).Success? <==> HasValue(WriteToDisp(f, m), disp)
  {
    TablesDistinct(f, m);
    InvertRoundTrip(WriteToDisp(f, m), token, disp);
  }

  /** write-to-display never gives two tokens the same label. */
  lemma DisplayInjective(f: Family, m: SdmModel, a: string, b: string)
    requires WriteToDispConv(f, m, a).Success? && WriteToDispConv(f, m, b).Success?
    requires WriteToDispConv(f, m, a) == WriteToDispConv(f, m, b)
    ensures a == b
  {
    TablesDistinct(f, m);
    ValuesInjective(WriteToDisp(f, m), a, b);
  }

  /** Each model's readings convert, in order, to exactly the tokens its
      intended display table offers; only the SDM3055 AC-current table
      differs from the driver's. */
  lemma TokensAligned(f: Family, m: SdmModel)
    ensures |ReadToWrite(f, m)| == |WriteToDispIntended(f, m)|
    ensures forall i :: 0 <= i < |ReadToWrite(f, m)| ==> ReadToWrite(f, m)[i].1 == WriteToDispIntended(f, m)[i].0
    ensures !(f == IAC && m == SDM3055) ==> WriteToDispIntended(f, m) == WriteToDisp(f, m)
  {
  }

  /** Every token a reading converts to has a label in the driver's table,
      and every token the driver's table labels is some reading's token,
      except the SDM3055 AC-current `200UA` and `2MA`. */
  lemma ReadTokensDisplayable(f: Family, m: SdmModel, reading: Option<real>, token: string)
    ensures ReadToWriteConv(f, m, reading).Success? ==>
              WriteToDispConv(f, m, ReadToWriteConv(f, m, reading).value).Success?
    ensures WriteToDispConv(f, m, token).Success? <==>
              HasValue(ReadToWrite(f, m), token) || (f == IAC && m == SDM3055 && token in {"200UA", "2MA"})
  {
    var t := ReadToWrite(f, m);
    var d := WriteToDisp(f, m);
    if f == IAC && m == SDM3055 {
      assert |d| == |t| + 2;
      assert forall i :: 0 <= i < |t| ==> d[i + 2].0 == t[i].1;
      assert forall j :: 2 <= j < |d| ==> d[j].0 == t[j - 2].1;
      assert d[0].0 == "200UA" && d[1].0 == "2MA";
    } else {
      TokensAligned(f, m);
      assert forall i :: 0 <= i < |t| ==> d[i].0 == t[i].1;
    }
  }

  /** Clicking a label of any as-written display table selects the token
      that label was listed for. */
  lemma AsWrittenClickSelects(f: Family, m: SdmModel, i: int)
    requires 0 <= i < |WriteToDisp(f, m)|
    ensures Get(Invert(WriteToDisp(f, m)), WriteToDisp(f, m)[i].1)
              == Some(WriteToDisp(f, m)[i].0)
  {
    TablesDistinct(f, m);
    InvertAt(WriteToDisp(f, m), i);
  }

  /** As written, the SDM3055 AC-current table lists "200 µA" and "2 mA"
      (its first two entries): a click on them selects `200UA` or `2MA`,
      which no reading of that model converts to, so that table is not
      aligned with the readings. */
  lemma UnreadableAcCurrentRanges()
    ensures WriteToDisp(IAC, SDM3055)[0] == ("200UA", "200 \U{00B5}A")
    ensures WriteToDisp(IAC, SDM3055)[1] == ("2MA", "2 mA")
    ensures !HasValue(ReadToWrite(IAC, SDM3055), "200UA") && !HasValue(ReadToWrite(IAC, SDM3055), "2MA")
    ensures |ReadToWrite(IAC, SDM3055)| != |WriteToDisp(IAC, SDM3055)|
  {
    NoReadingGives(IAC, SDM3055, "200UA");
    NoReadingGives(IAC, SDM3055, "2MA");
  }

  /** A token none of a table's readings converts to. */
  lemma NoReadingGives(f: Family, m: SdmModel, token: string)
    requires forall i :: 0 <= i < |ReadToWrite(f, m)| ==> ReadToWrite(f, m)[i].1 != token
    ensures !HasValue(ReadToWrite(f, m), token)
  {
  }
}
