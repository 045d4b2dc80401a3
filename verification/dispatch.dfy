/** Instrument dispatch: the IDN map built from each driver class's
    `idn_mapping`, and `create_device`, which probes a resource for its
    `*IDN?` reply and picks the driver class (conductor/device/__init__.py
    and device/__init__.py). */
module Dispatch {
  import opened Wrappers
  import opened Text
  import opened Values
  import opened OrderedMap
  import Transport
  import VisaTransport

  /** Driver classes; `Fake(c)` is what `c.get_fake_instrument_class()` returns. */
  datatype DriverClass = Sdl1000 | Sdm3000 | Spd3303 | Spdx000 | Fake(of: DriverClass)

  datatype IdnKey = IdnKey(manufacturer: string, model: string)

  type Mapping = Dict<IdnKey, DriverClass>

  const Siglent: string := "Siglent Technologies"

  function Entries(cls: DriverClass, models: seq<string>): (m: Mapping)
    ensures |m| == |models|
    ensures forall i :: 0 <= i < |m| ==> m[i] == (IdnKey(Siglent, models[i]), cls)
  {
    if models == [] then [] else [(IdnKey(Siglent, models[0]), cls)] + Entries(cls, models[1..])
  }

  /** A driver class's `idn_mapping` and `supported_instruments`. */
  datatype ClassInfo = ClassInfo(idnMapping: Mapping, supported: seq<string>)

  const SdlModels: seq<string> := ["SDL1020X", "SDL1020X-E", "SDL1030X", "SDL1030X-E"]
  const SdmModels: seq<string> := ["SDM3045X", "SDM3055", "SDM3065X"]
  const Spd3303Models: seq<string> := ["SPD3303X", "SPD3303X-E"]

  function SdlInfo(): ClassInfo { ClassInfo(Entries(Sdl1000, SdlModels), SdlModels) }
  function SdmInfo(): ClassInfo { ClassInfo(Entries(Sdm3000, SdmModels), SdmModels) }
  function Spd3303Info(): ClassInfo { ClassInfo(Entries(Spd3303, Spd3303Models), Spd3303Models) }

  /** The module-level loop: `_DEVICE_MAPPING.update(cls.idn_mapping())` and
      `SUPPORTED_INSTRUMENTS += cls.supported_instruments()` per class. */
  function BuildMapping(classes: seq<ClassInfo>): (r: (Mapping, seq<string>))
    decreases |classes|
  {
    if classes == [] then ([], [])
    else
      var (m, s) := BuildMapping(classes[..|classes| - 1]);
      var last := classes[|classes| - 1];
      (Update(m, last.idnMapping), s + last.supported)
  }

  function Concat(lists: seq<seq<string>>): seq<string> {
    if lists == [] then [] else Concat(lists[..|lists| - 1]) + lists[|lists| - 1]
  }

  function Supported(classes: seq<ClassInfo>): seq<seq<string>>
    ensures |Supported(classes)| == |classes|
  {
    if classes == [] then [] else Supported(classes[..|classes| - 1]) + [classes[|classes| - 1].supported]
  }

  /** The supported list is the concatenation of the classes' lists, and the
      map is a dict with distinct keys in which a key bound by a later class
      overrides an earlier binding. */
  lemma {:induction false} BuildMappingSpec(classes: seq<ClassInfo>)
    ensures BuildMapping(classes).1 == Concat(Supported(classes))
    ensures DistinctKeys(BuildMapping(classes).0)
    ensures classes != [] ==>
      var m := BuildMapping(classes).0;
      var last := classes[|classes| - 1].idnMapping;
      forall i :: 0 <= i < |last| && (forall j :: i < j < |last| ==> last[j].0 != last[i].0)
        ==> Get(m, last[i].0) == Some(last[i].1)
    decreases |classes|
  {
    if classes != [] {
      var init := classes[..|classes| - 1];
      BuildMappingSpec(init);
      assert Supported(classes)[..|classes| - 1] == Supported(init);
      UpdateSpec(BuildMapping(init).0, classes[|classes| - 1].idnMapping);
    }
  }

  /** The conductor's map: SDL1000, SDM3000, then SPDx000, whose
      `idn_mapping` is passed in. */
  function ConductorMapping(spdx: ClassInfo): (Mapping, seq<string>) {
    BuildMapping([SdlInfo(), SdmInfo(), spdx])
  }

  /** The pyvisa application's map: SDL1000 then SPD3303. */
  function LegacyMapping(): (Mapping, seq<string>) {
    BuildMapping([SdlInfo(), Spd3303Info()])
  }

  /** The first mapping entry whose model matches, in insertion order. */
  function FirstWithModel(m: Mapping, model: string): (r: Option<(IdnKey, DriverClass)>)
    ensures r.Some? ==> r.value in m && r.value.0.model == model
    ensures r.None? <==> forall i :: 0 <= i < |m| ==> m[i].0.model != model
    ensures r.Some? ==> exists i :: 0 <= i < |m| && m[i] == r.value && forall j :: 0 <= j < i ==> m[j].0.model != model
  {
    if m == [] then None
    else if m[0].0.model == model then Some(m[0])
    else
      var r := FirstWithModel(m[1..], model);
      assert r.Some? ==> exists i :: 0 <= i < |m| && m[i] == r.value && forall j :: 0 <= j < i ==> m[j].0.model != model by {
        if r.Some? {
          var i :| 0 <= i < |m[1..]| && m[1..][i] == r.value && forall j :: 0 <= j < i ==> m[1..][j].0.model != model;
          assert m[i + 1] == r.value;
          assert forall j :: 0 <= j < i + 1 ==> m[j].0.model != model by {
            forall j | 0 <= j < i + 1 ensures m[j].0.model != model {
              if j > 0 { assert m[j] == m[1..][j - 1]; }
            }
          }
        }
      }
      r
  }

  /** The IDN lookup shared by both versions: split on ',', and with at least
      two fields look up (field 0, field 1). */
  function LookupIdn(m: Mapping, idn: string): (r: Option<(IdnKey, DriverClass)>)
    ensures var f := Split(idn, ',');
            r.Some? <==> |f| >= 2 && HasKey(m, IdnKey(f[0], f[1]))
    ensures r.Some? ==> var f := Split(idn, ','); r.value.0 == IdnKey(f[0], f[1]) && Get(m, r.value.0) == Some(r.value.1)
  {
    var f := Split(idn, ',');
    if |f| >= 2 then
      match Get(m, IdnKey(f[0], f[1]))
      case Some(c) => Some((IdnKey(f[0], f[1]), c))
      case None => None
    else None
  }

  /** What `create_device` builds: the class, the manufacturer and model it
      is told, and the connection the new instrument ends up with. */
  datatype Created = Created(cls: DriverClass, key: IdnKey, dev: Transport.Device)

  /** Conductor `create_device`. `openSucceeds` is the probe's
      `open_connection` outcome; `wio`/`rio` the `*IDN?` exchange. */
  function CreateDevice(m: Mapping, resourceName: string, openSucceeds: bool,
                        wio: Transport.Io, rio: Transport.Io): (r: Result<Created, Values.Error>)
  {
    var probe := Transport.Connect(Transport.NewDevice(resourceName), false, openSucceeds);
    if probe.result.Failure? then Failure(probe.result.error)
    else if probe.dev.isFake then
      var model := ReplaceAll(resourceName, "FAKE::", "");
      match FirstWithModel(m, model)
      case None => Failure(NameError)
      case Some((key, cls)) =>
        var dev := Transport.Connect(Transport.NewDevice(resourceName), probe.dev.hasStreams, false).dev;
        Success(Created(Fake(cls), key, dev))
    else
      var q := Transport.Query(probe.dev, "*IDN?", wio, rio);
      if q.result.Failure? then Failure(q.result.error)
      else
        var idn := q.result.value;
        match LookupIdn(m, idn)
        case None => Failure(UnknownInstrumentType(idn))
        case Some((key, cls)) =>
          var dev := Transport.Connect(Transport.NewDevice(resourceName), probe.dev.hasStreams, false).dev;
          Success(Created(cls, key, dev))
  }

  /** A real resource that answers `*IDN?`: a known (manufacturer, model)
      pair selects its class, which adopts the probe's streams instead of
      dialing again; anything else raises UnknownInstrumentType with the reply. */
  lemma CreateDeviceReal(m: Mapping, address: string, wio: Transport.Io, rio: Transport.Io)
    requires !Occurs(address, "TCPIP::")
    requires !wio.fails && !wio.closedMeanwhile && !rio.fails && !rio.closedMeanwhile
    ensures var idn := Strip(rio.line, LineSpace);
            var f := Split(idn, ',');
            var r := CreateDevice(m, "TCPIP::" + address, true, wio, rio);
            && (r.Success? <==> |f| >= 2 && HasKey(m, IdnKey(f[0], f[1])))
            && (r.Failure? ==> r.error == UnknownInstrumentType(idn))
            && (r.Success? ==> r.value.key == IdnKey(f[0], f[1]) && Get(m, r.value.key) == Some(r.value.cls)
                               && r.value.dev.connected && !r.value.dev.isFake && r.value.dev.hasStreams)
  {
    var name := "TCPIP::" + address;
    assert StartsWith(name, "TCPIP::");
    assert !StartsWith(name, "FAKE::") by { assert name[0] != "FAKE::"[0]; }
    Transport.StripTwice(rio.line, LineSpace);
  }

  /** 'FAKE::<model>' creates the fake class of the first entry with that
      model; an unknown model reaches the raise with `idn` unbound (NameError). */
  lemma CreateDeviceFake(m: Mapping, model: string, wio: Transport.Io, rio: Transport.Io)
    requires !Occurs(model, "FAKE::")
    ensures var r := CreateDevice(m, "FAKE::" + model, false, wio, rio);
            && (r.Success? <==> FirstWithModel(m, model).Some?)
            && (r.Failure? ==> r.error == NameError)
            && (r.Success? ==> r.value.cls == Fake(FirstWithModel(m, model).value.1)
                               && r.value.key.model == model && r.value.dev.isFake && r.value.dev.connected)
  {
    var name := "FAKE::" + model;
    assert StartsWith(name, "FAKE::");
    ReplacePrefix(model, "FAKE::");
  }

  /** What the pyvisa `create_device` builds; the new device adopts the
      probe's resource. */
  datatype VisaCreated = VisaCreated(cls: DriverClass, key: IdnKey, dev: VisaTransport.VisaDevice)

  function CreateDeviceVisa(m: Mapping, resourceName: string, openedTimeout: int, io: VisaTransport.VisaIo)
    : (r: Result<VisaCreated, Values.Error>)
    ensures !io.fails ==>
      var idn := Strip(io.reply, LineSpace);
      && (r.Success? <==> LookupIdn(m, idn).Some?)
      && (r.Failure? ==> r.error == UnknownInstrumentType(idn))
      && (r.Success? ==> r.value.key == LookupIdn(m, idn).value.0 && r.value.cls == LookupIdn(m, idn).value.1
                         && r.value.dev.connected && r.value.dev.hasResource && r.value.dev.timeout == openedTimeout)
    ensures io.fails ==> r == Failure(ContactLostError)
  {
    var probe := VisaTransport.Connect(VisaTransport.VisaDevice(resourceName, false, false, 0), false, 0, openedTimeout);
    var q := VisaTransport.Query(probe, "*IDN?", io);
    if q.result.Failure? then Failure(q.result.error)
    else
      var idn := q.result.value;
      match LookupIdn(m, idn)
      case None => Failure(UnknownInstrumentType(idn))
      case Some((key, cls)) =>
        var dev := VisaTransport.Connect(VisaTransport.VisaDevice(resourceName, false, false, 0), true, probe.timeout, 0);
        Success(VisaCreated(cls, key, dev))
  }

  /** Later classes win: a key bound by class `k` (its last binding there)
      and not mentioned by any later class ends bound to that value. */
  lemma {:induction false} LastMentionWins(classes: seq<ClassInfo>, k: nat, idx: nat)
    requires k < |classes|
    requires idx < |classes[k].idnMapping|
    requires var e := classes[k].idnMapping;
             forall j :: idx < j < |e| ==> e[j].0 != e[idx].0
    requires forall c :: k < c < |classes| ==> !HasKey(classes[c].idnMapping, classes[k].idnMapping[idx].0)
    ensures Get(BuildMapping(classes).0, classes[k].idnMapping[idx].0) == Some(classes[k].idnMapping[idx].1)
    decreases |classes|
  {
    var init := classes[..|classes| - 1];
    var last := classes[|classes| - 1];
    BuildMappingSpec(init);
    UpdateSpec(BuildMapping(init).0, last.idnMapping);
    if k < |classes| - 1 {
      assert init[k] == classes[k];
      LastMentionWins(init, k, idx);
    }
  }

  /** Every SDL and SDM model of the conductor map resolves to its class,
      whatever SPDx000 adds, as long as SPDx000 does not rebind those keys. */
  lemma ConductorKnowsSdlAndSdm(spdx: ClassInfo, model: string)
    requires model in SdlModels || model in SdmModels
    requires !HasKey(spdx.idnMapping, IdnKey(Siglent, model))
    ensures Get(ConductorMapping(spdx).0, IdnKey(Siglent, model)) == Some(if model in SdlModels then Sdl1000 else Sdm3000)
  {
    if model in SdlModels {
      var i :| 0 <= i < |SdlModels| && SdlModels[i] == model;
      SdlEntryWins(spdx, i);
    } else {
      var i :| 0 <= i < |SdmModels| && SdmModels[i] == model;
      SdmEntryWins(spdx, i);
    }
  }

  /** An SDL1000 model keeps the SDL1000 entry: the SDM3000 table does not
      list it, and the third class does not by assumption. */
  lemma SdlEntryWins(spdx: ClassInfo, i: nat)
    requires i < |SdlModels|
    requires !HasKey(spdx.idnMapping, IdnKey(Siglent, SdlModels[i]))
    ensures Get(ConductorMapping(spdx).0, IdnKey(Siglent, SdlModels[i])) == Some(Sdl1000)
  {
    var classes := [SdlInfo(), SdmInfo(), spdx];
    var key := IdnKey(Siglent, SdlModels[i]);
    assert classes[0].idnMapping[i] == (key, Sdl1000);
    assert !HasKey(SdmInfo().idnMapping, key);
    LastMentionWins(classes, 0, i);
  }

  /** An SDM3000 model keeps the SDM3000 entry. */
  lemma SdmEntryWins(spdx: ClassInfo, i: nat)
    requires i < |SdmModels|
    requires !HasKey(spdx.idnMapping, IdnKey(Siglent, SdmModels[i]))
    ensures Get(ConductorMapping(spdx).0, IdnKey(Siglent, SdmModels[i])) == Some(Sdm3000)
  {
    var classes := [SdlInfo(), SdmInfo(), spdx];
    var key := IdnKey(Siglent, SdmModels[i]);
    assert classes[1].idnMapping[i] == (key, Sdm3000);
    LastMentionWins(classes, 1, i);
  }
}
