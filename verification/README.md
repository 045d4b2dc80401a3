# inst_conductor in Dafny

A model of the instrument-control core of inst_conductor. This is a Python/Qt
application that drives Siglent bench instruments over SCPI:
- the SDL1000 electronic load;
- the SDM3000 multimeter;
- the SPD3303 power supply.

It also records their measurements. The repository holds two generations of
the code, and both are modelled:
- the `conductor/` package, with asyncio transports;
- the older top-level package, with pyvisa transports.

The model covers:

- **Transports**:
  - `Device` connect, read, write, query, the register validators and the
    IEEE 488.2 common commands, with the connected and ready-to-close flags
    and their error order (`transport.dfy`);
  - the pyvisa `Device` (`visa_transport.dfy`).
- **IDN dispatch**: how `*IDN?` replies and `FAKE::` resource names select a
  driver class (`dispatch.dfy`, `short_names.dfy`).
- **Main window**:
  - recording of measurements and triggers into aligned time series, with
    pause, erase and the per-tick alignment invariant (`recording.dfy`);
  - the most-recently-used resource list (`recording.dfy`);
  - the IP address dialog's validator and normaliser (`ip_address.dfy`).
- **Logging levels** (`log_levels.dfy`) and the instrument configuration
  store `inst_config` (`inst_config.dfy`).
- **SDM3000**:
  - the range tables (`sdm_ranges.dfy`);
  - mode switching (`sdm_modes.dfy`);
  - the parameter-state synchronisation of the `conductor` driver
    (`sdm_sync.dfy`) and of the older driver (`sdm_legacy.dfy`).
  This synchronisation means refreshing from the instrument, writing back to
  it, reacting to widget edits, and saving and loading the configuration.
- **SPD3303** (`spd3303.dfy`, `spd_status.dfy`, `spd_timer.dfy`):
  - the per-channel parameters and tracking modes;
  - the status word read from `SYST:STATUS?`;
  - the five-step timer table with its aliasing;
  - the heartbeat that drives the timer.
- **SDL1000** (`sdl_*.dfy`):
  - the parameter registry and the command paths built from it;
  - the mode and sub-mode switching;
  - refresh and update of the instrument;
  - the value-change handler with its slew-rate coupling and bounds;
  - the List mode table, with its clamping, loading and heartbeat;
  - saving and loading the configuration.

Python dicts are association lists (`OrderedMap`). Most lemmas assume
`DistinctKeys`, the dict invariant. Python values in a parameter snapshot are
`Values.Value`, and Python's mixed equality (`1 == 1.0 == True`) and
truthiness are written out. Exceptions and failed `assert`s become `Failure`
values of `Wrappers.Result`. Instrument replies, the clock and the stream
outcomes are parameters. The commands sent are recorded as a structured
`Cmd` (a command path plus arguments) or as lines of text.

Where the code departs from what its design evidently intends, the model
keeps the code as written. It then proves the departure with a concrete
input (see "## Findings") and defines the corrected behaviour beside it.
Examples:
- `read` in `conductor/device/device.py` always fails, because it awaits a
  method the class does not define;
- the older SDM driver's `update_instrument` always stops at an `assert`;
- `InstConfig.add_mode` calls `append` on a dict.

## Model

| member | source | states |
|---|---|---|
| LogLevels.DecodeLevel | conductor/log.py:79-82 | 'none' in any letter case decodes to the supercritical level 60; any other name succeeds exactly when its upper-cased form is a level known to `logging`, and then yields that level |
| LogLevels.MinLevelIsSmallestKnown | conductor/log.py:84-89 | `min_level` returns the smaller of the two arguments that are standard levels, is symmetric, and falls back to the supercritical level when neither is standard |
| LogLevels.ScanFindsSmallest | conductor/log.py:84-89 | scanning the increasing list of standard levels stops at the first argument found, which is the smaller known one |
| LogLevels.SetupLogging | conductor/log.py:92-104 | setup succeeds exactly when both level names decode; the console handler gets the console level, the logger the more verbose of the two, and a file handler exists exactly when the file level is not 'none' |
| LogLevels.SetupLoggingChoices | conductor/log.py:28-31 | every pair of names from the command-line choices decodes; the logger level is the smaller of the two and the file handler is absent exactly for 'none' |
| InstConfig.AddMode | device/inst_config.py:46-48 | `add_mode` calls `append` on a dict, so it always fails with AttributeError and leaves the configuration as it was |
| InstConfig.AddModeRegistersNothing | device/inst_config.py:46-64 | `add_mode` registers no mode: a mode exists afterwards exactly when it did before, and a later `add_mode_param` builds the same configuration with or without the call |
| InstConfig.AddModeParamSpec | device/inst_config.py:50-64 | after adding a mode parameter the mode exists and binds the command to the new converter pair; an existing command keeps its place and a new one is appended; other commands, other modes and the global parameters are unchanged |
| InstConfig.AddGlobalParamSpec | device/inst_config.py:66-78 | adding a global parameter binds the command, appends it only if new, and leaves the other global commands and all modes unchanged |
| InstConfig.ReAddReplaces | device/inst_config.py:50-64 | adding the same command twice keeps the second converter pair and does not change the order of commands or modes |
| Dispatch.Entries | device/siglent_sdl1000.py:136-142 | a class's `idn_mapping` binds the key (Siglent Technologies, model) to that class for each of its models, in order |
| Dispatch.BuildMappingSpec | conductor/device/__init__.py:33-39 | the supported list is the concatenation of every class's models; the map has distinct keys, and the last class's bindings survive the `update` calls |
| Dispatch.LastMentionWins | device/__init__.py:29-34 | a key bound by some class and not rebound by any later class ends bound to that class's value |
| Dispatch.FirstWithModel | conductor/device/__init__.py:53-59 | the fake-instrument scan picks the first map entry, in insertion order, whose model is the requested one, and finds none exactly when no entry has that model |
| Dispatch.LookupIdn | device/__init__.py:45-50 | an IDN reply selects a class exactly when it has at least two comma-separated fields and (field 0, field 1) is a key of the map; the class is the one bound to that key |
| Dispatch.CreateDeviceReal | conductor/device/__init__.py:49-73 | for a real resource, creation succeeds exactly when the stripped IDN reply names a known (manufacturer, model); otherwise it raises UnknownInstrumentType carrying the reply; the new device is connected, not fake, and reuses the probe's streams |
| Dispatch.CreateDeviceFake | conductor/device/__init__.py:53-59 | for 'FAKE::model' the fake class of the first entry with that model is created; an unknown model reaches the raise with `idn` unbound (NameError) |
| Dispatch.CreateDeviceVisa | device/__init__.py:41-56 | the pyvisa version succeeds exactly when the IDN lookup succeeds and raises UnknownInstrumentType with the reply otherwise; a lost resource raises ContactLostError; the new device holds the probe's resource and its timeout |
| Dispatch.ConductorKnowsSdlAndSdm | conductor/device/__init__.py:33-39 | every SDL1000 and SDM3000 model resolves to its own class in the conductor map, as long as the SPDx000 class does not rebind it |
| ShortNames.SuffixedInjective | conductor/device/device.py:159 | different suffix numbers give different `name[k]` strings |
| ShortNames.FirstFreeFrom | conductor/device/device.py:157-163 | the suffix loop stops at the smallest number from its start whose `name[k]` is not in use; all smaller numbers are taken |
| ShortNames.TriedBound | conductor/device/device.py:157-163 | if the first k-1 suffixed names are taken there are at least k-1 names in use, so the suffix loop terminates |
| ShortNames.Unique | device/device.py:112-121 | the chosen short name is not in use; an unused base name is kept, and a used one gets some `[k]` suffix |
| ShortNames.InitNames | conductor/device/device.py:148-167 | the long name is `prefix @ resource`; the short name is never among the existing names, and is the base name when the existing names are absent or do not contain it |
| ShortNames.InitNamesSmallestSuffix | conductor/device/device.py:156-163 | when the base name is taken, the suffix added is the smallest free one |
| ShortNames.InitNamesVisa | device/device.py:105-122 | the pyvisa version raises TypeError exactly when no existing names are given and otherwise agrees with the conductor version |
| Transport.Connect | conductor/device/device.py:120-146 | an already connected device is left alone; given streams it becomes connected at once; 'FAKE::' becomes a connected fake; 'TCPIP::addr' dials addr on port 5025 with a 3 s timeout and is connected exactly when the dial succeeds, raising NotConnected otherwise; any other name is refused without change |
| Transport.ConnectDialsAddress | conductor/device/device.py:128-133 | 'TCPIP::' followed by an address dials exactly that address on the SCPI port |
| Transport.Disconnect | conductor/device/device.py:169-178 | disconnecting sends nothing; it succeeds and leaves the device disconnected for a fake device or one that has streams, and raises AttributeError without change otherwise |
| Transport.ReadNoLock | conductor/device/device.py:195-216 | a read checks connected, then ready-to-close, before touching the stream; a stream error disconnects the device and raises ConnectionLost; a close during the read raises InstrumentClosed; a successful real read returns the line with line terminators stripped |
| Transport.Read | conductor/device/device.py:218-223 | `read` calls a method the class does not define, so it always raises AttributeError, sends nothing and leaves the device as it was |
| Transport.ReadTakesNothing | conductor/device/device.py:218-223 | what `read` does is the same whatever the stream holds: it never takes a line |
| Transport.ReadIntended | conductor/device/device.py:195-223 | the intended read on a healthy device returns the waiting line stripped and leaves the device as it was; a fake device answers `READ_RESULT`; otherwise it raises one of the transport errors, and it never sends anything |
| Transport.ReadIntendedIsReadNoLock | conductor/device/device.py:195-223 | the intended read is `read_no_lock`, step for step |
| Transport.ReadAlwaysFails | conductor/device/device.py:218-223 | on a healthy device with a line waiting, `read` fails while the intended locked `read_no_lock` returns the stripped line |
| Transport.ReadRaw | conductor/device/device.py:225-248 | the raw read makes the same flag checks and returns the line unstripped |
| Transport.SendChecked | conductor/device/device.py:250-269 | a write checks connected and ready-to-close first; a fake device sends nothing; a stream error disconnects and raises ConnectionLost without recording the line; a close meanwhile raises InstrumentClosed after the text went out |
| Transport.WriteNoLock | conductor/device/device.py:250-269 | whatever a write sends is the line followed by exactly one newline, and nothing is sent when not connected |
| Transport.WriteRaw | conductor/device/device.py:279-301 | a raw write sends the text with no terminator |
| Transport.Write | conductor/device/device.py:271-277 | a fake device returns at once without sending, even when disconnected; a disconnected real device raises NotConnected |
| Transport.Query | conductor/device/device.py:180-193 | a query raises NotConnected before any I/O when disconnected, answers 'QUERY_RESULT' on a fake device, and otherwise sends the line plus newline and returns the stripped reply |
| Transport.ConnectionLostIsSticky | conductor/device/device.py:259-264 | after a write hits a stream error the device is disconnected, so later queries, reads and writes raise NotConnected without I/O |
| Transport.Validate | conductor/device/device.py:311-321 | a register value is accepted exactly when it lies in 0..2^n-1 for the 1-, 8- or 16-bit validator; otherwise ValueError |
| Transport.ReadWrite | conductor/device/device.py:303-309 | with no value `_read_write` is the query; a value outside the validator's range raises ValueError before any I/O; a valid value writes `cmd value` and returns None |
| Transport.CommonLines | conductor/device/device.py:329-376 | every IEEE 488.2 common method sends exactly one line, starting with '*' |
| Transport.RstLinesIntended | conductor/device/device.py:333-336 | the intended reset sends `*RST` and then `*CLS` |
| Transport.RstNeverResets | conductor/device/device.py:333-336 | `rst` does not await `write('*RST')`, so `*RST` is never among its lines, while the intended sequence contains it |
| Transport.CommonQueriesEndInMark | conductor/device/device.py:329-376 | apart from `*TST`, which is sent without '?', a common method's line ends in '?' exactly when it is a query |
| VisaTransport.Connect | device/device.py:91-103 | connecting a connected device changes nothing; otherwise it ends connected with a resource, adopted or opened by name |
| VisaTransport.Disconnect | device/device.py:124-134 | disconnecting raises NotConnectedError exactly when not connected; otherwise only the connected flag changes |
| VisaTransport.Receive | device/device.py:136-173 | query, read and read_raw raise NotConnectedError on a disconnected device without I/O, turn a VISA error into a disconnect plus ContactLostError, and otherwise return the reply, stripped for query and read |
| VisaTransport.Write | device/device.py:175-189 | a write on a connected device hands the string to the resource; success leaves the device as it was, timeout restored; a VISA error disconnects, raises ContactLostError and leaves the override timeout installed |
| VisaTransport.WriteRaw | device/device.py:191-201 | a raw write makes the same checks as a write and hands the resource the same string, so it behaves as a write without a timeout override |
| VisaTransport.EntryPointsGuarded | device/device.py:136-203 | every I/O entry point refuses a disconnected device with NotConnectedError and no I/O, and a VISA error leaves the device disconnected with ContactLostError |
| VisaTransport.TimeoutRestoredOnlyOnSuccess | device/device.py:175-189 | a write with a timeout override restores the old timeout only when it succeeds |
| VisaTransport.Validate | device/device.py:213-223 | a register value passes exactly when it fits the 1-, 8- or 16-bit range |
| VisaTransport.ReadWrite | device/device.py:205-211 | `_read_write` calls the resource directly: the connected flag never changes, a missing value queries, and a VISA error surfaces as VisaIOError rather than ContactLostError |
| VisaTransport.ReadWriteBypassesConnectedCheck | device/device.py:205-211 | after a disconnect, `query` refuses while `ese()` still sends its query to the closed resource |
| IpAddress.Validator | conductor/qasync_helper.py:184-200 | Open is enabled exactly when the text splits on '.' into four fields that `int()` reads, each in 0..255 |
| IpAddress.TextChanged | conductor/qasync_helper.py:172 | every text change re-runs the validator, so the Open button reflects the new text |
| IpAddress.OpenTracksText | main_window.py:89-104 | after any sequence of edits the dialog holds the last text and Open is enabled exactly when it is a valid address |
| IpAddress.GetIpAddress | conductor/qasync_helper.py:206-213 | the async dialog returns None exactly when it was rejected, and the entered text otherwise |
| IpAddress.NormaliseFields | conductor/main_window.py:598 | each field is re-rendered with `'%d' % int(x)`; a field `int()` rejects raises ValueError |
| IpAddress.OpenIpResource | conductor/main_window.py:595-599 | the opened resource name starts with 'TCPIP::' |
| IpAddress.NormalisedAddress | main_window.py:549-553 | every address the validator accepts opens as 'TCPIP::' and four dot-separated octets, each with the value the validator read, in 0..255 and without leading zeros |
| IpAddress.RenderedFieldsFixed | conductor/main_window.py:598 | fields already in `'%d'` form are left as they are |
| IpAddress.RenderedOctet | conductor/main_window.py:598 | a rendered octet contains no '.', reads back as its own value and passes the validator |
| IpAddress.NormaliseIdempotent | conductor/main_window.py:595-599 | the normalised form of a valid address is itself valid and opens the same resource |
| Recording.FindTriggerIsFirstEntry | conductor/main_window.py:734-745 | the nested loop over open resources and their triggers finds the first trigger, in window order, whose (long name, key) is the State source |
| Recording.AnyTriggerEntries | conductor/main_window.py:736-741 | `found_trigger` is set exactly when some open instrument has a trigger |
| Recording.StateReady | conductor/main_window.py:733-749 | the State gate either answers or fails with AssertionError |
| Recording.StateGateSpec | conductor/main_window.py:733-749 | the State gate is the truthiness of the source trigger's cached value; it asserts when the source is unset or missing, except that the conductor reports not ready when no instrument has a trigger |
| Recording.FirstWithLongName | conductor/main_window.py:755-760 | the `for ... else` search finds the first open instrument with the source's long name, and none exactly when no instrument has it |
| Recording.Compare | conductor/main_window.py:766-781 | a comparison operator other than the six known ones asserts |
| Recording.ValueReady | conductor/main_window.py:750-754 | the Value gate is closed when no source is chosen or the source has no recorded series |
| Recording.ValueGateSound | conductor/main_window.py:750-782 | the Value gate opens only when the source has a series, an open instrument has the source's long name, and its cached reading is a number satisfying the comparison |
| Recording.CheckAcquisitionReady | conductor/main_window.py:725-784 | the conductor's gate is always open in 'Always' mode and asserts for an unknown mode |
| Recording.CheckAcquisitionReadyLegacy | main_window.py:663-711 | the older window's gate is always open in 'Manual' mode and asserts for an unknown mode |
| Recording.NoTriggersDiffer | main_window.py:668-676 | in State mode with no triggers at all, the conductor is not ready while the older window fails its assert |
| Recording.SampleOf | conductor/main_window.py:818-824 | a recorded value is a number exactly when NaN is not forced and the reading is not None |
| Recording.AppendSpec | conductor/main_window.py:811-845 | every updated key ends with its existing series, or a new NaN-padded one, plus its new value |
| Recording.AppendKeepsOthers | conductor/main_window.py:811-845 | appending the tick's readings keeps keys distinct and leaves series of keys not read this tick unchanged |
| Recording.PadMissingSpec | conductor/main_window.py:846-864 | once anything was updated, each series not updated gets one NaN; no series is added or dropped |
| Recording.RecordSeriesSpec | conductor/main_window.py:811-864 | one tick's effect on one family: updated keys get their base series plus the new value, every other stored series one NaN when anything was updated, and keys stay distinct |
| Recording.RecordTick | conductor/main_window.py:796-868 | with the gate closed or paused and no good last row nothing is recorded; otherwise the time axis gains the tick and the row is good exactly when ready and not paused |
| Recording.UpdateMeasurements | conductor/main_window.py:785-868 | the conductor evaluates the gate first, so a gate assert fails the tick, and does nothing else without open resources |
| Recording.UpdateMeasurementsLegacy | main_window.py:713-803 | the older window returns before the gate when no resource is open, and otherwise fails exactly when its gate asserts |
| Recording.UpdatedKey | conductor/main_window.py:811-824 | an updated key's series after the tick is its base series plus the recorded value |
| Recording.TickLengths | conductor/main_window.py:811-864 | on an aligned family, existing series grow by one and a new series has length pad + 1 |
| Recording.RecordTickAsWritten | conductor/main_window.py:815-817 | as written, existing series stay as long as the time axis but a series first seen in this tick is one longer, because it is padded after the time was appended |
| Recording.NewSeriesTooLong | conductor/main_window.py:815-817 | the first tick of a new measurement leaves its series [NaN, value] against a one-entry time axis |
| Recording.RecordTickIntendedAligned | conductor/main_window.py:846-864 | padding a new series with the number of earlier times keeps every series as long as the time axis |
| Recording.FamilyAligned | conductor/main_window.py:846-864 | with intended padding, one family of aligned series stays aligned after a tick that updates it |
| Recording.OneNanRowThenNothing | conductor/main_window.py:798-805 | while the gate is closed or paused, a good row is followed by exactly one NaN row and then nothing is recorded |
| Recording.GoodRowRecordsReadings | conductor/main_window.py:818-824 | a good tick records each cached reading as read, NaN for None, and marks the row good |
| Recording.BackfillSpec | conductor/main_window.py:651-669 | opening adds an all-NaN series as long as the time axis for each new key, and keeps existing series |
| Recording.OpenKeepsAligned | conductor/main_window.py:647-669 | opening an instrument keeps the recorder aligned, keeps a reopened instrument's data, and gives each of its measurement keys a series |
| Recording.EraseAll | conductor/main_window.py:405-414 | Erase All clears the time axis and keeps one entry per series |
| Recording.EraseAllAligned | main_window.py:401-410 | Erase All empties every series but keeps every key, so the recorder is aligned |
| Recording.EraseAllThenClosedGate | main_window.py:405 | after Erase All with the gate closed, the older window records one NaN row (it marks the last row good) while the conductor records nothing |
| Recording.IndexOf | conductor/main_window.py:637 | `list.index` finds the first position of the name and fails exactly when it is absent |
| Recording.PushRecentSpec | conductor/main_window.py:635-644 | the opened name goes to the top, its earlier entry is dropped, the others keep their order behind it up to the limit, and a duplicate-free list stays duplicate-free |
| Recording.OpenRecent | conductor/main_window.py:635-644 | the conductor's recent list never exceeds 9 entries |
| Recording.OpenRecentLegacy | main_window.py:582-590 | the older window's recent list never exceeds 4 entries |
| Recording.RecentNameRoundTrip | conductor/main_window.py:587-592 | reopening a 'resource (model)' entry takes the text before the first space, which is the resource name when it has no space |
| Recording.IndexOfName | conductor/main_window.py:1006 | the resource lookup finds a position with that name, and none exactly when no open resource has it |
| Recording.ResetSource | conductor/main_window.py:1022-1027 | a selected source of the closed instrument is cleared and any other source is kept |
| Recording.DeviceWindowClosed | conductor/main_window.py:1002-1031 | closing a window whose resource is not listed changes nothing; otherwise exactly one resource is removed |
| Recording.DeviceWindowClosedLegacy | main_window.py:922-943 | the older window raises ValueError from `list.index` exactly when the resource is not listed |
| Recording.CloseForgetsInstrument | conductor/main_window.py:1002-1031 | after closing, the resource is gone, the other resources remain, the State source no longer names the instrument, and a Value gate that named it stays closed |
| SdmRanges.InvertSpec | conductor/device/siglent_sdm3000.py:466-467 | the dict comprehension that builds a display-to-write table maps each label back to its token and knows no other label, given distinct tokens and labels |
| SdmRanges.InvertRoundTrip | conductor/device/siglent_sdm3000.py:466-467 | token to label to token, and label to token to label, are both the identity on a table with distinct tokens and labels |
| SdmRanges.ValuesInjective | conductor/device/siglent_sdm3000.py:442-465 | a table with distinct labels gives distinct tokens distinct labels |
| SdmRanges.WriteToDispIntended | conductor/device/siglent_sdm3000.py:540-564 | the display tables as the readings imply they were meant are the driver's, except the SDM3055 AC-current table, which keeps only the ranges that model's readings convert to |
| SdmRanges.ReadToWriteConv | conductor/device/siglent_sdm3000.py:1843-1913 | converting a range reading fails with ValueError when the reply is not a number and with KeyError when the number is not in the model's table; otherwise it yields the table's token |
| SdmRanges.WriteToDispConv | conductor/device/siglent_sdm3000.py:1851-1909 | a token converts to a label exactly when the driver's table for the model has it, and the label is the table's; otherwise KeyError |
| SdmRanges.DispToWriteConv | conductor/device/siglent_sdm3000.py:1859-1913 | a label converts to a token exactly when the inversion of the driver's table has it; otherwise KeyError |
| SdmRanges.TablesDistinct | conductor/device/siglent_sdm3000.py:419-750 | no range table repeats a reading, a token or a label, for any family or model |
| SdmRanges.RangeRoundTrip | conductor/device/siglent_sdm3000.py:1851-1913 | on the driver's tables, display-to-write undoes write-to-display and the other way round, and a label converts exactly when some token shows it |
| SdmRanges.DisplayInjective | conductor/device/siglent_sdm3000.py:1851-1909 | no table of the driver gives two tokens the same label |
| SdmRanges.TokensAligned | conductor/device/siglent_sdm3000.py:419-750 | each model's readings convert, in order, to exactly the tokens its intended display table offers, and the intended table is the driver's everywhere but the SDM3055 AC-current family |
| SdmRanges.ReadTokensDisplayable | conductor/device/siglent_sdm3000.py:419-750 | every token a reading converts to has a label in the driver's table, and the driver's table labels exactly the reading tokens plus, for the SDM3055 in AC current, `200UA` and `2MA` |
| SdmRanges.AsWrittenClickSelects | conductor/device/siglent_sdm3000.py:1883-1885 | clicking any label of the driver's display tables selects the token it was listed for |
| SdmRanges.UnreadableAcCurrentRanges | conductor/device/siglent_sdm3000.py:518-564 | the SDM3055 AC-current display table lists '200 µA' and '2 mA', whose tokens no SDM3055 reading converts to, so that table is not aligned with the readings |
| SdmRanges.NoReadingGives | conductor/device/siglent_sdm3000.py:518-539 | a token that no reading row lists is not a value of the reading table |
| SdmModes.ModeOfUpper | conductor/device/siglent_sdm3000.py:1772-1799 | an upper-cased GUI name matches at most one mode, and matches it exactly when it is that mode's name |
| SdmModes.ModeToScpi | conductor/device/siglent_sdm3000.py:1770-1801 | `_mode_to_scpi` succeeds exactly when the upper-cased name is one of the twelve mode names, giving that mode's SCPI argument; anything else fails its assert |
| SdmModes.ScpiToMode | conductor/device/siglent_sdm3000.py:1811-1841 | `_scpi_to_mode` succeeds exactly on the listed long and short spellings, case-sensitively, returning the mode the spelling belongs to; anything else fails its assert |
| SdmModes.AliasesDisjoint | conductor/device/siglent_sdm3000.py:1811-1841 | no spelling belongs to two modes, so each alias reads as its own mode |
| SdmModes.OneMode | conductor/device/siglent_sdm3000.py:1811-1841 | a spelling listed under two modes lists the same mode twice: the alias sets are pairwise disjoint |
| SdmModes.UpperOfModeName | conductor/device/siglent_sdm3000.py:1772 | upper-casing a GUI mode name gives the name `_mode_to_scpi` matches |
| SdmModes.ModeRoundTrip | conductor/device/siglent_sdm3000.py:1770-1841 | for all twelve modes, reading back the SCPI argument of the mode's name gives the mode |
| SdmModes.NormaliseSpec | conductor/device/siglent_sdm3000.py:1947-1949 | normalising `:FUNCTION` accepts exactly the aliases, maps every spelling of a mode to its one canonical argument, keeps the mode, and is idempotent |
| SdmModes.SpeedReadToWrite | conductor/device/siglent_sdm3000.py:1915-1917 | a speed reply converts exactly when `float` reads it, to that number; otherwise ValueError |
| SdmModes.SpeedWriteToDisp | conductor/device/siglent_sdm3000.py:1919-1929 | NPLC 10, 1 and 0.3 display as Slow, Medium and Fast; any other number fails the assert |
| SdmModes.SpeedDispToWrite | conductor/device/siglent_sdm3000.py:1931-1941 | Slow, Medium and Fast write as 10, 1 and 0.3; any other label fails the assert |
| SdmModes.SpeedRoundTrip | conductor/device/siglent_sdm3000.py:1919-1941 | the speed mapping round-trips both ways on its domain |
| SdmModes.CmdForInstrument | conductor/device/siglent_sdm3000.py:1742-1753 | a command without '/' is for every model; `L/cmd` is `cmd` for the models whose digit occurs in L and None for the others |
| SdmModes.CmdWithList | conductor/device/siglent_sdm3000.py:1742-1753 | a command `L/cmd` whose list has no '/' is `cmd` exactly for the models listed |
| SdmModes.FilteredParameters | conductor/device/siglent_sdm3000.py:277-278 | auto-zero exists only on the SDM3065X and the DC filter only on the other two models |
| SdmModes.ScpiPath | conductor/device/siglent_sdm3000.py:1755-1768 | a parameter's SCPI path is None for a command filtered out, raises IndexError for an empty command, and is the command prefixed with `:<mode>:` unless there is no mode or it starts with ':' |
| SdmModes.ScpiPathInjective | conductor/device/siglent_sdm3000.py:1755-1768 | within one mode whose commands are relative, the path determines the filtered command |
| SdmSync.EntryOf | conductor/device/siglent_sdm3000.py:247-418 | each mode's table entry carries that mode's SCPI name as its prefix |
| SdmSync.RangeParameters | conductor/device/siglent_sdm3000.py:247-418 | the seven modes with range buttons list RANGE then RANGE:AUTO first, frequency and period list the shared VOLT:RANGE pair first, and continuity, diode and temperature have no mode parameters |
| SdmSync.Convert | conductor/device/siglent_sdm3000.py:815-845 | `refresh` converts a float, bool, decimal or speed reply exactly when `float` reads it, otherwise ValueError; a range reply goes through the model's read-to-write table |
| Values.ParamWrite | conductor/device/siglent_sdm3000.py:2176-2195 | every snapshot value but None is written as `key value`: a bool as 1 or 0, a float with six decimals, an int as decimal text `int()` reads back as the same int, a string upper-cased; None fails the final assert |
| SdmSync.RefreshedValueWritesBack | conductor/device/siglent_sdm3000.py:815-845 | whatever `refresh` stores can be written back unchanged: integers read back as themselves, strings are already upper case, and range tokens have a display label |
| SdmSync.RangeTokenUpper | conductor/device/siglent_sdm3000.py:419-750 | every range token of the read tables is upper case, so writing it does not change it |
| SdmSync.FunctionMode | conductor/device/siglent_sdm3000.py:1948 | a snapshot's mode exists exactly when `:FUNCTION` holds a string `_scpi_to_mode` accepts |
| SdmSync.LimitedFill | conductor/device/siglent_sdm3000.py:1951-1959 | the parameter loop of `_limited_param_state` can only fail with KeyError |
| SdmSync.LimitedFillFails | conductor/device/siglent_sdm3000.py:1951-1959 | the loop fails exactly when a parameter it needs (the value, or the RANGE:AUTO flag of a range) is missing from the snapshot |
| SdmSync.LimitedFillKeys | conductor/device/siglent_sdm3000.py:1951-1959 | a key is in the result exactly when it was there before or belongs to a parameter the model has and RANGE:AUTO does not hide |
| SdmSync.LimitedFillShape | conductor/device/siglent_sdm3000.py:1951-1959 | the loop keeps keys distinct and the earlier keys in front |
| SdmSync.LimitedFillValues | conductor/device/siglent_sdm3000.py:1951-1959 | each kept key carries the snapshot's value and every other key keeps its earlier value |
| SdmSync.LimitedState | conductor/device/siglent_sdm3000.py:1943-1961 | a limited state exists only for a snapshot whose `:FUNCTION` names a mode |
| SdmSync.KeyIsNotFunction | conductor/device/siglent_sdm3000.py:1959 | no parameter path is `:FUNCTION`, so the loop never overwrites it |
| SdmSync.LimitedFillFrom | conductor/device/siglent_sdm3000.py:1945-1961 | started from the `:FUNCTION` entry, the loop fails exactly when a parameter is missing, and otherwise keeps that entry first and adds exactly the kept parameters with their snapshot values |
| SdmSync.LimitedStateSpec | conductor/device/siglent_sdm3000.py:1943-1961 | `_limited_param_state` fails as `_scpi_to_mode` does on a bad `:FUNCTION`; otherwise it starts with the quoted canonical `:FUNCTION` and continues with the current mode's parameter loop |
| SdmSync.Changed | conductor/device/siglent_sdm3000.py:865-867 | the entries written are exactly those of the limited state whose value differs from the previous state's, in order |
| SdmSync.WriteAll | conductor/device/siglent_sdm3000.py:865-867 | writing the entries succeeds exactly when none is None, with one command per entry in order |
| SdmSync.UpdateInstrument | conductor/device/siglent_sdm3000.py:859-868 | `_update_instrument` returns the limited state and writes one command per changed entry |
| SdmSync.SecondPassQuiet | conductor/device/siglent_sdm3000.py:865-867 | comparing a limited state with itself finds nothing to write |
| SdmSync.NothingChanged | conductor/device/siglent_sdm3000.py:865-867 | nothing is written when no entry differs from the previous state |
| SdmSync.FreshWritesEverything | conductor/device/siglent_sdm3000.py:865-867 | against an empty previous state every non-None entry is written |
| SdmSync.UpdateIdempotent | conductor/device/siglent_sdm3000.py:859-868 | writing the same parameter set again, with the returned limited state as the previous state, writes nothing and returns the same state |
| SdmSync.LimitedStateDistinct | conductor/device/siglent_sdm3000.py:1943-1961 | a limited state has distinct keys |
| SdmSync.NoAskedInWrites | conductor/device/siglent_sdm3000.py:2195 | parameter writes send no query |
| SdmSync.PollFromStep | conductor/device/siglent_sdm3000.py:993-1005 | a pass that reaches the end skips disabled sets and, for each visited set, wrote it successfully and got a numeric reply |
| SdmSync.PollCountsReads | conductor/device/siglent_sdm3000.py:993-1004 | a pass that runs to the end sends one `READ?` per visited set and no other query |
| SdmSync.PollKeepsLastState | conductor/device/siglent_sdm3000.py:1000-1002 | after a complete pass the previous state is the limited state of the last visited set |
| SdmSync.PollTouchesVisitedModes | conductor/device/siglent_sdm3000.py:1003-1008 | a pass only changes the cached measurement of the modes of the sets it visits |
| SdmSync.SteadyPollIsQuiet | conductor/device/siglent_sdm3000.py:984-1037 | with only set 1 enabled, once a pass has completed the next one writes nothing and only sends `READ?` |
| SdmSync.ConvertStored | conductor/device/siglent_sdm3000.py:815-846 | every converted reply is a value `refresh` can store: never None, and upper case when it is a string |
| SdmSync.FillStep | conductor/device/siglent_sdm3000.py:806-846 | one step of the refresh loop stores the item's reply and goes on, skips a filtered or already-read item, or stops at a transport error |
| SdmSync.FillShape | conductor/device/siglent_sdm3000.py:806-846 | the refresh loop keeps snapshots free of repeated keys and unstored values, and only adds to them and to the queries sent |
| SdmSync.FillCount | conductor/device/siglent_sdm3000.py:806-846 | the refresh loop sends one query per key it adds, plus the query a transport error interrupted |
| SdmSync.RefreshOver | conductor/device/siglent_sdm3000.py:792-858 | `refresh` produces five parameter-set snapshots |
| SdmSync.RefreshSpec | conductor/device/siglent_sdm3000.py:792-858 | after `refresh` every snapshot has distinct keys and stored values, sets 2 to 4 copy set 1 when the refresh completed and stay empty when a transport error cut it short, and exactly one query was sent per stored key plus the interrupted one |
| SdmSync.StoredStateWrites | conductor/device/siglent_sdm3000.py:2176-2195 | once its limited state exists, a snapshot of stored values can always be written without tripping the assert |
| SdmSync.OverallModeSelects | conductor/device/siglent_sdm3000.py:1529-1541 | choosing an overall mode puts the snapshot in that mode and changes nothing but `:FUNCTION` |
| SdmSync.ClickRange | conductor/device/siglent_sdm3000.py:1544-1582 | a range click needs a snapshot whose mode is known |
| SdmSync.ClickRangeAuto | conductor/device/siglent_sdm3000.py:1585-1606 | an Auto click succeeds exactly when the snapshot's mode is known |
| SdmSync.RangeKeyInjective | conductor/device/siglent_sdm3000.py:1573 | range keys of different prefixes differ |
| SdmSync.ClickKeys | conductor/device/siglent_sdm3000.py:1573-1577 | no range key is a RANGE:AUTO key or `:FUNCTION`, and only frequency and period use the shared input-voltage keys |
| SdmSync.PutSharedOthers | conductor/device/siglent_sdm3000.py:1573-1577 | a click leaves every key but the ones it sets as it was |
| SdmSync.ClickRangeAccepts | conductor/device/siglent_sdm3000.py:1554-1572 | a range click succeeds exactly for a label the driver's display table for the current mode shows; a mode without range buttons stores the label as it is |
| SdmSync.ClickRangeShows | conductor/device/siglent_sdm3000.py:1554-1577 | the stored token displays as the clicked label again, and frequency and period get the same token |
| SdmSync.TwinKeysDiffer | conductor/device/siglent_sdm3000.py:1574-1577 | frequency's and period's range and auto keys are distinct |
| SdmSync.ClickRangeOthers | conductor/device/siglent_sdm3000.py:1573-1577 | a range click changes only the current mode's range (both for frequency and period), so a shared input range stays shared |
| SdmSync.SharedPut | conductor/device/siglent_sdm3000.py:1573-1577 | a click stores the value under the mode's key, and for frequency and period under both |
| SdmSync.AutoHidesRange | conductor/device/siglent_sdm3000.py:1955-1958 | checking Auto hides the current mode's range from what is written to the instrument, and unchecking brings it back |
| SdmSync.KeptRange | conductor/device/siglent_sdm3000.py:1955-1958 | a RANGE parameter is written exactly while its RANGE:AUTO is false |
| SdmSync.ClickRangeAutoSpec | conductor/device/siglent_sdm3000.py:1585-1606 | an Auto click stores 1 or 0 under the current mode's RANGE:AUTO, both for frequency and period, and changes no other key |
| SdmSync.RangeParameterKey | conductor/device/siglent_sdm3000.py:1560-1566 | the range parameter comes first in a mode's entry and the prefix a click uses is the mode's own, with `:VOLT` for frequency and period |
| SdmSync.RangeCommand | conductor/device/siglent_sdm3000.py:1955-1959 | a range command has no model list, ends in RANGE, and its parameter key is the one a range click sets |
| SdmLegacy.ReadToWriteOf | device/siglent_sdm3000.py:1322-1360 | a range reading converts exactly when `float` reads it and the quantity's table has the number, giving the table's token; otherwise ValueError or KeyError |
| SdmLegacy.WriteToDispOf | device/siglent_sdm3000.py:1326-1364 | a token has a label exactly when the quantity's table lists it; otherwise KeyError |
| SdmLegacy.DispToWriteOf | device/siglent_sdm3000.py:1330-1368 | a label converts exactly when the inverted table has it; otherwise KeyError |
| SdmLegacy.QuantityTablesDistinct | device/siglent_sdm3000.py:1242-1320 | no table repeats a reading, a token or a label |
| SdmLegacy.QuantityRoundTrip | device/siglent_sdm3000.py:1326-1368 | display-to-write undoes write-to-display and the other way round, and a label converts exactly when some button shows it |
| SdmLegacy.QuantityTokensAligned | device/siglent_sdm3000.py:1242-1320 | each table's readings convert, in order, to the tokens its display table lists |
| SdmLegacy.QuantityReadTokensDisplayable | device/siglent_sdm3000.py:1322-1364 | a token a reading converts to always has a label, and every label's token is some reading's |
| SdmLegacy.TablesOfSdm3055 | device/siglent_sdm3000.py:1242-1320 | the older tables are the newer driver's SDM3055 tables, with AC and DC voltage merged into one |
| SdmLegacy.EntryOf | device/siglent_sdm3000.py:219-341 | each mode's table entry carries that mode's SCPI name as its prefix |
| SdmLegacy.NoModelLists | device/siglent_sdm3000.py:219-341 | no command of the older table carries a model list |
| SdmLegacy.RangeFirst | device/siglent_sdm3000.py:219-341 | a mode with range buttons lists its RANGE first and RANGE:AUTO right after |
| SdmLegacy.PathOf | device/siglent_sdm3000.py:1158-1168 | a parameter's path fails with IndexError exactly for an empty command |
| SdmLegacy.PathAgrees | device/siglent_sdm3000.py:1158-1168 | for a command without a model list the older path is the newer driver's, for every model |
| SdmLegacy.ModePaths | device/siglent_sdm3000.py:1158-1168 | a mode parameter's path is `:<mode>:<cmd>` |
| SdmLegacy.FillAgrees | device/siglent_sdm3000.py:1405-1412 | on commands without model lists the older limited-state loop is the newer one, for every model |
| SdmLegacy.KeptAgrees | device/siglent_sdm3000.py:1405-1412 | which commands the older loop keeps, and which missing keys make it fail, agree with the newer driver |
| SdmLegacy.FillFrom | device/siglent_sdm3000.py:1398-1414 | started from `:FUNCTION`, the loop fails with KeyError exactly when a command it copies is missing, and otherwise keeps that entry first and adds exactly the kept commands with their snapshot values |
| SdmLegacy.LimitedState | device/siglent_sdm3000.py:1398-1414 | a limited state exists only for a snapshot whose `:FUNCTION` names a mode |
| SdmLegacy.LimitedStateSpec | device/siglent_sdm3000.py:1398-1414 | the limited state is the loop over the mode's commands from the quoted canonical `:FUNCTION`, or the error of reading the mode |
| SdmLegacy.FillWrites | device/siglent_sdm3000.py:1605-1656 | over a snapshot without None, the limited state has distinct keys and every changed entry can be written |
| SdmLegacy.LimitedStateWrites | device/siglent_sdm3000.py:1398-1414 | a limited state has distinct keys, and without None in the snapshot every entry of it can be written |
| SdmLegacy.ConvertReply | device/siglent_sdm3000.py:392-414 | a converted reply is never None; bools and speeds convert exactly when `float` reads the reply; a range token always has a label; failures are ValueError or KeyError |
| SdmLegacy.StoreSound | device/siglent_sdm3000.py:385-414 | storing a fresh key keeps both snapshots sound: distinct keys, no None, one query per stored key |
| SdmLegacy.RefreshFillSound | device/siglent_sdm3000.py:380-414 | the refresh loop keeps its state sound |
| SdmLegacy.RefreshOver | device/siglent_sdm3000.py:376-427 | `refresh` produces five parameter-set snapshots |
| SdmLegacy.RefreshSpec | device/siglent_sdm3000.py:376-427 | after `refresh` sets 2 to 4 copy set 1, every snapshot has distinct keys and no None, and exactly one query was sent per stored key, a path shared by several modes being asked once |
| SdmLegacy.Reading | device/siglent_sdm3000.py:525-526 | a reading of plus or minus 9.9e37 is an overload, kept as None; any other reading is kept as it is |
| SdmLegacy.NoReadings | device/siglent_sdm3000.py:461-516 | every call starts with every mode's measurement unset |
| SdmLegacy.PollFromStep | device/siglent_sdm3000.py:518-537 | a successful pass went through each visited set with a limited state, its writes and a numeric reply |
| SdmLegacy.PollCountsReads | device/siglent_sdm3000.py:518-537 | a successful pass sends one `READ?` per visited set and no other query |
| SdmLegacy.PollKeepsLastState | device/siglent_sdm3000.py:522-525 | a successful pass leaves the limited state of the last visited set as the one to diff against next time |
| SdmLegacy.PollTouchesVisitedModes | device/siglent_sdm3000.py:526-529 | a pass changes the value of no mode but those of the sets it visits |
| SdmLegacy.SteadyPollIsQuiet | device/siglent_sdm3000.py:455-540 | with only set 1 enabled, the call after a successful one writes nothing and only sends `READ?` |
| SdmLegacy.UpdateInstrument | device/siglent_sdm3000.py:428-453 | `update_instrument` starts with `assert False`, so it always fails, and it sends no command before failing |
| SdmLegacy.UpdateInstrumentIgnoresState | device/siglent_sdm3000.py:428-453 | whatever the snapshots hold, `update_instrument` sends the meter nothing and fails |
| SdmLegacy.UpdateParamState | device/siglent_sdm3000.py:1598-1603 | `_update_param_state_and_inst` indexes the list of snapshots with a string key: it raises TypeError on the first update and does nothing with none |
| SdmLegacy.ClickRangeAsWritten | device/siglent_sdm3000.py:1017-1040 | the range click as written needs a snapshot whose mode is known |
| SdmLegacy.ClickRangeAutoAsWritten | device/siglent_sdm3000.py:1042-1054 | the Auto click as written succeeds exactly when the snapshot's mode is known |
| SdmLegacy.RangeKeyIsRead | device/siglent_sdm3000.py:1398-1414 | the range key a mode's limited state reads, and its type, are the ones the buttons must set |
| SdmLegacy.ClickRange | device/siglent_sdm3000.py:1017-1040 | the corrected range click needs a snapshot whose mode is known |
| SdmLegacy.ClickRangeAuto | device/siglent_sdm3000.py:1042-1054 | the corrected Auto click succeeds exactly when the snapshot's mode is known |
| SdmLegacy.ClickRangeSpec | device/siglent_sdm3000.py:1017-1040 | the corrected click succeeds exactly for a label of the mode's table and stores a token that shows that label again, under the mode's range key, changing nothing else |
| SdmLegacy.ClickRangeAutoSpec | device/siglent_sdm3000.py:1042-1054 | the corrected Auto click drops the mode's range from the limited state when checked and brings it back when unchecked, changing nothing else |
| SdmLegacy.AutoKeyed | device/siglent_sdm3000.py:1408-1411 | a RANGE command is kept exactly while its RANGE:AUTO is false |
| SdmLegacy.AsWrittenAgrees | device/siglent_sdm3000.py:1027-1038 | outside 4-W resistance, period and the modes without ranges, the as-written prefix and table are the mode's own |
| SdmLegacy.AsWrittenElsewhere | device/siglent_sdm3000.py:1017-1054 | outside 4-W resistance and period, both clicks as written are the intended ones |
| SdmLegacy.ClickRangeStores | device/siglent_sdm3000.py:1027-1039 | the intended click stores the label's token under the mode's range key |
| SdmLegacy.FresLabelStored | device/siglent_sdm3000.py:1035-1039 | as written, 4-W resistance matches no case (the table says 'FRES', the match 'FRES:AC'), so the label itself is stored under `:FRES:RANGE` |
| SdmLegacy.TwoKiloOhmLabel | device/siglent_sdm3000.py:1346-1356 | the 2 kΩ label is not a range token; its token is `2KOHM` |
| SdmLegacy.RawRangeLabelStored | device/siglent_sdm3000.py:1035-1039 | as written, the 2 kΩ button in 4-W resistance stores the label, which the instrument does not take, where the intended click stores `2KOHM` |
| SdmLegacy.PeriodRangeMisplaced | device/siglent_sdm3000.py:1027-1039 | as written, a click in period stores the label under `:PER:RANGE`, which nothing reads, while the period range is `:PER:VOLT:RANGE`, where the intended click stores the token |
| SdmLegacy.PeriodAutoMisplaced | device/siglent_sdm3000.py:1050-1053 | as written, the Auto box in period is stored under `:PER:RANGE:AUTO` |
| SdmLegacy.PeriodAutoIgnored | device/siglent_sdm3000.py:1050-1053 | so checking Auto in period keeps sending the period range, while the intended click stops sending it |
| SdmLegacy.PeriodAutoKeys | device/siglent_sdm3000.py:1408-1411 | setting `:PER:RANGE:AUTO` leaves the period range kept; setting the period's own RANGE:AUTO drops it |
| SdmLegacy.PeriodSnapshotExists | device/siglent_sdm3000.py:219-341 | a snapshot in period with Auto off exists, so the two lemmas above are not vacuous |
| SpdStatus.HexValue | device/siglent_spd3303.py:232 | `int(s, base=16)` reads a string exactly when it is one or more hexadecimal digits |
| SpdStatus.HexChar | device/siglent_spd3303.py:232 | every digit value below 16 has a character that reads back as it and is not 'x' |
| SpdStatus.Hex | device/siglent_spd3303.py:281-288 | the instrument's rendering of a status word is a non-empty run of hexadecimal digits without 'x' |
| SpdStatus.HexRoundTrip | device/siglent_spd3303.py:232 | reading back a rendered word gives the word |
| SpdStatus.StatusOf | device/siglent_spd3303.py:293 | parsing a status reply can only fail with ValueError |
| SpdStatus.StatusOfHex | device/siglent_spd3303.py:293 | the instrument's `0x<digits>` reply reads as the word it renders |
| SpdStatus.StatusRejects | device/siglent_spd3303.py:232 | a reply that is '0x' alone, or holds a non-digit, is a ValueError |
| SpdStatus.TrackField | device/siglent_spd3303.py:246 | bits 2-3 of the word are a value below 4 |
| SpdStatus.TrackBits | device/siglent_spd3303.py:246-252 | the instrument reports independent, parallel and series as 1, 2 and 3 in bits 2-3, never 0 |
| SpdStatus.TrackCode | device/siglent_spd3303.py:772-778 | the `OUTPUT:TRACK` argument of a mode is 0, 1 or 2 |
| SpdStatus.WordBits | device/siglent_spd3303.py:1385-1395 | decoding reads back each field of an encoded word: both CV/CC bits, the tracking field, both output bits and the rest |
| SpdStatus.BitsWord | device/siglent_spd3303.py:1385-1395 | every word is the encoding of its decoded fields, so decoding loses nothing and the fields are independent |
| SpdStatus.TrackRoundTrip | device/siglent_spd3303.py:246-252 | the mode the instrument reports is the mode `refresh` reads back, whatever the other bits are |
| SpdStatus.TrackKeeps | device/siglent_spd3303.py:246-252 | bits 2-3 at 00 match no case and leave the mode as it was; any other value sets the mode regardless of the old one |
| SpdTimer.Fresh | device/siglent_spd3303.py:237-243 | a table of separate row lists holds exactly the rows given |
| SpdTimer.InitialFresh | device/siglent_spd3303.py:180 | the intended starting table is five separate all-zero rows |
| SpdTimer.Assign | device/siglent_spd3303.py:1027 | assigning a new list to row k replaces row k only and keeps the rows separate |
| SpdTimer.SetCell | device/siglent_spd3303.py:1048-1057 | a cell edit changes that column in every row that shares row k's list, and nothing else |
| SpdTimer.EditIndependent | device/siglent_spd3303.py:1048-1057 | when no rows share a list, a cell edit changes its own row only |
| SpdTimer.EditInitial | device/siglent_spd3303.py:180 | in the starting table, built with `[[0., 0., 0.]]*5`, one cell edit changes that column in all five rows |
| SpdTimer.EditInitialFresh | device/siglent_spd3303.py:180 | in a starting table of separate zero rows, a cell edit changes one row |
| SpdTimer.Clamp | device/siglent_spd3303.py:1024-1025 | `max(lo, min(hi, x))` lies within the limits when they are ordered, keeps x when it lies within them, and returns lo when the limits are crossed |
| SpdTimer.ClampRowSpec | device/siglent_spd3303.py:1023-1026 | a row within the limits is left alone, a clamped row is within the limits, the duration is kept and clamping twice is clamping once |
| SpdTimer.ClampFrom | device/siglent_spd3303.py:1022-1029 | rows before k stay, each later row is clamped, and exactly the later rows that moved are re-sent, in increasing order |
| SpdTimer.ClampTableSpec | device/siglent_spd3303.py:1016-1029 | every row ends up clamped with its duration kept, exactly the moved rows get a `TIMER:SET`, in order, and clamping again sends nothing |
| SpdTimer.FirstPositiveFrom | device/siglent_spd3303.py:1104-1108 | the result is the first row from k on with a positive duration, or 0 when there is none |
| SpdTimer.StartStepSpec | device/siglent_spd3303.py:1101-1108 | a started timer begins at the first row with a positive duration, or at row 0 when there is none |
| SpdTimer.EnabledStartsOnDuration | device/siglent_spd3303.py:1101-1108 | with some duration set and none negative, the timer starts on a row that has a duration |
| SpdTimer.Pass | device/siglent_spd3303.py:1348-1361 | the step loop keeps the position (time before the step plus time into it) unchanged; it stops inside a step it has not used up, or on the last row once the total duration is passed |
| SpdTimer.TickSpec | device/siglent_spd3303.py:1330-1368 | a stopped timer is untouched; a running one advances its position by the time the output was on, shows the new step's setpoints when the step moves, and stops on the last row once past the total |
| SpdTimer.TickOffHolds | device/siglent_spd3303.py:1343-1346 | with the output off and the step not used up, a heartbeat changes nothing |
| Spd3303.TrackCodeRoundTrip | device/siglent_spd3303.py:772-778 | a mode's `OUTPUT:TRACK` code reads back as that mode, and a code that names a mode is that mode's code |
| Spd3303.ExecAllConcat | device/siglent_spd3303.py:257-278 | carrying out two command lists in turn is carrying out their concatenation |
| Spd3303.StatusWordReads | device/siglent_spd3303.py:1385-1395 | the status word the instrument reports reads back its tracking mode, both outputs and both CV/CC states |
| Spd3303.SlaveSpec | device/siglent_spd3303.py:1200-1208 | in series or parallel mode channel 2 ends mirroring channel 1; in independent mode nothing changes; channel 1, the tables and the outputs are never touched; slaving twice is slaving once |
| Spd3303.Number | device/siglent_spd3303.py:234-235 | `float(reply)` succeeds exactly when the query succeeds and parses, and a reply that does not parse is a ValueError |
| Spd3303.TimerRow | device/siglent_spd3303.py:239-242 | a `TIMER:SET?` reply gives a row only with at least three comma fields, those fields parsed; otherwise a ValueError or an IndexError |
| Spd3303.RowsFrom | device/siglent_spd3303.py:237-243 | the rows read from step k on are the parsed replies to the step queries, one per step |
| Spd3303.ReadChannel | device/siglent_spd3303.py:233-243 | a channel read sets its setpoints to the parsed replies, its output to the status bit and its table to five separate lists of the rows read, and nothing else |
| Spd3303.RefreshSpec | device/siglent_spd3303.py:230-254 | after `refresh` CH3 is off, the outputs are the status bits, the mode is read from bits 2-3 (kept when they are 00), timer estimates and CV/CC are kept, and outside independent mode channel 2 mirrors channel 1 |
| Spd3303.RefreshTables | device/siglent_spd3303.py:236-242 | after `refresh` each channel's timer table is five separate lists, each holding the row the instrument reported for that step |
| Spd3303.RefreshSetpoints | device/siglent_spd3303.py:232-234 | after `refresh` channel 1's voltage and current are the numbers read, and so are channel 2's in independent mode |
| Spd3303.RefreshBadStatus | device/siglent_spd3303.py:232 | a status reply that is not hexadecimal fails `refresh` with a ValueError |
| Spd3303.RefreshReadsInstrument | device/siglent_spd3303.py:232-252 | when the reply is the instrument's own status word, `refresh` reads back the instrument's mode and outputs |
| Spd3303.ExecRowCmds | device/siglent_spd3303.py:266-269 | writing the listed timer rows leaves the instrument holding them, every other row as it was, and nothing else changed |
| Spd3303.ChannelCmdsEffect | device/siglent_spd3303.py:260-269 | a channel's writes leave the instrument with the channel's setpoints and five rows |
| Spd3303.OutputCmdsEffect | device/siglent_spd3303.py:270-272 | the `OUTPUT` writes leave the instrument's three outputs as the panel holds them |
| Spd3303.UpdateRestores | device/siglent_spd3303.py:257-278 | the corrected update leaves any instrument holding the panel's mode, setpoints, rows and outputs |
| Spd3303.UpdateThenStatus | device/siglent_spd3303.py:257-278 | after the corrected update the status word reads back the panel's mode and outputs |
| Spd3303.UpdateAsWrittenSpec | device/siglent_spd3303.py:257-278 | as written, each channel's current setpoint ends equal to its voltage setpoint, and the instrument keeps its own tracking mode; the rest is restored |
| Spd3303.UpdateAsWrittenLoses | device/siglent_spd3303.py:264 | a panel at 5 V / 1 A in independent mode, written to a series-mode instrument, leaves it at 5 A in series mode; the corrected update gives 1 A, independent |
| Spd3303.ChannelMeasSpec | device/siglent_spd3303.py:319-355 | each of a channel's measurements is present exactly when the instrument is read, the quantity is enabled and the output is on, and is then the reply |
| Spd3303.MeasureSpec | device/siglent_spd3303.py:290-362 | the six measurements come in channel order voltage, current, power, each present under those three conditions with the output as just read |
| Spd3303.TriggerSpec | device/siglent_spd3303.py:292-318 | the triggers report each output, CV as the negation of CC, each CC and each timer; a read changes only CV/CC and outputs, to the status bits |
| Spd3303.MeasureOffline | device/siglent_spd3303.py:290-362 | without an instrument read nothing is asked, the reading always succeeds and every measurement is empty |
| Spd3303.ClickTimerSpec | device/siglent_spd3303.py:1093-1112 | the TIMER button fails with an assert exactly outside independent mode; it flips the timer, shows the output as the timer's state, writes `TIMER CH<n>`, and a start begins at the first row with a duration, with row 0's setpoints |
| Spd3303.EnabledTimerStarts | device/siglent_spd3303.py:1160-1161 | a button enabled by some non-zero duration, with no negative durations, starts on a row that has a duration |
| Spd3303.EditTimerInSync | device/siglent_spd3303.py:1048-1060 | with separate row lists an edit changes the one cell and an instrument that held the panel's rows still does |
| Spd3303.Start | device/siglent_spd3303.py:178-183 | the intended starting panel has five separate zero rows per channel |
| Spd3303.StartAsWritten | device/siglent_spd3303.py:178-183 | as written each channel's table is one row list five times over |
| Spd3303.EditFreshPanel | device/siglent_spd3303.py:180 | as written, setting step 3's duration to 5 s on the constructor's shared-row table shows every step at 5 s while the instrument holds 5 s at step 3 only; with separate rows panel and instrument agree |
| Spd3303.ConstructedPanelEditsOneRow | device/siglent_spd3303.py:230-245 | the constructor's `refresh` stores a new list for every step, so after it, whatever rows the panel started with, a timer edit changes exactly one row |
| Spd3303.TickChannelSpec | device/siglent_spd3303.py:1340-1364 | a channel's heartbeat leaves a stopped timer alone and never starts one; a running one advances by the time its output was on; a step change shows the new step's setpoints; only estimate and setpoints change |
| Spd3303.HeartbeatSpec | device/siglent_spd3303.py:1330-1368 | a heartbeat ticks both channels by the time since the last heartbeat and records the time; outside independent mode channel 2 then mirrors channel 1 |
| Spd3303.FirstHeartbeat | device/siglent_spd3303.py:1333-1334 | the first heartbeat counts no time, so a timer whose step has time left does not move |
| Spd3303.ChangeSetpointSpec | device/siglent_spd3303.py:996-1012 | only a changed channel 2 setpoint outside independent mode fails (the assert), and then after the line has been written and the value stored, with channel 1 untouched; otherwise the channel takes the value and outside independent mode channel 2 mirrors channel 1; a line is written exactly when the value changed, and an instrument that agreed still agrees |
| Spd3303.SpinValue | device/siglent_spd3303.py:972-990 | after a bound moves, the setpoint box's value lies within the new range, or is the new bound when the range closes |
| Spd3303.ClampChannelSpec | device/siglent_spd3303.py:1016-1029 | after re-clamping, every row lies within the channel's ordered limits with its duration kept, clamping again writes nothing, and an instrument that held the rows still does |
| Spd3303.ClampInLimits | device/siglent_spd3303.py:1023-1025 | every row of a clamped table lies within ordered limits |
| Spd3303.ClampSync | device/siglent_spd3303.py:1026-1029 | writing only the moved rows brings an instrument that held the old rows to the clamped ones |
| Spd3303.SetpointIndependent | device/siglent_spd3303.py:996-1012 | in independent mode a setpoint change always succeeds and changes only that setpoint |
| Spd3303.ChangeLimitSpec | device/siglent_spd3303.py:970-990 | in independent mode a Min/Max change succeeds, sets the limit, clamps the rows and, when the range is ordered, leaves the setpoint inside it |
| Spd3303.ClickOutputSpec | device/siglent_spd3303.py:1069-1079 | an OUTPUT click flips the output and tells the instrument, which then agrees; outside independent mode only channel 1's button works and both channels follow; two clicks restore the output |
| Spd3303.AllOutputsSpec | device/siglent_spd3303.py:1081-1091 | channel 1, and channel 2 in independent mode, end in the requested state on panel and instrument |
| Spd3303.SetTrackSpec | device/siglent_spd3303.py:846-883 | after a mode menu choice panel and instrument agree on the mode and on both outputs off, the status word reads the mode back, no timer runs, and outside independent mode channel 2 mirrors channel 1 |
| Spd3303.LoadTrack | device/siglent_spd3303.py:799-813 | a loaded value fails only with an assert, matching by Python equality, so `True` loads as series, `2.0` as parallel and the string "0" fails |
| Spd3303.LoadTrackSpec | device/siglent_spd3303.py:772-813 | a value loads as a mode exactly when it equals that mode's code, so a saved mode loads back |
| Spd3303.LoadModeSpec | device/siglent_spd3303.py:795-820 | loading stops both panel timers even when it then fails; a missing `OUTPUT:TRACK` is a KeyError and an unknown mode fails the assert, both before any write; otherwise the named mode is set on panel and instrument, and output 1 (and in independent mode output 2 and both instrument timers) are off on both |
| Spd3303.SaveLoadMode | device/siglent_spd3303.py:772-813 | a saved mode loads back, on the panel and on the instrument |
| SdlRegistry.ConstName | device/siglent_sdl1000.py:2344-2346 | every constant mode's upper-case name is at least five letters long |
| SdlRegistry.ConstNameInjective | device/siglent_sdl1000.py:2344-2346 | two constant modes have the same upper-case name exactly when they are the same mode |
| SdlRegistry.Prefix | device/siglent_sdl1000.py:2325-2339 | a command gets no prefix exactly when it starts with ':' or the mode has no name, and `:<mode_name>:` otherwise |
| SdlRegistry.Paths | device/siglent_sdl1000.py:2325-2340 | a flag path comes back exactly for a value/flag pair |
| SdlRegistry.PathsSpec | device/siglent_sdl1000.py:2325-2340 | the value path is the command itself or the command prefixed by `:<mode_name>:`, and a pair's flag gets the same prefix as its value |
| SdlRegistry.ParamsOk | device/siglent_sdl1000.py:353-740 | every parameter list of the mode table names non-empty commands and well-formed formats |
| SdlRegistry.RegistryWellFormed | device/siglent_sdl1000.py:353-740 | the mode table has its thirty entries, General plus twenty-nine modes, each well formed |
| SdlModes.StrOf | device/siglent_sdl1000.py:2410 | `.title()` succeeds exactly on a string and raises AttributeError on anything else |
| SdlModes.ConstOfTitle | device/siglent_sdl1000.py:2410-2412 | a title that names a constant mode is the title-cased upper-case name of that mode |
| SdlModes.DynOfTitle | device/siglent_sdl1000.py:2417-2420 | a title that names a Dynamic sub-mode is the title-cased name of that sub-mode |
| SdlModes.TitleConst | device/siglent_sdl1000.py:2410-2412 | `str.title()` of VOLTAGE, CURRENT, POWER and RESISTANCE gives the GUI's names |
| SdlModes.TitleDyn | device/siglent_sdl1000.py:2417-2420 | `str.title()` of CONTINUOUS, PULSE and TOGGLE gives the GUI's names |
| SdlModes.OverallOf | device/siglent_sdl1000.py:2376-2396 | a decoded overall mode is always one of the GUI's modes (the final assert), never the General table entry |
| SdlModes.OverallOfUntitled | device/siglent_sdl1000.py:2378-2394 | a `:FUNCTION:MODE` of LED, OCPT or OPPT with the load on internal control selects that mode, untitled |
| SdlModes.ConstAt | device/siglent_sdl1000.py:2405-2435 | a constant mode read from a field is one the mode allows, or the read fails |
| SdlModes.ExtConst | device/siglent_sdl1000.py:2426-2431 | Ext's constant mode is voltage or current, or the read fails |
| SdlModes.Decode | device/siglent_sdl1000.py:2374-2446 | a decoded mode is a valid one: a constant mode exactly where the mode has one, and a sub-mode exactly in Dynamic |
| SdlModes.PutInMode | device/siglent_sdl1000.py:2342-2372 | switching fails, with an assert, exactly for General and for Ext without voltage or current |
| SdlModes.ConstOfNameInverse | device/siglent_sdl1000.py:2344-2346 | reading back a constant mode's upper-case name gives the mode |
| SdlModes.ModeOfSwitchInverse | device/siglent_sdl1000.py:2342-2372 | every valid mode can be switched to, and its commands select that overall mode and, outside List, that constant mode |
| SdlModes.PutInModeInjective | device/siglent_sdl1000.py:2342-2372 | two valid modes with the same switch commands have the same overall mode, and outside List the same constant mode |
| SdlModes.DecodeReported | device/siglent_sdl1000.py:2374-2446 | decoding a snapshot holding what a load in mode m reports gives back m, with the time test state, whatever else it holds |
| SdlModes.OverallReported | device/siglent_sdl1000.py:2376-2396 | such a snapshot's overall mode is m's |
| SdlModes.OverallOfBasic | device/siglent_sdl1000.py:2381-2383 | BASIC decodes as LED when `:FUNCTION` is LED and as Basic otherwise |
| SdlModes.OverallOfNamed | device/siglent_sdl1000.py:2384-2393 | TRAN, OCP, OPP, BATTERY, LIST and PROGRAM decode as Dynamic, OCPT, OPPT, Battery, List and Program |
| SdlModes.TitledMode | device/siglent_sdl1000.py:2392-2393 | a mode name outside BASIC, TRAN, OCP and OPP decodes by its title |
| SdlModes.ConstAtName | device/siglent_sdl1000.py:2405-2435 | a field holding an allowed mode's upper-case name reads as that mode |
| SdlModes.DecodeKeyed | device/siglent_sdl1000.py:2405-2435 | Basic, Battery and List take their constant mode from `:FUNCTION`, `:BATTERY:MODE` and `:LIST:MODE` |
| SdlModes.DecodeDynamic | device/siglent_sdl1000.py:2414-2420 | Dynamic takes its constant mode from `:FUNCTION:TRANSIENT` and its sub-mode from `:<mode_name>:TRANSIENT:MODE` |
| SdlModes.DecodeExt | device/siglent_sdl1000.py:2426-2431 | Ext takes its constant mode from `:EXT:MODE` |
| SdlModes.DecodeBare | device/siglent_sdl1000.py:2400-2402 | LED, OCPT, OPPT and Program decode with no constant mode and no sub-mode |
| SdlModes.ConstReported | device/siglent_sdl1000.py:2398-2446 | a reported snapshot decodes to m's constant mode and sub-mode too |
| SdlParams.ItemOf | device/siglent_sdl1000.py:2325-2340 | a parameter has a flag command exactly when its spec is a value/flag pair |
| SdlParams.Convert | device/siglent_sdl1000.py:818-829 | a reply is stored as `float(x)`, as `int(float(x))` truncated toward zero, or upper-cased with its length kept; a reply that does not parse is a ValueError and a failed query passes its error on |
| SdlParams.FlagOf | device/siglent_sdl1000.py:833 | a flag reads as 0 exactly when its number lies strictly between -1 and 1 |
| SdlParams.Zero | device/siglent_sdl1000.py:834-838 | the zero a flagged-off value takes is Python-equal to 0, and is `0.` exactly for floats |
| SdlParams.ParamWriteAsWritten | device/siglent_sdl1000.py:2965-2981 | the load driver writes every value but None as `key value`, a bool always as `1`, and any other value as the multimeter driver does; None fails the final assert |
| SdlParams.WriteReadBack | device/siglent_sdl1000.py:2965-2981 | a stored value written to the load and queried back is stored again unchanged |
| SdlParams.BoolReadBack | device/siglent_sdl1000.py:2968-2969 | with the bool case corrected, a bool reads back as the int Python equates with it |
| SdlParams.FalseWrittenAsOne | device/siglent_sdl1000.py:2968-2969 | as written, `False` is sent as `1` and reads back as 1, which Python does not equate with `False`; for every other value the two formats agree |
| SdlParams.UpdateParamsSpec | device/siglent_sdl1000.py:2958-2963 | an update succeeds exactly when applicable; each updated key then holds a value equal to its new one, other keys are untouched, and one write goes out per differing key, in order, formatted as the load driver formats it (a bool always as `1`) |
| SdlParams.UpdateParamsIdempotent | device/siglent_sdl1000.py:2958-2963 | repeating an update that went through sends nothing and changes nothing |
| SdlParams.UpdateNoop | device/siglent_sdl1000.py:2960-2961 | an update whose every value already equals the snapshot's sends nothing and changes nothing |
| SdlRefresh.PathsOf | device/siglent_sdl1000.py:810-812 | the set of command paths holds every value path and every flag path of the parameter list |
| SdlRefresh.RefreshOneShape | device/siglent_sdl1000.py:818-839 | a parameter whose value path is new appends its converted value, then its flag, to the snapshot, asks both queries in that order, and writes `<path> 0` exactly when the flag reads 0 and the value is not already 0 |
| SdlRefresh.KnownSettled | device/siglent_sdl1000.py:813-817 | a value path already in the snapshot was stored with the same flag, so skipping it loses nothing |
| SdlRefresh.RefreshOneInv | device/siglent_sdl1000.py:811-839 | each parameter keeps the refresh invariant: distinct keys, one query per stored path in order, stored values only, every parameter so far settled |
| SdlRefresh.RefreshItemsInv | device/siglent_sdl1000.py:810-839 | the invariant holds after the whole parameter list |
| SdlRefresh.RefreshSpec | device/siglent_sdl1000.py:807-850 | after `refresh` every path was queried exactly once in storing order, every value and flag is present with a zero flag going with a zero value, the trigger source is not MANUAL, the list table holds `:LIST:STEP` steps and the mode is the one the snapshot decodes to |
| SdlRefresh.ManualSettled | device/siglent_sdl1000.py:843-846 | switching the trigger source from MANUAL to BUS keeps every parameter settled |
| SdlRefresh.ManualOther | device/siglent_sdl1000.py:843-846 | the switch leaves the step count alone and the source is no longer MANUAL |
| SdlList.StepCount | device/siglent_sdl1000.py:2459 | `range` accepts the step count exactly when `:LIST:STEP` is present and an int or bool; a missing key is a KeyError and any other value a TypeError |
| SdlList.AskNumber | device/siglent_sdl1000.py:2461-2463 | a cell reads as the reply's number, fails with the query's own error, or is a ValueError when the reply does not parse |
| SdlList.ReadFromShape | device/siglent_sdl1000.py:2460-2463 | reading keeps the rows already held and adds one row per missing step, three queries per added row |
| SdlList.ReadRowsSpec | device/siglent_sdl1000.py:2448-2463 | a full read holds exactly `:LIST:STEP` rows (none when not positive), each the instrument's answers for its step; a read of new rows only keeps every row already held |
| SdlList.WriteFrom | device/siglent_sdl1000.py:884-888 | writing the list steps can only fail with an IndexError |
| SdlList.WriteRows | device/siglent_sdl1000.py:884-888 | writing the first `steps` steps succeeds exactly when the table holds that many |
| SdlList.WriteReadRoundTrip | device/siglent_sdl1000.py:884-888 | writing the first `:LIST:STEP` rows as `update_instrument` does and reading them back as `refresh` does gives those rows |
| SdlList.Ranges | device/siglent_sdl1000.py:2836-2855 | constant current clips three columns (slew included) and the other modes two |
| SdlList.ClampSpec | device/siglent_sdl1000.py:2818-2862 | clipping puts every cell in its column's range, keeps each level and width already in range, touches slews only in constant current and leaves every width positive |
| SdlList.ClampFixedPoint | device/siglent_sdl1000.py:2818-2862 | the clipped table equals the table exactly when the table is already in range |
| SdlList.ClampIdempotent | device/siglent_sdl1000.py:2818-2862 | clipping twice is clipping once |
| SdlList.Trigger | device/siglent_sdl1000.py:2253-2270 | a disabled button does nothing; an enabled one sends `*TRG`, and in List mode starts a stopped sequence (from step 0 the first time) now, or asks a running one to stop after its step |
| SdlList.TriggerAgain | device/siglent_sdl1000.py:2263-2270 | triggering a running sequence again changes nothing more, and a trigger keeps the estimate consistent with the load |
| SdlList.LoadSwitched | device/siglent_sdl1000.py:2468-2487 | an unchanged load changes nothing; turning it off stops the sequence with no step; turning it on in List mode resets the step to none |
| SdlList.LoadSwitchedConsistent | device/siglent_sdl1000.py:2468-2487 | switching the load keeps the estimate consistent: a running sequence has a step and a load that is on |
| SdlList.Shortest | device/siglent_sdl1000.py:2933-2936 | the shortest width is one of the widths and no larger than any |
| SdlList.Advance | device/siglent_sdl1000.py:2933-2936 | the step loop ends on a step below the step count with less time left than its width, never more than it started with |
| SdlList.Heartbeat | device/siglent_sdl1000.py:2924-2937 | the heartbeat fails, with a TypeError, exactly for a running sequence with no step |
| SdlList.HeartbeatSpec | device/siglent_sdl1000.py:2924-2937 | after a heartbeat a running sequence is on a step it has not outlived; a moved estimate is stopped exactly when it was stopping and began its step no later than now |
| SdlList.HeartbeatIntended | device/siglent_sdl1000.py:2924-2937 | the intended heartbeat fails exactly where the written one does |
| SdlList.HeartbeatIntendedSpec | device/siglent_sdl1000.py:2929-2932 | the intended heartbeat stops a stopping sequence one step on, and otherwise agrees with the written one |
| SdlList.HeartbeatOvershoots | device/siglent_sdl1000.py:2929-2936 | a sequence told to stop on step 0 and seen 2.5 widths later is left on step 2 as written, one step past where the load stops |
| SdlList.SaveRows | device/siglent_sdl1000.py:1727-1733 | saving succeeds exactly when the step count is readable and the table holds that many rows; otherwise, with a readable count, an IndexError |
| SdlList.NumberOf | device/siglent_sdl1000.py:1750-1758 | a saved cell loads exactly when it is a number, and loads as a float equal to it |
| SdlList.LoadFrom | device/siglent_sdl1000.py:1748-1758 | the cells taken out form aligned columns |
| SdlList.LoadRows | device/siglent_sdl1000.py:1744-1758 | a loaded table has aligned columns |
| SdlList.SaveLoadRoundTrip | device/siglent_sdl1000.py:1719-1758 | a configuration saved from parameters without cell entries loads back as those parameters and the first `:LIST:STEP` rows |
| SdlUpdate.UpdateItemsSafe | device/siglent_sdl1000.py:862-876 | within one mode entry, once the first written parameter has switched the load, every write of the entry is made in that entry's mode |
| SdlUpdate.UpdateEntriesSafe | device/siglent_sdl1000.py:860-888 | across the whole registry no write of a named mode happens while the load is in another mode |
| SdlUpdate.UpdateEntriesFaithful | device/siglent_sdl1000.py:875-877 | every write sends the snapshot's value of its key, formatted as the load driver formats it (a bool always as `1`), and a pair's flag with it |
| SdlUpdate.UpdateItemsKeys | device/siglent_sdl1000.py:866-869 | within an entry each written value path is new and written once, and the seen paths grow by exactly the entry's written paths |
| SdlUpdate.UpdateSpec | device/siglent_sdl1000.py:854-889 | a successful update writes each written registry path exactly once with the snapshot's value as the load driver formats it, never configures a mode the load is not in, and ends by switching into the mode the snapshot decodes to |
| SdlUpdate.UpdateSucceeds | device/siglent_sdl1000.py:854-889 | the update goes through when every written parameter is in the snapshot, every named mode can be switched into, the table holds `:LIST:STEP` rows and the snapshot decodes |
| SdlUpdate.RegistrySwitches | device/siglent_sdl1000.py:871-874 | every named mode of the registry can be switched into |
| SdlUpdate.RefreshThenUpdate | device/siglent_sdl1000.py:807-889 | sending back what a refresh read goes through |
| SdlEdit.MaxPower | device/siglent_sdl1000.py:173 | a load's power rating is 200 W or 300 W |
| SdlEdit.FloatOf | device/siglent_sdl1000.py:2661-2667 | `float()` of a number is that number, of an integer string its integer, and fails exactly on `None` or another string |
| SdlEdit.Narrow | device/siglent_sdl1000.py:2670-2675 | the range is known exactly when the mode's `IRANGE` is in the snapshot, and is the 5 A one exactly when it reads "5" |
| SdlEdit.ResolveMin | device/siglent_sdl1000.py:2644-2655 | a lower bound fails only for a box bound to another box once bounds apply, with a KeyError |
| SdlEdit.RangeLiterals | device/siglent_sdl1000.py:2658-2667 | the range strings "5", "30" and "150" read as 5, 30 and 150 |
| SdlEdit.MinBoundsSpec | device/siglent_sdl1000.py:2644-2655 | the current, voltage and power boxes start at 0, a slew box at 0.001, and a box bound to another takes that box's value once bounds apply and 0 before |
| SdlEdit.MaxPowerSpec | device/siglent_sdl1000.py:173 | the power ceiling is 300 W for the SDL1030X and SDL1030X-E and 200 W otherwise; before bounds apply a box bound to another gets 1e9 |
| SdlEdit.MaxRangeSpec | device/siglent_sdl1000.py:2656-2684 | the current ceiling is the selected current range and the slew ceiling 0.5 in the 5 A range and 2.5 in the 30 A range; a missing range is a KeyError; the voltage ceiling is the selected voltage range |
| SdlEdit.SlewCeiling | device/siglent_sdl1000.py:2670-2675 | the slew ceiling depends on the range string alone |
| SdlEdit.CeilingOf | device/siglent_sdl1000.py:2661-2667 | a range stored as a string that parses as n gives a ceiling of n |
| SdlEdit.CoupleSlewSpec | device/siglent_sdl1000.py:2041-2068 | the partner slew ends in the band the edited value selects, keeps its value exactly when it was already there, is otherwise moved to the band's edge nearest the other band, and coupling again moves nothing |
| SdlEdit.SlewWithinBounds | device/siglent_sdl1000.py:2055-2065 | the coupled partner always lies within the slew box's window for the same range |
| SdlEdit.BoxValue | device/siglent_sdl1000.py:2026-2029 | a box's value is a number, zero exactly when the float is zero or, truncated to an int, when it lies strictly between -1 and 1 |
| SdlEdit.EditPathsAgree | device/siglent_sdl1000.py:2013-2024 | the paths an edit forms for a value and its flag are the ones the registry uses |
| SdlEdit.EditUpdates | device/siglent_sdl1000.py:2030-2068 | the partial update an edit forms has distinct keys |
| SdlEdit.PairUpdates | device/siglent_sdl1000.py:2030-2035 | a paired, non-slew edit updates the value and, when the flag is in the snapshot, the flag as 1 for a non-zero value and 0 for zero, and nothing else |
| SdlEdit.EditKeepsPairs | device/siglent_sdl1000.py:2002-2074 | after editing a paired value, the value is stored and its flag is off exactly when the value is 0; a flag not in the snapshot stays absent; every other key is untouched |
| SdlEdit.SlewUpdates | device/siglent_sdl1000.py:2036-2068 | a slew edit needs the current range; it updates the value, then the partner only when the partner must move |
| SdlEdit.EditCouplesSlew | device/siglent_sdl1000.py:2036-2069 | a slew edit stores the value; a partner already in the selected band is left alone, otherwise it is moved into the band in the snapshot and on the load; nothing else changes |
| SdlEdit.EditSlewStores | device/siglent_sdl1000.py:2069 | applying a value-then-partner update stores both and leaves every other key alone |
| SdlEdit.EditStepsReads | device/siglent_sdl1000.py:2070-2073 | raising `:LIST:STEP` reads exactly the steps the table lacks and keeps the rows it has |
| SdlConfig.LoadRowsKeeps | device/siglent_sdl1000.py:1744-1758 | taking the table out of a loaded file keeps keys distinct and every key outside the List parameters |
| SdlConfig.UpdateOne | device/siglent_sdl1000.py:2958-2963 | a one-key update is a KeyError for a missing key, does nothing for an equal value, and otherwise stores the value and writes it as the load driver formats it |
| SdlConfig.LoadOffSpec | device/siglent_sdl1000.py:2465-2542 | switching the load off needs `:INPUT:STATE`; it ends Python-equal to 0, nothing else changes, `:INPUT:STATE 0` is written exactly when the load was on, and only then the List estimate stops |
| SdlConfig.ShortOffSpec | device/siglent_sdl1000.py:2547-2551 | switching the short off needs `:SHORT:STATE`; it ends Python-equal to 0, nothing else changes, and it is written exactly when the short was on |
| SdlConfig.SwitchOffSpec | device/siglent_sdl1000.py:1764-1768 | switching off sets the remote flag, turns load and short off with one write each if they were on, stops the List estimate if the load was on, sets the written stray keys, and keeps every other key |
| SdlConfig.RetriggerSpec | device/siglent_sdl1000.py:1769-1771 | re-triggering needs the trigger source and replaces it exactly when it equals the Manual name, changing nothing else |
| SdlConfig.PrepareSpec | device/siglent_sdl1000.py:1747-1771 | a load takes the file's table, switches off and re-triggers on the file's settings, and keeps the file's value for every key it does not touch |
| SdlConfig.LoadConfigSteps | device/siglent_sdl1000.py:1737-1772 | every load, in either spelling, does the above and then sends the snapshot safely, ending in the mode it decodes to |
| SdlConfig.Spellings | device/siglent_sdl1000.py:1769-1771 | the snapshot's upper-case MANUAL is not equal to the written "Manual"; BUS is not MANUAL |
| SdlConfig.LoadConfigSpec | device/siglent_sdl1000.py:1737-1772 | the intended load leaves the trigger source anything but MANUAL, sets the registry's remote flag, and adds no key outside the table the file lacked |
| SdlConfig.LoadConfigMissing | device/siglent_sdl1000.py:1764-1771 | a file without the input state, the short state or the trigger source fails with a KeyError |
| SdlConfig.SaveThenLoad | device/siglent_sdl1000.py:1719-1772 | saving and loading back as intended gives the table cut to the step count, load and short off, and every other saved setting outside the List parameters |
| SdlConfig.ManualKeptAsWritten | device/siglent_sdl1000.py:1769-1771 | as written, a file with MANUAL as trigger source loads with MANUAL still set |
| SdlConfig.RetriggerWitness | device/siglent_sdl1000.py:1769-1771 | on a snapshot holding only MANUAL, re-triggering as written keeps MANUAL and as intended gives BUS |
| SdlConfig.StrayKeysAsWritten | device/siglent_sdl1000.py:1764-1768 | as written, a load adds three keys the registry does not know and leaves the registry's remote flag as the file had it |

## Left out

- Qt widgets, layouts, styles, dialogs and plot windows. Widget state that an operation reads, such as a spin box's value or a check box, is a parameter. Widget state it writes is modelled only where it feeds back into the parameter state.
- Float formatting (`%.3f` and friends) and display text. Written floats keep the real value and its printf precision. How those print is not modelled.
- Floating point. Readings, set points and times are `real`. NaN appears only as the `None`/missing marker in recorded series.
- Instrument replies, stream outcomes and the clock. They are parameters (`ask`, `Io`, `now`). asyncio tasks, locks and concurrency are not modelled; each operation runs to completion.
- Measurement reads (`update_measurements` of each driver). Only the parts the recorder and the SDL/SPD heartbeats consume are modelled.
- The SDL1000 battery test log and report. They are display-only.
- JSON file I/O and dict key order on disk. A saved configuration is the dict the driver would dump.
- Transport write errors after the line has gone to the stream, logger output and debug traces.
- `disable_callbacks`: the model never fires a widget callback from a programmatic update, so the guard has nothing to do.
- The SPD3303 `_update_widgets` is modelled only for its write-back into the parameter state, the track-mode slaving (`Spd3303.Slave`).
- The SDL1000 `_update_widgets` (device/siglent_sdl1000.py:2582-2743) is not modelled. After setting each spin box's bounds it writes a value the spin box clamped back into the parameter state and to the load. `refresh`, `update_instrument`, the value-change handler and `load_config` all end with it, and their models stop just before it.
- SdlRefresh.RefreshSpec: states the parameter state before the final `_update_widgets`, so a value outside its widget's current bounds is not shown clamped.
- SdlUpdate.UpdateSpec: states the writes before the final `_update_widgets`, so the clamp write-backs it may add are not listed.
- SdlEdit.EditValue: stops before the final `_update_widgets` and its clamp write-back.
- SdlConfig.LoadConfig: stops before the final `_update_widgets` and its clamp write-back.
- SdlConfig.LoadOff: switching the load off in Battery mode also writes `:BATTERY:ADDCAP` with the capacity measured at that moment (device/siglent_sdl1000.py:2489-2501). That write is not modelled.
- Strings are ASCII. `Values.Upper`, `Values.Title` and `Values.PyInt` act on ASCII letters and digits only. Python's `str.upper()`, `str.title()` and `int()` also act on other Unicode letters and digits; `'ß'.upper()` is `'SS'`, for example.
- SdlParams.Convert: its clause that upper-casing keeps the reply's length holds for ASCII replies only. Python's `upper()` can lengthen a non-ASCII string.
- SpdStatus.HexValue: reads bare hexadecimal digits only. Python's `int(s, 16)` also accepts surrounding whitespace, a sign, a `0X` prefix and underscores between digits.
- SpdStatus.StatusOf: drops every lower-case `0x` as the driver does, then fails on a reply in one of those other spellings, which the driver reads.
- Spd3303.RefreshBadStatus: counts a reply in one of those other spellings as bad, though the driver reads it.
- Spd3303.Refresh: a failing query returns no panel. By then the driver has already stored the setpoints, outputs and timer rows it read earlier in the loop (device/siglent_spd3303.py:233-243), and those partial stores are not modelled.
- SdlUpdate.UpdateItems: a failing parameter lookup returns no actions. By then the driver has already sent the entry's mode switch and the writes before it.
- SdlUpdate.UpdateEntries: a failure returns no actions. By then the driver has already sent the earlier entries' writes and any List rows before the IndexError.
- SdlUpdate.UpdateInstrument: a failure returns no actions, for the same reason.
- SdlList.WriteRows: a table shorter than the step count fails with no commands. The driver has by then written the rows the table has.
- The recorder does not model a `config_widget` of None; the `conductor` main window never stores one.
- Trigger booleans are recorded as readings 0 or 1.
- The SPD3303 CH3 output. The driver cannot read its state back.
- The SDL1000 List mode's final-step warning dialog.
- The SDL1000 `connect` IDN checks. They are `assert ValueError`, which always holds, so they never reject anything.
- The SDL1000 `_menu_do_reset_device`. It sends `*RST` with a long timeout and then refreshes. The refresh is modelled; the reset's effect on the instrument is not.
- SdlRefresh.RefreshSpec: stated for registries whose command paths are coherent (`SdlParams.Coherent`: distinct and not prefixes of one another). The driver's registry has that shape, but the lemma does not prove it for the literal table.
- SdlUpdate.RefreshThenUpdate: needs the same coherence hypothesis and the mode-switch entries in registry order (`SwitchesOk`).
- SdlModes.PutInModeInjective: stated for valid modes only. The driver never builds an invalid one.
- SdlList.NumberOf: a non-numeric cell in a loaded List table fails at once with ValueError. The driver stores it raw and fails only when the value is next used.
- SdlList.LoadRows: fails at the first bad cell, like `NumberOf`, rather than at first use.
- SdlEdit.FloatOf: reads integral range strings (`'30'`, `'150'`) only, which are the only ones the SDL1000 range menus hold.
- SdlEdit.EditValue: the slew-rate partner's widget value is a parameter (`other`), not read from a widget.
- SdlEdit.EditKeepsPairs: stated only for paired parameters that are not slew rates and whose flag and value keys differ. The slew case is covered by `EditCouplesSlew`.
- SdlEdit.EditCouplesSlew: assumes the partner key differs from the edited key. This holds for every registry entry, but it is not proved from the table.
- SdlConfig.LoadConfig: the loaded file is assumed to have distinct keys (a JSON object read by Python).
- SdlConfig.SaveThenLoad: assumes the saved dict has distinct keys, which Python's dict guarantees.

## Findings

| source | as written | input that shows it | evidently intended | confidence | as-written member | corrected member |
|---|---|---|---|---|---|---|
| conductor/device/device.py:218-223 | `read` awaits `self._read_no_lock()`, which the class does not define | any connected device with a line waiting | read the line under the lock via `read_no_lock` | not executed | Transport.ReadAlwaysFails | Transport.ReadIntended |
| conductor/device/device.py:333-336 | `rst` calls `self.write('*RST')` without `await`, so only `*CLS` is sent | a connected device | send `*RST` and then `*CLS` | not executed | Transport.RstNeverResets | Transport.RstLinesIntended |
| conductor/main_window.py:815-817 | a series first seen in a tick is padded to the time axis after the new time was appended, then gets its value | the first tick recording a new measurement, with one earlier tick | the new series is as long as the time axis | not executed | Recording.NewSeriesTooLong | Recording.RecordTickIntendedAligned |
| conductor/device/siglent_sdm3000.py:518-564 | the SDM3055 AC-current display table lists the `200UA` and `2MA` ranges, which no SDM3055 range reading converts to | an SDM3055 in AC current | the display table offers exactly the ranges the readings convert to | not executed | SdmRanges.UnreadableAcCurrentRanges | SdmRanges.TokensAligned |
| device/siglent_sdm3000.py:1035-1039 | in 4-wire resistance no `match` case fires (the key is `FRES`, the case `FRES:AC`), so the button label is stored as the range | clicking 2 kΩ in FRES | store the `2KOHM` token | not executed | SdmLegacy.FresLabelStored | SdmLegacy.ClickRangeSpec |
| device/siglent_sdm3000.py:1027-1039 | a period range click stores under `:PER:RANGE`, but the period range is read and written as `:PER:VOLT:RANGE` | clicking a range in period mode | store the token under `:PER:VOLT:RANGE` | not executed | SdmLegacy.PeriodRangeMisplaced | SdmLegacy.ClickRange |
| device/siglent_sdm3000.py:1050-1053 | the Auto check box in period mode sets `:PER:RANGE:AUTO`, so the period range keeps being sent | checking Auto in period mode | set the period's own Auto flag, so the range is no longer sent | not executed | SdmLegacy.PeriodAutoIgnored | SdmLegacy.ClickRangeAutoSpec |
| device/siglent_spd3303.py:180 | `[[0., 0., 0.]] * 5` makes five references to one row; latent, since the constructor's `refresh` replaces every row before a cell can be edited (`Spd3303.ConstructedPanelEditsOneRow`) | setting step 3's duration to 5 s on the table as constructed, before any `refresh` | five separate rows | not executed | Spd3303.EditFreshPanel | SpdTimer.EditInitialFresh |
| device/siglent_spd3303.py:264 | `update_instrument` writes each channel's current limit from the voltage and never writes the track mode | a 5 V / 1 A independent panel written to a series-mode instrument | write `CURR` from the current and restore the track mode | not executed | Spd3303.UpdateAsWrittenLoses | Spd3303.UpdateRestores |
| device/siglent_sdl1000.py:2968-2969 | a bool parameter is written as `1` whatever its value; the load's update, edit and load paths keep this | a parameter holding `False` | write `0` for `False` | not executed | SdlParams.FalseWrittenAsOne | SdlParams.BoolReadBack |
| device/siglent_sdl1000.py:1769-1771 | the loaded trigger source is compared with `'Manual'`, but the instrument reports `MANUAL` | a file with `MANUAL` as trigger source | re-trigger from `MANUAL` to `BUS` as `refresh` does | not executed | SdlConfig.ManualKeptAsWritten | SdlConfig.LoadConfigSpec |
| device/siglent_sdl1000.py:1764-1768 | the cleanup sets `SYST:REMOTE:STATE`, `INPUT:STATE` and `SHORT:STATE`, keys without the leading colon the registry uses | any saved file | set the registry's own `:SYST:REMOTE:STATE`, `:INPUT:STATE` and `:SHORT:STATE` | not executed | SdlConfig.StrayKeysAsWritten | SdlConfig.LoadConfigSpec |
| device/siglent_sdl1000.py:2929-2936 | once a stopping sequence's step has elapsed, the heartbeat stops it but still advances the step past every width that has elapsed | a sequence told to stop on step 0, seen 2.5 widths later | stop on the step after the one it was on | not executed | SdlList.HeartbeatOvershoots | SdlList.HeartbeatIntendedSpec |
