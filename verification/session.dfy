/** The generic `Edge_device`: its identity, the state dictionary it
    publishes, the poll that refreshes that state, and the two-state safe
    mode driven by error codes. */
module Session {
  import opened Wrappers
  import opened Text
  import opened Values
  import opened RegisterMap
  import opened Decoder
  import opened Transport
  import opened Messages
  import opened Bus

  /** What the device keeps between polls. `connected` is whether the
      broker connection was made at start-up; without it nothing is
      published and nothing is listened to. */
  datatype EdgeDevice = EdgeDevice(
    moduleName: string,
    moduleType: string,
    moduleNum: string,
    state: map<string, Value>,
    safeMode: bool,
    readingType: string,
    connected: bool)

  /** `module_name.rsplit("_", 1)`: type and number; a name without `_`
      fails on index 1. */
  function ModuleParts(moduleName: string): (r: Result<(string, string)>)
    ensures r.Ok? <==> '_' in moduleName
    ensures r.Ok? ==> r.value.0 + "_" + r.value.1 == moduleName && '_' !in r.value.1
  {
    match RSplitOnce(moduleName, '_')
    case None => Err("IndexError")
    case Some(parts) => Ok(parts)
  }

  lemma ModulePartsOf(moduleType: string, moduleNum: string)
    requires '_' !in moduleNum
    ensures ModuleParts(moduleType + "_" + moduleNum) == Ok((moduleType, moduleNum))
  {
    RSplitOnceOf(moduleType, '_', moduleNum);
  }

  /** The edge device after construction: empty safe mode, `basic`
      readings, and a state holding only `device_id` and an unset
      `datetime`. A device that uses Modbus first checks that every basic
      register lies in a basic read block and exits the process if not. */
  function NewDevice(moduleName: string, deviceId: string, cfg: DeviceConfig, usesModbus: bool,
                     connected: bool): (r: Result<EdgeDevice>)
    ensures r.Ok? <==> '_' in moduleName &&
                       (usesModbus ==> forall i :: 0 <= i < |cfg.basicRegisters| ==>
                                         Covered(cfg.basicRegisters[i].location, cfg.basicBlocks))
    ensures '_' in moduleName && usesModbus && !r.Ok? ==> r == Err("SystemExit")
    ensures r.Ok? ==> !r.value.safeMode && r.value.state.Keys == {"device_id", DateTimeKey}
    ensures r.Ok? ==> r.value.moduleName == moduleName && r.value.state["device_id"] == Str(deviceId)
  {
    var (moduleType, moduleNum) :- ModuleParts(moduleName);
    if usesModbus && !LocationsCovered(cfg.basicRegisters, cfg.basicBlocks) then Err("SystemExit")
    else
      Ok(EdgeDevice(moduleName, moduleType, moduleNum,
                    map["device_id" := Str(deviceId), DateTimeKey := Null],
                    false, "basic", connected))
  }

  /** The device name `publish_data` sends under: `f'{type}_{num}'`, which
      is the module name again. */
  function DeviceName(dev: EdgeDevice): string {
    dev.moduleType + "_" + dev.moduleNum
  }

  lemma DeviceNameIsModuleName(moduleName: string, deviceId: string, cfg: DeviceConfig, usesModbus: bool,
                                connected: bool)
    requires NewDevice(moduleName, deviceId, cfg, usesModbus, connected).Ok?
    ensures DeviceName(NewDevice(moduleName, deviceId, cfg, usesModbus, connected).value) == moduleName
  {
  }

  /** The number an error payload denotes: a string goes through `int()`.
      Text is read only in the plain form `-?[0-9]+`; any other text is
      reported as `NotModelled`, since Python accepts some of it (`+1`,
      ` 1`, `1_0`) and raises `ValueError` for the rest. */
  function ErrorCode(data: Value): (r: Result<int>)
    ensures data.Str? ==> (r.Ok? <==> ParseInt(data.s).Some?)
    ensures data.Str? && ParseInt(data.s).Some? ==> r == Ok(ParseInt(data.s).value)
    ensures data.Str? && ParseInt(data.s).None? ==> r == Err("NotModelled")
    ensures data.Int? ==> r == Ok(data.i)
  {
    match data
    case Str(s) => if ParseInt(s).Some? then Ok(ParseInt(s).value) else Err("NotModelled")
    case JsonText(Int(i)) => Ok(i)
    case JsonText(_) => Err("NotModelled")
    case IsoText(_) => Err("ValueError")
    case Int(i) => Ok(i)
    case Bool(b) => Ok(if b then 1 else 0)
    case Real(x) => Ok(if x == 0.0 then 0 else 1)
    case _ => Ok(1)  // compares unequal to 0
  }

  /** `handle_error`: a nonzero code turns safe mode on, 0 turns it off. */
  function HandleErrorCode(dev: EdgeDevice, data: Value): (r: Result<EdgeDevice>)
    ensures r.Ok? <==> ErrorCode(data).Ok?
    ensures r.Ok? ==> r.value.safeMode == (ErrorCode(data).value != 0)
    ensures r.Ok? ==> r.value == dev.(safeMode := r.value.safeMode)
  {
    var code :- ErrorCode(data);
    if code != 0 then Ok(dev.(safeMode := true)) else Ok(dev.(safeMode := false))
  }

  /** Error codes sent as text: `str(code)` on the error channel switches
      safe mode exactly as the number would. */
  lemma ErrorCodeText(dev: EdgeDevice, code: int)
    ensures HandleErrorCode(dev, Str(IntToString(code))) == HandleErrorCode(dev, Int(code))
  {
    IntToStringRoundTrip(code);
  }

  /** Safe mode is a two-state machine: the latest code alone decides it. */
  lemma SafeModeForgetsHistory(dev: EdgeDevice, first: Value, second: Value)
    requires HandleErrorCode(dev, first).Ok?
    ensures HandleErrorCode(HandleErrorCode(dev, first).value, second) == HandleErrorCode(dev, second)
  {
  }

  /** `dict.update`: entries of `new` override, every other entry stays. */
  function Merge(earlier: map<string, Value>, update: map<string, Value>): (m: map<string, Value>)
    ensures m.Keys == earlier.Keys + update.Keys
    ensures forall k :: k in update ==> m[k] == update[k]
    ensures forall k :: k in earlier && k !in update ==> m[k] == earlier[k]
  {
    earlier + update
  }

  /** The result of one poll of the device: the words read, decoded. */
  /** The blocks a poll reads: the basic ones, or those of the custom read. */
  function ReadBlocks(cfg: DeviceConfig, custom: Option<CustomRead>): seq<Block>
  {
    if custom.None? then cfg.basicBlocks else custom.value.blocks
  }

  datatype Poll = Poll(dev: EdgeDevice, decoded: map<string, Value>, reading: Reading)

  /** `update_read`: compile the plan, record the reading type, read the
      blocks, decode. `Stalled` stands for a read that retries for ever. */
  function UpdateRead(dev: EdgeDevice, cfg: DeviceConfig, custom: Option<CustomRead>, polarity: real,
                      outcomes: seq<Outcome>, ieee: (nat, nat) -> real): (r: Result<Poll>)
    ensures r.Ok? ==> r.value.dev == dev.(readingType := if custom.None? then "basic" else custom.value.readingType)
    ensures r.Ok? ==> forall k :: k in r.value.decoded ==> !Contains(k, "unuse")
    ensures r.Ok? ==> r.value.reading.reconnects == r.value.reading.failures / 4
    ensures DecodePlan(cfg, custom, polarity).Err? ==> r == Err(DecodePlan(cfg, custom, polarity).error)
    ensures DecodePlan(cfg, custom, polarity).Ok? && Run(ReadBlocks(cfg, custom), outcomes, AllowedAttempts).None? ==>
              r == Err("Stalled")
    ensures DecodePlan(cfg, custom, polarity).Ok? && Run(ReadBlocks(cfg, custom), outcomes, AllowedAttempts).Some? ==>
              var plan := DecodePlan(cfg, custom, polarity).value;
              var reading := Run(ReadBlocks(cfg, custom), outcomes, AllowedAttempts).value;
              (r.Ok? <==> FormatSize(Codes(plan)) == Some(2 * |reading.words|)) &&
              (r.Ok? ==> r.value.reading == reading && r.value.decoded == DecodeWords(plan, reading.words, ieee).value) &&
              (r.Ok? ==> forall k :: k in r.value.decoded <==> k in Keys(plan) && !Contains(k, "unuse"))
  {
    var slots :- DecodePlan(cfg, custom, polarity);
    var blocks := ReadBlocks(cfg, custom);
    var typed := dev.(readingType := if custom.None? then "basic" else custom.value.readingType);
    match Run(blocks, outcomes, AllowedAttempts)
    case None => Err("Stalled")
    case Some(reading) =>
      ReconnectsPerCall(blocks, outcomes);
      var decoded :- DecodeWords(slots, reading.words, ieee);
      Ok(Poll(typed, decoded, reading))
  }

  /** `update`: stamp `datetime`, then merge the decoded registers into the
      state. Keys from earlier polls that this poll did not produce are
      kept. */
  function Update(dev: EdgeDevice, now: DateTime, cfg: DeviceConfig, polarity: real,
                  outcomes: seq<Outcome>, ieee: (nat, nat) -> real): (r: Result<EdgeDevice>)
    ensures r.Ok? ==> r.value.state.Keys >= dev.state.Keys + {DateTimeKey}
    ensures r.Ok? ==> r.value.readingType == "basic" && r.value.safeMode == dev.safeMode
  {
    var poll :- UpdateRead(dev, cfg, None, polarity, outcomes, ieee);
    Ok(poll.dev.(state := Merge(dev.state[DateTimeKey := Time(now)], poll.decoded)))
  }

  /** The state after a poll: each register decoded now holds its new
      value, `datetime` holds the poll time unless a register of that name
      overrides it, and every other entry keeps its earlier value. */
  lemma UpdateMerges(dev: EdgeDevice, now: DateTime, cfg: DeviceConfig, polarity: real,
                     outcomes: seq<Outcome>, ieee: (nat, nat) -> real, k: string)
    requires Update(dev, now, cfg, polarity, outcomes, ieee).Ok?
    ensures var poll := UpdateRead(dev, cfg, None, polarity, outcomes, ieee).value;
      var s := Update(dev, now, cfg, polarity, outcomes, ieee).value.state;
      (k in poll.decoded ==> s[k] == poll.decoded[k])
      && (k == DateTimeKey && k !in poll.decoded ==> s[k] == Time(now))
      && (k in dev.state && k != DateTimeKey && k !in poll.decoded ==> s[k] == dev.state[k])
  {
  }

  /** What `log_reading` does: the device afterwards and what it
      published. */
  datatype Logged = Logged(dev: EdgeDevice, published: Option<Publication>)

  /** `log_reading`: in safe mode nothing is read or published; otherwise
      the device is updated and its (never empty) state published when the
      broker is connected. */
  function LogReading(dev: EdgeDevice, now: DateTime, cfg: DeviceConfig, polarity: real,
                      outcomes: seq<Outcome>, ieee: (nat, nat) -> real): (r: Result<Logged>)
    ensures dev.safeMode ==> r == Ok(Logged(dev, None))
  {
    if dev.safeMode then Ok(Logged(dev, None))
    else
      var updated :- Update(dev, now, cfg, polarity, outcomes, ieee);
      if |updated.state| > 0 && updated.connected then
        var p :- PublishData(DeviceName(updated), updated.moduleNum, updated.readingType, Dict(updated.state));
        Ok(Logged(updated, Some(p)))
      else Ok(Logged(updated, None))
  }

  /** Outside safe mode a successful update is always published when the
      broker is connected, provided the state's other entries are JSON
      values and no register is called `datetime`: the state is never
      empty, since it holds `datetime`. */
  lemma LogReadingPublishes(dev: EdgeDevice, now: DateTime, cfg: DeviceConfig, polarity: real,
                            outcomes: seq<Outcome>, ieee: (nat, nat) -> real)
    requires !dev.safeMode && dev.connected
    requires forall k :: k in dev.state && k != DateTimeKey ==> Serializable(dev.state[k])
    requires Update(dev, now, cfg, polarity, outcomes, ieee).Ok?
    requires DateTimeKey !in UpdateRead(dev, cfg, None, polarity, outcomes, ieee).value.decoded
    ensures LogReading(dev, now, cfg, polarity, outcomes, ieee).Ok?
    ensures var logged := LogReading(dev, now, cfg, polarity, outcomes, ieee).value;
      logged.published.Some?
      && logged.dev == Update(dev, now, cfg, polarity, outcomes, ieee).value
      && logged.published.value.payload == EncodeReading(Dict(logged.dev.state)).value
  {
    UpdatedStateStamped(dev, now, cfg, polarity, outcomes, ieee);
    var updated := Update(dev, now, cfg, polarity, outcomes, ieee).value;
    assert |updated.state| > 0 by {
      assert DateTimeKey in updated.state;
    }
  }

  /** Under those conditions the updated state is a stamped reading. */
  lemma UpdatedStateStamped(dev: EdgeDevice, now: DateTime, cfg: DeviceConfig, polarity: real,
                            outcomes: seq<Outcome>, ieee: (nat, nat) -> real)
    requires !dev.safeMode
    requires forall k :: k in dev.state && k != DateTimeKey ==> Serializable(dev.state[k])
    requires Update(dev, now, cfg, polarity, outcomes, ieee).Ok?
    requires DateTimeKey !in UpdateRead(dev, cfg, None, polarity, outcomes, ieee).value.decoded
    ensures Stamped(Update(dev, now, cfg, polarity, outcomes, ieee).value.state)
  {
    var poll := UpdateRead(dev, cfg, None, polarity, outcomes, ieee).value;
    var updated := Update(dev, now, cfg, polarity, outcomes, ieee).value;
    DecodedSerializable(dev, cfg, polarity, outcomes, ieee);
    StampedAfterMerge(dev.state, poll.decoded, now);
    assert updated.state == Merge(dev.state[DateTimeKey := Time(now)], poll.decoded);
  }

  lemma StampedAfterMerge(earlier: map<string, Value>, decoded: map<string, Value>, now: DateTime)
    requires forall k :: k in earlier && k != DateTimeKey ==> Serializable(earlier[k])
    requires forall k :: k in decoded ==> decoded[k].Real?
    requires DateTimeKey !in decoded
    ensures Stamped(Merge(earlier[DateTimeKey := Time(now)], decoded))
  {
  }

  /** Decoded register values are numbers. */
  lemma DecodedSerializable(dev: EdgeDevice, cfg: DeviceConfig, polarity: real,
                            outcomes: seq<Outcome>, ieee: (nat, nat) -> real)
    requires UpdateRead(dev, cfg, None, polarity, outcomes, ieee).Ok?
    ensures var d := UpdateRead(dev, cfg, None, polarity, outcomes, ieee).value.decoded;
      forall k :: k in d ==> d[k].Real?
  {
  }

  /** How `listen` leaves the device: error codes switch safe mode, commands
      go to the variant's `handle_command`, in arrival order. */
  function Dispatch(dev: EdgeDevice, calls: seq<Call>, handleCommand: (EdgeDevice, Value) -> Result<EdgeDevice>): (r: Result<EdgeDevice>)
    ensures (forall i :: 0 <= i < |calls| ==> calls[i].HandleError?) ==>
              (r.Ok? <==> forall i :: 0 <= i < |calls| ==> ErrorCode(calls[i].errorData).Ok?)
    ensures (forall i :: 0 <= i < |calls| ==> calls[i].HandleError?) && r.Ok? ==>
              r.value == dev.(safeMode := r.value.safeMode)
    decreases |calls|
  {
    if |calls| == 0 then Ok(dev)
    else
      var next :- match calls[0]
        case HandleError(data) => HandleErrorCode(dev, data)
        case HandleCommand(data) => handleCommand(dev, data);
      Dispatch(next, calls[1..], handleCommand)
  }

  /** When the command handler leaves safe mode alone, the last error code
      delivered decides safe mode after `listen`. */
  lemma {:induction false} SafeModeFollowsLastError(dev: EdgeDevice, calls: seq<Call>,
                                                    handleCommand: (EdgeDevice, Value) -> Result<EdgeDevice>, j: nat)
    requires forall d, v :: handleCommand(d, v).Ok? ==> handleCommand(d, v).value.safeMode == d.safeMode
    requires j < |calls| && calls[j].HandleError?
    requires forall i :: j < i < |calls| ==> calls[i].HandleCommand?
    requires Dispatch(dev, calls, handleCommand).Ok?
    ensures ErrorCode(calls[j].errorData).Ok?
    ensures Dispatch(dev, calls, handleCommand).value.safeMode == (ErrorCode(calls[j].errorData).value != 0)
    decreases |calls|
  {
    var next := match calls[0]
      case HandleError(data) => HandleErrorCode(dev, data)
      case HandleCommand(data) => handleCommand(dev, data);
    if j == 0 {
      CommandsKeepSafeMode(next.value, calls[1..], handleCommand);
    } else {
      SafeModeFollowsLastError(next.value, calls[1..], handleCommand, j - 1);
    }
  }

  lemma {:induction false} CommandsKeepSafeMode(dev: EdgeDevice, calls: seq<Call>,
                                                handleCommand: (EdgeDevice, Value) -> Result<EdgeDevice>)
    requires forall d, v :: handleCommand(d, v).Ok? ==> handleCommand(d, v).value.safeMode == d.safeMode
    requires forall i :: 0 <= i < |calls| ==> calls[i].HandleCommand?
    requires Dispatch(dev, calls, handleCommand).Ok?
    ensures Dispatch(dev, calls, handleCommand).value.safeMode == dev.safeMode
    decreases |calls|
  {
    if |calls| > 0 {
      CommandsKeepSafeMode(handleCommand(dev, calls[0].commandData).value, calls[1..], handleCommand);
    }
  }
}
