/** The Statcom variant of the edge device: it turns commands into Modbus
    "Write Multiple Registers" requests (function code 0x10) on the
    Statcom's holding registers. A command's effect is modelled as the
    list of writes it issues, in order. */
module Statcom {
  import opened Wrappers
  import opened Values
  import opened Messages
  import opened Decoder
  import opened Int16

  /** The two settings the driver is started with: `version == "new"`
      selects the phase order of the three-phase power write, and
      `mode == "read_only"` is recorded. */
  datatype Statcom = Statcom(newVersion: bool, readOnly: bool)

  function NewStatcom(version: string, mode: string): (st: Statcom)
    ensures st.newVersion <==> version == "new"
    ensures st.readOnly <==> mode == "read_only"
  {
    Statcom(version == "new", mode == "read_only")
  }

  /** One `write_registers(address, values)` request. */
  datatype Write = Write(address: nat, values: seq<int>)

  /** The writes of the commands that set one register to a constant. */
  const StartWrite := Write(1050, [1])
  const StopWrite := Write(1050, [0])
  const VoltageModeWrite := Write(1055, [1])
  const CurrentModeWrite := Write(1055, [0])
  const EnableWrite := Write(1048, [1])
  const DisableWrite := Write(1048, [0])
  const ZeroVarWrite := Write(1054, [0])
  const ManualVarWrite := Write(1054, [1])
  const VoltVarWrite := Write(1054, [2])

  const PowerRegister := 1000
  const ReactivePowerRegisters := [1004, 1005, 1006]

  /** The register word `set_power` and `set_reactive_power` write for a
      power `p`: 65536 is added to a negative power before `int` truncates
      it. */
  function PowerWord(p: real): (w: int)
    ensures -32768.0 <= p < 32768.0 ==> 0 <= w < 0x1_0000
    ensures p >= 0.0 ==> w as real <= p < w as real + 1.0
    ensures -65536.0 <= p < 0.0 ==> w as real <= p + 65536.0 < w as real + 1.0
  {
    Trunc(if p < 0.0 then p + 65536.0 else p)
  }

  /** The triple `[w, w, w]` of `set_power` and `set_reactive_power`. */
  function PowerTriple(p: real): (ws: seq<int>)
    ensures |ws| == 3 && ws[0] == ws[1] == ws[2] == PowerWord(p)
  {
    [PowerWord(p), PowerWord(p), PowerWord(p)]
  }

  /** `set_power_multiple_phases(p1, p2, p3)`: the new firmware takes the
      phases in order, the old one phase 3 first. */
  function PhaseWords(st: Statcom, p1: int, p2: int, p3: int): (ws: seq<int>)
    ensures |ws| == 3
  {
    if st.newVersion then [ToWord(p1), ToWord(p2), ToWord(p3)]
    else [ToWord(p3), ToWord(p1), ToWord(p2)]
  }

  /** The registers `handle_command` may write. */
  const WriteAddresses: set<nat> := {1000, 1004, 1005, 1006, 1048, 1050, 1054, 1055}

  /** The keywords `handle_command` recognises. */
  const Keywords := {"start", "stop", "set_power", "set_powers_3p", "voltage_mode", "current_mode",
                     "enable", "disable", "zero_var_mode", "manual_var_mode", "volt_var_mode",
                     "set_reactive_power"}

  /** The body of `handle_command` after the message is decoded: the writes
      issued for `keyword` with `settings`. `len(settings)` and
      `settings[0]` walk a list or a string; on any other value they raise.
      The closing `update()` is not part of the result. */
  function Writes(st: Statcom, keyword: Value, settings: Value): (r: Result<seq<Write>>)
    ensures r.Ok? ==> |r.value| <= 3
    ensures r.Ok? ==> forall w :: w in r.value ==> w.address in WriteAddresses
    ensures r.Err? ==> keyword in {Str("set_power"), Str("set_powers_3p"), Str("set_reactive_power")}
  {
    if keyword == Str("start") then Ok([StartWrite])
    else if keyword == Str("stop") then Ok([StopWrite])
    else if keyword == Str("set_power") then
      var items :- Items(settings);
      if |items| == 0 then Ok([])
      else
        var p :- PyFloat(items[0]);
        Ok([Write(PowerRegister, PowerTriple(p))])
    else if keyword == Str("set_powers_3p") then
      var items :- Items(settings);
      if |items| < 3 then Ok([])
      else
        var p1 :- PyInt(items[0]);
        var p2 :- PyInt(items[1]);
        var p3 :- PyInt(items[2]);
        Ok([Write(PowerRegister, PhaseWords(st, p1, p2, p3))])
    else if keyword == Str("voltage_mode") then Ok([VoltageModeWrite])
    else if keyword == Str("current_mode") then Ok([CurrentModeWrite])
    else if keyword == Str("enable") then Ok([EnableWrite])
    else if keyword == Str("disable") then Ok([DisableWrite])
    else if keyword == Str("zero_var_mode") then Ok([ZeroVarWrite])
    else if keyword == Str("manual_var_mode") then Ok([ManualVarWrite])
    else if keyword == Str("volt_var_mode") then Ok([VoltVarWrite])
    else if keyword == Str("set_reactive_power") then
      var items :- Items(settings);
      if |items| == 0 then Err("IndexError")
      else
        var p :- PyFloat(items[0]);
        var ws := PowerTriple(p);
        Ok([Write(ReactivePowerRegisters[0], ws), Write(ReactivePowerRegisters[1], ws),
            Write(ReactivePowerRegisters[2], ws)])
    else Ok([])
  }

  /** `handle_command`: the message is decoded first, and its failure
      propagates before any write. A decoded command then issues the
      writes of the keyword table: a mode keyword its constant write, an
      unknown keyword nothing, and `set_power` one block of three equal
      words at register 1000. `HandlePowerCommands` states the other two
      power commands. */
  function HandleCommand(st: Statcom, data: Value): (r: Result<seq<Write>>)
    ensures DecodeCommand(data).Err? ==> r.Err?
    ensures DecodeCommand(data).Ok? ==>
      r == Writes(st, DecodeCommand(data).value.commandKeyWord, DecodeCommand(data).value.settings)
    ensures DecodeCommand(data).Ok? ==> var kw := DecodeCommand(data).value.commandKeyWord;
      kw.Str? && kw.s in ModeTable ==> r == Ok([ModeTable[kw.s]])
    ensures DecodeCommand(data).Ok? ==> var kw := DecodeCommand(data).value.commandKeyWord;
      !(kw.Str? && kw.s in Keywords) ==> r == Ok([])
    ensures DecodeCommand(data).Ok? ==> var m := DecodeCommand(data).value;
      m.commandKeyWord == Str("set_power") && m.settings.List? && |m.settings.items| > 0
      && m.settings.items[0].Real? && -32768.0 <= m.settings.items[0].r < 32768.0 ==>
        var p := m.settings.items[0].r;
        r == Ok([Write(PowerRegister, PowerTriple(p))]) && Signed(PowerWord(p), 2) == p.Floor
  {
    match DecodeCommand(data)
    case Err(e) => Err(e)
    case Ok(m) =>
      WritesTable(st, m.commandKeyWord, m.settings);
      Writes(st, m.commandKeyWord, m.settings)
  }

  /** The two multi-word power commands, as `handle_command` issues them:
      `set_powers_3p` with three whole powers writes one block at 1000
      whose words read back as the phases, in the firmware's order, and
      `set_reactive_power` succeeds exactly when `set_power` would and
      writes its block at each of registers 1004, 1005 and 1006. */
  lemma HandlePowerCommands(st: Statcom, data: Value)
    ensures DecodeCommand(data).Ok? ==> var m := DecodeCommand(data).value;
      m.commandKeyWord == Str("set_powers_3p") && m.settings.List? && ThreeWholePowers(m.settings.items) ==>
        var ps := m.settings.items;
        var w := HandleCommand(st, data);
        var order := if st.newVersion then [ps[0].i, ps[1].i, ps[2].i] else [ps[2].i, ps[0].i, ps[1].i];
        && w.Ok? && |w.value| == 1 && w.value[0].address == PowerRegister && |w.value[0].values| == 3
        && (forall i :: 0 <= i < 3 ==> 0 <= w.value[0].values[i] < 0x1_0000)
        && forall i :: 0 <= i < 3 ==> Signed(w.value[0].values[i], 2) == order[i]
    ensures DecodeCommand(data).Ok? ==> var m := DecodeCommand(data).value;
      m.commandKeyWord == Str("set_reactive_power") && m.settings.List? && |m.settings.items| > 0 ==>
        var power := Writes(st, Str("set_power"), m.settings);
        var w := HandleCommand(st, data);
        && (w.Ok? <==> power.Ok?)
        && (w.Ok? ==> |power.value| == 1 && |w.value| == 3
                      && forall i :: 0 <= i < 3 ==> w.value[i] == Write(1004 + i, power.value[0].values))
  {
    if DecodeCommand(data).Ok? {
      var m := DecodeCommand(data).value;
      PowerWritesTable(st, m.commandKeyWord, m.settings);
    }
  }

  /** Three whole powers in the signed 16-bit range lead the settings. */
  predicate ThreeWholePowers(items: seq<Value>) {
    |items| >= 3 && items[0].Int? && items[1].Int? && items[2].Int?
    && -0x8000 <= items[0].i < 0x8000 && -0x8000 <= items[1].i < 0x8000 && -0x8000 <= items[2].i < 0x8000
  }

  /** The keyword table of `Writes` for the constant and unknown keywords
      and `set_power`, gathered for `HandleCommand`. */
  lemma WritesTable(st: Statcom, kw: Value, settings: Value)
    ensures kw.Str? && kw.s in ModeTable ==> Writes(st, kw, settings) == Ok([ModeTable[kw.s]])
    ensures !(kw.Str? && kw.s in Keywords) ==> Writes(st, kw, settings) == Ok([])
    ensures kw == Str("set_power") && settings.List? && |settings.items| > 0
            && settings.items[0].Real? && -32768.0 <= settings.items[0].r < 32768.0 ==>
              var p := settings.items[0].r;
              Writes(st, kw, settings) == Ok([Write(PowerRegister, PowerTriple(p))]) && Signed(PowerWord(p), 2) == p.Floor
  {
    if kw.Str? && kw.s in ModeTable {
      ModeCommandsFollowTable(st, kw.s, settings);
    } else if !(kw.Str? && kw.s in Keywords) {
      UnknownKeywordWritesNothing(st, kw, settings);
    } else if kw == Str("set_power") && settings.List? && |settings.items| > 0
              && settings.items[0].Real? && -32768.0 <= settings.items[0].r < 32768.0 {
      var items := settings.items;
      assert items == [Real(items[0].r)] + items[1..];
      SetPowerWrites(st, items[0].r, items[1..]);
    }
  }

  /** The keyword table of `Writes` for the two multi-word power commands. */
  lemma PowerWritesTable(st: Statcom, kw: Value, settings: Value)
    ensures kw == Str("set_powers_3p") && settings.List? && ThreeWholePowers(settings.items) ==>
              var ps := settings.items;
              var w := Writes(st, kw, settings);
              var order := if st.newVersion then [ps[0].i, ps[1].i, ps[2].i] else [ps[2].i, ps[0].i, ps[1].i];
              && w.Ok? && |w.value| == 1 && w.value[0].address == PowerRegister && |w.value[0].values| == 3
              && (forall i :: 0 <= i < 3 ==> 0 <= w.value[0].values[i] < 0x1_0000)
              && forall i :: 0 <= i < 3 ==> Signed(w.value[0].values[i], 2) == order[i]
    ensures kw == Str("set_reactive_power") && settings.List? && |settings.items| > 0 ==>
              var power := Writes(st, Str("set_power"), settings);
              var w := Writes(st, kw, settings);
              && (w.Ok? <==> power.Ok?)
              && (w.Ok? ==> |power.value| == 1 && |w.value| == 3
                            && forall i :: 0 <= i < 3 ==> w.value[i] == Write(1004 + i, power.value[0].values))
  {
    if kw == Str("set_powers_3p") && settings.List? && ThreeWholePowers(settings.items) {
      var ps := settings.items;
      assert ps == [Int(ps[0].i), Int(ps[1].i), Int(ps[2].i)] + ps[3..];
      ThreePhaseOrder(ps[0].i, ps[1].i, ps[2].i, ps[3..]);
    } else if kw == Str("set_reactive_power") && settings.List? && |settings.items| > 0 {
      ReactiveMatchesPower(st, settings.items);
    }
  }

  /** A reference table of the commands that write one constant. */
  const ModeTable: map<string, Write> := map[
    "start" := Write(1050, [1]), "stop" := Write(1050, [0]),
    "voltage_mode" := Write(1055, [1]), "current_mode" := Write(1055, [0]),
    "enable" := Write(1048, [1]), "disable" := Write(1048, [0]),
    "zero_var_mode" := Write(1054, [0]), "manual_var_mode" := Write(1054, [1]),
    "volt_var_mode" := Write(1054, [2])]

  /** Each mode command issues exactly its table entry, whatever the
      settings and the driver's configuration. */
  lemma ModeCommandsFollowTable(st: Statcom, keyword: string, settings: Value)
    requires keyword in ModeTable
    ensures Writes(st, Str(keyword), settings) == Ok([ModeTable[keyword]])
  {
  }

  /** A keyword outside the vocabulary (or a keyword that is not a string)
      writes nothing and does not fail. */
  lemma UnknownKeywordWritesNothing(st: Statcom, keyword: Value, settings: Value)
    requires !(keyword.Str? && keyword.s in Keywords)
    ensures Writes(st, keyword, settings) == Ok([])
  {
  }

  /** `read_only_mode` is recorded but never consulted: a read-only Statcom
      issues the same writes as a read/write one. */
  lemma ReadOnlyIsNotConsulted(st: Statcom, keyword: Value, settings: Value)
    ensures Writes(st.(readOnly := true), keyword, settings) == Writes(st.(readOnly := false), keyword, settings)
  {
  }

  /** The version decides nothing but the phase order of `set_powers_3p`. */
  lemma VersionOnlyOrdersPhases(st: Statcom, keyword: Value, settings: Value)
    requires keyword != Str("set_powers_3p")
    ensures Writes(st.(newVersion := true), keyword, settings) == Writes(st.(newVersion := false), keyword, settings)
  {
  }

  /** `set_power` with a numeric first setting writes one block of three
      equal words to register 1000; a power in the signed 16-bit range
      reads back, as an `'h'` field, as its floor. */
  lemma SetPowerWrites(st: Statcom, p: real, rest: seq<Value>)
    requires -32768.0 <= p < 32768.0
    ensures Writes(st, Str("set_power"), List([Real(p)] + rest)) == Ok([Write(1000, PowerTriple(p))])
    ensures Signed(PowerWord(p), 2) == p.Floor
  {
    var w := PowerWord(p);
    assert Pow256(2) == 0x1_0000;
    if p < 0.0 {
      assert (p + 65536.0).Floor == p.Floor + 65536;
    }
  }

  /** For a whole power in range the written word reads back as the power
      itself. */
  lemma PowerWordReadsBack(n: int)
    requires -0x8000 <= n < 0x8000
    ensures Signed(PowerWord(n as real), 2) == n
  {
    SetPowerWrites(Statcom(true, false), n as real, []);
  }

  /** A fractional negative power is floored by `set_power` but truncated
      toward zero by `set_powers_3p`: -0.5 becomes -1 through one command
      and 0 through the other. */
  lemma HalfNegativeDiffers()
    ensures Signed(PowerWord(-0.5), 2) == -1
    ensures ToWord(Trunc(-0.5)) == 0
  {
    assert PowerWord(-0.5) == 65535;
    assert Pow256(2) == 0x1_0000;
  }

  /** `set_power` with empty settings writes nothing; `set_reactive_power`
      with empty settings raises, its index being unguarded. */
  lemma EmptySettings(st: Statcom)
    ensures Writes(st, Str("set_power"), List([])) == Ok([])
    ensures Writes(st, Str("set_reactive_power"), List([])) == Err("IndexError")
  {
  }

  /** Fewer than three phase settings write nothing. */
  lemma TooFewPhasesWriteNothing(st: Statcom, items: seq<Value>)
    requires |items| < 3
    ensures Writes(st, Str("set_powers_3p"), List(items)) == Ok([])
  {
  }

  /** Three whole phase powers in the signed 16-bit range are written as
      one block at register 1000; each phase's word reads back as that
      phase's power, and the old firmware receives the new firmware's block
      rotated so that phase 3 comes first. */
  lemma ThreePhaseOrder(p1: int, p2: int, p3: int, rest: seq<Value>)
    requires -0x8000 <= p1 < 0x8000 && -0x8000 <= p2 < 0x8000 && -0x8000 <= p3 < 0x8000
    ensures var settings := List([Int(p1), Int(p2), Int(p3)] + rest);
      var newer := Writes(Statcom(true, false), Str("set_powers_3p"), settings);
      var older := Writes(Statcom(false, false), Str("set_powers_3p"), settings);
      && newer.Ok? && older.Ok? && |newer.value| == 1 && |older.value| == 1
      && newer.value[0].address == older.value[0].address == 1000
      && |newer.value[0].values| == 3
      && (forall i :: 0 <= i < 3 ==> Signed(newer.value[0].values[i], 2) == [p1, p2, p3][i])
      && older.value[0].values == [newer.value[0].values[2], newer.value[0].values[0], newer.value[0].values[1]]
  {
    ToWordReadsBack(p1);
    ToWordReadsBack(p2);
    ToWordReadsBack(p3);
  }

  /** `set_reactive_power` writes, to each of registers 1004, 1005 and 1006
      in turn, exactly the block `set_power` writes to register 1000. */
  lemma ReactiveMatchesPower(st: Statcom, items: seq<Value>)
    requires |items| > 0
    ensures var power := Writes(st, Str("set_power"), List(items));
      var reactive := Writes(st, Str("set_reactive_power"), List(items));
      && power.Ok? == reactive.Ok?
      && (power.Ok? ==>
            && |power.value| == 1 && |reactive.value| == 3
            && forall i :: 0 <= i < 3 ==> reactive.value[i] == Write(1004 + i, power.value[0].values))
  {
  }

  /** The answer to one write request: Modbus answers a write with its
      function code, 0x10, or with the exception code 0x90. */
  function ResponseCode(accepted: bool): int {
    if accepted then 0x10 else 0x90
  }

  /** `write_modbus`: one request per block, in order; the answers' function
      codes are collected in the same order. `accepts` stands for the
      device's answer to each request. */
  method WriteModbus(blocks: seq<Write>, accepts: Write -> bool) returns (codes: seq<int>)
    ensures |codes| == |blocks|
    ensures forall i :: 0 <= i < |blocks| ==> (codes[i] == 0x10 <==> accepts(blocks[i]))
    ensures forall i :: 0 <= i < |blocks| ==> codes[i] == 0x10 || codes[i] == 0x90
  {
    codes := [];
    for k := 0 to |blocks|
      invariant |codes| == k
      invariant forall i :: 0 <= i < k ==> codes[i] == ResponseCode(accepts(blocks[i]))
    {
      codes := codes + [ResponseCode(accepts(blocks[k]))];
    }
  }
}
