/** The EM133 monitor: at a fixed period it reads the grid meter and the
    Statcom, and writes the meter's per-phase apparent and active power,
    together with two incremented lifesigns, into the Statcom's meter
    registers. */
module Relay {
  import opened Wrappers
  import opened Values
  import opened Decoder
  import opened Int16
  import Statcom

  /** The meter keys read, phase by phase. */
  const KvaKeys := ["kVA_1", "kVA_2", "kVA_3"]
  const KwKeys := ["kW_1", "kW_2", "kW_3"]

  const ExportLifesignKey := "Export_Meter_Lifesign"
  const GenerationLifesignKey := "Generation_Meter_Lifesign"

  /** The first of the Statcom's meter registers. */
  const MeterRegister := 1109

  /** One phase value: a missing or `None` entry raises `ValueError`;
      otherwise `int` truncates it and a negative value gets 65536
      added. */
  function PhaseWord(reg: map<string, Value>, key: string): (r: Result<int>)
    ensures key !in reg || reg[key].Null? ==> r == Err("ValueError")
    ensures key in reg && !reg[key].Null? ==> (r.Ok? <==> PyInt(reg[key]).Ok?)
    ensures r.Ok? ==> r.value == ToWord(PyInt(reg[key]).value)
  {
    if key !in reg || reg[key].Null? then Err("ValueError")
    else
      var v :- PyInt(reg[key]);
      Ok(ToWord(v))
  }

  /** `_get_meter_grid_power`: the apparent and the active power of the
      three phases, read in the order kVA_1, kW_1, kVA_2, kW_2, kVA_3,
      kW_3. */
  function MeterGridPower(reg: map<string, Value>): (r: Result<(seq<int>, seq<int>)>)
    ensures r.Ok? ==> |r.value.0| == 3 && |r.value.1| == 3
    ensures (exists i :: 0 <= i < 3 && (KvaKeys[i] !in reg || KwKeys[i] !in reg)) ==> r.Err?
  {
    var kva1 :- PhaseWord(reg, KvaKeys[0]);
    var kw1 :- PhaseWord(reg, KwKeys[0]);
    var kva2 :- PhaseWord(reg, KvaKeys[1]);
    var kw2 :- PhaseWord(reg, KwKeys[1]);
    var kva3 :- PhaseWord(reg, KvaKeys[2]);
    var kw3 :- PhaseWord(reg, KwKeys[2]);
    Ok(([kva1, kva2, kva3], [kw1, kw2, kw3]))
  }

  /** The grid power is read when, and only when, every one of the six
      entries converts; phase `i` of each list is then the word of key `i`
      of that quantity. */
  lemma GridPowerByPhase(reg: map<string, Value>)
    ensures MeterGridPower(reg).Ok? <==>
      forall i :: 0 <= i < 3 ==> PhaseWord(reg, KvaKeys[i]).Ok? && PhaseWord(reg, KwKeys[i]).Ok?
    ensures MeterGridPower(reg).Ok? ==>
      var (kva, kw) := MeterGridPower(reg).value;
      && |kva| == 3 && |kw| == 3
      && forall i :: 0 <= i < 3 ==> kva[i] == PhaseWord(reg, KvaKeys[i]).value && kw[i] == PhaseWord(reg, KwKeys[i]).value
  {
    if MeterGridPower(reg).Ok? {
      var (kva, kw) := MeterGridPower(reg).value;
      assert kva[0] == PhaseWord(reg, KvaKeys[0]).value;
    }
  }

  /** The first missing phase value decides the failure: with kW_1 missing
      the call fails even if kVA_1 is present. */
  lemma MissingPhaseRaises(reg: map<string, Value>, i: nat)
    requires i < 3 && KwKeys[i] !in reg
    ensures MeterGridPower(reg).Err?
  {
    GridPowerByPhase(reg);
  }

  /** A decoded power in the signed 16-bit range is written as a word that
      the Statcom reads back, as an `'h'` field, as the truncated power. */
  lemma PhaseWordReadsBack(reg: map<string, Value>, key: string)
    requires key in reg && reg[key].Real? && -32768.0 < reg[key].r < 32768.0
    ensures PhaseWord(reg, key).Ok?
    ensures 0 <= PhaseWord(reg, key).value < 0x1_0000
    ensures Signed(PhaseWord(reg, key).value, 2) == Trunc(reg[key].r)
  {
    ToWordReadsBack(Trunc(reg[key].r));
  }

  /** `int(reg_statcom.get(key)) + 1`: a missing lifesign is `None`, which
      `int` rejects with `TypeError`. */
  function Lifesign(reg: map<string, Value>, key: string): (r: Result<int>)
    ensures key !in reg ==> r == Err("TypeError")
    ensures key in reg ==> (r.Ok? <==> PyInt(reg[key]).Ok?)
    ensures r.Ok? ==> r.value == PyInt(reg[key]).value + 1
  {
    var n :- PyInt(if key in reg then reg[key] else Null);
    Ok(n + 1)
  }

  /** The block `_update` writes: the meter's powers, then the export
      lifesign, then the powers again, then the generation lifesign. */
  function Payload(meter: map<string, Value>, statcom: map<string, Value>): (r: Result<Statcom.Write>)
    ensures r.Ok? ==> r.value.address == MeterRegister && |r.value.values| == 14
    ensures MeterGridPower(meter).Ok? && ExportLifesignKey !in statcom ==> r == Err("TypeError")
  {
    var (kva, kw) :- MeterGridPower(meter);
    var exported :- Lifesign(statcom, ExportLifesignKey);
    var generation :- Lifesign(statcom, GenerationLifesignKey);
    Ok(Statcom.Write(MeterRegister, kva + kw + [exported] + kva + kw + [generation]))
  }

  /** The payload is 14 words at register 1109: words 0-2 and 7-9 are the
      apparent powers, 3-5 and 10-12 the active powers, 6 and 13 the
      lifesigns read back plus one. It fails exactly when the meter's
      powers or one of the lifesigns cannot be read. */
  lemma PayloadLayout(meter: map<string, Value>, statcom: map<string, Value>)
    ensures Payload(meter, statcom).Ok? <==>
      MeterGridPower(meter).Ok? && Lifesign(statcom, ExportLifesignKey).Ok? && Lifesign(statcom, GenerationLifesignKey).Ok?
    ensures Payload(meter, statcom).Ok? ==>
      var w := Payload(meter, statcom).value;
      var (kva, kw) := MeterGridPower(meter).value;
      && w.address == 1109 && |w.values| == 14
      && w.values[0..3] == w.values[7..10] == kva
      && w.values[3..6] == w.values[10..13] == kw
      && w.values[6] == Lifesign(statcom, ExportLifesignKey).value
      && w.values[13] == Lifesign(statcom, GenerationLifesignKey).value
  {
    GridPowerByPhase(meter);
    if Payload(meter, statcom).Ok? {
      var w := Payload(meter, statcom).value;
      var (kva, kw) := MeterGridPower(meter).value;
      var e := Lifesign(statcom, ExportLifesignKey).value;
      var g := Lifesign(statcom, GenerationLifesignKey).value;
      assert w.values == kva + kw + [e] + kva + kw + [g];
      WordsLayout(kva, kw, e, g);
    }
  }

  /** Where each part lands in the fourteen words. */
  lemma WordsLayout(kva: seq<int>, kw: seq<int>, e: int, g: int)
    requires |kva| == 3 && |kw| == 3
    ensures var v := kva + kw + [e] + kva + kw + [g];
      && |v| == 14 && v[0..3] == v[7..10] == kva && v[3..6] == v[10..13] == kw
      && v[6] == e && v[13] == g
  {
    var v := kva + kw + [e] + kva + kw + [g];
    assert v[0..3] == kva && v[7..10] == kva;
    assert v[3..6] == kw && v[10..13] == kw;
  }

  /** The lifesign is not wrapped: a Statcom lifesign of 65535 is answered
      with 65536, which does not fit a 16-bit register. */
  lemma LifesignDoesNotWrap(statcom: map<string, Value>)
    requires ExportLifesignKey in statcom && statcom[ExportLifesignKey] == Real(65535.0)
    ensures Lifesign(statcom, ExportLifesignKey) == Ok(0x1_0000)
  {
    TruncOfInt(65535);
  }

  /** `_timed_out`: strictly more than `dt` has elapsed since `since`. */
  predicate TimedOut(now: real, since: real, dt: real) {
    now - since > dt
  }

  /** The update timer: the reference time and the period. */
  datatype Timer = Timer(since: real, period: real)

  /** `_update_timed_out`: whether the timer fires at `now`, and the timer
      after the check; the reference is moved to `now` only when it
      fires. */
  function CheckTimer(t: Timer, now: real): (r: (bool, Timer))
    ensures r.0 <==> now - t.since > t.period
    ensures r.1.period == t.period
    ensures r.1.since == (if r.0 then now else t.since)
  {
    if TimedOut(now, t.since, t.period) then (true, t.(since := now)) else (false, t)
  }

  /** A timer with a non-negative period that has just fired does not fire
      again at the same instant, and one that did not fire is unchanged. */
  lemma TimerFiresOnce(t: Timer, now: real)
    requires t.period >= 0.0
    ensures !CheckTimer(CheckTimer(t, now).1, now).0
    ensures !CheckTimer(t, now).0 ==> CheckTimer(t, now).1 == t
  {
  }

  /** What one `_update` does: the timer after it and the writes sent to
      the Statcom. */
  datatype Step = Step(timer: Timer, writes: seq<Statcom.Write>)

  /** `_update` at time `now`. The two `update_read` results are
      parameters; they are consulted only when the timer fires, and a read
      or payload failure propagates. */
  function Update(t: Timer, now: real, meterRead: Result<map<string, Value>>,
                  statcomRead: Result<map<string, Value>>): (r: Result<Step>)
    ensures r.Ok? ==> |r.value.writes| <= 1 && r.value.timer.period == t.period
    ensures r.Ok? ==> (|r.value.writes| == 1 <==> TimedOut(now, t.since, t.period))
    ensures TimedOut(now, t.since, t.period) && meterRead.Err? ==> r == Err(meterRead.error)
  {
    var (fired, next) := CheckTimer(t, now);
    if !fired then Ok(Step(t, []))
    else
      var meter :- meterRead;
      var statcom :- statcomRead;
      var w :- Payload(meter, statcom);
      Ok(Step(next, [w]))
  }

  /** Before the period has elapsed `_update` reads nothing, writes nothing
      and keeps its timer, whatever the devices would answer; once it has
      elapsed it writes exactly the payload, once, and restarts the
      timer at `now`. */
  lemma UpdateGate(t: Timer, now: real, meterRead: Result<map<string, Value>>,
                   statcomRead: Result<map<string, Value>>)
    ensures !TimedOut(now, t.since, t.period) ==> Update(t, now, meterRead, statcomRead) == Ok(Step(t, []))
    ensures TimedOut(now, t.since, t.period) && meterRead.Ok? && statcomRead.Ok? ==>
      (Update(t, now, meterRead, statcomRead).Ok? <==> Payload(meterRead.value, statcomRead.value).Ok?)
    ensures Update(t, now, meterRead, statcomRead).Ok? && TimedOut(now, t.since, t.period) ==>
      && Update(t, now, meterRead, statcomRead).value.timer == t.(since := now)
      && Update(t, now, meterRead, statcomRead).value.writes == [Payload(meterRead.value, statcomRead.value).value]
  {
  }
}
