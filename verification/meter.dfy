/** The Satec meter variant of the edge device: its identity is read from
    the device's MAC registers and written as hexadecimal text, its
    waveform rows carry an integer header ahead of 16-bit samples, and it
    ignores every command. */
module Meter {
  import opened Wrappers
  import opened Values
  import opened RegisterMap
  import opened Decoder
  import opened Transport
  import opened Session
  import opened Bus
  import opened Int16

  /** The block `get_device_id` reads: three registers from 46176. */
  const MacBlock := Block(46176, 4)

  function HexDigit(n: nat): (c: char)
    requires n < 16
  {
    "0123456789abcdef"[n]
  }

  /** The value of a lowercase hexadecimal digit. */
  function HexValue(c: char): (r: Option<nat>)
    ensures r.Some? ==> r.value < 16
  {
    if '0' <= c <= '9' then Some(c as int - '0' as int)
    else if 'a' <= c <= 'f' then Some(c as int - 'a' as int + 10)
    else None
  }

  lemma HexValueOfDigit(n: nat)
    requires n < 16
    ensures HexValue(HexDigit(n)) == Some(n)
  {
  }

  /** `bytes.hex()`: two lowercase digits per byte, high nibble first. */
  function Hex(bytes: seq<Byte>): (s: string)
    ensures |s| == 2 * |bytes|
  {
    if |bytes| == 0 then [] else [HexDigit(bytes[0] / 16), HexDigit(bytes[0] % 16)] + Hex(bytes[1..])
  }

  /** `bytes.fromhex` restricted to the lowercase digits `hex()` writes. */
  function FromHex(s: string): (r: Option<seq<Byte>>)
    ensures r.Some? ==> 2 * |r.value| == |s|
    decreases |s|
  {
    if |s| == 0 then Some([])
    else if |s| == 1 then None
    else
      match (HexValue(s[0]), HexValue(s[1]), FromHex(s[2..]))
      case (Some(high), Some(low), Some(rest)) => Some([16 * high + low] + rest)
      case _ => None
  }

  lemma {:induction false} HexRoundTrip(bytes: seq<Byte>)
    ensures FromHex(Hex(bytes)) == Some(bytes)
  {
    if |bytes| > 0 {
      var s, b := Hex(bytes), bytes[0];
      assert s[0] == HexDigit(b / 16) && s[1] == HexDigit(b % 16) && s[2..] == Hex(bytes[1..]);
      HexRoundTrip(bytes[1..]);
      HexValueOfDigit(b / 16);
      HexValueOfDigit(b % 16);
      FromHexStep(s);
      assert [b] + bytes[1..] == bytes;
    }
  }

  /** Two digits and a decodable rest decode to one byte and that rest. */
  lemma FromHexStep(s: string)
    requires |s| >= 2 && HexValue(s[0]).Some? && HexValue(s[1]).Some? && FromHex(s[2..]).Some?
    ensures FromHex(s) == Some([16 * HexValue(s[0]).value + HexValue(s[1]).value] + FromHex(s[2..]).value)
  {
  }

  /** The identity text of the words read: each word as its low byte then
      its high byte, in hexadecimal. */
  function DeviceIdOf(words: seq<Word>): (id: string)
    ensures |id| == 4 * |words|
  {
    Hex(WordBytes(words))
  }

  /** The identity text gives the words back: the four digits of word `i`
      spell `words[i] % 256` then `words[i] / 256`. */
  lemma DeviceIdRoundTrip(words: seq<Word>)
    ensures FromHex(DeviceIdOf(words)).Some?
    ensures var bytes := FromHex(DeviceIdOf(words)).value;
      |bytes| == 2 * |words|
      && forall i :: 0 <= i < |words| ==> words[i] == bytes[2 * i] as int + 0x100 * bytes[2 * i + 1] as int
  {
    HexRoundTrip(WordBytes(words));
  }

  /** `get_device_id`: the text of the words `read_modbus` gathers for the
      MAC block; a device that never answers stalls the call. */
  function GetDeviceId(outcomes: seq<Outcome>): (r: Result<string>)
    ensures r.Ok? ==> |r.value| % 4 == 0
    ensures r.Ok? <==> |Answers(outcomes)| >= 1
    ensures r.Err? ==> r == Err("Stalled")
  {
    OneBlockReadsFirstAnswer(MacBlock, outcomes, AllowedAttempts);
    match Run([MacBlock], outcomes, AllowedAttempts)
    case None => Err("Stalled")
    case Some(reading) => Ok(DeviceIdOf(reading.words))
  }

  /** One block is read from the first answer, after any number of
      failures. */
  lemma {:induction false} OneBlockReadsFirstAnswer(b: Block, outcomes: seq<Outcome>, counter: nat)
    requires counter <= AllowedAttempts
    ensures Run([b], outcomes, counter).Some? <==> |Answers(outcomes)| >= 1
    ensures Run([b], outcomes, counter).Some? ==> Run([b], outcomes, counter).value.words == Answers(outcomes)[0]
    decreases |outcomes|
  {
    if |outcomes| > 0 {
      match outcomes[0]
      case Failed =>
        var (next, _) := AfterFailure(counter);
        OneBlockReadsFirstAnswer(b, outcomes[1..], next);
      case Answered(ws) =>
        assert [b][1..] == [];
        assert ws + [] == ws;
    }
  }

  /** The identity is the hexadecimal text of the device's first answer, and
      there is none while the device has not answered. The three registers
      requested give a twelve-digit identity. */
  lemma DeviceIdIsFirstAnswer(outcomes: seq<Outcome>)
    ensures GetDeviceId(outcomes).Ok? <==> |Answers(outcomes)| >= 1
    ensures GetDeviceId(outcomes).Ok? ==> GetDeviceId(outcomes).value == DeviceIdOf(Answers(outcomes)[0])
    ensures GetDeviceId(outcomes).Ok? && |Answers(outcomes)[0]| == MacBlock.size - 1 ==> |GetDeviceId(outcomes).value| == 12
  {
    OneBlockReadsFirstAnswer(MacBlock, outcomes, AllowedAttempts);
  }

  /** The fixed header of a waveform row. */
  datatype Header = Header(offset: int, multiplier: int, divisor: int)

  /** Words 27 to 30 of a row: the offset, a 16-bit word read as signed;
      the multiplier, words 28 and 29 low word first; the divisor, word
      30. A shorter row raises `IndexError`. */
  function WaveformHeader(row: seq<Word>): (r: Result<Header>)
    ensures r.Ok? <==> |row| >= 31
    ensures r.Ok? ==> r.value.divisor == row[30]
  {
    if |row| < 31 then Err("IndexError")
    else
      var offset: int := if row[27] >= 32768 then row[27] as int - 65536 else row[27];
      Ok(Header(offset, row[28] as int + 65536 * row[29] as int, row[30]))
  }

  /** The header fields are what `struct` reads from the same words: an
      `'h'` field at word 27 and an `'I'` field over words 28 and 29. */
  lemma HeaderAsStructFields(row: seq<Word>, ieee: (nat, nat) -> real)
    requires |row| >= 31
    ensures var h := WaveformHeader(row).value;
      && Unpack("h", WordBytes([row[27]]), ieee) == Ok([h.offset as real])
      && Unpack("I", WordBytes([row[28], row[29]]), ieee) == Ok([h.multiplier as real])
      && h.offset == Signed(row[27], 2)
      && h.divisor == row[30]
  {
    WordAsSigned16(row[27], ieee);
    WordsAsUnsigned32(row[28], row[29], ieee);
    assert Pow256(2) == 0x1_0000;
  }

  /** `np.array(row[33:], dtype=np.int16)`: every word after the header
      read as a signed 16-bit value. */
  function Samples(row: seq<Word>): (r: seq<int>)
    ensures |row| <= 33 ==> r == []
    ensures |row| > 33 ==> |r| == |row| - 33
  {
    if |row| <= 33 then [] else seq(|row| - 33, i requires 0 <= i < |row| - 33 => Signed(row[33 + i], 2))
  }

  /** Each sample is the register's word read back: writing it with the
      16-bit encoding of negative values gives the original word. */
  lemma SamplesReadBack(row: seq<Word>, i: nat)
    requires 33 + i < |row|
    ensures -0x8000 <= Samples(row)[i] < 0x8000
    ensures ToWord(Samples(row)[i]) == row[33 + i]
  {
    assert Pow256(2) == 0x1_0000;
  }

  /** The scale of each of the six waveform rows: volts, then amps. */
  const WaveformScalars: seq<real> := [0.1, 0.1, 0.1, 0.01, 0.01, 0.01]

  /** One physical value: `(sample - offset) * multiplier / divisor *
      scalar`. */
  function Physical(h: Header, sample: int, scalar: real): real
    requires h.divisor != 0
  {
    (sample - h.offset) as real * h.multiplier as real / h.divisor as real * scalar
  }

  /** The row at position `idx`. A row index past the scalar table raises
      `IndexError`; a zero divisor makes `numpy` produce infinities, which
      this model does not represent. */
  function WaveformRow(row: seq<Word>, idx: nat): (r: Result<seq<real>>)
    ensures r.Ok? <==> |row| >= 31 && idx < |WaveformScalars| && row[30] != 0
    ensures r.Ok? ==> |r.value| == |Samples(row)|
  {
    var h :- WaveformHeader(row);
    if idx >= |WaveformScalars| then Err("IndexError")
    else if h.divisor == 0 then Err("NotModelled")
    else
      var samples := Samples(row);
      Ok(seq(|samples|, i requires 0 <= i < |samples| => Physical(h, samples[i], WaveformScalars[idx])))
  }

  /** `decode_waveform` from row `idx` on. */
  function DecodeRows(rows: seq<seq<Word>>, idx: nat): (r: Result<seq<seq<real>>>)
    ensures r.Ok? ==> |r.value| == |rows|
    ensures r.Ok? ==> forall k :: 0 <= k < |rows| ==>
      |rows[k]| >= 31 && rows[k][30] != 0 && |r.value[k]| == |Samples(rows[k])|
    decreases |rows|
  {
    if |rows| == 0 then Ok([])
    else
      var first :- WaveformRow(rows[0], idx);
      var rest :- DecodeRows(rows[1..], idx + 1);
      Ok([first] + rest)
  }

  /** `decode_waveform(rows)`. */
  function DecodeWaveform(rows: seq<seq<Word>>): (r: Result<seq<seq<real>>>)
    ensures r.Ok? ==> |r.value| == |rows|
    ensures r.Ok? ==> forall k :: 0 <= k < |rows| ==>
      |rows[k]| >= 31 && rows[k][30] != 0 && |r.value[k]| == |Samples(rows[k])|
  {
    DecodeRows(rows, 0)
  }

  /** The waveform decodes exactly when there are at most six rows, each
      holding a header with a nonzero divisor; it then has one output row
      per input row, in order, and output row `k` holds one value per
      sample of input row `k`. */
  lemma {:induction false} DecodeRowsShape(rows: seq<seq<Word>>, idx: nat)
    ensures DecodeRows(rows, idx).Ok? <==>
      && (|rows| > 0 ==> idx + |rows| <= |WaveformScalars|)
      && forall k :: 0 <= k < |rows| ==> |rows[k]| >= 31 && rows[k][30] != 0
    ensures DecodeRows(rows, idx).Ok? ==>
      && |DecodeRows(rows, idx).value| == |rows|
      && forall k :: 0 <= k < |rows| ==>
           var h := WaveformHeader(rows[k]).value;
           var out := DecodeRows(rows, idx).value[k];
           && |out| == |Samples(rows[k])|
           && forall i :: 0 <= i < |out| ==> out[i] == Physical(h, Samples(rows[k])[i], WaveformScalars[idx + k])
    decreases |rows|
  {
    if |rows| > 0 {
      DecodeRowsShape(rows[1..], idx + 1);
      assert forall k :: 1 <= k < |rows| ==> rows[k] == rows[1..][k - 1];
    }
    if DecodeRows(rows, idx).Ok? {
      forall k | 0 <= k < |rows|
        ensures var h := WaveformHeader(rows[k]).value;
          var out := DecodeRows(rows, idx).value[k];
          && |out| == |Samples(rows[k])|
          && forall i :: 0 <= i < |out| ==> out[i] == Physical(h, Samples(rows[k])[i], WaveformScalars[idx + k])
      {
        DecodeRowsAt(rows, idx, k);
      }
    }
  }

  /** The rows are decoded with the scalars in order: row 0 to 2 as volts
      (0.1), rows 3 to 5 as amps (0.01). */
  lemma WaveformScales(rows: seq<seq<Word>>, k: nat, i: nat)
    requires DecodeWaveform(rows).Ok? && k < |rows|
    requires i < |Samples(rows[k])|
    ensures var h := WaveformHeader(rows[k]).value;
      DecodeWaveform(rows).value[k][i] == Physical(h, Samples(rows[k])[i], if k < 3 then 0.1 else 0.01)
  {
    DecodeRowsAt(rows, 0, k);
    var out := WaveformRow(rows[k], k).value;
    assert DecodeWaveform(rows).value[k] == out;
    assert out[i] == Physical(WaveformHeader(rows[k]).value, Samples(rows[k])[i], WaveformScalars[k]);
    assert WaveformScalars[k] == if k < 3 then 0.1 else 0.01;
  }

  /** Output row `k` is input row `k` decoded at position `idx + k`. */
  lemma {:induction false} DecodeRowsAt(rows: seq<seq<Word>>, idx: nat, k: nat)
    requires DecodeRows(rows, idx).Ok? && k < |rows|
    ensures WaveformRow(rows[k], idx + k).Ok?
    ensures DecodeRows(rows, idx).value[k] == WaveformRow(rows[k], idx + k).value
    decreases k
  {
    DecodeRowsCons(rows, idx);
    if k > 0 {
      DecodeRowsAt(rows[1..], idx + 1, k - 1);
      assert rows[1..][k - 1] == rows[k];
    }
  }

  /** A decoded waveform is its first row decoded, followed by the rest. */
  lemma DecodeRowsCons(rows: seq<seq<Word>>, idx: nat)
    requires DecodeRows(rows, idx).Ok? && |rows| > 0
    ensures WaveformRow(rows[0], idx).Ok? && DecodeRows(rows[1..], idx + 1).Ok?
    ensures DecodeRows(rows, idx).value == [WaveformRow(rows[0], idx).value] + DecodeRows(rows[1..], idx + 1).value
  {
  }

  /** A seventh row raises, whatever it holds. */
  lemma SeventhRowRaises(rows: seq<seq<Word>>)
    requires |rows| > |WaveformScalars|
    ensures DecodeWaveform(rows).Err?
  {
    DecodeRowsShape(rows, 0);
  }

  /** The keys the meter names as holding datetimes. */
  const DatetimeValues := ["time"]

  /** `handle_command`: the meter takes no commands and leaves the device
      as it is. */
  function MeterCommand(dev: EdgeDevice, data: Value): (r: Result<EdgeDevice>)
    ensures r == Ok(dev)
  {
    Ok(dev)
  }

  /** Commands never fail and never change a meter: a stream of commands
      alone leaves it as it was. */
  lemma {:induction false} MeterIgnoresCommands(dev: EdgeDevice, calls: seq<Call>)
    requires forall i :: 0 <= i < |calls| ==> calls[i].HandleCommand?
    ensures Dispatch(dev, calls, MeterCommand) == Ok(dev)
    decreases |calls|
  {
    if |calls| > 0 {
      MeterIgnoresCommands(dev, calls[1..]);
    }
  }

  /** Whatever `listen` delivers, a meter changes nothing but its safe
      mode, and it fails only on an error code it cannot read. */
  lemma {:induction false} MeterOnlySwitchesSafeMode(dev: EdgeDevice, calls: seq<Call>)
    ensures Dispatch(dev, calls, MeterCommand).Ok? <==>
      forall i :: 0 <= i < |calls| && calls[i].HandleError? ==> ErrorCode(calls[i].errorData).Ok?
    ensures Dispatch(dev, calls, MeterCommand).Ok? ==>
      Dispatch(dev, calls, MeterCommand).value == dev.(safeMode := Dispatch(dev, calls, MeterCommand).value.safeMode)
    decreases |calls|
  {
    if |calls| > 0 {
      var next := match calls[0]
        case HandleError(data) => HandleErrorCode(dev, data)
        case HandleCommand(data) => MeterCommand(dev, data);
      if next.Ok? {
        MeterOnlySwitchesSafeMode(next.value, calls[1..]);
        assert forall i :: 1 <= i < |calls| ==> calls[i] == calls[1..][i - 1];
      }
    }
  }
}
