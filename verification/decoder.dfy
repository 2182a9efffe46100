/** The decoding half of `update_read`: the words read from the device are
    laid out little-endian, unpacked with the `struct` format `'<'` followed
    by the slots' codes, scaled, offset, rounded to one decimal, keyed by the
    slots' names, and stripped of the pad entries. */
module Decoder {
  import opened Wrappers
  import opened Text
  import opened Values
  import opened RegisterMap

  /** A 16-bit register value. */
  type Word = w: int | 0 <= w < 0x1_0000

  type Byte = b: int | 0 <= b < 0x100

  /** `np.array(words, dtype='<u2').tobytes()`: low byte first. */
  function WordBytes(words: seq<Word>): (bytes: seq<Byte>)
    ensures |bytes| == 2 * |words|
    ensures forall i :: 0 <= i < |words| ==> bytes[2 * i] == words[i] % 0x100 && bytes[2 * i + 1] == words[i] / 0x100
  {
    if |words| == 0 then []
    else
      var rest := WordBytes(words[1..]);
      var r := [words[0] % 0x100, words[0] / 0x100] + rest;
      assert forall i :: 1 <= i < |words| ==> r[2 * i] == rest[2 * (i - 1)] && r[2 * i + 1] == rest[2 * (i - 1) + 1];
      r
  }

  /** The size in bytes of a `struct` code under the `'<'` prefix, for the
      codes this model decodes. */
  function CodeSize(code: char): Option<nat> {
    match code
    case 'b' => Some(1)
    case 'B' => Some(1)
    case 'h' => Some(2)
    case 'H' => Some(2)
    case 'e' => Some(2)
    case 'i' => Some(4)
    case 'I' => Some(4)
    case 'l' => Some(4)
    case 'L' => Some(4)
    case 'f' => Some(4)
    case 'q' => Some(8)
    case 'Q' => Some(8)
    case 'd' => Some(8)
    case _ => None
  }

  /** Codes `struct` accepts under `'<'` but whose values are not numbers
      (`x c s p ?`), repeat-count digits and spacing: outside the model. */
  predicate UnmodelledCode(code: char) {
    code in "xcsp?0123456789 \t\n"
  }

  predicate IsFloatCode(code: char) {
    code == 'e' || code == 'f' || code == 'd'
  }

  predicate IsSignedCode(code: char) {
    code == 'b' || code == 'h' || code == 'i' || code == 'l' || code == 'q'
  }

  /** `struct.calcsize('<' + codes)`. */
  function FormatSize(codes: seq<char>): (n: Option<nat>)
    ensures n.Some? <==> forall i :: 0 <= i < |codes| ==> CodeSize(codes[i]).Some?
  {
    if |codes| == 0 then Some(0)
    else
      match (CodeSize(codes[0]), FormatSize(codes[1..]))
      case (Some(a), Some(b)) => Some(a + b)
      case (_, _) => None
  }

  /** `256 ** n`, the number of values `n` bytes hold. */
  function Pow256(n: nat): (p: nat)
    ensures p >= 1
    ensures n == 2 ==> p == 0x1_0000
    ensures n == 4 ==> p == 0x1_0000_0000
  {
    if n == 0 then 1 else 0x100 * Pow256(n - 1)
  }

  /** The unsigned value of little-endian bytes. */
  function LittleEndian(bytes: seq<Byte>): (v: nat)
    ensures v < Pow256(|bytes|)
  {
    if |bytes| == 0 then 0 else bytes[0] + 0x100 * LittleEndian(bytes[1..])
  }

  /** Two's-complement reading of an unsigned value of `width` bytes. */
  function Signed(u: nat, width: nat): int {
    if width > 0 && u >= Pow256(width) / 2 then u - Pow256(width) else u
  }

  /** The value of one field. The bit patterns of the IEEE codes are
      handed to `ieee`, the platform's float conversion. */
  function FieldValue(code: char, bytes: seq<Byte>, ieee: (nat, nat) -> real): real
  {
    var u := LittleEndian(bytes);
    if IsFloatCode(code) then ieee(u, |bytes|)
    else if IsSignedCode(code) then Signed(u, |bytes|) as real
    else u as real
  }

  /** The fields of `bytes` under `codes`, which are all sized and whose
      sizes add up to the byte count. */
  function Fields(codes: seq<char>, bytes: seq<Byte>, ieee: (nat, nat) -> real): (r: seq<real>)
    requires FormatSize(codes) == Some(|bytes|)
    ensures |r| == |codes|
  {
    if |codes| == 0 then []
    else
      var n := CodeSize(codes[0]).value;
      [FieldValue(codes[0], bytes[..n], ieee)] + Fields(codes[1..], bytes[n..], ieee)
  }

  /** `struct.unpack('<' + codes, bytes)`: `struct.error` for an unknown
      code or a byte count other than the format's size. */
  function Unpack(codes: seq<char>, bytes: seq<Byte>, ieee: (nat, nat) -> real): (r: Result<seq<real>>)
    ensures r.Ok? <==> FormatSize(codes) == Some(|bytes|)
    ensures r.Ok? ==> |r.value| == |codes|
    ensures (exists i :: 0 <= i < |codes| && CodeSize(codes[i]).None? && !UnmodelledCode(codes[i])) ==> r == Err("struct.error")
  {
    if FormatSize(codes) == Some(|bytes|) then Ok(Fields(codes, bytes, ieee))
    else if exists i :: 0 <= i < |codes| && CodeSize(codes[i]).None? && !UnmodelledCode(codes[i]) then Err("struct.error")
    else if exists i :: 0 <= i < |codes| && UnmodelledCode(codes[i]) then Err("NotModelled")
    else Err("struct.error")
  }

  /** `np.round(x, 1)`: to the nearest tenth, ties to the even tenth. */
  function Round1(x: real): (r: real)
    ensures -1.0 / 20.0 <= r - x <= 1.0 / 20.0
    ensures (r * 10.0).Floor as real == r * 10.0
  {
    var y := x * 10.0;
    var n := NearestEven(y);
    TenthNear(x, n);
    n as real / 10.0
  }

  /** The integer nearest to `y`, the even one on a tie. */
  function NearestEven(y: real): (n: int)
    ensures -0.5 <= n as real - y <= 0.5
  {
    var f := y.Floor;
    var frac := y - f as real;
    if frac < 0.5 then f else if frac > 0.5 then f + 1 else if f % 2 == 0 then f else f + 1
  }

  lemma TenthNear(x: real, n: int)
    requires -0.5 <= n as real - x * 10.0 <= 0.5
    ensures -1.0 / 20.0 <= n as real / 10.0 - x <= 1.0 / 20.0
    ensures ((n as real / 10.0) * 10.0).Floor as real == (n as real / 10.0) * 10.0
  {
    assert (n as real / 10.0) * 10.0 == n as real;
  }

  /** A value already on a tenth is left as it is. */
  lemma Round1OnTenths(n: int)
    ensures Round1(n as real / 10.0) == n as real / 10.0
  {
    assert (n as real / 10.0) * 10.0 == n as real;
  }

  /** `dict(zip(keys, values))`: a later key overrides an earlier one. */
  function ZipMap(keys: seq<string>, values: seq<real>): (m: map<string, Value>)
    requires |keys| == |values|
    ensures m.Keys == set k | k in keys
    ensures forall i :: 0 <= i < |keys| && LastOf(keys, i) ==> m[keys[i]] == Real(values[i])
    ensures forall k :: k in m ==> m[k].Real?
  {
    if |keys| == 0 then map[]
    else
      var n := |keys| - 1;
      var init := keys[..n];
      var m := ZipMap(init, values[..n]);
      LastOfInit(keys);
      KeysOfSnoc(keys);
      m[keys[n] := Real(values[n])]
  }

  lemma LastOfInit(keys: seq<string>)
    requires |keys| > 0
    ensures forall i :: 0 <= i < |keys| - 1 && LastOf(keys, i) ==>
      LastOf(keys[..|keys| - 1], i) && keys[i] != keys[|keys| - 1] && keys[..|keys| - 1][i] == keys[i]
  {
  }

  lemma KeysOfSnoc(keys: seq<string>)
    requires |keys| > 0
    ensures forall k :: k in keys <==> k in keys[..|keys| - 1] || k == keys[|keys| - 1]
  {
    assert keys == keys[..|keys| - 1] + [keys[|keys| - 1]];
  }

  /** Position `i` holds the last occurrence of its key. */
  predicate LastOf(keys: seq<string>, i: nat)
    requires i < |keys|
  {
    forall j :: i < j < |keys| ==> keys[j] != keys[i]
  }

  /** Removes every key that `re.search("unused*", key)` matches, that is,
      every key containing `unuse`. */
  function RemoveUnused(m: map<string, Value>): (r: map<string, Value>)
    ensures forall k :: k in r <==> k in m && !Contains(k, "unuse")
    ensures forall k :: k in r ==> r[k] == m[k]
  {
    map k | k in m && !Contains(k, "unuse") :: m[k]
  }

  function Codes(slots: seq<Slot>): (codes: seq<char>)
    ensures |codes| == |slots| && forall i :: 0 <= i < |slots| ==> codes[i] == slots[i].dtype
  {
    seq(|slots|, i requires 0 <= i < |slots| => slots[i].dtype)
  }

  function Keys(slots: seq<Slot>): (keys: seq<string>)
    ensures |keys| == |slots| && forall i :: 0 <= i < |slots| ==> keys[i] == KeyText(slots[i].name)
  {
    seq(|slots|, i requires 0 <= i < |slots| => KeyText(slots[i].name))
  }

  /** `round(scalar * value + offset, 1)` for one slot. */
  function ScaleValue(slot: Slot, value: real): real {
    Round1(slot.scalar * value + slot.offset)
  }

  function Scaled(slots: seq<Slot>, values: seq<real>): (r: seq<real>)
    requires |values| == |slots|
    ensures |r| == |slots|
    ensures forall i :: 0 <= i < |slots| ==> r[i] == ScaleValue(slots[i], values[i])
  {
    seq(|slots|, i requires 0 <= i < |slots| => ScaleValue(slots[i], values[i]))
  }

  /** The decoding half of `update_read`. */
  function DecodeWords(slots: seq<Slot>, words: seq<Word>, ieee: (nat, nat) -> real): (r: Result<map<string, Value>>)
    ensures r.Ok? <==> FormatSize(Codes(slots)) == Some(2 * |words|)
    ensures r.Ok? ==> forall k :: k in r.value <==> k in Keys(slots) && !Contains(k, "unuse")
    ensures r.Ok? ==> forall k :: k in r.value ==> r.value[k].Real?
    ensures r.Ok? ==> forall i :: 0 <= i < |slots| && LastOf(Keys(slots), i) && !Contains(KeyText(slots[i].name), "unuse") ==>
              r.value[KeyText(slots[i].name)]
                == Real(ScaleValue(slots[i], Unpack(Codes(slots), WordBytes(words), ieee).value[i]))
  {
    var values :- Unpack(Codes(slots), WordBytes(words), ieee);
    Ok(RemoveUnused(ZipMap(Keys(slots), Scaled(slots, values))))
  }

  /** No pad survives decoding. */
  lemma PadsAreDropped(slots: seq<Slot>, words: seq<Word>, ieee: (nat, nat) -> real, address: int)
    requires DecodeWords(slots, words, ieee).Ok?
    ensures PadName(address) !in DecodeWords(slots, words, ieee).value
  {
    PadNameIsUnused(address);
  }

  lemma LittleEndian2(b0: Byte, b1: Byte)
    ensures LittleEndian([b0, b1]) == b0 + 0x100 * b1
  {
    assert [b0, b1][1..][1..] == [];
  }

  lemma LittleEndian4(b0: Byte, b1: Byte, b2: Byte, b3: Byte)
    ensures LittleEndian([b0, b1, b2, b3]) == b0 + 0x100 * b1 + 0x1_0000 * (b2 + 0x100 * b3)
  {
    var s := [b0, b1, b2, b3];
    assert s[1..] == [b1, b2, b3] && s[1..][1..] == [b2, b3];
    LittleEndian2(b2, b3);
  }

  lemma WordBytesOne(w: Word)
    ensures WordBytes([w]) == [w % 0x100, w / 0x100]
  {
    assert [w][1..] == [];
  }

  lemma WordBytesTwo(low: Word, high: Word)
    ensures WordBytes([low, high]) == [low % 0x100, low / 0x100, high % 0x100, high / 0x100]
  {
    assert [low, high][1..] == [high];
    WordBytesOne(high);
  }

  /** A single code unpacks the whole byte string. */
  lemma UnpackOne(code: char, bytes: seq<Byte>, ieee: (nat, nat) -> real)
    requires CodeSize(code) == Some(|bytes|)
    ensures Unpack([code], bytes, ieee) == Ok([FieldValue(code, bytes, ieee)])
  {
    assert [code][1..] == [];
    assert FormatSize([code]) == Some(|bytes|);
    assert bytes[..|bytes|] == bytes;
    assert Fields([code], bytes, ieee) == [FieldValue(code, bytes[..|bytes|], ieee)] + Fields([], bytes[|bytes|..], ieee);
    assert Fields([code], bytes, ieee) == [FieldValue(code, bytes, ieee)];
    assert Unpack([code], bytes, ieee) == Ok(Fields([code], bytes, ieee));
  }

  /** An unsigned 16-bit field is the word itself. */
  lemma WordAsUnsigned16(w: Word, ieee: (nat, nat) -> real)
    ensures Unpack("H", WordBytes([w]), ieee) == Ok([w as real])
  {
    WordBytesOne(w);
    LittleEndian2(w % 0x100, w / 0x100);
    UnpackOne('H', WordBytes([w]), ieee);
  }

  /** A signed 16-bit field is the word read as two's complement. */
  lemma WordAsSigned16(w: Word, ieee: (nat, nat) -> real)
    ensures Unpack("h", WordBytes([w]), ieee) == Ok([(if w >= 0x8000 then w - 0x1_0000 else w) as real])
  {
    WordBytesOne(w);
    LittleEndian2(w % 0x100, w / 0x100);
    UnpackOne('h', WordBytes([w]), ieee);
    assert Pow256(2) == 0x1_0000;
  }

  /** An unsigned 32-bit field spans two words, the first one the low
      half. */
  lemma WordsAsUnsigned32(low: Word, high: Word, ieee: (nat, nat) -> real)
    ensures Unpack("I", WordBytes([low, high]), ieee) == Ok([(low + 0x1_0000 * high) as real])
  {
    WordBytesTwo(low, high);
    LittleEndian4(low % 0x100, low / 0x100, high % 0x100, high / 0x100);
    UnpackOne('I', WordBytes([low, high]), ieee);
  }

  /** The configuration of a block of size 4 at address 0 holding a 32-bit
      `X` at 0 and a 16-bit `Y` at 2, `Y` scaled by 0.1. */
  const ExampleTable := Table(["X", "Y"], [1.0, 0.1], [0.0, 0.0], [0, 2], ['I', 'H'])

  /** The same registers, one address later, as the device configurations
      place them after the block start. */
  const ShiftedTable := ExampleTable.(locations := [1, 3])

  /** A block's plan grows by what its next address contributes. */
  lemma BlockPlanSnoc(t: Table, start: int, n: nat)
    requires t.Valid()
    ensures Concat(Parts(t, start, n + 1)) == Concat(Parts(t, start, n)) + AddressSlots(t, start, n)
  {
    ConcatSnoc(Parts(t, start, n), AddressSlots(t, start, n));
  }

  lemma PlanOfOneBlock(t: Table, b: Block)
    requires t.Valid() && b.size > 0
    ensures Plan(t, [b]) == Concat(Parts(t, b.start, b.size))
  {
    assert [b][..0] == [];
    assert BlockPlans(t, [b]) == [BlockPlan(t, b)];
    ConcatSnoc([], BlockPlan(t, b));
    assert [] + [BlockPlan(t, b)] == [BlockPlan(t, b)];
  }

  lemma ExampleAddresses()
    ensures ExampleTable.Valid()
    ensures AddressSlots(ExampleTable, 0, 0) == [ConfigSlot(ExampleTable, 0)]
    ensures AddressSlots(ExampleTable, 0, 1) == []
    ensures AddressSlots(ExampleTable, 0, 2) == [ConfigSlot(ExampleTable, 1)]
    ensures AddressSlots(ExampleTable, 0, 3) == [Pad(3)]
  {
    var t := ExampleTable;
    assert IndexOf(t.locations, 0) == 0;
    assert IndexOf(t.locations, 2) == 1;
  }

  lemma ShiftedAddresses()
    ensures ShiftedTable.Valid()
    ensures AddressSlots(ShiftedTable, 0, 0) == []
    ensures AddressSlots(ShiftedTable, 0, 1) == [ConfigSlot(ExampleTable, 0)]
    ensures AddressSlots(ShiftedTable, 0, 2) == []
    ensures AddressSlots(ShiftedTable, 0, 3) == [ConfigSlot(ExampleTable, 1)]
    ensures AddressSlots(ShiftedTable, 0, 4) == [Pad(4)]
  {
    var t := ShiftedTable;
    assert IndexOf(t.locations, 1) == 0;
    assert IndexOf(t.locations, 3) == 1;
  }

  lemma ExamplePlan()
    ensures ExampleTable.Valid()
    ensures Plan(ExampleTable, [Block(0, 4)]) == [ConfigSlot(ExampleTable, 0), ConfigSlot(ExampleTable, 1), Pad(3)]
  {
    var t := ExampleTable;
    ExampleAddresses();
    PlanOfOneBlock(t, Block(0, 4));
    BlockPlanSnoc(t, 0, 0);
    BlockPlanSnoc(t, 0, 1);
    BlockPlanSnoc(t, 0, 2);
    BlockPlanSnoc(t, 0, 3);
    assert Concat<Slot>([]) == [];
  }

  lemma ShiftedPlan()
    ensures ShiftedTable.Valid()
    ensures Plan(ShiftedTable, [Block(0, 5)]) == [ConfigSlot(ExampleTable, 0), ConfigSlot(ExampleTable, 1), Pad(4)]
  {
    var t := ShiftedTable;
    ShiftedAddresses();
    PlanOfOneBlock(t, Block(0, 5));
    BlockPlanSnoc(t, 0, 0);
    BlockPlanSnoc(t, 0, 1);
    BlockPlanSnoc(t, 0, 2);
    BlockPlanSnoc(t, 0, 3);
    BlockPlanSnoc(t, 0, 4);
    assert Concat<Slot>([]) == [];
  }

  lemma FormatSizeIHh()
    ensures FormatSize(['I', 'H', 'h']) == Some(8)
  {
    assert ['I', 'H', 'h'][1..] == ['H', 'h'];
    assert ['H', 'h'][1..] == ['h'];
    assert ['h'][1..] == [];
  }

  /** The slots `X: I`, `Y: H` scaled by 0.1, and a pad. */
  lemma CodesOfExample(pad: int)
    ensures Codes([ConfigSlot(ExampleTable, 0), ConfigSlot(ExampleTable, 1), Pad(pad)]) == ['I', 'H', 'h']
  {
  }

  /** With that block the plan needs 8 bytes while the read asks for
      `size - 1 = 3` words, 6 bytes: `struct.unpack` raises. */
  lemma StartAtFirstRegisterFails(words: seq<Word>, ieee: (nat, nat) -> real)
    requires |words| == 3
    ensures Plan(ExampleTable, [Block(0, 4)]) == [ConfigSlot(ExampleTable, 0), ConfigSlot(ExampleTable, 1), Pad(3)]
    ensures DecodeWords(Plan(ExampleTable, [Block(0, 4)]), words, ieee).Err?
  {
    ExamplePlan();
    CodesOfExample(3);
    FormatSizeIHh();
  }

  /** The same registers in a block starting one address earlier, as the
      device configurations write them: the plan needs 8 bytes and the read
      asks for `size - 1 = 4` words. */
  lemma StartBeforeFirstRegisterPlan()
    ensures Plan(ShiftedTable, [Block(0, 5)]) == [ConfigSlot(ExampleTable, 0), ConfigSlot(ExampleTable, 1), Pad(4)]
    ensures FormatSize(Codes(Plan(ShiftedTable, [Block(0, 5)]))) == Some(2 * 4)
  {
    ShiftedPlan();
    CodesOfExample(4);
    FormatSizeIHh();
  }

  lemma ExampleBytes()
    ensures WordBytes([1, 0, 50, 0]) == [1, 0, 0, 0, 50, 0, 0, 0]
  {
  }

  /** `Fields` takes the first code's bytes off the front. */
  lemma FieldsStep(codes: seq<char>, bytes: seq<Byte>, ieee: (nat, nat) -> real)
    requires |codes| > 0 && FormatSize(codes) == Some(|bytes|)
    ensures CodeSize(codes[0]).Some? && CodeSize(codes[0]).value <= |bytes|
    ensures FormatSize(codes[1..]) == Some(|bytes| - CodeSize(codes[0]).value)
    ensures Fields(codes, bytes, ieee)
         == [FieldValue(codes[0], bytes[..CodeSize(codes[0]).value], ieee)]
            + Fields(codes[1..], bytes[CodeSize(codes[0]).value..], ieee)
  {
  }

  lemma ExampleFieldValues(ieee: (nat, nat) -> real)
    ensures FieldValue('I', [1, 0, 0, 0], ieee) == 1.0
    ensures FieldValue('H', [50, 0], ieee) == 50.0
    ensures FieldValue('h', [0, 0], ieee) == 0.0
  {
    LittleEndian4(1, 0, 0, 0);
    LittleEndian2(50, 0);
    LittleEndian2(0, 0);
  }

  lemma ExampleTailFields(ieee: (nat, nat) -> real)
    ensures FormatSize(['H', 'h']) == Some(4)
    ensures Fields(['H', 'h'], [50, 0, 0, 0], ieee) == [50.0, 0.0]
  {
    var b: seq<Byte> := [50, 0, 0, 0];
    assert ['H', 'h'][1..] == ['h'] && ['h'][1..] == [];
    FieldsStep(['H', 'h'], b, ieee);
    assert b[..2] == [50, 0] && b[2..] == [0, 0];
    FieldsStep(['h'], [0, 0], ieee);
    assert [0, 0][..2] == [0, 0] && [0, 0][2..] == [];
    ExampleFieldValues(ieee);
  }

  lemma ExampleFields(ieee: (nat, nat) -> real)
    ensures Unpack(['I', 'H', 'h'], WordBytes([1, 0, 50, 0]), ieee) == Ok([1.0, 50.0, 0.0])
  {
    var b: seq<Byte> := [1, 0, 0, 0, 50, 0, 0, 0];
    ExampleBytes();
    FormatSizeIHh();
    assert ['I', 'H', 'h'][1..] == ['H', 'h'];
    FieldsStep(['I', 'H', 'h'], b, ieee);
    assert b[..4] == [1, 0, 0, 0] && b[4..] == [50, 0, 0, 0];
    ExampleTailFields(ieee);
    ExampleFieldValues(ieee);
    var f := Fields(['I', 'H', 'h'], b, ieee);
    assert f == [1.0] + [50.0, 0.0];
    assert f == [1.0, 50.0, 0.0];
    assert Unpack(['I', 'H', 'h'], b, ieee) == Ok(f);
  }

  /** The slots of the shifted plan. */
  const ExampleSlots := [ConfigSlot(ExampleTable, 0), ConfigSlot(ExampleTable, 1), Pad(4)]

  lemma ExampleKeys()
    ensures var k := Keys(ExampleSlots); |k| == 3 && k[0] == "X" && k[1] == "Y" && k[2] == PadName(4)
    ensures Contains(PadName(4), "unuse") && |PadName(4)| > 1
    ensures LastOf(Keys(ExampleSlots), 0) && LastOf(Keys(ExampleSlots), 1)
  {
    PadNameIsUnused(4);
  }

  lemma ExampleScales()
    ensures ScaleValue(ExampleSlots[0], 1.0) == 1.0
    ensures ScaleValue(ExampleSlots[1], 50.0) == 5.0
  {
    Round1OnTenths(10);
    Round1OnTenths(50);
  }

  lemma ShortTextHasNoPad(k: string)
    requires |k| == 1
    ensures !Contains(k, "unuse")
  {
    if Contains(k, "unuse") {
      ContainsIsLonger(k, "unuse");
    }
  }

  /** Decoding four words under those slots keeps exactly `X` and `Y`. */
  lemma ExampleDecodeKeys(ieee: (nat, nat) -> real)
    ensures DecodeWords(ExampleSlots, [1, 0, 50, 0], ieee).Ok?
    ensures forall k :: k in DecodeWords(ExampleSlots, [1, 0, 50, 0], ieee).value ==> k == "X" || k == "Y"
    ensures "X" in DecodeWords(ExampleSlots, [1, 0, 50, 0], ieee).value
    ensures "Y" in DecodeWords(ExampleSlots, [1, 0, 50, 0], ieee).value
  {
    CodesOfExample(4);
    FormatSizeIHh();
    ExampleKeys();
    ShortTextHasNoPad("X");
    ShortTextHasNoPad("Y");
    var r := DecodeWords(ExampleSlots, [1, 0, 50, 0], ieee);
    KeysBesidesPad(r.value, Keys(ExampleSlots));
  }

  /** A map keyed by the non-pad keys of three, the last a pad, holds at
      most the first two. */
  lemma KeysBesidesPad(m: map<string, Value>, keys: seq<string>)
    requires forall k :: k in m <==> k in keys && !Contains(k, "unuse")
    requires |keys| == 3 && Contains(keys[2], "unuse")
    ensures forall k :: k in m ==> k == keys[0] || k == keys[1]
  {
  }

  /** ... and gives them their scaled values. */
  lemma ExampleDecodeValues(ieee: (nat, nat) -> real)
    ensures DecodeWords(ExampleSlots, [1, 0, 50, 0], ieee).Ok?
    ensures "X" in DecodeWords(ExampleSlots, [1, 0, 50, 0], ieee).value
    ensures "Y" in DecodeWords(ExampleSlots, [1, 0, 50, 0], ieee).value
    ensures DecodeWords(ExampleSlots, [1, 0, 50, 0], ieee).value["X"] == Real(1.0)
    ensures DecodeWords(ExampleSlots, [1, 0, 50, 0], ieee).value["Y"] == Real(5.0)
  {
    ExampleDecodeKeys(ieee);
    CodesOfExample(4);
    ExampleFields(ieee);
    ExampleKeys();
    ExampleScales();
    ShortTextHasNoPad("X");
    ShortTextHasNoPad("Y");
  }

  /** The decoding of four words under those slots. */
  lemma ExampleDecode(ieee: (nat, nat) -> real)
    ensures DecodeWords(ExampleSlots, [1, 0, 50, 0], ieee) == Ok(map["X" := Real(1.0), "Y" := Real(5.0)])
  {
    var r := DecodeWords(ExampleSlots, [1, 0, 50, 0], ieee);
    ExampleDecodeKeys(ieee);
    ExampleDecodeValues(ieee);
    ExampleResult(r);
  }

  /** A successful decoding holding exactly `X` = 1.0 and `Y` = 5.0. */
  lemma ExampleResult(r: Result<map<string, Value>>)
    requires r.Ok? && forall k :: k in r.value ==> k == "X" || k == "Y"
    requires "X" in r.value && r.value["X"] == Real(1.0) && "Y" in r.value && r.value["Y"] == Real(5.0)
    ensures r == Ok(map["X" := Real(1.0), "Y" := Real(5.0)])
  {
    assert r.value == map["X" := Real(1.0), "Y" := Real(5.0)];
  }

  /** Decoding four words with the plan of the block starting one address
      early: `X` is the 32-bit value of the first two words, `Y` the third
      word scaled by 0.1, and the pad is gone. */
  lemma StartBeforeFirstRegisterValues(ieee: (nat, nat) -> real)
    ensures DecodeWords(Plan(ShiftedTable, [Block(0, 5)]), [1, 0, 50, 0], ieee)
         == Ok(map["X" := Real(1.0), "Y" := Real(5.0)])
  {
    ShiftedPlan();
    ExampleDecode(ieee);
  }
}
