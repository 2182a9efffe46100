/** The decode-plan compiler of `Edge_device`: from the configured register
    table and the list of register blocks to the sequence of value slots
    (name, scalar, offset, `struct` code) that the decoder unpacks, and the
    start-up check that every configured register lies in some block. */
module RegisterMap {
  import opened Wrappers
  import opened Text

  /** One entry of a `*_read_registers` section. `scalar` and `offset` are
      optional because some device configurations leave them out. */
  datatype RegisterEntry = RegisterEntry(
    name: string,
    location: int,
    dtype: char,
    scalar: Option<real>,
    offset: Option<real>)

  /** One `{start, size}` entry of a `*_read_block` section. */
  datatype Block = Block(start: int, size: int)

  /** The `basic_read_registers` and `basic_read_block` sections. */
  datatype DeviceConfig = DeviceConfig(basicRegisters: seq<RegisterEntry>, basicBlocks: seq<Block>)

  /** A `custom_read` argument: reading type, registers and blocks. */
  datatype CustomRead = CustomRead(readingType: string, registers: seq<RegisterEntry>, blocks: seq<Block>)

  /** The key of a slot: a configured register's name, or the pad of an
      unwanted address, whose key text is `"unused_" + str(address)`. */
  datatype SlotName = Configured(text: string) | Unused(address: int)

  /** One value the decoder unpacks: its key, scale, offset and `struct`
      code. */
  datatype Slot = Slot(name: SlotName, scalar: real, offset: real, dtype: char)

  /** The five parallel per-register lists the compiler works from. */
  datatype Table = Table(
    names: seq<string>,
    scalars: seq<real>,
    offsets: seq<real>,
    locations: seq<int>,
    dtypes: seq<char>)
  {
    ghost predicate Valid() {
      |scalars| == |names| && |offsets| == |names| && |locations| == |names| && |dtypes| == |names|
    }
  }

  /** `x.index(a)`: the first position of `a`. */
  function IndexOf<T(==)>(s: seq<T>, a: T): (i: nat)
    requires a in s
    ensures i < |s| && s[i] == a
    ensures forall k :: 0 <= k < i ==> s[k] != a
  {
    if s[0] == a then 0 else 1 + IndexOf(s[1..], a)
  }

  /** The 32-bit codes `check_double_register` recognises. */
  predicate IsDouble(dtype: char) {
    dtype == 'I' || dtype == 'i' || dtype == 'l' || dtype == 'L' || dtype == 'f'
  }

  /** The 64-bit codes of `check_quadruple_register`, which nothing calls. */
  predicate IsQuadruple(dtype: char) {
    dtype == 'q' || dtype == 'Q' || dtype == 'd'
  }

  /** `start <= l <= start + size - 1` for some block. */
  ghost predicate Covered(l: int, blocks: seq<Block>) {
    exists k :: 0 <= k < |blocks| && blocks[k].start <= l <= blocks[k].start + blocks[k].size - 1
  }

  /** `check_register_locations`: `ok` exactly when every configured
      location is covered; otherwise `missing` names the first uncovered
      one, the one the source logs before giving up. */
  method CheckRegisterLocations(locations: seq<int>, blocks: seq<Block>) returns (ok: bool, missing: Option<int>)
    ensures ok <==> forall i :: 0 <= i < |locations| ==> Covered(locations[i], blocks)
    ensures ok <==> missing.None?
    ensures missing.Some? ==> exists i :: (0 <= i < |locations| && locations[i] == missing.value
                                           && !Covered(locations[i], blocks)
                                           && forall j :: 0 <= j < i ==> Covered(locations[j], blocks))
  {
    var i := 0;
    while i < |locations|
      invariant 0 <= i <= |locations|
      invariant forall j :: 0 <= j < i ==> Covered(locations[j], blocks)
    {
      var l := locations[i];
      var found := false;
      var k := 0;
      while k < |blocks|
        invariant 0 <= k <= |blocks|
        invariant found <==> exists m :: 0 <= m < k && blocks[m].start <= l <= blocks[m].start + blocks[m].size - 1
      {
        var start := blocks[k].start;
        var size := blocks[k].size;
        if start <= l && l <= start + size - 1 {
          found := true;
        }
        k := k + 1;
      }
      if !found {
        return false, Some(l);
      }
      i := i + 1;
    }
    return true, None;
  }

  /** Whether `l` lies in some block, as a value the constructor can test. */
  function LocationCovered(l: int, blocks: seq<Block>): (b: bool)
    ensures b <==> Covered(l, blocks)
  {
    exists k | 0 <= k < |blocks| :: blocks[k].start <= l <= blocks[k].start + blocks[k].size - 1
  }

  /** The verdict of `check_register_locations` on the basic registers. */
  function LocationsCovered(entries: seq<RegisterEntry>, blocks: seq<Block>): (ok: bool)
    ensures ok <==> forall i :: 0 <= i < |entries| ==> Covered(entries[i].location, blocks)
  {
    forall i | 0 <= i < |entries| :: LocationCovered(entries[i].location, blocks)
  }

  /** `get_config_section_and_key_list` for a numeric key: when any entry
      lacks the key the basic read falls back to a column of zeros, while
      `get_map_section_and_key_list` for a custom read raises `KeyError`. */
  function NumberColumn(xs: seq<Option<real>>, fallback: bool): (r: Result<seq<real>>)
    ensures r.Ok? <==> fallback || forall i :: 0 <= i < |xs| ==> xs[i].Some?
    ensures r.Ok? ==> |r.value| == |xs|
    ensures r.Ok? && (forall i :: 0 <= i < |xs| ==> xs[i].Some?) ==> forall i :: 0 <= i < |xs| ==> r.value[i] == xs[i].value
    ensures (exists i :: 0 <= i < |xs| && xs[i].None?) ==>
              if fallback then r.Ok? && forall i :: 0 <= i < |xs| ==> r.value[i] == 0.0 else r == Err("KeyError")
  {
    if forall i :: 0 <= i < |xs| ==> xs[i].Some? then Ok(seq(|xs|, i requires 0 <= i < |xs| => xs[i].value))
    else if fallback then Ok(seq(|xs|, i => 0.0))
    else Err("KeyError")
  }

  /** The per-register lists of one register section, the scalars already
      multiplied by the device's polarity. */
  function Columns(entries: seq<RegisterEntry>, fallback: bool, polarity: real): (r: Result<Table>)
    ensures r.Ok? <==> fallback || forall i :: 0 <= i < |entries| ==> entries[i].scalar.Some? && entries[i].offset.Some?
    ensures r.Ok? ==> r.value.Valid() && |r.value.names| == |entries|
    ensures r.Ok? ==> forall i :: 0 <= i < |entries| ==>
      r.value.names[i] == entries[i].name && r.value.locations[i] == entries[i].location
      && r.value.dtypes[i] == entries[i].dtype
    ensures r.Ok? && (forall j :: 0 <= j < |entries| ==> entries[j].scalar.Some?) ==>
              forall i :: 0 <= i < |entries| ==> r.value.scalars[i] == entries[i].scalar.value * polarity
    ensures r.Ok? && (forall j :: 0 <= j < |entries| ==> entries[j].offset.Some?) ==>
              forall i :: 0 <= i < |entries| ==> r.value.offsets[i] == entries[i].offset.value
    ensures fallback && (exists j :: 0 <= j < |entries| && entries[j].scalar.None?) ==>
              r.Ok? && forall i :: 0 <= i < |entries| ==> r.value.scalars[i] == 0.0
    ensures fallback && (exists j :: 0 <= j < |entries| && entries[j].offset.None?) ==>
              r.Ok? && forall i :: 0 <= i < |entries| ==> r.value.offsets[i] == 0.0
  {
    var (scalars, offsets) :- NumberColumns(entries, fallback);
    TableOf(entries, scalars, offsets, polarity)
  }

  /** The `scalar` and `offset` columns of a section, each read as
      `NumberColumn` reads it. */
  function NumberColumns(entries: seq<RegisterEntry>, fallback: bool): (r: Result<(seq<real>, seq<real>)>)
    ensures r.Ok? <==> fallback || forall i :: 0 <= i < |entries| ==> entries[i].scalar.Some? && entries[i].offset.Some?
    ensures r.Ok? ==> |r.value.0| == |entries| && |r.value.1| == |entries|
    ensures r.Ok? && (forall j :: 0 <= j < |entries| ==> entries[j].scalar.Some?) ==>
              forall i :: 0 <= i < |entries| ==> r.value.0[i] == entries[i].scalar.value
    ensures r.Ok? && (forall j :: 0 <= j < |entries| ==> entries[j].offset.Some?) ==>
              forall i :: 0 <= i < |entries| ==> r.value.1[i] == entries[i].offset.value
    ensures fallback && (exists j :: 0 <= j < |entries| && entries[j].scalar.None?) ==>
              r.Ok? && forall i :: 0 <= i < |entries| ==> r.value.0[i] == 0.0
    ensures fallback && (exists j :: 0 <= j < |entries| && entries[j].offset.None?) ==>
              r.Ok? && forall i :: 0 <= i < |entries| ==> r.value.1[i] == 0.0
  {
    var scalars :- NumberColumn(ScalarColumn(entries), fallback);
    var offsets :- NumberColumn(OffsetColumn(entries), fallback);
    Ok((scalars, offsets))
  }

  /** The `scalar` entry of each register, where present. */
  function ScalarColumn(entries: seq<RegisterEntry>): (r: seq<Option<real>>)
    ensures |r| == |entries| && forall i :: 0 <= i < |entries| ==> r[i] == entries[i].scalar
  {
    seq(|entries|, i requires 0 <= i < |entries| => entries[i].scalar)
  }

  /** The `offset` entry of each register, where present. */
  function OffsetColumn(entries: seq<RegisterEntry>): (r: seq<Option<real>>)
    ensures |r| == |entries| && forall i :: 0 <= i < |entries| ==> r[i] == entries[i].offset
  {
    seq(|entries|, i requires 0 <= i < |entries| => entries[i].offset)
  }

  /** The lists of the section once the numeric columns are known. */
  function TableOf(entries: seq<RegisterEntry>, scalars: seq<real>, offsets: seq<real>, polarity: real): (r: Result<Table>)
    requires |scalars| == |entries| && |offsets| == |entries|
    ensures r.Ok? && r.value.Valid() && |r.value.names| == |entries|
    ensures forall i :: 0 <= i < |entries| ==>
      r.value.names[i] == entries[i].name && r.value.locations[i] == entries[i].location
      && r.value.dtypes[i] == entries[i].dtype && r.value.scalars[i] == scalars[i] * polarity
    ensures r.value.offsets == offsets
  {
    Ok(Table(
      seq(|entries|, i requires 0 <= i < |entries| => entries[i].name),
      seq(|scalars|, i requires 0 <= i < |scalars| => scalars[i] * polarity),
      offsets,
      seq(|entries|, i requires 0 <= i < |entries| => entries[i].location),
      seq(|entries|, i requires 0 <= i < |entries| => entries[i].dtype)))
  }

  /** The name of the 16-bit pad emitted for an unwanted address. */
  function PadName(address: int): string {
    "unused_" + IntToString(address)
  }

  /** The dictionary key a slot's value is stored under. */
  function KeyText(n: SlotName): string {
    match n
    case Configured(text) => text
    case Unused(address) => PadName(address)
  }

  function Pad(address: int): Slot {
    Slot(Unused(address), 1.0, 0.0, 'h')
  }

  /** The slot of configuration entry `i`. */
  function ConfigSlot(t: Table, i: nat): Slot
    requires t.Valid() && i < |t.names|
  {
    Slot(Configured(t.names[i]), t.scalars[i], t.offsets[i], t.dtypes[i])
  }

  /** What the address at position `j` of a block starting at `start`
      contributes: the slot of its first configuration entry; nothing when
      it is the block's first address; nothing when the address before it
      is configured with a 32-bit code; a pad otherwise. */
  function AddressSlots(t: Table, start: int, j: nat): seq<Slot>
    requires t.Valid()
  {
    var a := start + j;
    if a in t.locations then [ConfigSlot(t, IndexOf(t.locations, a))]
    else if j == 0 then []
    else if a - 1 in t.locations && IsDouble(t.dtypes[IndexOf(t.locations, a - 1)]) then []
    else [Pad(a)]
  }

  /** The concatenation of a sequence of pieces, in order. */
  function Concat<T>(pieces: seq<seq<T>>): seq<T> {
    if |pieces| == 0 then [] else Concat(pieces[..|pieces| - 1]) + pieces[|pieces| - 1]
  }

  lemma {:induction false} ConcatMember<T>(pieces: seq<seq<T>>, j: nat, x: T)
    requires j < |pieces| && x in pieces[j]
    ensures x in Concat(pieces)
    decreases |pieces|
  {
    if j < |pieces| - 1 {
      ConcatMember(pieces[..|pieces| - 1], j, x);
    }
  }

  lemma {:induction false} ConcatAll<T>(pieces: seq<seq<T>>, P: T -> bool)
    requires forall j, x :: 0 <= j < |pieces| && x in pieces[j] ==> P(x)
    ensures forall x :: x in Concat(pieces) ==> P(x)
    decreases |pieces|
  {
    if |pieces| > 0 {
      ConcatAll(pieces[..|pieces| - 1], P);
    }
  }

  lemma ConcatSnoc<T>(pieces: seq<seq<T>>, last: seq<T>)
    ensures Concat(pieces + [last]) == Concat(pieces) + last
  {
    assert (pieces + [last])[..|pieces|] == pieces;
  }

  lemma {:induction false} ConcatCons<T>(first: seq<T>, pieces: seq<seq<T>>)
    ensures Concat([first] + pieces) == first + Concat(pieces)
    decreases |pieces|
  {
    if |pieces| == 0 {
      assert [first] + pieces == [] + [first];
      ConcatSnoc([], first);
    } else {
      var n := |pieces| - 1;
      ConcatCons(first, pieces[..n]);
      assert [first] + pieces == ([first] + pieces[..n]) + [pieces[n]];
      assert pieces == pieces[..n] + [pieces[n]];
      ConcatSnoc([first] + pieces[..n], pieces[n]);
      ConcatSnoc(pieces[..n], pieces[n]);
    }
  }

  /** What each of the first `n` addresses of a block contributes. */
  function Parts(t: Table, start: int, n: nat): (r: seq<seq<Slot>>)
    requires t.Valid()
    ensures |r| == n && forall j :: 0 <= j < n ==> r[j] == AddressSlots(t, start, j)
  {
    if n == 0 then [] else Parts(t, start, n - 1) + [AddressSlots(t, start, n - 1)]
  }

  /** The slots of one block: `range(start, start + size)` walked in
      order. */
  function BlockPlan(t: Table, b: Block): seq<Slot>
    requires t.Valid()
  {
    if b.size <= 0 then [] else Concat(Parts(t, b.start, b.size))
  }

  function BlockPlans(t: Table, blocks: seq<Block>): (r: seq<seq<Slot>>)
    requires t.Valid()
    ensures |r| == |blocks| && forall k :: 0 <= k < |blocks| ==> r[k] == BlockPlan(t, blocks[k])
  {
    if |blocks| == 0 then [] else BlockPlans(t, blocks[..|blocks| - 1]) + [BlockPlan(t, blocks[|blocks| - 1])]
  }

  /** The slots of all blocks, in block order. */
  function Plan(t: Table, blocks: seq<Block>): seq<Slot>
    requires t.Valid()
  {
    Concat(BlockPlans(t, blocks))
  }

  /** The body of the address loop of `register_details_in_blocks`:
      membership and `.index` lookups of the address and of its
      predecessor. */
  method AddressDetails(t: Table, start: int, j: nat) returns (slots: seq<Slot>)
    requires t.Valid()
    ensures |slots| <= 1 && forall s :: s in slots ==> FromTable(t, s)
    ensures start + j in t.locations ==> slots == [ConfigSlot(t, IndexOf(t.locations, start + j))]
    ensures start + j !in t.locations ==> slots == [] || slots == [Pad(start + j)]
    ensures start + j !in t.locations ==>
              (slots == [] <==> j == 0 || (start + j - 1 in t.locations
                                           && IsDouble(t.dtypes[IndexOf(t.locations, start + j - 1)])))
  {
    AddressSlotsFromTable(t, start, j);
    var a := start + j;
    if a in t.locations {
      var index := IndexOf(t.locations, a);
      return [Slot(Configured(t.names[index]), t.scalars[index], t.offsets[index], t.dtypes[index])];
    }
    var indexTotal := j;
    if indexTotal != 0 {
      var prev := a - 1;
      if prev in t.locations {
        var prevType := t.dtypes[IndexOf(t.locations, prev)];
        if IsDouble(prevType) {
          return [];
        }
        return [Slot(Unused(a), 1.0, 0.0, 'h')];
      }
      return [Slot(Unused(a), 1.0, 0.0, 'h')];
    }
    return [];
  }

  /** The properties `AddressDetails` promises determine its result: they
      single out the reference definition `AddressSlots`. */
  lemma AddressContribution(t: Table, start: int, j: nat, slots: seq<Slot>)
    requires t.Valid()
    requires start + j in t.locations ==> slots == [ConfigSlot(t, IndexOf(t.locations, start + j))]
    requires start + j !in t.locations ==> slots == [] || slots == [Pad(start + j)]
    requires start + j !in t.locations ==>
               (slots == [] <==> j == 0 || (start + j - 1 in t.locations
                                            && IsDouble(t.dtypes[IndexOf(t.locations, start + j - 1)])))
    ensures slots == AddressSlots(t, start, j)
  {
  }

  /** `AddressDetails`, with its result named by the reference definition. */
  method AddressPart(t: Table, start: int, j: nat) returns (slots: seq<Slot>)
    requires t.Valid()
    ensures slots == AddressSlots(t, start, j)
  {
    slots := AddressDetails(t, start, j);
    AddressContribution(t, start, j, slots);
  }

  /** One block of `register_details_in_blocks`: the walk over
      `range(start, start + size)`. */
  method BlockDetails(t: Table, b: Block) returns (blockSlots: seq<Slot>)
    requires t.Valid()
    ensures blockSlots == BlockPlan(t, b)
  {
    blockSlots := [];
    var j := 0;
    while j < b.size
      invariant 0 <= j <= (if b.size > 0 then b.size else 0)
      invariant blockSlots == Concat(Parts(t, b.start, j))
    {
      var here := AddressPart(t, b.start, j);
      ConcatSnoc(Parts(t, b.start, j), here);
      blockSlots := blockSlots + here;
      j := j + 1;
    }
    if b.size <= 0 {
      assert Parts(t, b.start, 0) == [];
      assert blockSlots == Concat<Slot>([]) == [];
    }
  }

  /** `register_details_in_blocks`: the blocks' slots in block order. */
  method RegisterDetailsInBlocks(t: Table, blocks: seq<Block>) returns (slots: seq<Slot>)
    requires t.Valid()
    ensures slots == Plan(t, blocks)
  {
    slots := [];
    var bi := 0;
    while bi < |blocks|
      invariant 0 <= bi <= |blocks|
      invariant slots == Concat(BlockPlans(t, blocks[..bi]))
    {
      var blockSlots := BlockDetails(t, blocks[bi]);
      var done := BlockPlans(t, blocks[..bi]);
      assert blocks[..bi + 1][..bi] == blocks[..bi];
      assert BlockPlans(t, blocks[..bi + 1]) == done + [BlockPlan(t, blocks[bi])];
      assert (done + [BlockPlan(t, blocks[bi])])[..bi] == done;
      slots := slots + blockSlots;
      bi := bi + 1;
    }
    assert blocks[..|blocks|] == blocks;
  }

  /** The register section and blocks a read uses, with the column
      fallback only for the basic read. */
  function DecodePlan(cfg: DeviceConfig, custom: Option<CustomRead>, polarity: real): (r: Result<seq<Slot>>)
    ensures custom.None? ==> r.Ok?
    ensures custom.Some? ==>
              (r.Ok? <==> forall i :: 0 <= i < |custom.value.registers| ==>
                            custom.value.registers[i].scalar.Some? && custom.value.registers[i].offset.Some?)
  {
    var entries := if custom.None? then cfg.basicRegisters else custom.value.registers;
    var blocks := if custom.None? then cfg.basicBlocks else custom.value.blocks;
    var t :- Columns(entries, custom.None?, polarity);
    Ok(Plan(t, blocks))
  }

  /** Every address of a block whose location is configured contributes the
      slot of its first configuration entry; a later duplicate entry for
      the same location is never used. */
  lemma ConfiguredAddressEmitted(t: Table, b: Block, j: nat)
    requires t.Valid() && j < b.size && b.start + j in t.locations
    ensures ConfigSlot(t, IndexOf(t.locations, b.start + j)) in BlockPlan(t, b)
    ensures forall i :: 0 <= i < |t.locations| && t.locations[i] == b.start + j ==> IndexOf(t.locations, b.start + j) <= i
  {
    ConcatMember(Parts(t, b.start, b.size), j, ConfigSlot(t, IndexOf(t.locations, b.start + j)));
  }

  /** A block whose first address is not configured contributes nothing
      for that address. */
  lemma UnconfiguredFirstAddressEmitsNothing(t: Table, start: int)
    requires t.Valid() && start !in t.locations
    ensures AddressSlots(t, start, 0) == []
  {
  }

  /** The address after a 32-bit register contributes nothing. */
  lemma NoPadAfterDoubleRegister(t: Table, start: int, j: nat, i: nat)
    requires t.Valid() && i < |t.names| && j >= 1
    requires t.locations[i] == start + j - 1 && IsDouble(t.dtypes[i])
    requires forall k :: 0 <= k < i ==> t.locations[k] != start + j - 1
    requires start + j !in t.locations
    ensures AddressSlots(t, start, j) == []
  {
    assert IndexOf(t.locations, start + j - 1) == i;
  }

  /** The address after a 64-bit register is not recognised as part of it:
      it is padded as an unwanted 16-bit register. */
  lemma PadAfterQuadrupleRegister(t: Table, start: int, j: nat, i: nat)
    requires t.Valid() && i < |t.names| && j >= 1
    requires t.locations[i] == start + j - 1 && IsQuadruple(t.dtypes[i])
    requires forall k :: 0 <= k < i ==> t.locations[k] != start + j - 1
    requires start + j !in t.locations
    ensures AddressSlots(t, start, j) == [Pad(start + j)]
  {
    assert IndexOf(t.locations, start + j - 1) == i;
  }

  lemma PadNameIsUnused(address: int)
    ensures Contains(PadName(address), "unuse")
  {
    ContainsInside([], "unuse", "d_" + IntToString(address));
    assert [] + "unuse" + ("d_" + IntToString(address)) == PadName(address);
  }

  /** A slot comes from a configuration entry (its first entry for that
      location) or is a pad. */
  ghost predicate FromTable(t: Table, s: Slot)
    requires t.Valid()
  {
    (exists a :: s == Pad(a))
    || exists i :: 0 <= i < |t.names| && s == ConfigSlot(t, i) && i == IndexOf(t.locations, t.locations[i])
  }

  lemma AddressSlotsFromTable(t: Table, start: int, j: nat)
    requires t.Valid()
    ensures forall s :: s in AddressSlots(t, start, j) ==> FromTable(t, s)
  {
    var a := start + j;
    if a in t.locations {
      var i := IndexOf(t.locations, a);
      assert IndexOf(t.locations, t.locations[i]) == i;
    }
  }

  /** Every slot of the plan is a pad or the slot of a configured register. */
  lemma PlanFromTable(t: Table, blocks: seq<Block>)
    requires t.Valid()
    ensures forall s :: s in Plan(t, blocks) ==> FromTable(t, s)
  {
    var plans := BlockPlans(t, blocks);
    forall k | 0 <= k < |blocks|
      ensures forall s :: s in plans[k] ==> FromTable(t, s)
    {
      var b := blocks[k];
      if b.size > 0 {
        var parts := Parts(t, b.start, b.size);
        forall j | 0 <= j < |parts|
          ensures forall s :: s in parts[j] ==> FromTable(t, s)
        {
          AddressSlotsFromTable(t, b.start, j);
        }
        ConcatAll(parts, s => FromTable(t, s));
      }
    }
    ConcatAll(plans, s => FromTable(t, s));
  }

  /** When the start-up check passes, every configured register's slot is
      part of the plan. */
  lemma CoveredRegistersArePlanned(t: Table, blocks: seq<Block>, i: nat)
    requires t.Valid() && i < |t.names| && i == IndexOf(t.locations, t.locations[i])
    requires Covered(t.locations[i], blocks)
    ensures ConfigSlot(t, i) in Plan(t, blocks)
  {
    var k :| 0 <= k < |blocks| && blocks[k].start <= t.locations[i] <= blocks[k].start + blocks[k].size - 1;
    var b := blocks[k];
    ConfiguredAddressEmitted(t, b, t.locations[i] - b.start);
    ConcatMember(BlockPlans(t, blocks), k, ConfigSlot(t, i));
  }
}
