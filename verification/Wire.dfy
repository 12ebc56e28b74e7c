/** From the bytes of one item to the registers and the bytes of its answer, and what reads in a message see. */
module Wire {
  import opened Wrappers
  import opened Bits
  import opened Bytes
  import opened Items
  import opened Messages
  import opened ErrorItems
  import opened Queues
  import opened RunBundle
  import opened Protocol
  import opened Registers
  import opened ActionQueue
  import opened BoardItems

  // One item, as a client writes it, run on a board; None when the dictionary refuses it.
  function Ask(b: Board, did: u16, data: seq<byte>): Option<GoResult<Board>> {
    match ItemFromBytes(DICTIONARY, did, data)
    case Good(x) => Some(GoItem(b, x))
    case _ => None
  }

  lemma Asked(b: Board, did: u16, data: seq<byte>, e: Entry)
    requires EntryOf(did) == Some(e) && e.minLen <= |data| <= e.maxLen
    ensures Ask(b, did, data) ==
            match Construct(e.cls, data) case Built(body) => Some(GoItem(b, Item(did, body))) case _ => None
  {
    assert DICTIONARY[did] == e;
  }

  // An item that is one command changes the board as the command does.
  lemma OneCommand(b: Board, x: Item, c: Command, at: int, i: nat)
    requires CommandsOf(x) == [c] && Defined(c) && IsBit(at, i)
    ensures Holds(GoItem(b, x).dev, at, i) == After1(c, at, i, Holds(b, at, i))
  {
    assert RunAll(b, [c]) == RunAll(Run1(b, c), []) == Run1(b, c);
    Run1Bit(b, c, at, i);
  }

  // The request is accepted and run, ends with code 0, and leaves bit i at `at` as `now`.
  predicate Leaves(b: Board, did: u16, data: seq<byte>, at: int, i: nat, now: bool)
    requires IsBit(at, i)
  {
    var r := Ask(b, did, data);
    r.Some? && r.value.outcome == Code(0) && Holds(r.value.dev, at, i) == now
  }

  lemma OneBitAsked(b: Board, did: u16, ofs: byte, bit: byte, op: BitOp, at: int, i: nat)
    requires bit < 32 && IsBit(at, i) && EntryOf(did) == Known(2, 2, BitClass(op))
    ensures Leaves(b, did, [ofs, bit], at, i, After1(OneBitCommand(op, ofs, bit), at, i, Holds(b, at, i)))
  {
    Asked(b, did, [ofs, bit], Entry(2, 2, BitClass(op)));
    OneCommand(b, Item(did, BitCommand(op, ofs, bit)), OneBitCommand(op, ofs, bit), at, i);
  }

  lemma BitEntries()
    ensures EntryOf(0x123) == Known(2, 2, BitClass(ClearOp)) && EntryOf(0x124) == Known(2, 2, BitClass(SetOp))
    ensures EntryOf(0x125) == Known(2, 2, BitClass(ToggleOp))
    ensures EntryOf(0x30C) == Known(1, 1, DioBitClass(ClearOp)) && EntryOf(0x30E) == Known(1, 1, DioBitClass(SetOp))
    ensures EntryOf(0x311) == Known(1, 1, DioBitClass(ToggleOp))
  {
  }

  // Clearing, setting and negating one bit, on the map from bits to truth values.
  lemma OneBitEffects(ofs: int, bit: nat, at: int, i: nat, was: bool)
    requires bit < 32
    ensures After1(OneBitCommand(ClearOp, ofs, bit), at, i, was) == (was && !(at == ofs && i == bit))
    ensures After1(OneBitCommand(SetOp, ofs, bit), at, i, was) == (was || (at == ofs && i == bit))
    ensures After1(OneBitCommand(ToggleOp, ofs, bit), at, i, was) == (was != (at == ofs && i == bit))
  {
    Pow2Bit(bit, i);
  }

  /** REG_ClearBit, REG_SetBit and REG_ToggleBit: the bit named is cleared, set or negated, and every other bit
      of the board stays. */
  lemma BitItems(b: Board, ofs: byte, bit: byte, at: int, i: nat)
    requires bit < 32 && IsBit(at, i)
    ensures var was, named := Holds(b, at, i), at == ofs && i == bit;
            && Leaves(b, 0x123, [ofs, bit], at, i, was && !named)
            && Leaves(b, 0x124, [ofs, bit], at, i, was || named)
            && Leaves(b, 0x125, [ofs, bit], at, i, was != named)
  {
    BitEntries();
    OneBitEffects(ofs, bit, at, i, Holds(b, at, i));
    OneBitAsked(b, 0x123, ofs, bit, ClearOp, at, i);
    OneBitAsked(b, 0x124, ofs, bit, SetOp, at, i);
    OneBitAsked(b, 0x125, ofs, bit, ToggleOp, at, i);
  }

  lemma DioBitAsked(b: Board, did: u16, bit: byte, op: BitOp, at: int, i: nat)
    requires bit < 32 && IsBit(at, i) && EntryOf(did) == Known(1, 1, DioBitClass(op))
    ensures Leaves(b, did, [bit], at, i, After1(OneBitCommand(op, OFS_DIO_OUTPUTS, bit), at, i, Holds(b, at, i)))
  {
    Asked(b, did, [bit], Entry(1, 1, DioBitClass(op)));
    OneCommand(b, Item(did, DioBit(op, bit)), OneBitCommand(op, OFS_DIO_OUTPUTS, bit), at, i);
  }

  /** DIO_ClearBit, DIO_SetBit and DIO_ToggleBit: the same for the bit of the output register at 0x40. */
  lemma DioBitItems(b: Board, bit: byte, at: int, i: nat)
    requires bit < 32 && IsBit(at, i)
    ensures var was, named := Holds(b, at, i), at == 0x40 && i == bit;
            && Leaves(b, 0x30C, [bit], at, i, was && !named)
            && Leaves(b, 0x30E, [bit], at, i, was || named)
            && Leaves(b, 0x311, [bit], at, i, was != named)
  {
    BitEntries();
    OneBitEffects(OFS_DIO_OUTPUTS, bit, at, i, Holds(b, at, i));
    DioBitAsked(b, 0x30C, bit, ClearOp, at, i);
    DioBitAsked(b, 0x30E, bit, SetOp, at, i);
    DioBitAsked(b, 0x311, bit, ToggleOp, at, i);
  }

  lemma DioWriteBitAsked(b: Board, did: u16, bit: byte, on: byte, reg: DioRegister, at: int, i: nat)
    requires bit < 32 && IsBit(at, i) && EntryOf(did) == Known(2, 2, DioWriteBitClass(reg))
    ensures Leaves(b, did, [bit, on], at, i, if at == DioOffset(reg) && i == bit then on != 0 else Holds(b, at, i))
  {
    Asked(b, did, [bit, on], Entry(2, 2, DioWriteBitClass(reg)));
    OneCommand(b, Item(did, DioWriteBit(reg, bit, on)), PutBit(DioOffset(reg), bit, on != 0), at, i);
  }

  lemma WriteBitAsked(b: Board, ofs: byte, bit: byte, on: byte, at: int, i: nat)
    requires bit < 32 && IsBit(at, i)
    ensures Leaves(b, 0x122, [ofs, bit, on], at, i, if at == ofs && i == bit then on != 0 else Holds(b, at, i))
  {
    assert EntryOf(0x122) == Known(3, 3, WriteBitClass);
    Asked(b, 0x122, [ofs, bit, on], Entry(3, 3, WriteBitClass));
    OneCommand(b, Item(0x122, WriteBit(ofs, bit, on)), PutBit(ofs, bit, on != 0), at, i);
  }

  lemma DioWriteEntries()
    ensures EntryOf(0x301) == Known(2, 2, DioWriteBitClass(Directions))
    ensures EntryOf(0x308) == Known(2, 2, DioWriteBitClass(Outputs))
    ensures EntryOf(0x302) == Known(2, 2, DioWordClass(Directions))
    ensures EntryOf(0x309) == Known(2, 2, DioWordClass(Outputs))
  {
  }

  /** REG_WriteBit, DIO_ConfigureBit and DIO_OutputBit: the bit named, at the offset given, at the directions
      0x3C or at the outputs 0x40, becomes whether the last byte is not zero; every other bit stays. */
  lemma WriteBitItems(b: Board, ofs: byte, bit: byte, on: byte, at: int, i: nat)
    requires bit < 32 && IsBit(at, i)
    ensures var was := Holds(b, at, i);
            && Leaves(b, 0x122, [ofs, bit, on], at, i, if at == ofs && i == bit then on != 0 else was)
            && Leaves(b, 0x301, [bit, on], at, i, if at == 0x3C && i == bit then on != 0 else was)
            && Leaves(b, 0x308, [bit, on], at, i, if at == 0x40 && i == bit then on != 0 else was)
  {
    DioWriteEntries();
    WriteBitAsked(b, ofs, bit, on, at, i);
    DioWriteBitAsked(b, 0x301, bit, on, Directions, at, i);
    DioWriteBitAsked(b, 0x308, bit, on, Outputs, at, i);
  }

  lemma DioWordAsked(b: Board, did: u16, lo: byte, hi: byte, reg: DioRegister, at: int, i: nat)
    requires IsBit(at, i) && EntryOf(did) == Known(2, 2, DioWordClass(reg))
    ensures Leaves(b, did, [lo, hi], at, i, if at == DioOffset(reg) then Bit(lo + 0x100 * hi, i) else Holds(b, at, i))
  {
    var w := U16([lo, hi], 0);
    assert w == lo + 0x100 * hi;
    Asked(b, did, [lo, hi], Entry(2, 2, DioWordClass(reg)));
    OneCommand(b, Item(did, DioWord(reg, w)), Write(DioOffset(reg), w), at, i);
  }

  /** DIO_Configure and DIO_Output put their word, low byte first, into the register at 0x3C or 0x40. */
  lemma DioWordItems(b: Board, lo: byte, hi: byte, at: int, i: nat)
    requires IsBit(at, i)
    ensures var was, sent := Holds(b, at, i), Bit(lo + 0x100 * hi, i);
            && Leaves(b, 0x302, [lo, hi], at, i, if at == 0x3C then sent else was)
            && Leaves(b, 0x309, [lo, hi], at, i, if at == 0x40 then sent else was)
  {
    DioWriteEntries();
    DioWordAsked(b, 0x302, lo, hi, Directions, at, i);
    DioWordAsked(b, 0x309, lo, hi, Outputs, at, i);
  }

  // ---------------------------------------------------------------- masks

  // The offset and the value of a request, as wide as the register at that offset.
  function Sized(ofs: byte, v: u32): seq<byte> {
    if ofs < 0x18 then [ofs, v % 0x100]
    else [ofs, v % 0x100, v / 0x100 % 0x100, v / 0x1_0000 % 0x100, v / 0x100_0000]
  }

  // v is what the register at this offset can hold.
  predicate Holdable(ofs: byte, v: u32) {
    if ofs < 0x18 then v < 0x100 else ofs <= 0xFC && ofs % 4 == 0
  }

  lemma SizedReads(ofs: byte, v: u32)
    requires Holdable(ofs, v)
    ensures var d := Sized(ofs, v); 2 <= |d| <= 5 && d[0] == ofs
    ensures var d := Sized(ofs, v);
            if WidthFromOffset(ofs) == 8 then |d| == 2 && d[1] == v else |d| == 5 && U32(d, 1) == v
    ensures WidthFromOffset(ofs) == 8 || WidthFromOffset(ofs) == 32
  {
  }

  lemma MaskAsked(b: Board, did: u16, ofs: byte, mask: u32, at: int, i: nat)
    requires Holdable(ofs, mask) && IsBit(at, i) && did in {0x108, 0x109, 0x10A}
    ensures var g := if did == 0x108 then AndNot else if did == 0x109 then Or else Xor;
            Leaves(b, did, Sized(ofs, mask), at, i, After1(Combine(ofs, g, mask), at, i, Holds(b, at, i)))
  {
    var g := if did == 0x108 then AndNot else if did == 0x109 then Or else Xor;
    var d := Sized(ofs, mask);
    SizedReads(ofs, mask);
    assert EntryOf(did) == Known(2, 5, RawClass);
    Asked(b, did, d, Entry(2, 5, RawClass));
    assert CommandsOf(Item(did, Raw(d))) == [Combine(ofs, g, mask)];
    OneCommand(b, Item(did, Raw(d)), Combine(ofs, g, mask), at, i);
  }

  /** REG_ClearBits, REG_SetBits and REG_ToggleBits, with a mask as wide as the register: its bits are cleared,
      set or negated, and every other bit of the board stays. */
  lemma MaskItems(b: Board, ofs: byte, mask: u32, at: int, i: nat)
    requires Holdable(ofs, mask) && IsBit(at, i)
    ensures var was, named := Holds(b, at, i), at == ofs && Bit(mask, i);
            && Leaves(b, 0x108, Sized(ofs, mask), at, i, was && !named)
            && Leaves(b, 0x109, Sized(ofs, mask), at, i, was || named)
            && Leaves(b, 0x10A, Sized(ofs, mask), at, i, was != named)
  {
    MaskAsked(b, 0x108, ofs, mask, at, i);
    MaskAsked(b, 0x109, ofs, mask, at, i);
    MaskAsked(b, 0x10A, ofs, mask, at, i);
  }

  // ---------------------------------------------------------------- writing a register

  /** REG_Write1, with a value as wide as the register, puts it there and nowhere else.  It reports -110 exactly
      when the offset is on a bus whose busy bit stays set: bit 31 of 0x30 for the DACs, of 0x3C for the three
      DIO registers.  The write is made all the same. */
  lemma WriteItem(b: Board, ofs: byte, v: u32, at: int, i: nat)
    requires Holdable(ofs, v) && IsBit(at, i)
    ensures var r := Ask(b, 0x105, Sized(ofs, v));
            && r.Some?
            && Holds(r.value.dev, at, i) == (if at == ofs then Bit(v, i) else Holds(b, at, i))
            && var busy := (ofs == 0x30 && Holds(b, 0x30, 31)) || (ofs in {0x3C, 0x40, 0x44} && Holds(b, 0x3C, 31));
            r.value.outcome == Code(if busy then 0x1_0000_0000 - 110 else 0)
  {
    var d, x := Sized(ofs, v), Item(0x105, Write1(ofs, WidthFromOffset(ofs), v));
    SizedReads(ofs, v);
    assert EntryOf(0x105) == Known(2, 5, Write1Class);
    Asked(b, 0x105, d, Entry(2, 5, Write1Class));
    assert Ask(b, 0x105, d) == Some(GoItem(b, x));
    OneCommand(b, x, Write(ofs, v), at, i);
    InBit(b, 0x30, 31);
    InBit(b, 0x3C, 31);
  }

  // ---------------------------------------------------------------- ADC ranges

  lemma AdcEntries()
    ensures EntryOf(0x1007) == Known(2, 2, AdcGroupClass(Differential))
    ensures EntryOf(0x1008) == Known(8, 8, AdcAllClass(Differential))
    ensures EntryOf(0x1009) == Known(2, 2, AdcGroupClass(Range))
    ensures EntryOf(0x100A) == Known(8, 8, AdcAllClass(Range))
  {
  }

  lemma GroupAsked(b: Board, did: u16, setting: AdcSetting, group: byte, v: byte, at: int, i: nat)
    requires IsBit(at, i) && EntryOf(did) == Known(2, 2, AdcGroupClass(setting))
    ensures Leaves(b, did, [group, v], at, i, After1(AdcCommand(setting, group, v), at, i, Holds(b, at, i)))
  {
    Asked(b, did, [group, v], Entry(2, 2, AdcGroupClass(setting)));
    OneCommand(b, Item(did, AdcGroup(setting, group, v)), AdcCommand(setting, group, v), at, i);
  }

  /** ADC_Range1 puts its byte into the register of its group, which follows offset 0.  ADC_Differential1 puts
      whether its byte is not zero into bit 3 there, and keeps the bits below 8 around it. */
  lemma GroupItems(b: Board, group: byte, v: byte, at: int, i: nat)
    requires IsBit(at, i)
    ensures var was := Holds(b, at, i);
            && Leaves(b, 0x1009, [group, v], at, i, if at == 1 + group then Bit(v, i) else was)
            && Leaves(b, 0x1007, [group, v], at, i,
                      if at == 1 + group then (if i == 3 then v != 0 else i < 8 && was) else was)
  {
    AdcEntries();
    GroupAsked(b, 0x1009, Range, group, v, at, i);
    GroupAsked(b, 0x1007, Differential, group, v, at, i);
  }

  lemma {:induction false} AfterAllSnoc(p: seq<Command>, c: Command, at: int, i: nat, was: bool)
    ensures AfterAll(p + [c], at, i, was) == After1(c, at, i, AfterAll(p, at, i, was))
    decreases |p|
  {
    if p == [] {
      assert AfterAll([c], at, i, was) == AfterAll([c][1..], at, i, After1(c, at, i, was));
    } else {
      assert (p + [c])[1..] == p[1..] + [c];
      AfterAllSnoc(p[1..], c, at, i, After1(p[0], at, i, was));
    }
  }

  // What setting the first groups to `values` leaves.
  lemma {:induction false} GroupsEffect(setting: AdcSetting, values: seq<byte>, at: int, i: nat, was: bool)
    requires |values| <= 8 && IsBit(at, i)
    ensures AllDefined(AdcCommands(setting, values))
    ensures AfterAll(AdcCommands(setting, values), at, i, was) ==
            if !(1 <= at <= |values|) then was
            else if setting.Range? then Bit(values[at - 1], i)
            else if i == 3 then values[at - 1] != 0 else was
  {
    if values != [] {
      var front := values[..|values| - 1];
      GroupsEffect(setting, front, at, i, was);
      AfterAllSnoc(AdcCommands(setting, front), AdcCommand(setting, |front|, values[|front|]), at, i, was);
    }
  }

  lemma GroupsRun(b: Board, did: u16, setting: AdcSetting, values: seq<byte>, at: int, i: nat)
    requires IsBit(at, i) && |values| == 8
    ensures Holds(GoItem(b, Item(did, AdcAll(setting, values))).dev, at, i) ==
            AfterAll(AdcCommands(setting, values), at, i, Holds(b, at, i))
  {
    GroupsEffect(setting, values, at, i, Holds(b, at, i));
    ProgramRefinesMap(b, AdcCommands(setting, values), at, i);
  }

  lemma GroupsAsked(b: Board, did: u16, setting: AdcSetting, values: seq<byte>, at: int, i: nat)
    requires IsBit(at, i) && EntryOf(did) == Known(8, 8, AdcAllClass(setting)) && |values| == 8
    ensures Leaves(b, did, values, at, i, AfterAll(AdcCommands(setting, values), at, i, Holds(b, at, i)))
  {
    Asked(b, did, values, Entry(8, 8, AdcAllClass(setting)));
    assert values[..8] == values;
    GroupsRun(b, did, setting, values, at, i);
  }

  /** ADC_RangeAll and ADC_DifferentialAll do the same for the eight groups at 1 to 8 and touch nothing else. */
  lemma AllGroupsItems(b: Board, values: seq<byte>, at: int, i: nat)
    requires IsBit(at, i) && |values| == 8
    ensures var was := Holds(b, at, i);
            && Leaves(b, 0x100A, values, at, i, if 1 <= at <= 8 then Bit(values[at - 1], i) else was)
            && Leaves(b, 0x1008, values, at, i, if 1 <= at <= 8 && i == 3 then values[at - 1] != 0 else was)
  {
    AdcEntries();
    GroupsEffect(Range, values, at, i, Holds(b, at, i));
    GroupsEffect(Differential, values, at, i, Holds(b, at, i));
    GroupsAsked(b, 0x100A, Range, values, at, i);
    GroupsAsked(b, 0x1008, Differential, values, at, i);
  }

  // ---------------------------------------------------------------- reading

  // The bytes of the answer, when the request is accepted, ends with code 0 and leaves the board as it is.
  function Read(b: Board, did: u16, data: seq<byte>): Option<seq<byte>> {
    match Ask(b, did, data)
    case None => None
    case Some(r) =>
      if r.dev == b && r.outcome == Code(0) && r.item.did == did then Some(Payload(r.item.body, true)) else None
  }

  // What a client makes of the answer to REG_Read1: the offset, and a value as wide as the answer is long.
  datatype Register = Register(ofs: byte, width: nat, value: u32)

  function Understood(answer: seq<byte>): Option<Register> {
    if |answer| == 2 then Some(Register(answer[0], 8, answer[1]))
    else if |answer| == 5 then Some(Register(answer[0], 32, U32(answer, 1)))
    else None
  }

  lemma LastFour(first: byte, v: u32)
    ensures U32([first] + LE32(v), 1) == v
  {
    assert [first] + LE32(v) == [first] + LE32(v) + [];
    ReadBack32(v, [first], []);
  }

  /** REG_Read1 answers with the offset and the register's whole value: one byte below 0x18, four at the
      multiples of four up to 0xFC, and for any other offset four bytes of ones. */
  lemma ReadItem(b: Board, ofs: byte)
    ensures var answer := Read(b, 0x101, [ofs]);
            answer.Some? &&
            Understood(answer.value) == Some(
              if ofs < 0x18 then Register(ofs, 8, b[ofs] % 0x100)
              else if ofs <= 0xFC && ofs % 4 == 0 then Register(ofs, 32, b[ofs])
              else Register(ofs, 32, 0xFFFF_FFFF))
  {
    assert EntryOf(0x101) == Known(1, 1, Read1Class);
    Asked(b, 0x101, [ofs], Entry(1, 1, Read1Class));
    LastFour(ofs, In(b, ofs));
  }

  lemma ReadBitItem(b: Board, ofs: byte, bit: byte)
    requires IsBit(ofs, bit)
    ensures Read(b, 0x121, [ofs, bit]) == Some([ofs, bit, if Holds(b, ofs, bit) then 1 else 0])
  {
    assert EntryOf(0x121) == Known(2, 2, ReadBitClass);
    Asked(b, 0x121, [ofs, bit], Entry(2, 2, ReadBitClass));
    InBit(b, ofs, bit);
    var r := if Holds(b, ofs, bit) then 1 else 0;
    assert Payload(ReadBit(ofs, bit, r), true) == [ofs, bit, r];
  }

  lemma InputBitItem(b: Board, bit: byte)
    requires bit < 32
    ensures Read(b, 0x303, [bit]) == Some([bit, if Holds(b, 0x44, bit) then 1 else 0])
  {
    assert EntryOf(0x303) == Known(1, 1, DioReadBitClass);
    Asked(b, 0x303, [bit], Entry(1, 1, DioReadBitClass));
    InBit(b, 0x44, bit);
    var r := if Holds(b, 0x44, bit) then 1 else 0;
    assert Payload(DioReadBit(bit, r), true) == [bit, r];
  }

  lemma LowWord(v: u32)
    ensures LE16(v % 0x1_0000) == [v % 0x100, v / 0x100 % 0x100]
  {
    var hi, w := v / 0x1_0000, v % 0x1_0000;
    assert v == 0x1_0000 * hi + w && v / 0x100 == 0x100 * hi + w / 0x100;
  }

  lemma InputItem(b: Board)
    ensures Read(b, 0x305, []) == Some([b[0x44] % 0x100, b[0x44] / 0x100 % 0x100])
  {
    assert EntryOf(0x305) == Known(0, 0, DioInputClass);
    Asked(b, 0x305, [], Entry(0, 0, DioInputClass));
    LowWord(b[0x44]);
    assert Payload(DioInput(b[0x44] % 0x1_0000), true) == [b[0x44] % 0x100, b[0x44] / 0x100 % 0x100];
  }

  /** REG_ReadBit and DIO_InputBit answer with the request and one more byte, 1 or 0 as the bit is; DIO_Input
      answers with the low sixteen bits of the inputs at 0x44, low byte first. */
  lemma BitReadItems(b: Board, ofs: byte, bit: byte)
    ensures IsBit(ofs, bit) ==> Read(b, 0x121, [ofs, bit]) == Some([ofs, bit, if Holds(b, ofs, bit) then 1 else 0])
    ensures bit < 32 ==> Read(b, 0x303, [bit]) == Some([bit, if Holds(b, 0x44, bit) then 1 else 0])
    ensures Read(b, 0x305, []) == Some([b[0x44] % 0x100, b[0x44] / 0x100 % 0x100])
  {
    if IsBit(ofs, bit) {
      ReadBitItem(b, ofs, bit);
    }
    if bit < 32 {
      InputBitItem(b, bit);
    }
    InputItem(b);
  }

  // The bodies whose answer carries more than the request did.
  predicate Answers(body: Body) {
    body.Read1? || body.ReadBit? || body.DioInput? || body.DioReadBit?
  }

  /** Every other register item is answered by the bytes it was asked with. */
  lemma OthersEcho(b: Board, did: u16, data: seq<byte>)
    requires did in DICTIONARY && Ask(b, did, data).Some? && OnlyRegisters(Ask(b, did, data).value.item)
    requires var body := Ask(b, did, data).value.item.body; !Answers(body) && |Payload(body, false)| == |data|
    ensures Payload(Ask(b, did, data).value.item.body, true) == data
  {
    PayloadConstruct(DICTIONARY[did].cls, data);
  }

  // Accepted requests that nothing is behind: of four bytes, or of none.
  predicate IsUnimplemented(did: u16, data: seq<byte>) {
    (did in {0x01, 0xFFFE} && data == []) || (did in {0x1004, 0x1005, 0x7001} && |data| == 4)
  }

  /** BRD_Reset, ADC_StartHz, ADC_StartDivisor and the others without a function behind them leave the board
      alone, and their slot in the reply names code 13. */
  lemma UnimplementedItem(b: Board, did: u16, data: seq<byte>, dict: Dictionary, i: nat, before: Item)
    requires IsUnimplemented(did, data) && ErrorEntries(dict) && before.did == did
    ensures var r := Ask(b, did, data);
            r.Some? && r.value.dev == b &&
            PatchOf(dict)(i, before, r.value) == Item(0xEFF1, ItemError(i % 0x1_0000, did, 13, 0))
  {
    var e := if data == [] then Entry(0, 0, RawClass) else Entry(4, 4, RawClass);
    assert EntryOf(did) == Some(e);
    Asked(b, did, data, e);
    NegativeCodeIsNamed(dict, i, before, GoItem(b, Item(did, Raw(data))), 13);
  }

  /** The DIds marked as not implemented take an empty request, leave the board alone and report success. */
  lemma NotYetItem(b: Board, did: u16)
    requires did in {0x104, 0x107, 0x2C0, 0x2C1, 0x30B, 0x313, 0x1001, 0x1002, 0x1006, 0x1020, 0x1030, 0x1040} ||
             did in {0x401, 0x403, 0x405, 0x3001}
    ensures Read(b, did, []) == Some([])
  {
    assert EntryOf(did) == Some(Entry(0, 0, NyiClass));
    Asked(b, did, [], Entry(0, 0, NyiClass));
  }

  // ---------------------------------------------------------------- reads among everybody's writes

  // A slot whose item succeeded keeps it.
  ghost predicate KeepsSuccess(patch: Patch<Board>) {
    forall i: nat, before: Item, r: GoResult<Board> :: r.outcome == Code(0) ==> patch(i, before, r) == r.item
  }

  // The program's does.
  lemma PatchKeepsSuccess(dict: Dictionary)
    ensures KeepsSuccess(PatchOf(dict))
  {
  }

  // Item n of a message runs on what the commands of the items before it leave.
  lemma ItemRunsOn(sv: Server<Board>, dev: Board, items: seq<Item>, n: nat)
    requires RunsOnBoard(sv) && AllRegisters(items) && n < |items|
    ensures Trace(sv.go, dev, items)[n] == GoItem(RunAll(dev, Commands(items[..n])), items[n])
  {
    TraceAt(sv.go, dev, items, n);
    RunEndsOnTrace(sv.patch, sv.go, dev, items[..n], 0);
    BundleIsProgram(sv, dev, items[..n], 0);
    assert OnlyRegisters(items[n]);
  }

  // A request for a register, as the constructor leaves it.
  predicate ReadsRegister(x: Item, ofs: int) {
    x.body.Read1? && x.body.ofs == ofs && x.body.width == Width(ofs)
  }

  // The answer shows bit i at ofs to be `now`.
  predicate Shows(answer: seq<byte>, ofs: int, i: nat, now: bool) {
    Understood(answer).Some? && var u := Understood(answer).value;
    u.ofs == ofs && u.width == Width(ofs) && Bit(u.value, i) == now
  }

  lemma AnswerShows(b: Board, x: Item, ofs: int, i: nat)
    requires ReadsRegister(x, ofs) && IsBit(ofs, i)
    ensures Shows(Payload(GoItem(b, x).item.body, true), ofs, i, Holds(b, ofs, i))
  {
    InBit(b, ofs, i);
    LastFour(x.body.ofs, In(b, ofs));
  }

  // The commands that come before item n of entry k of the log.
  function Earlier(log: seq<Action>, k: nat, n: nat): seq<Command>
    requires k < |log| && IsRequest(log[k].m) && n <= |log[k].m.m.items|
  {
    ProgramOf(log[..k]) + Commands(log[k].m.m.items[..n])
  }

  lemma EarlierRuns(sv: Server<Board>, b: Board, log: seq<Action>, k: nat, n: nat, ofs: int, i: nat)
    requires RunsOnBoard(sv) && AllOnBoard(log) && IsBit(ofs, i)
    requires k < |log| && IsRequest(log[k].m) && n <= |log[k].m.m.items|
    ensures var dev := RunAll(ServeAll(sv, b, log[..k]).dev, Commands(log[k].m.m.items[..n]));
            Holds(dev, ofs, i) == AfterAll(Earlier(log, k, n), ofs, i, Holds(b, ofs, i))
  {
    var items := log[k].m.m.items;
    assert AllRegisters(items) && AllRegisters(items[..n]);
    LogIsProgram(sv, b, log[..k]);
    LogIsDefined(log[..k]);
    BundleIsDefined(items[..n]);
    RunAllAppend(b, ProgramOf(log[..k]), Commands(items[..n]));
    ProgramRefinesMap(b, Earlier(log, k, n), ofs, i);
  }

  /** Reads are sequential.  However the threads of any number of clients interleave, when item n of the j-th
      request of a client is a REG_Read1, the bytes that answer it show, bit by bit, what the commands of all
      earlier messages in queue order and of the earlier items of its own message make of the register, and
      nothing of any later or half-run message. */
  lemma ReadsAreSequential(sv: Server<Board>, b: Board, steps: seq<Step>, c: int, j: nat, n: nat, ofs: int, i: nat)
    requires RunsOnBoard(sv) && KeepsSuccess(sv.patch) && IsRun(sv, Init(b), steps) && IsBit(ofs, i)
    requires var s := After(sv, Init(b), steps);
             && AllOnBoard(s.log) && j < |Of(s.sent, c)| && j < |Of(s.log, c)|
             && var a := Of(s.log, c)[j];
             AsksToRun(a.m) && n < |a.m.m.items| && ReadsRegister(a.m.m.items[n], ofs)
    ensures var s := After(sv, Init(b), steps);
            var k, reply := Position(s.log, c, j), Of(s.sent, c)[j];
            && reply.m.Ready? && n < |reply.m.m.items|
            && reply.m.m.items[n].did == s.log[k].m.m.items[n].did
            && Shows(Payload(reply.m.m.items[n].body, true), ofs, i,
                     AfterAll(Earlier(s.log, k, n), ofs, i, Holds(b, ofs, i)))
  {
    RepliesInRequestOrder(sv, b, steps, c, j);
    var s := After(sv, Init(b), steps);
    var k := Position(s.log, c, j);
    var dev, items := ServeAll(sv, b, s.log[..k]).dev, s.log[k].m.m.items;
    assert AllRegisters(items);
    RunExactlyWhenAsked(sv, dev, s.log[k]);
    ItemRunsOn(sv, dev, items, n);
    var now := RunAll(dev, Commands(items[..n]));
    assert sv.patch(n, items[n], GoItem(now, items[n])) == GoItem(now, items[n]).item;
    AnswerShows(now, items[n], ofs, i);
    EarlierRuns(sv, b, s.log, k, n, ofs, i);
  }
}
