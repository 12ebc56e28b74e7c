/** What `Go` does for the items whose effect is on the registers alone, as commands and as the methods the
    source writes; and the register file of the whole server under any interleaving. */
module BoardItems {
  import opened Wrappers
  import opened Bits
  import opened Bytes
  import opened Items
  import opened Messages
  import opened ErrorItems
  import opened Queues
  import opened RunBundle
  import opened Protocol
  import opened Registers
  import opened ActionQueue

  const OFS_ADC_RANGE := 0x01
  const OFS_DAC := 0x30
  const OFS_DIO_DIRECTIONS := 0x3C
  const OFS_DIO_OUTPUTS := 0x40
  const OFS_DIO_INPUTS := 0x44
  const SPI_BUSY_BIT := 31
  const SINGLE_ENDED_BIT := 3

  const DID_REG_CLEAR_BITS := 0x108
  const DID_REG_SET_BITS := 0x109
  const DID_REG_TOGGLE_BITS := 0x10A

  // -110 and -13 as 32-bit words.
  const RC_TIMED_OUT: u32 := 0x1_0000_0000 - 110
  const RC_NYI: u32 := 0x1_0000_0000 - 13

  function DioOffset(reg: DioRegister): int {
    if reg.Directions? then OFS_DIO_DIRECTIONS else OFS_DIO_OUTPUTS
  }

  function OneBitCommand(op: BitOp, ofs: int, bit: nat): Command {
    match op
    case ClearOp => Combine(ofs, AndNot, OneBit(bit))
    case SetOp => Combine(ofs, Or, OneBit(bit))
    case ToggleOp => Combine(ofs, Xor, OneBit(bit))
  }

  // regextract: as many bytes as the register is wide.
  function MaskOf(d: seq<byte>): u32
    requires d != []
  {
    var w := WidthFromOffset(d[0]);
    if w == 8 && |d| >= 2 then d[1] else if w == 32 then U32(d, 1) else 0
  }

  function MaskCommand(did: u16, d: seq<byte>): seq<Command> {
    if d == [] then []
    else if did == DID_REG_CLEAR_BITS then [Combine(d[0], AndNot, MaskOf(d))]
    else if did == DID_REG_SET_BITS then [Combine(d[0], Or, MaskOf(d))]
    else if did == DID_REG_TOGGLE_BITS then [Combine(d[0], Xor, MaskOf(d))]
    else []
  }

  function AdcCommand(setting: AdcSetting, group: int, value: byte): Command {
    if setting.Range? then Write(OFS_ADC_RANGE + group, value)
    else PutBitOfByte(OFS_ADC_RANGE + group, SINGLE_ENDED_BIT, value != 0)
  }

  function AdcCommands(setting: AdcSetting, values: seq<byte>): (p: seq<Command>)
    ensures |p| == |values|
  {
    if values == [] then []
    else AdcCommands(setting, values[..|values| - 1]) + [AdcCommand(setting, |values| - 1, values[|values| - 1])]
  }

  /** ADC_Differential1 keeps every bit but bit 3 of its channel group's register exactly when the group's
      offset names no 32-bit register; the group is any byte a client sends. */
  lemma DifferentialKeepsOtherBitsIff(group: byte, value: byte)
    ensures KeepsOtherBits(AdcCommand(Differential, group, value)) <==> Width(OFS_ADC_RANGE + group) != 32
  {
    ByteCommandKeepsOtherBitsIff(OFS_ADC_RANGE + group, SINGLE_ENDED_BIT, value != 0);
  }

  // A client's request to change channel group 0x17, whose offset is 0x18.
  const GROUP_BEYOND: Item := Item(0x1007, AdcGroup(Differential, 0x17, 1))

  lemma GroupBeyondIsAdmitted()
    ensures Admits(DICTIONARY, GROUP_BEYOND)
  {
    assert EntryOf(0x1007) == Known(2, 2, AdcGroupClass(Differential));
  }

  /** That request is admitted, reaches a 32-bit register, and clears bits it is not about. */
  lemma DifferentialClearsOtherBits()
    ensures Admits(DICTIONARY, GROUP_BEYOND) && Width(OFS_ADC_RANGE + 0x17) == 32
    ensures !KeepsOtherBits(AdcCommand(Differential, 0x17, 1))
    ensures Holds(AllSet(), 0x18, 8) && !Holds(RunAll(AllSet(), CommandsOf(GROUP_BEYOND)), 0x18, 8)
  {
    GroupBeyondIsAdmitted();
    DifferentialKeepsOtherBitsIff(0x17, 1);
    ByteCommandClears(0x18, SINGLE_ENDED_BIT, true);
    var c := PutBitOfByte(0x18, SINGLE_ENDED_BIT, true);
    assert CommandsOf(GROUP_BEYOND) == [c];
    assert RunAll(AllSet(), [c]) == RunAll(Run1(AllSet(), c), []);
  }

  function CommandsOf(x: Item): seq<Command> {
    match x.body
    case Raw(d) => MaskCommand(x.did, d)
    case Write1(ofs, _, v) => [Write(ofs, v)]
    case WriteBit(ofs, bit, on) => [PutBit(ofs, bit, on != 0)]
    case BitCommand(op, ofs, bit) => [OneBitCommand(op, ofs, bit)]
    case DioWord(reg, w) => [Write(DioOffset(reg), w)]
    case DioBit(op, bit) => [OneBitCommand(op, OFS_DIO_OUTPUTS, bit)]
    case DioWriteBit(reg, bit, on) => [PutBit(DioOffset(reg), bit, on != 0)]
    case AdcGroup(setting, group, v) => [AdcCommand(setting, group, v)]
    case AdcAll(setting, values) => AdcCommands(setting, values)
    case _ => []
  }

  // What the reading items bring back.
  function ResultOf(b: Board, body: Body): Body {
    match body
    case Read1(ofs, w, _) => Read1(ofs, w, In(b, ofs))
    case ReadBit(ofs, bit, _) => ReadBit(ofs, bit, if Bit(In(b, ofs), bit) then 1 else 0)
    case DioInput(_) => DioInput(In(b, OFS_DIO_INPUTS) % 0x1_0000)
    case DioReadBit(bit, _) => DioReadBit(bit, if Bit(In(b, OFS_DIO_INPUTS), bit) then 1 else 0)
    case _ => body
  }

  // The register whose top bit says that the bus behind this offset is busy.
  function BusyOffset(ofs: byte): Option<int> {
    if ofs == OFS_DAC then Some(OFS_DAC)
    else if ofs in {OFS_DIO_DIRECTIONS, OFS_DIO_OUTPUTS, OFS_DIO_INPUTS} then Some(OFS_DIO_DIRECTIONS)
    else None
  }

  function WaitCode(b: Board, busy: int): u32 {
    if Bit(In(b, busy), SPI_BUSY_BIT) then RC_TIMED_OUT else 0
  }

  function CodeOf(b: Board, x: Item): u32 {
    match x.body
    case Write1(ofs, _, _) => if BusyOffset(ofs).Some? then WaitCode(b, BusyOffset(ofs).value) else 0
    case Raw(_) =>
      if EntryOf(x.did) == Some(NOT_YET) || x.did in {DID_REG_CLEAR_BITS, DID_REG_SET_BITS, DID_REG_TOGGLE_BITS} then 0
      else RC_NYI
    case _ => 0
  }

  function GoItem(b: Board, x: Item): GoResult<Board> {
    GoResult(RunAll(b, CommandsOf(x)), Item(x.did, ResultOf(b, x.body)), Code(CodeOf(b, x)))
  }

  predicate IsCalibration(cls: Class) {
    cls.CalOneClass? || cls.CalAllClass? || cls.CalPairClass? || cls.CalPairsClass?
  }

  // Items whose effect is on the registers alone: not the ones that touch the configuration, the streams or
  // the process, and not documentation.
  predicate OnlyRegisters(x: Item) {
    match EntryOf(x.did)
    case None => false
    case Some(e) =>
      !e.cls.ForeignClass? && !e.cls.DocClass? && !IsCalibration(e.cls) &&
      (e.cls.RawClass? ==> x.did in {0x01, 0xFFFE, 0x1004, 0x1005, 0x7001} ||
                           x.did in {DID_REG_CLEAR_BITS, DID_REG_SET_BITS, DID_REG_TOGGLE_BITS})
  }

  // ---------------------------------------------------------------- as the source writes it

  class Hardware {
    var board: Board

    constructor (b: Board)
      ensures board == b
    {
      board := b;
    }

    method ReadRegister(ofs: int) returns (v: u32)
      ensures v == In(board, ofs)
    {
      v := In(board, ofs);
    }

    method WriteRegister(ofs: int, v: u32)
      modifies this
      ensures board == Out(old(board), ofs, v)
    {
      board := Out(board, ofs, v);
    }

    /** TDIO_Configure::Go and TDIO_Output::Go */
    method WriteWord(ofs: int, w: u16)
      modifies this
      ensures board == RunAll(old(board), [Write(ofs, w)])
    {
      WriteRegister(ofs, w);
      assert board == Run1(old(board), Write(ofs, w));
    }

    /** WaitUntilRegisterBitIsLow: at most a hundred looks that count. */
    method WaitUntilLow(busy: int) returns (rc: u32)
      ensures rc == WaitCode(board, busy)
    {
      var attempt, waiting := 0, true;
      rc := 0;
      while waiting
        invariant 0 <= attempt <= 101
        invariant waiting ==> rc == 0 && attempt <= 100
        invariant waiting && 0 < attempt ==> Bit(In(board, busy), SPI_BUSY_BIT)
        invariant !waiting ==> rc == WaitCode(board, busy)
        decreases 101 - attempt, waiting
      {
        var value := ReadRegister(busy);
        attempt := attempt + 1;
        if attempt > 100 {
          rc, waiting := RC_TIMED_OUT, false;
        } else if !Bit(value, SPI_BUSY_BIT) {
          waiting := false;
        }
      }
    }

    /** TREG_Writes::Go for the one write a TREG_Write1 holds. */
    method WriteOne(ofs: byte, v: u32) returns (rc: u32)
      modifies this
      ensures board == RunAll(old(board), [Write(ofs, v)])
      ensures rc == (if BusyOffset(ofs).Some? then WaitCode(old(board), BusyOffset(ofs).value) else 0)
    {
      rc := 0;
      var busy := BusyOffset(ofs);
      if busy.Some? {
        rc := WaitUntilLow(busy.value);
      }
      WriteRegister(ofs, v);
    }

    /** Read, clear, set if asked to, write back: REG_WriteBit, DIO_ConfigureBit and DIO_OutputBit. */
    method PutOneBit(ofs: int, bit: byte, on: byte)
      modifies this
      ensures board == RunAll(old(board), [PutBit(ofs, bit, on != 0)])
    {
      var v := ReadRegister(ofs);
      v := Word(AndNot, v, OneBit(bit));
      if on != 0 {
        v := Word(Or, v, OneBit(bit));
      }
      WriteRegister(ofs, v);
      assert board == Run1(old(board), PutBit(ofs, bit, on != 0));
    }

    /** Read, combine with one bit, write back: REG_ClearBit, REG_SetBit, REG_ToggleBit and the same for DIO. */
    method CombineOneBit(op: BitOp, ofs: int, bit: byte)
      modifies this
      ensures board == RunAll(old(board), [OneBitCommand(op, ofs, bit)])
    {
      var v := ReadRegister(ofs);
      match op {
        case ClearOp => v := Word(AndNot, v, OneBit(bit));
        case SetOp => v := Word(Or, v, OneBit(bit));
        case ToggleOp => v := Word(Xor, v, OneBit(bit));
      }
      WriteRegister(ofs, v);
      assert board == Run1(old(board), OneBitCommand(op, ofs, bit));
    }

    /** TADC_Differential1::Go and TADC_Range1::Go */
    method SetGroup(setting: AdcSetting, group: byte, value: byte)
      modifies this
      ensures board == RunAll(old(board), [AdcCommand(setting, group, value)])
    {
      var ofs := OFS_ADC_RANGE + group;
      if setting.Range? {
        WriteRegister(ofs, value);
      } else {
        var reg := ReadRegister(ofs);
        reg := WithBit(reg % 0x100, SINGLE_ENDED_BIT, value != 0) % 0x100;
        WriteRegister(ofs, reg);
      }
    }

    /** TADC_DifferentialAll::Go and TADC_RangeAll::Go: a loop over the channel groups. */
    method SetAllGroups(setting: AdcSetting, values: seq<byte>)
      requires |values| <= 0x100
      modifies this
      ensures board == RunAll(old(board), AdcCommands(setting, values))
    {
      for grp := 0 to |values|
        invariant board == RunAll(old(board), AdcCommands(setting, values[..grp]))
      {
        ghost var done := values[..grp + 1];
        assert done[..grp] == values[..grp];
        RunAllAppend(old(board), AdcCommands(setting, values[..grp]), [AdcCommand(setting, grp, values[grp])]);
        SetGroup(setting, grp, values[grp]);
      }
      assert values[..|values|] == values;
    }

    /** The mask commands of the dictionary. */
    method CombineMask(did: u16, d: seq<byte>)
      modifies this
      ensures board == RunAll(old(board), MaskCommand(did, d))
    {
      if d != [] && did in {DID_REG_CLEAR_BITS, DID_REG_SET_BITS, DID_REG_TOGGLE_BITS} {
        var mask := MaskOf(d);
        var v := ReadRegister(d[0]);
        if did == DID_REG_CLEAR_BITS {
          v := Word(AndNot, v, mask);
        } else if did == DID_REG_SET_BITS {
          v := Word(Or, v, mask);
        } else {
          v := Word(Xor, v, mask);
        }
        WriteRegister(d[0], v);
      }
    }

    method ActOnOffset(x: Item)
      requires x.body.Raw? || x.body.WriteBit? || x.body.BitCommand?
      modifies this
      ensures board == RunAll(old(board), CommandsOf(x))
    {
      match x.body {
        case Raw(d) => CombineMask(x.did, d);
        case WriteBit(ofs, bit, on) => PutOneBit(ofs, bit, on);
        case BitCommand(op, ofs, bit) => CombineOneBit(op, ofs, bit);
      }
    }

    /** The virtual `Go`, for every class of register item: what it does to the registers. */
    method Act(x: Item) returns (rc: u32)
      requires x.body.AdcAll? ==> |x.body.settings| == 8
      modifies this
      ensures board == RunAll(old(board), CommandsOf(x))
      ensures rc == CodeOf(old(board), x)
    {
      rc := CodeOf(board, x);
      if x.body.Raw? || x.body.WriteBit? || x.body.BitCommand? {
        ActOnOffset(x);
      } else if x.body.Write1? {
        rc := WriteOne(x.body.ofs, x.body.value);
      } else if x.body.DioWord? {
        WriteWord(DioOffset(x.body.reg), x.body.word);
      } else if x.body.DioBit? {
        CombineOneBit(x.body.op, OFS_DIO_OUTPUTS, x.body.bit);
      } else if x.body.DioWriteBit? {
        PutOneBit(DioOffset(x.body.reg), x.body.bit, x.body.on);
      } else if x.body.AdcGroup? {
        SetGroup(x.body.setting, x.body.group, x.body.setTo);
      } else if x.body.AdcAll? {
        SetAllGroups(x.body.setting, x.body.settings);
      }
    }

    /** And with what a reading item brings back. */
    method Go(x: Item) returns (body: Body, rc: u32)
      requires x.body.AdcAll? ==> |x.body.settings| == 8
      modifies this
      ensures GoItem(old(board), x) == GoResult(board, Item(x.did, body), Code(rc))
    {
      body := ResultOf(board, x.body);
      rc := Act(x);
    }
  }

  // ---------------------------------------------------------------- the register file of the server

  function Commands(items: seq<Item>): seq<Command> {
    if items == [] then [] else CommandsOf(items[0]) + Commands(items[1..])
  }

  // The commands of every request of a log, in order.
  function ProgramOf(log: seq<Action>): seq<Command> {
    if log == [] then []
    else
      var a := log[|log| - 1];
      ProgramOf(log[..|log| - 1]) + if IsRequest(a.m) then Commands(a.m.m.items) else []
  }

  // The server runs register items as described here, and any other items as it likes.
  ghost predicate RunsOnBoard(sv: Server<Board>) {
    forall b: Board, x: Item :: OnlyRegisters(x) ==> sv.go(b, x) == GoItem(b, x)
  }

  predicate AllDefined(program: seq<Command>) {
    forall k :: 0 <= k < |program| ==> Defined(program[k])
  }

  predicate AllRegisters(items: seq<Item>) {
    forall k :: 0 <= k < |items| ==> OnlyRegisters(items[k]) && AllDefined(CommandsOf(items[k]))
  }

  predicate AllOnBoard(log: seq<Action>) {
    forall k :: 0 <= k < |log| && IsRequest(log[k].m) ==> AllRegisters(log[k].m.m.items)
  }

  lemma {:induction false} BundleIsProgram(sv: Server<Board>, b: Board, items: seq<Item>, base: nat)
    requires RunsOnBoard(sv) && AllRegisters(items)
    ensures RunItems(sv.patch, sv.go, b, items, base).dev == RunAll(b, Commands(items))
    decreases |items|
  {
    if items != [] {
      assert sv.go(b, items[0]) == GoItem(b, items[0]);
      var b' := RunAll(b, CommandsOf(items[0]));
      BundleIsProgram(sv, b', items[1..], base + 1);
      RunAllAppend(b, CommandsOf(items[0]), Commands(items[1..]));
    }
  }

  lemma {:induction false} LogIsProgram(sv: Server<Board>, b: Board, log: seq<Action>)
    requires RunsOnBoard(sv) && AllOnBoard(log)
    ensures ServeAll(sv, b, log).dev == RunAll(b, ProgramOf(log))
  {
    if log != [] {
      var front, a := log[..|log| - 1], log[|log| - 1];
      LogIsProgram(sv, b, front);
      if IsRequest(a.m) {
        BundleIsProgram(sv, ServeAll(sv, b, front).dev, a.m.m.items, 0);
        RunAllAppend(b, ProgramOf(front), Commands(a.m.m.items));
      } else {
        assert ProgramOf(log) == ProgramOf(front) + [] == ProgramOf(front);
      }
    }
  }

  lemma {:induction false} BundleIsDefined(items: seq<Item>)
    requires AllRegisters(items)
    ensures AllDefined(Commands(items))
  {
    if items != [] {
      assert AllDefined(CommandsOf(items[0]));
      BundleIsDefined(items[1..]);
    }
  }

  lemma {:induction false} LogIsDefined(log: seq<Action>)
    requires AllOnBoard(log)
    ensures AllDefined(ProgramOf(log))
  {
    if log != [] {
      LogIsDefined(log[..|log| - 1]);
      var a := log[|log| - 1];
      if IsRequest(a.m) {
        BundleIsDefined(a.m.m.items);
      }
    }
  }

  /** Whatever the clients send and however the threads interleave, whenever the action thread is idle every
      bit of every register is what the commands of the messages served so far, whole message after whole
      message in queue order, make of it. */
  lemma RegisterFileIsSequential(sv: Server<Board>, b: Board, steps: seq<Step>, ofs: int, i: nat)
    requires RunsOnBoard(sv) && IsRun(sv, Init(b), steps) && IsBit(ofs, i)
    requires After(sv, Init(b), steps).act.Idle? && AllOnBoard(After(sv, Init(b), steps).log)
    ensures var s := After(sv, Init(b), steps);
            |s.sent| <= |s.log| &&
            Holds(s.dev, ofs, i) == AfterAll(ProgramOf(s.log[..|s.sent|]), ofs, i, Holds(b, ofs, i))
  {
    Serialisable(sv, b, steps);
    var s := After(sv, Init(b), steps);
    var served := s.log[..|s.sent|];
    LogIsProgram(sv, b, served);
    LogIsDefined(served);
    ProgramRefinesMap(b, ProgramOf(served), ofs, i);
  }
}
