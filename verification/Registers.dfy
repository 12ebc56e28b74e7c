/** Register commands: in() and out() of apci.cpp, the read-modify-write `Go` methods of DataItems/REG_.cpp,
    DIO_.cpp and ADC_.cpp, the mask commands of TDataItem.cpp, and what whole programs of them do, bit by bit.
    A register is taken to hold what was last written to it. */
module Registers {
  import opened Bits
  import opened Bytes
  import opened Items

  const ALL_ONES: u32 := 0xFFFF_FFFF

  type Board = b: seq<u32> | |b| == 0x100 witness seq(0x100, _ => 0)

  // widthFromOffset for the offsets `Go` methods compute, which may lie beyond the byte range.
  function Width(ofs: int): nat {
    if 0 <= ofs < 0x100 then WidthFromOffset(ofs) else 0
  }

  // in(): a bad offset reads as all ones.
  function In(b: Board, ofs: int): u32 {
    if Width(ofs) == 8 then b[ofs] % 0x100 else if Width(ofs) == 32 then b[ofs] else ALL_ONES
  }

  // out(): an 8-bit register takes the low byte, a bad offset takes nothing.
  function Out(b: Board, ofs: int, v: u32): Board {
    if Width(ofs) == 8 then b[ofs := v % 0x100] else if Width(ofs) == 32 then b[ofs := v] else b
  }

  // ---------------------------------------------------------------- commands

  // What a `Go` method does to one register: combine it with a mask, replace it, or, for the ADC range
  // registers, change one bit of its low byte and write only that byte back.
  datatype Command =
    | Combine(ofs: int, g: Gate, mask: u32)
    | PutBit(ofs: int, bit: nat, on: bool)
    | PutBitOfByte(ofs: int, bit: nat, on: bool)
    | Write(ofs: int, value: u32)

  // 1 << bit; the shift of C is not defined from 32 on.
  function OneBit(bit: nat): u32 {
    if bit < 32 then ShiftFits(bit); Pow2(bit) else 0
  }

  lemma {:induction false} PowersGrow(i: nat, j: nat)
    requires i <= j
    ensures Pow2(i) <= Pow2(j)
  {
    if i < j {
      PowersGrow(i, j - 1);
    }
  }

  lemma ShiftFits(bit: nat)
    requires bit < 32
    ensures Pow2(bit) < 0x1_0000_0000
  {
    PowersGrow(bit, 31);
    Powers();
    assert Pow2(32) == 2 * Pow2(31);
  }

  function Word(g: Gate, a: u32, b: u32): u32 {
    Powers();
    Bitwise(g, a, b, 32)
  }

  // `v &= ~(1 << bit); if (on) v |= 1 << bit;`
  function WithBit(v: u32, bit: nat, on: bool): u32 {
    var cleared := Word(AndNot, v, OneBit(bit));
    if on then Word(Or, cleared, OneBit(bit)) else cleared
  }

  function Run1(b: Board, c: Command): Board {
    match c
    case Combine(ofs, g, mask) => Out(b, ofs, Word(g, In(b, ofs), mask))
    case PutBit(ofs, bit, on) => Out(b, ofs, WithBit(In(b, ofs), bit, on))
    case PutBitOfByte(ofs, bit, on) => Out(b, ofs, WithBit(In(b, ofs) % 0x100, bit, on) % 0x100)
    case Write(ofs, v) => Out(b, ofs, v)
  }

  function RunAll(b: Board, program: seq<Command>): Board
    decreases |program|
  {
    if program == [] then b else RunAll(Run1(b, program[0]), program[1..])
  }

  lemma {:induction false} RunAllAppend(b: Board, p: seq<Command>, q: seq<Command>)
    ensures RunAll(b, p + q) == RunAll(RunAll(b, p), q)
    decreases |p|
  {
    if p == [] {
      assert p + q == q;
    } else {
      assert (p + q)[1..] == p[1..] + q;
      RunAllAppend(Run1(b, p[0]), p[1..], q);
    }
  }

  // ---------------------------------------------------------------- the abstract map

  // A bit of the board: an offset that names a register, and an index below its width.
  predicate IsBit(ofs: int, i: nat) {
    i < Width(ofs)
  }

  // The board as a map from bits to truth values.
  predicate Holds(b: Board, ofs: int, i: nat)
    requires IsBit(ofs, i)
  {
    Bit(b[ofs], i)
  }

  // What a command does to the map: it looks at no other bit, and changes none outside its register.
  predicate After1(c: Command, ofs: int, i: nat, was: bool) {
    if ofs != c.ofs then was
    else
      match c
      case Combine(_, g, mask) => Output(g, was, Bit(mask, i))
      case PutBit(_, bit, on) => if i == bit then on else was
      case PutBitOfByte(_, bit, on) => i < 8 && if i == bit then on else was
      case Write(_, v) => Bit(v, i)
  }

  predicate AfterAll(program: seq<Command>, ofs: int, i: nat, was: bool)
    decreases |program|
  {
    if program == [] then was else AfterAll(program[1..], ofs, i, After1(program[0], ofs, i, was))
  }

  // Shifts stay where C defines them.
  predicate Defined(c: Command) {
    c.PutBit? || c.PutBitOfByte? ==> c.bit < 32
  }

  lemma WordBit(g: Gate, a: u32, b: u32, i: nat)
    requires i < 32
    ensures Bit(Word(g, a, b), i) == Output(g, Bit(a, i), Bit(b, i))
  {
    BitwiseBit(g, a, b, 32, i);
  }

  lemma WithBitBit(v: u32, bit: nat, on: bool, i: nat)
    requires i < 32 && bit < 32
    ensures Bit(WithBit(v, bit, on), i) == if i == bit then on else Bit(v, i)
  {
    WordBit(AndNot, v, OneBit(bit), i);
    WordBit(Or, Word(AndNot, v, OneBit(bit)), OneBit(bit), i);
    Pow2Bit(bit, i);
  }

  lemma ByteBit(v: nat, i: nat)
    ensures Bit(v % 0x100, i) == (i < 8 && Bit(v, i))
  {
    Powers();
    TruncatedBit(v, 8, i);
  }

  lemma InBit(b: Board, ofs: int, i: nat)
    requires IsBit(ofs, i)
    ensures i < 32 && Bit(In(b, ofs), i) == Holds(b, ofs, i)
  {
    ByteBit(b[ofs], i);
  }

  lemma OutBit(b: Board, ofs: int, v: u32, at: int, i: nat)
    requires IsBit(at, i)
    ensures Holds(Out(b, ofs, v), at, i) == if at == ofs then Bit(v, i) else Holds(b, at, i)
  {
    ByteBit(v, i);
  }

  // The value a command writes, bit by bit.
  lemma Run1Bit(b: Board, c: Command, at: int, i: nat)
    requires IsBit(at, i) && Defined(c)
    ensures Holds(Run1(b, c), at, i) == After1(c, at, i, Holds(b, at, i))
  {
    match c
    case Combine(ofs, g, mask) =>
      OutBit(b, ofs, Word(g, In(b, ofs), mask), at, i);
      if at == ofs {
        InBit(b, ofs, i);
        WordBit(g, In(b, ofs), mask, i);
      }
    case PutBit(ofs, bit, on) =>
      OutBit(b, ofs, WithBit(In(b, ofs), bit, on), at, i);
      if at == ofs {
        InBit(b, ofs, i);
        WithBitBit(In(b, ofs), bit, on, i);
      }
    case PutBitOfByte(ofs, bit, on) =>
      var v := WithBit(In(b, ofs) % 0x100, bit, on);
      OutBit(b, ofs, v % 0x100, at, i);
      if at == ofs {
        InBit(b, ofs, i);
        ByteBit(v, i);
        WithBitBit(In(b, ofs) % 0x100, bit, on, i);
        ByteBit(In(b, ofs), i);
      }
    case Write(ofs, v) => OutBit(b, ofs, v, at, i);
  }

  /** Refinement: whatever the program, each bit of the board ends up as the abstract map says. */
  lemma {:induction false} ProgramRefinesMap(b: Board, program: seq<Command>, ofs: int, i: nat)
    requires IsBit(ofs, i) && forall k :: 0 <= k < |program| ==> Defined(program[k])
    ensures Holds(RunAll(b, program), ofs, i) == AfterAll(program, ofs, i, Holds(b, ofs, i))
    decreases |program|
  {
    if program != [] {
      Run1Bit(b, program[0], ofs, i);
      ProgramRefinesMap(Run1(b, program[0]), program[1..], ofs, i);
    }
  }

  // The bits a command is about.
  predicate Targets(c: Command, ofs: int, i: nat) {
    ofs == c.ofs &&
    match c
    case Combine(_, _, mask) => Bit(mask, i)
    case PutBit(_, bit, _) => i == bit
    case PutBitOfByte(_, bit, _) => i == bit || 8 <= i
    case Write(_, _) => true
  }

  /** A bit no command of the program is about keeps its value. */
  lemma {:induction false} UntargetedBitsKept(b: Board, program: seq<Command>, ofs: int, i: nat)
    requires IsBit(ofs, i) && forall k :: 0 <= k < |program| ==> Defined(program[k]) && !Targets(program[k], ofs, i)
    ensures Holds(RunAll(b, program), ofs, i) == Holds(b, ofs, i)
    decreases |program|
  {
    if program != [] {
      Run1Bit(b, program[0], ofs, i);
      assert !Targets(program[0], ofs, i);
      UntargetedBitsKept(Run1(b, program[0]), program[1..], ofs, i);
    }
  }

  // The command changes no bit of its register but its own, on any board.
  ghost predicate KeepsOtherBits(c: Command)
    requires c.PutBit? || c.PutBitOfByte?
  {
    forall b: Board, i: nat :: IsBit(c.ofs, i) && i != c.bit ==> Holds(Run1(b, c), c.ofs, i) == Holds(b, c.ofs, i)
  }

  // A board whose registers have every bit set.
  function AllSet(): Board {
    seq<u32>(0x100, _ => ALL_ONES)
  }

  lemma {:induction false} OnesBit(k: nat, i: nat)
    requires i < k
    ensures Bit(Pow2(k) - 1, i)
  {
    if i > 0 {
      assert (Pow2(k) - 1) / 2 == Pow2(k - 1) - 1;
      OnesBit(k - 1, i - 1);
    }
  }

  lemma AllSetHolds(ofs: int, i: nat)
    requires IsBit(ofs, i)
    ensures Holds(AllSet(), ofs, i)
  {
    Powers();
    OnesBit(32, i);
  }

  lemma ByteCommandClears(ofs: int, bit: nat, on: bool)
    requires bit < 8 && Width(ofs) == 32
    ensures Holds(AllSet(), ofs, 8) && !Holds(Run1(AllSet(), PutBitOfByte(ofs, bit, on)), ofs, 8)
  {
    AllSetHolds(ofs, 8);
    Run1Bit(AllSet(), PutBitOfByte(ofs, bit, on), ofs, 8);
  }

  lemma ByteCommandKeeps(ofs: int, bit: nat, on: bool)
    requires bit < 8 && Width(ofs) != 32
    ensures KeepsOtherBits(PutBitOfByte(ofs, bit, on))
  {
    var c := PutBitOfByte(ofs, bit, on);
    forall b: Board, i: nat | IsBit(ofs, i) && i != bit ensures Holds(Run1(b, c), ofs, i) == Holds(b, ofs, i) {
      Run1Bit(b, c, ofs, i);
    }
  }

  /** A one-bit command that goes through a byte keeps the other bits of its register, on every board, exactly
      when the offset names no 32-bit register: there it clears the upper three bytes. */
  lemma ByteCommandKeepsOtherBitsIff(ofs: int, bit: nat, on: bool)
    requires bit < 8
    ensures KeepsOtherBits(PutBitOfByte(ofs, bit, on)) <==> Width(ofs) != 32
  {
    if Width(ofs) == 32 {
      ByteCommandClears(ofs, bit, on);
      assert IsBit(ofs, 8) && 8 != bit;
    } else {
      ByteCommandKeeps(ofs, bit, on);
    }
  }

  /** The whole-word command keeps them on every register. */
  lemma WordCommandKeepsOtherBits(ofs: int, bit: nat, on: bool)
    requires bit < 32
    ensures KeepsOtherBits(PutBit(ofs, bit, on))
  {
    forall b: Board, i: nat | IsBit(ofs, i) && i != bit
      ensures Holds(Run1(b, PutBit(ofs, bit, on)), ofs, i) == Holds(b, ofs, i)
    {
      Run1Bit(b, PutBit(ofs, bit, on), ofs, i);
    }
  }

  /** Reading a register after a program gives the word whose bits the abstract map has. */
  lemma ReadBack(b: Board, program: seq<Command>, ofs: int, v: u32)
    requires 0 < Width(ofs) && v < Pow2(Width(ofs)) && forall k :: 0 <= k < |program| ==> Defined(program[k])
    requires forall i :: 0 <= i < Width(ofs) ==> Bit(v, i) == AfterAll(program, ofs, i, Holds(b, ofs, i))
    ensures In(RunAll(b, program), ofs) == v
  {
    var r := RunAll(b, program);
    Powers();
    forall i | 0 <= i < Width(ofs) ensures Bit(In(r, ofs), i) == Bit(v, i) {
      ProgramRefinesMap(b, program, ofs, i);
      InBit(r, ofs, i);
    }
    SameBits(In(r, ofs), v, Width(ofs));
  }
}
