/** Data items: the dictionary of DataItems/TDataItem.cpp, what each class's constructor makes of the
    bytes it is given, and what its calcPayload writes back. */
module Items {
  import opened Bytes
  import opened Calibration

  datatype BitOp = ClearOp | SetOp | ToggleOp

  datatype DioRegister = Directions | Outputs

  datatype AdcSetting = Range | Differential

  datatype Coefficient = Scale | Offset

  // A calibration value for each of the eight ADC ranges.
  type Row = r: seq<u32> | |r| == 8 witness [0, 0, 0, 0, 0, 0, 0, 0]

  const ZERO_ROW: Row := [0, 0, 0, 0, 0, 0, 0, 0]

  // The C++ classes behind the dictionary.  Foreign stands for those whose constructor or calcPayload is not
  // modelled.  No request of theirs is canonical, so nothing is claimed of their codecs.
  datatype Class =
    | RawClass | NyiClass | DocClass | Read1Class | Write1Class | ReadBitClass | WriteBitClass | BitClass(op: BitOp)
    | DioWordClass(reg: DioRegister) | DioInputClass | DioBitClass(op: BitOp)
    | DioWriteBitClass(reg: DioRegister) | DioReadBitClass
    | AdcGroupClass(setting: AdcSetting) | AdcAllClass(setting: AdcSetting)
    | CalOneClass(which: Coefficient) | CalAllClass(which: Coefficient) | CalPairClass | CalPairsClass
    | SysErrorClass | ItemErrorClass | ForeignClass

  // The parameters an item holds, results included.
  datatype Body =
    | Raw(data: seq<byte>)
    | Read1(ofs: byte, width: nat, regVal: u32)
    | Write1(ofs: byte, width: nat, value: u32)
    | ReadBit(ofs: byte, bit: byte, result: byte)
    | WriteBit(ofs: byte, bit: byte, on: byte)
    | BitCommand(op: BitOp, ofs: byte, bit: byte)
    | DioWord(reg: DioRegister, word: u16)
    | DioInput(word: u16)
    | DioBit(op: BitOp, bit: byte)
    | DioWriteBit(reg: DioRegister, bit: byte, on: byte)
    | DioReadBit(bit: byte, result: byte)
    | AdcGroup(setting: AdcSetting, group: byte, setTo: byte)
    | AdcAll(setting: AdcSetting, settings: seq<byte>)
    | CalOne(which: Coefficient, range: byte, bits: u32)
    | CalAll(which: Coefficient, row: Row)
    | CalPair(range: byte, scale: u32, offset: u32)
    | CalPairs(scales: Row, offsets: Row)
    | SysError(stage: u32, code: u32, info: u32)
    | ItemError(index: u16, did: u16, code: u32, info: u32)

  datatype Item = Item(did: u16, body: Body)

  datatype Entry = Entry(minLen: u16, maxLen: u16, cls: Class)

  type Dictionary = map<int, Entry>

  // Error numbers of TError.h, as the positive index of `err_msg`.
  const ERR_MSG_CHECKSUM := 2
  const ERR_MSG_PARSE := 3
  const ERR_MSG_ID_UNKNOWN := 5
  const ERR_MSG_LEN_MISMATCH := 6
  const ERR_ITEM_LEN_MISMATCH := 7
  const ERR_DID_BAD_PARAM := 10
  const ERR_DID_BAD_OFFSET := 11
  const ERR_DID_INVALID := 12
  const ERR_NYI := 13

  // 8 or 32 for a register of the board, 0 for anything else.
  function WidthFromOffset(ofs: byte): nat {
    if ofs < 0x18 then 8 else if ofs <= 0xFC && ofs % 4 == 0 then 32 else 0
  }

  // ---------------------------------------------------------------- constructing and serialising

  datatype Made = Built(body: Body) | Threw(code: nat, info: u32)

  // The constructors.  One that finds fewer bytes than it wants leaves its parameters unset; the model
  // writes zeros there.
  function Construct(cls: Class, d: seq<byte>): Made {
    match cls
    case RawClass => Built(Raw(d))
    case NyiClass => Built(Raw(d))
    case DocClass => Built(Raw([]))
    case ForeignClass => Built(Raw(d))
    case Read1Class => if d == [] then Built(Read1(0, 0, 0)) else Built(Read1(d[0], WidthFromOffset(d[0]), 0))
    case Write1Class =>
      if d == [] then Threw(ERR_ITEM_LEN_MISMATCH, 0)
      else
        var w := WidthFromOffset(d[0]);
        if w == 0 then Threw(ERR_DID_BAD_OFFSET, d[0])
        else if |d| != (if w == 8 then 2 else 5) then Threw(ERR_DID_BAD_PARAM, |d| % 0x1_0000_0000)
        else Built(Write1(d[0], w, if w == 8 then d[1] else U32(d, 1)))
    case ReadBitClass => if |d| >= 2 then Built(ReadBit(d[0], d[1], 0)) else Built(ReadBit(0, 0, 0))
    case WriteBitClass => if |d| >= 3 then Built(WriteBit(d[0], d[1], d[2])) else Built(WriteBit(0, 0, 0))
    case BitClass(op) => if |d| >= 2 then Built(BitCommand(op, d[0], d[1])) else Built(BitCommand(op, 0, 0))
    case DioWordClass(reg) => Built(DioWord(reg, U16(d, 0)))
    case DioInputClass => Built(DioInput(0))
    case DioBitClass(op) => if |d| >= 1 then Built(DioBit(op, d[0])) else Built(DioBit(op, 0))
    case DioWriteBitClass(reg) =>
      if |d| >= 2 then Built(DioWriteBit(reg, d[0], d[1])) else Built(DioWriteBit(reg, 0, 0))
    case DioReadBitClass => if |d| >= 1 then Built(DioReadBit(d[0], 0)) else Built(DioReadBit(0, 0))
    case AdcGroupClass(k) => if |d| >= 2 then Built(AdcGroup(k, d[0], d[1])) else Built(AdcGroup(k, 0, 0))
    case AdcAllClass(k) => Built(AdcAll(k, if |d| >= 8 then d[..8] else [0, 0, 0, 0, 0, 0, 0, 0]))
    case CalOneClass(c) => Built(if |d| >= 5 then CalOne(c, d[0], U32(d, 1)) else CalOne(c, 0, 0))
    case CalAllClass(c) => Built(CalAll(c, if |d| >= 32 then Words(d[..32]) else ZERO_ROW))
    case CalPairClass => Built(if |d| >= 9 then CalPair(d[0], U32(d, 1), U32(d, 5)) else CalPair(0, 0, 0))
    case CalPairsClass =>
      Built(if |d| >= 64 then CalPairs(ScalesOf(Words(d[..64])), OffsetsOf(Words(d[..64])))
            else CalPairs(ZERO_ROW, ZERO_ROW))
    case SysErrorClass => Built(SysError(U32(d, 0), U32(d, 4), U32(d, 8)))
    case ItemErrorClass => Built(ItemError(U16(d, 0), U16(d, 2), U32(d, 4), U32(d, 8)))
  }

  // calcPayload
  function Payload(b: Body, asReply: bool): seq<byte> {
    match b
    case Raw(d) => d
    case Read1(ofs, w, v) => [ofs] + if !asReply then [] else if w == 8 then [v % 0x100] else LE32(v)
    case Write1(ofs, w, v) => [ofs] + if w == 8 then [v % 0x100] else LE32(v)
    case ReadBit(ofs, bit, r) => [ofs, bit] + if asReply then [r] else []
    case WriteBit(ofs, bit, on) => [ofs, bit, on]
    case BitCommand(_, ofs, bit) => [ofs, bit]
    case DioWord(_, v) => LE16(v)
    case DioInput(v) => if asReply then LE16(v) else []
    case DioBit(_, bit) => [bit]
    case DioWriteBit(_, bit, on) => [bit, on]
    case DioReadBit(bit, r) => [bit] + if asReply then [r] else []
    case AdcGroup(_, g, v) => [g, v]
    case AdcAll(_, s) => s
    case CalOne(_, r, w) => [r] + LE32(w)
    case CalAll(_, row) => WordBytes(row)
    case CalPair(r, s, o) => [r] + LE32(s) + LE32(o)
    case CalPairs(s, o) => WordBytes(Interleave(s, o))
    case SysError(s, c, i) => LE32(s) + LE32(c) + LE32(i)
    case ItemError(x, did, c, i) => LE16(x) + LE16(did) + LE32(c) + LE32(i)
  }

  // TDataItemBase::AsBytes; the length field holds sixteen bits.
  function Framed(did: u16, data: seq<byte>): (s: seq<byte>)
    ensures |s| == 4 + |data|
  {
    LE16(did) + LE16(|data| % 0x1_0000) + data
  }

  function ItemBytes(x: Item, asReply: bool): (s: seq<byte>)
    ensures |s| == 4 + |Payload(x.body, asReply)|
  {
    Framed(x.did, Payload(x.body, asReply))
  }

  // A request of the class as a client writes it: every parameter present, no result yet.
  predicate Canonical(cls: Class, b: Body) {
    match cls
    case RawClass => b.Raw?
    case NyiClass => b.Raw?
    case ForeignClass => false
    case DocClass => b == Raw([])
    case Read1Class => b.Read1? && b.width == WidthFromOffset(b.ofs) && b.regVal == 0
    case Write1Class =>
      b.Write1? && b.width == WidthFromOffset(b.ofs) && b.width != 0 && (b.width == 8 ==> b.value < 0x100)
    case ReadBitClass => b.ReadBit? && b.result == 0
    case WriteBitClass => b.WriteBit?
    case BitClass(op) => b.BitCommand? && b.op == op
    case DioWordClass(reg) => b.DioWord? && b.reg == reg
    case DioInputClass => b == DioInput(0)
    case DioBitClass(op) => b.DioBit? && b.op == op
    case DioWriteBitClass(reg) => b.DioWriteBit? && b.reg == reg
    case DioReadBitClass => b.DioReadBit? && b.result == 0
    case AdcGroupClass(k) => b.AdcGroup? && b.setting == k
    case AdcAllClass(k) => b.AdcAll? && b.setting == k && |b.settings| == 8
    case CalOneClass(c) => b.CalOne? && b.which == c
    case CalAllClass(c) => b.CalAll? && b.which == c
    case CalPairClass => b.CalPair?
    case CalPairsClass => b.CalPairs?
    case SysErrorClass => b.SysError?
    case ItemErrorClass => b.ItemError?
  }

  /** Constructing a canonical request's own payload gives the request back. */
  lemma ConstructPayload(cls: Class, b: Body)
    requires Canonical(cls, b)
    ensures Construct(cls, Payload(b, false)) == Built(b)
  {
    match cls
    case Write1Class =>
      if b.width != 8 {
        assert Payload(b, false) == [b.ofs] + LE32(b.value) + [];
        ReadBack32(b.value, [b.ofs], []);
      }
    case DioWordClass(_) =>
      assert Payload(b, false) == [] + LE16(b.word) + [];
      ReadBack16(b.word, [], []);
    case CalOneClass(_) => CalOneReadBack(b);
    case CalAllClass(_) => CalAllReadBack(b);
    case CalPairClass => CalPairReadBack(b);
    case CalPairsClass => CalPairsReadBack(b);
    case SysErrorClass => SysErrorReadBack(b);
    case ItemErrorClass => ItemErrorReadBack(b);
    case _ =>
  }

  lemma CalOneReadBack(b: Body)
    requires b.CalOne?
    ensures Construct(CalOneClass(b.which), Payload(b, false)) == Built(b)
  {
    assert Payload(b, false) == [b.range] + LE32(b.bits) + [];
    ReadBack32(b.bits, [b.range], []);
  }

  lemma CalAllReadBack(b: Body)
    requires b.CalAll?
    ensures Construct(CalAllClass(b.which), Payload(b, false)) == Built(b)
  {
    var p := Payload(b, false);
    assert p[..32] == p == WordBytes(b.row);
    WordsReadBack(b.row);
  }

  lemma CalPairReadBack(b: Body)
    requires b.CalPair?
    ensures Construct(CalPairClass, Payload(b, false)) == Built(b)
  {
    var p := Payload(b, false);
    assert p == [b.range] + LE32(b.scale) + LE32(b.offset);
    assert p == ([b.range] + LE32(b.scale)) + LE32(b.offset) + [];
    ReadBack32(b.scale, [b.range], LE32(b.offset));
    ReadBack32(b.offset, [b.range] + LE32(b.scale), []);
  }

  lemma CalPairsReadBack(b: Body)
    requires b.CalPairs?
    ensures Construct(CalPairsClass, Payload(b, false)) == Built(b)
  {
    var p := Payload(b, false);
    assert p[..64] == p == WordBytes(Interleave(b.scales, b.offsets));
    WordsReadBack(Interleave(b.scales, b.offsets));
    SplitInterleaved(b.scales, b.offsets);
  }

  lemma SysErrorReadBack(b: Body)
    requires b.SysError?
    ensures Construct(SysErrorClass, Payload(b, false)) == Built(b)
  {
    var p := Payload(b, false);
    assert p == [] + LE32(b.stage) + (LE32(b.code) + LE32(b.info));
    assert p == (LE32(b.stage) + LE32(b.code)) + LE32(b.info) + [];
    ReadBack32(b.stage, [], LE32(b.code) + LE32(b.info));
    ReadBack32(b.code, LE32(b.stage), LE32(b.info));
    ReadBack32(b.info, LE32(b.stage) + LE32(b.code), []);
  }

  lemma ItemErrorReadBack(b: Body)
    requires b.ItemError?
    ensures Construct(ItemErrorClass, Payload(b, false)) == Built(b)
  {
    var p, x, d, c, i := Payload(b, false), LE16(b.index), LE16(b.did), LE32(b.code), LE32(b.info);
    assert p == [] + x + (d + c + i);
    assert p == x + d + (c + i);
    assert p == (x + d) + c + i;
    assert p == (x + d + c) + i + [];
    ReadBack16(b.index, [], d + c + i);
    ReadBack16(b.did, x, c + i);
    ReadBack32(b.code, x + d, i);
    ReadBack32(b.info, x + d + c, []);
  }

  /** An item built from `d` writes `d` back exactly when it writes as many bytes: a constructor either
      keeps its data byte for byte or changes the length. */
  lemma PayloadConstruct(cls: Class, d: seq<byte>)
    requires !cls.ForeignClass? && Construct(cls, d).Built?
    ensures var b := Construct(cls, d).body;
            (Payload(b, false) == d <==> |Payload(b, false)| == |d|) &&
            (Payload(b, false) == d ==> Canonical(cls, b))
  {
    var b := Construct(cls, d).body;
    match cls
    case Write1Class =>
      if b.width != 8 {
        WriteBack32(d, 1);
        assert d == [d[0]] + d[1..5];
      }
    case DioWordClass(_) => if |d| == 2 { WriteBack16(d, 0); }
    case CalOneClass(_) => CalOneWriteBack(cls, d);
    case CalAllClass(_) =>
      if |d| == 32 {
        assert d[..32] == d;
        WordsWriteBack(d);
      }
    case CalPairClass => CalPairWriteBack(d);
    case CalPairsClass =>
      if |d| == 64 {
        assert d[..64] == d;
        WordsWriteBack(d);
        InterleaveSplit(Words(d));
      }
    case SysErrorClass =>
      if |d| == 12 {
        WriteBack32(d, 0);
        WriteBack32(d, 4);
        WriteBack32(d, 8);
      }
    case ItemErrorClass =>
      if |d| == 12 {
        WriteBack16(d, 0);
        WriteBack16(d, 2);
        WriteBack32(d, 4);
        WriteBack32(d, 8);
      }
    case _ =>
  }

  lemma CalOneWriteBack(cls: Class, d: seq<byte>)
    requires cls.CalOneClass?
    ensures |Payload(Construct(cls, d).body, false)| == 5
    ensures |d| == 5 ==> Payload(Construct(cls, d).body, false) == d
  {
    if |d| == 5 {
      WriteBack32(d, 1);
      assert d == [d[0]] + d[1..5];
    }
  }

  lemma CalPairWriteBack(d: seq<byte>)
    ensures |Payload(Construct(CalPairClass, d).body, false)| == 9
    ensures |d| == 9 ==> Payload(Construct(CalPairClass, d).body, false) == d
  {
    if |d| == 9 {
      WriteBack32(d, 1);
      WriteBack32(d, 5);
      assert d == [d[0]] + d[1..5] + d[5..9];
    }
  }

  lemma OneWordAt(p: seq<byte>, pre: seq<byte>, v: u32, post: seq<byte>)
    requires p == pre + LE32(v) + post
    ensures U32(p, |pre|) == v
  {
    ReadBack32(v, pre, post);
  }

  lemma RowAt(row: seq<u32>, i: nat)
    requires i < |row|
    ensures U32(WordBytes(row), 4 * i) == row[i]
  {
    WordsReadBack(row);
    WordAt(WordBytes(row), i);
  }

  lemma OneLayout(b: Body, asReply: bool)
    requires b.CalOne? || b.CalPair?
    ensures var p := Payload(b, asReply);
            && (b.CalOne? ==> |p| == 5 && p[0] == b.range && U32(p, 1) == b.bits)
            && (b.CalPair? ==> |p| == 9 && p[0] == b.range && U32(p, 1) == b.scale && U32(p, 5) == b.offset)
  {
    var p := Payload(b, asReply);
    if b.CalOne? {
      OneWordAt(p, [b.range], b.bits, []);
    } else {
      OneWordAt(p, [b.range], b.scale, LE32(b.offset));
      OneWordAt(p, [b.range] + LE32(b.scale), b.offset, []);
    }
  }

  lemma PairsLayout(b: Body, asReply: bool, i: nat)
    requires b.CalPairs? && i < 8
    ensures var p := Payload(b, asReply);
            |p| == 64 && U32(p, 8 * i) == b.scales[i] && U32(p, 8 * i + 4) == b.offsets[i]
  {
    var words := Interleave(b.scales, b.offsets);
    InterleaveAt(b.scales, b.offsets, i);
    RowAt(words, 2 * i);
    RowAt(words, 2 * i + 1);
    assert 4 * (2 * i) == 8 * i && 4 * (2 * i + 1) == 8 * i + 4;
  }

  // Where a calibration item keeps its fields.
  predicate LaidOut(b: Body, p: seq<byte>, i: nat)
    requires i < 8
  {
    match b
    case CalOne(_, range, bits) => |p| == 5 && p[0] == range && U32(p, 1) == bits
    case CalAll(_, row) => |p| == 32 && U32(p, 4 * i) == row[i]
    case CalPair(range, scale, offset) => |p| == 9 && p[0] == range && U32(p, 1) == scale && U32(p, 5) == offset
    case CalPairs(scales, offsets) => |p| == 64 && U32(p, 8 * i) == scales[i] && U32(p, 8 * i + 4) == offsets[i]
    case _ => true
  }

  /** In a request and in a reply of the calibration items: the range index before its one or two words, scale
      before offset; or the word of range i at 4 * i, and in pairs its scale at 8 * i and its offset four bytes
      on. */
  lemma CalibrationLayout(b: Body, asReply: bool, i: nat)
    requires i < 8
    ensures LaidOut(b, Payload(b, asReply), i)
  {
    if b.CalOne? || b.CalPair? {
      OneLayout(b, asReply);
    } else if b.CalAll? {
      RowAt(b.row, i);
    } else if b.CalPairs? {
      PairsLayout(b, asReply, i);
    }
  }
}
