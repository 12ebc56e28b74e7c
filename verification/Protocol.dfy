/** The dictionary of DataItems/TDataItem.cpp with the ids of eNET-types.h, and what it means for a client:
    messages it admits travel the whole way from serialising to the queue, however the bytes are split. */
module Protocol {
  import opened Wrappers
  import opened Bytes
  import opened Items
  import opened Messages
  import opened ErrorItems
  import opened Queues
  import opened Framer

  const NOT_YET: Entry := Entry(0, 0, NyiClass)
  const DOCUMENTATION: Entry := Entry(0, 0, DocClass)

  function Known(minLen: u16, maxLen: u16, cls: Class): Option<Entry> {
    Some(Entry(minLen, maxLen, cls))
  }

  function BoardEntry(did: u16): Option<Entry> {
    if did == 0x00 then Some(DOCUMENTATION)
    else if did == 0x01 then Known(0, 0, RawClass)                      // BRD_Reset
    else if did in {0x02, 0x09, 0x11, 0x30, 0x31} then Known(0, 0, ForeignClass)
    else if did in {0x03, 0x04} then Known(0, 4, ForeignClass)
    else if did == 0x08 then Known(12, 40, ForeignClass)
    else if did == 0x10 then Known(12, 14, ForeignClass)
    else if did == 0x21 then Known(1, 1, ForeignClass)
    else if did in {0x23, 0x24} then Known(6, 6, ForeignClass)
    else if did in {0x33, 0x34} then Known(2, 2, ForeignClass)
    else if did == 0xFF then Known(8, 8, RawClass)                      // BRD_REBOOT
    else None
  }

  function RegisterEntry(did: u16): Option<Entry> {
    if did == 0x100 then Some(DOCUMENTATION)
    else if did == 0x101 then Known(1, 1, Read1Class)
    else if did == 0x105 then Known(2, 5, Write1Class)
    else if did in {0x104, 0x107} then Some(NOT_YET)
    else if did in {0x108, 0x109, 0x10A} then Known(2, 5, RawClass)     // REG_ClearBits, REG_SetBits, REG_ToggleBits
    else if did == 0x121 then Known(2, 2, ReadBitClass)
    else if did == 0x122 then Known(3, 3, WriteBitClass)
    else if did == 0x123 then Known(2, 2, BitClass(ClearOp))
    else if did == 0x124 then Known(2, 2, BitClass(SetOp))
    else if did == 0x125 then Known(2, 2, BitClass(ToggleOp))
    else None
  }

  function DacEntry(did: u16): Option<Entry> {
    if did == 0x200 then Some(DOCUMENTATION)
    else if did in {0x201, 0x203} then Known(3, 5, ForeignClass)
    else if did == 0x204 then Known(5, 5, ForeignClass)
    else if did == 0x20C then Known(9, 9, RawClass)
    else if did in {0x20E, 0x210} then Known(5, 5, RawClass)
    else if did in {0x20F, 0x211} then Known(8, 16, RawClass)
    else if did in {0x2C0, 0x2C1} then Some(NOT_YET)
    else None
  }

  function DioEntry(did: u16): Option<Entry> {
    if did == 0x300 then Some(DOCUMENTATION)
    else if did == 0x301 then Known(2, 2, DioWriteBitClass(Directions)) // DIO_ConfigureBit
    else if did == 0x302 then Known(2, 2, DioWordClass(Directions))     // DIO_Configure
    else if did == 0x303 then Known(1, 1, DioReadBitClass)
    else if did == 0x305 then Known(0, 0, DioInputClass)
    else if did == 0x308 then Known(2, 2, DioWriteBitClass(Outputs))
    else if did == 0x309 then Known(2, 2, DioWordClass(Outputs))
    else if did == 0x30C then Known(1, 1, DioBitClass(ClearOp))
    else if did == 0x30E then Known(1, 1, DioBitClass(SetOp))
    else if did == 0x311 then Known(1, 1, DioBitClass(ToggleOp))
    else if did in {0x30B, 0x313} then Some(NOT_YET)
    else None
  }

  function AdcEntry(did: u16): Option<Entry> {
    if did == 0x1000 then Some(DOCUMENTATION)
    else if did in {0x1001, 0x1002, 0x1006, 0x1020, 0x1030, 0x1040} then Some(NOT_YET)
    else if did == 0x1003 then Known(0, 4, ForeignClass)
    else if did in {0x1004, 0x1005} then Known(4, 4, RawClass)          // ADC_StartHz, ADC_StartDivisor
    else if did == 0x1007 then Known(2, 2, AdcGroupClass(Differential))
    else if did == 0x1008 then Known(8, 8, AdcAllClass(Differential))
    else if did == 0x1009 then Known(2, 2, AdcGroupClass(Range))
    else if did == 0x100A then Known(8, 8, AdcAllClass(Range))
    else if did == 0x100C then Known(9, 9, CalPairClass)                // ADC_Calibration1
    else if did == 0x100D then Known(64, 64, CalPairsClass)             // ADC_CalibrationAll
    else if did == 0x100E then Known(5, 5, CalOneClass(Scale))
    else if did == 0x100F then Known(32, 32, CalAllClass(Scale))
    else if did == 0x1010 then Known(5, 5, CalOneClass(Coefficient.Offset))
    else if did == 0x1011 then Known(32, 32, CalAllClass(Coefficient.Offset))
    else if did in {0x1021, 0x1031, 0x1041, 0x1102} then Known(0, 0, ForeignClass)
    else if did == 0x1101 then Known(4, 4, ForeignClass)                // ADC_StreamStart
    else None
  }

  function SystemEntry(did: u16): Option<Entry> {
    if did in {0x400, 0x4000, 0x5000, 0x5001, 0x7000, 0x7002, 0x9000, 0xFFFF} then Some(DOCUMENTATION)
    else if did in {0x401, 0x403, 0x405, 0x3001} then Some(NOT_YET)
    else if did == 0x7001 then Known(4, 4, RawClass)                    // TCP_ConnectionID
    else if did == 0x9001 then Known(1, 253, ForeignClass)
    else if did == 0xEF01 then Known(1, 255, ForeignClass)
    else if did == 0xEF02 then Known(1, 65534, ForeignClass)
    else if did == 0xEFF0 then Known(0, 12, SysErrorClass)
    else if did == 0xEFF1 then Known(0, 12, ItemErrorClass)
    else if did == 0xFFFE then Known(0, 0, RawClass)                    // INVALID
    else None
  }

  function EntryOf(did: u16): Option<Entry> {
    if did < 0x100 then BoardEntry(did)
    else if did < 0x200 then RegisterEntry(did)
    else if did < 0x300 then DacEntry(did)
    else if did < 0x400 then DioEntry(did)
    else if 0x1000 <= did < 0x2000 then AdcEntry(did)
    else SystemEntry(did)
  }

  // DIdDict
  const DICTIONARY: Dictionary := map did: u16 | 0 <= did < 0x1_0000 && EntryOf(did).Some? :: EntryOf(did).value

  lemma DictionaryHasErrorEntries()
    ensures ErrorEntries(DICTIONARY)
  {
    assert EntryOf(DID_SYS_ERROR) == Known(0, 12, SysErrorClass);
    assert EntryOf(DID_SYS_ITEM_ERROR) == Known(0, 12, ItemErrorClass);
  }

  // The classes whose constructors keep whatever bytes the length table lets through.
  predicate KeepsBytes(cls: Class) {
    cls.RawClass? || cls.NyiClass?
  }

  // The length a canonical request of the class serialises to, where the class fixes it.
  lemma CanonicalLength(cls: Class, b: Body)
    requires Canonical(cls, b) && !KeepsBytes(cls)
    ensures |Payload(b, false)| ==
            match cls
            case DocClass => 0
            case Read1Class => 1
            case Write1Class => if WidthFromOffset(b.ofs) == 8 then 2 else 5
            case ReadBitClass => 2
            case WriteBitClass => 3
            case BitClass(_) => 2
            case DioWordClass(_) => 2
            case DioInputClass => 0
            case DioBitClass(_) => 1
            case DioWriteBitClass(_) => 2
            case DioReadBitClass => 1
            case AdcGroupClass(_) => 2
            case AdcAllClass(_) => 8
            case CalOneClass(_) => 5
            case CalAllClass(_) => 32
            case CalPairClass => 9
            case CalPairsClass => 64
            case _ => 12
  {
  }

  // The length table, by class.
  predicate TableFits(e: Entry) {
    match e.cls
    case RawClass => true
    case NyiClass => true
    case ForeignClass => true
    case DocClass => true
    case DioInputClass => true
    case Read1Class => e.minLen <= 1 <= e.maxLen
    case Write1Class => e.minLen <= 2 && 5 <= e.maxLen
    case ReadBitClass => e.minLen <= 2 <= e.maxLen
    case WriteBitClass => e.minLen <= 3 <= e.maxLen
    case BitClass(_) => e.minLen <= 2 <= e.maxLen
    case DioWordClass(_) => e.minLen <= 2 <= e.maxLen
    case DioBitClass(_) => e.minLen <= 1 <= e.maxLen
    case DioWriteBitClass(_) => e.minLen <= 2 <= e.maxLen
    case DioReadBitClass => e.minLen <= 1 <= e.maxLen
    case AdcGroupClass(_) => e.minLen <= 2 <= e.maxLen
    case AdcAllClass(_) => e.minLen <= 8 <= e.maxLen
    case CalOneClass(_) => e.minLen <= 5 <= e.maxLen
    case CalAllClass(_) => e.minLen <= 32 <= e.maxLen
    case CalPairClass => e.minLen <= 9 <= e.maxLen
    case CalPairsClass => e.minLen <= 64 <= e.maxLen
    case _ => e.minLen <= 12 <= e.maxLen
  }

  lemma BoardEntriesFit(did: u16)
    ensures BoardEntry(did).Some? ==> TableFits(BoardEntry(did).value)
  {
  }

  lemma RegisterEntriesFit(did: u16)
    ensures RegisterEntry(did).Some? ==> TableFits(RegisterEntry(did).value)
  {
  }

  lemma DacEntriesFit(did: u16)
    ensures DacEntry(did).Some? ==> TableFits(DacEntry(did).value)
  {
  }

  lemma DioEntriesFit(did: u16)
    ensures DioEntry(did).Some? ==> TableFits(DioEntry(did).value)
  {
  }

  lemma AdcEntriesFit(did: u16)
    ensures AdcEntry(did).Some? ==> TableFits(AdcEntry(did).value)
  {
  }

  lemma SystemEntriesFit(did: u16)
    ensures SystemEntry(did).Some? ==> TableFits(SystemEntry(did).value)
  {
  }

  lemma EveryEntryFits(did: u16)
    requires EntryOf(did).Some?
    ensures TableFits(EntryOf(did).value)
  {
    BoardEntriesFit(did);
    RegisterEntriesFit(did);
    DacEntriesFit(did);
    DioEntriesFit(did);
    AdcEntriesFit(did);
    SystemEntriesFit(did);
  }

  /** The length table and the codecs agree: the dictionary admits every canonical request of a class with
      fixed parameters, one of a class that keeps its bytes exactly when its length is zero or within its
      limits, and none of a class that is not modelled. */
  lemma AdmittedIff(did: u16, b: Body)
    requires did in DICTIONARY
    ensures Admits(DICTIONARY, Item(did, b)) <==>
            Canonical(DICTIONARY[did].cls, b) &&
            (KeepsBytes(DICTIONARY[did].cls) ==>
               b.data == [] || DICTIONARY[did].minLen <= |b.data| <= DICTIONARY[did].maxLen)
  {
    var e := DICTIONARY[did];
    EveryEntryFits(did);
    if Canonical(e.cls, b) && !KeepsBytes(e.cls) {
      CanonicalLength(e.cls, b);
    }
  }

  // ---------------------------------------------------------------- from one end to the other

  // What a client puts on the wire for its messages.
  function Wire(ms: seq<Message>): seq<byte> {
    if ms == [] then [] else AsBytes(ms[0], false) + Wire(ms[1..])
  }

  predicate Sendable(dict: Dictionary, m: Message) {
    Request(dict, m) && |ItemsBytes(WriterOf(false), m.items)| <= MAX_PAYLOAD_LENGTH
  }

  function Asked(socket: int, ms: seq<Message>): seq<Action> {
    if ms == [] then [] else [Action(socket, Ready(ms[0]))] + Asked(socket, ms[1..])
  }

  lemma MessageAtFront(m: Message, rest: seq<byte>)
    requires |ItemsBytes(WriterOf(false), m.items)| <= MAX_PAYLOAD_LENGTH
    ensures var f := AsBytes(m, false); LookAhead(f + rest) == Frame(|f|) && (f + rest)[..|f|] == f && (f + rest)[|f|..] == rest
  {
    var p, f := ItemsBytes(WriterOf(false), m.items), AsBytes(m, false);
    FrameShape(m.mid, p);
    LookAheadStable(f, rest);
  }

  lemma {:induction false} WireCuts(dict: Dictionary, got: Parser, socket: int, ms: seq<Message>)
    requires forall k :: 0 <= k < |ms| ==> Sendable(dict, ms[k])
    requires forall k :: 0 <= k < |ms| ==> got(AsBytes(ms[k], false)) == Ready(ms[k])
    ensures CutAll(Wire(ms)).rest == [] && CutAll(Wire(ms)).over.None?
    ensures FrameEntries(got, socket, CutAll(Wire(ms)).frames) == Asked(socket, ms)
  {
    if ms != [] {
      assert Sendable(dict, ms[0]);
      MessageAtFront(ms[0], Wire(ms[1..]));
      WireCuts(dict, got, socket, ms[1..]);
      var c := CutAll(Wire(ms[1..]));
      assert ([AsBytes(ms[0], false)] + c.frames)[1..] == c.frames;
    }
  }

  /** Whatever messages of modelled items a client serialises one after the other, and however their bytes
      arrive in chunks, the queue receives exactly those messages, in that order, and no byte is left over. */
  lemma EndToEnd(said: Said, socket: int, ms: seq<Message>, chunks: seq<seq<byte>>)
    requires forall k :: 0 <= k < |ms| ==> Sendable(DICTIONARY, ms[k])
    requires Flatten(chunks) == Wire(ms)
    ensures var c := FeedAll(FRESH, chunks);
            c.rest == [] && Entries(ReceiverOf(DICTIONARY, said), socket, c) == Asked(socket, ms)
  {
    var rx := ReceiverOf(DICTIONARY, said);
    forall k | 0 <= k < |ms| ensures rx.got(AsBytes(ms[k], false)) == Ready(ms[k]) {
      RoundTrip(DICTIONARY, ms[k]);
    }
    ChunkIndependence(chunks);
    WireCuts(DICTIONARY, rx.got, socket, ms);
  }
}
