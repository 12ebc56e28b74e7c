/** The error items of aioenetd.cpp: when one is built and what it then says, and what a receiver puts on the
    queue for a frame it could not parse. */
module ErrorItems {
  import opened Wrappers
  import opened Bytes
  import opened Items
  import opened Messages
  import opened Text
  import opened GuardText

  const DID_SYS_ERROR: u16 := 0xEFF0
  const DID_SYS_ITEM_ERROR: u16 := 0xEFF1
  const STAGE_PARSE: u32 := 1

  // BuildDataItem: through the factory, so the dictionary's length limits apply; failures give nullptr.  The
  // length field in front of the payload holds sixteen bits.
  function BuildDataItem(dict: Dictionary, did: u16, payload: seq<byte>): Option<Item> {
    match ItemFromBytes(dict, did, payload[..|payload| % 0x1_0000])
    case Good(item) => Some(item)
    case _ => None
  }

  function BuildSysError(dict: Dictionary, stage: u32, errIndex: u32, info: u32, text: seq<byte>): Option<Item> {
    BuildDataItem(dict, DID_SYS_ERROR, LE32(stage) + LE32(errIndex) + LE32(info) + text)
  }

  function BuildSysItemError(dict: Dictionary, index: u16, did: u16, errIndex: u32, info: u32, text: seq<byte>)
    : Option<Item>
  {
    BuildDataItem(dict, DID_SYS_ITEM_ERROR, LE16(index) + LE16(did) + LE32(errIndex) + LE32(info) + text)
  }

  // What the two error entries of the dictionary say.
  predicate ErrorEntries(dict: Dictionary) {
    DID_SYS_ERROR in dict && dict[DID_SYS_ERROR] == Entry(0, 12, SysErrorClass) &&
    DID_SYS_ITEM_ERROR in dict && dict[DID_SYS_ITEM_ERROR] == Entry(0, 12, ItemErrorClass)
  }

  // ---------------------------------------------------------------- when an error item is built

  // The length that fits the length field, for twelve bytes of fields and a text.
  function StatedLength(text: seq<byte>): nat {
    (12 + |text|) % 0x1_0000
  }

  // What the first k bytes of the fields keep; a field cut short reads as zero.
  function SysErrorKept(k: nat, stage: u32, code: u32, info: u32): Body {
    SysError(if k >= 4 then stage else 0, if k >= 8 then code else 0, if k >= 12 then info else 0)
  }

  function ItemErrorKept(k: nat, index: u16, did: u16, code: u32, info: u32): Body {
    ItemError(if k >= 2 then index else 0, if k >= 4 then did else 0, if k >= 8 then code else 0,
              if k >= 12 then info else 0)
  }

  lemma FieldKept(p: seq<byte>, k: nat, ofs: nat)
    requires k <= |p|
    ensures U16(p[..k], ofs) == if ofs + 2 <= k then U16(p, ofs) else 0
    ensures U32(p[..k], ofs) == if ofs + 4 <= k then U32(p, ofs) else 0
  {
  }

  lemma SysErrorCut(k: nat, stage: u32, code: u32, info: u32)
    requires k <= 12
    ensures Construct(SysErrorClass, (LE32(stage) + LE32(code) + LE32(info))[..k]) ==
            Built(SysErrorKept(k, stage, code, info))
  {
    var p := LE32(stage) + LE32(code) + LE32(info);
    assert p == Payload(SysError(stage, code, info), false);
    SysErrorReadBack(SysError(stage, code, info));
    FieldKept(p, k, 0);
    FieldKept(p, k, 4);
    FieldKept(p, k, 8);
  }

  lemma ItemErrorCut(k: nat, index: u16, did: u16, code: u32, info: u32)
    requires k <= 12
    ensures Construct(ItemErrorClass, (LE16(index) + LE16(did) + LE32(code) + LE32(info))[..k]) ==
            Built(ItemErrorKept(k, index, did, code, info))
  {
    var p := LE16(index) + LE16(did) + LE32(code) + LE32(info);
    assert p == Payload(ItemError(index, did, code, info), false);
    ItemErrorReadBack(ItemError(index, did, code, info));
    FieldKept(p, k, 0);
    FieldKept(p, k, 2);
    FieldKept(p, k, 4);
    FieldKept(p, k, 8);
  }

  /** A system error is built exactly when the stated length, of its fields and its text modulo 65536, is at
      most twelve, and then says what that many bytes of its fields say. */
  lemma SysErrorBuiltIff(dict: Dictionary, stage: u32, code: u32, info: u32, text: seq<byte>)
    requires ErrorEntries(dict)
    ensures BuildSysError(dict, stage, code, info, text) ==
            if StatedLength(text) <= 12
            then Some(Item(DID_SYS_ERROR, SysErrorKept(StatedLength(text), stage, code, info)))
            else None
  {
    var p, k := LE32(stage) + LE32(code) + LE32(info), StatedLength(text);
    if k <= 12 {
      assert (p + text)[..k] == p[..k];
      SysErrorCut(k, stage, code, info);
    }
  }

  /** The same for an item error. */
  lemma ItemErrorBuiltIff(dict: Dictionary, index: u16, did: u16, code: u32, info: u32, text: seq<byte>)
    requires ErrorEntries(dict)
    ensures BuildSysItemError(dict, index, did, code, info, text) ==
            if StatedLength(text) <= 12
            then Some(Item(DID_SYS_ITEM_ERROR, ItemErrorKept(StatedLength(text), index, did, code, info)))
            else None
  {
    var p, k := LE16(index) + LE16(did) + LE32(code) + LE32(info), StatedLength(text);
    if k <= 12 {
      assert (p + text)[..k] == p[..k];
      ItemErrorCut(k, index, did, code, info);
    }
  }

  // ---------------------------------------------------------------- GotMessage

  function TextBytes(s: string): (b: seq<byte>)
    ensures |b| == |s|
  {
    seq(|s|, i requires 0 <= i < |s| => s[i] as int % 0x100)
  }

  // What a receiver puts on the queue: a message, or one whose fields were never set.
  datatype Queued = Ready(m: Message) | Unset

  // The 'X' message for bytes that do not parse, with its error item if one is built.
  function XReply(dict: Dictionary, errIndex: u32, info: u32, text: string): Queued {
    Ready(Message(MID_X, match BuildSysError(dict, STAGE_PARSE, errIndex, info, TextBytes(text))
                         case Some(x) => [x]
                         case None => []))
  }

  // The text of the exception that parsing these bytes throws, when it throws one.
  type Said = seq<byte> -> string

  function GotMessage(dict: Dictionary, said: Said, frame: seq<byte>): Queued {
    var r := FromBytes(dict, frame);
    if r.Returned? then (match r.msg case Some(m) => Ready(m) case None => Unset)
    else if r.WildRead? then Unset
    else
      var (errIndex, info) := ParseWhat(said(frame), ERR_MSG_PARSE, 0);
      XReply(dict, errIndex, info, said(frame))
  }

  // The items made of the first k cuts, in order.
  predicate MadeOf(make: Factory, cuts: seq<Item>, items: seq<Item>) {
    |items| <= |cuts| && AllRaw(cuts) &&
    forall i :: 0 <= i < |items| ==> make(cuts[i].did, cuts[i].body.data) == Good(items[i])
  }

  // FromBytes on a whole frame, by how its payload parses.
  lemma WholeFrameByParse(dict: Dictionary, f: seq<byte>)
    requires |f| == MINIMUM_LENGTH + U32(f, 1) < 0x1_0000_0000
    ensures var p, r := ParseItems(FactoryOf(dict), f[HEADER_SIZE..], U32(f, 1)), FromBytes(dict, f);
            if !IsValidMessageID(f[0]) then r.Returned? && r.msg.None?
            else if p.end.Thrown? then r.Exception?
            else if Checksum(f) != 0 then r.Returned? && r.msg.None?
            else r.Returned? && r.msg == Some(Message(f[0], p.items))
  {
    WholeFrameIsSafe(dict, f);
  }

  lemma ThrownByCut(make: Factory, b: seq<byte>, n: nat)
    requires n <= |b|
    ensures var p, cuts := ParseItems(make, b, n), ParseItems(Keep, b, n).items;
            && MadeOf(make, cuts, p.items)
            && (p.end.Thrown? <==> |p.items| < |cuts| && make(cuts[|p.items|].did, cuts[|p.items|].body.data).Raised?)
            && (|p.items| < |cuts| ==> !make(cuts[|p.items|].did, cuts[|p.items|].body.data).Good?)
  {
    ParseIsCutThenMake(make, b, n);
    ParseIsCutThenMake(Keep, b, n);
  }

  // What a queue entry is for a frame whose parsing gave r.
  lemma EntryByResult(dict: Dictionary, said: Said, f: seq<byte>)
    ensures var r, q := FromBytes(dict, f), GotMessage(dict, said, f);
            && (r.Returned? ==> q == match r.msg case Some(m) => Ready(m) case None => Unset)
            && (r.Exception? ==> q.Ready? && q.m.mid == 'X' as int)
  {
  }

  /** What a whole frame puts on the queue, by the items its headers cut it into, of which the first k can be
      made: nothing of it for an unknown id; an 'X' when item k throws; nothing of it when the checksum is
      wrong; and otherwise its first k items under its id, also when item k is refused for its length. */
  lemma QueuedEntryIs(dict: Dictionary, said: Said, f: seq<byte>) returns (k: nat)
    requires |f| == MINIMUM_LENGTH + U32(f, 1) < 0x1_0000_0000
    ensures var cuts := ParseItems(Keep, f[HEADER_SIZE..], U32(f, 1)).items; k <= |cuts| && AllRaw(cuts)
    ensures var cuts, make, q := ParseItems(Keep, f[HEADER_SIZE..], U32(f, 1)).items, FactoryOf(dict),
                                 GotMessage(dict, said, f);
            && (k < |cuts| ==> !Acceptable(dict, cuts[k]))
            && if f[0] as char !in "QCMRXEH" then q == Unset
               else if k < |cuts| && make(cuts[k].did, cuts[k].body.data).Raised? then q.Ready? && q.m.mid == 'X' as int
               else if Checksum(f) != 0 then q == Unset
               else q.Ready? && q.m.mid == f[0] && |q.m.items| == k && MadeOf(make, cuts, q.m.items)
  {
    var make, b, n := FactoryOf(dict), f[HEADER_SIZE..], U32(f, 1);
    IdsAreSeven(f[0]);
    WholeFrameByParse(dict, f);
    ThrownByCut(make, b, n);
    EntryByResult(dict, said, f);
    k := |ParseItems(make, b, n).items|;
  }

  const OVERSIZE_TEXT := "Payload length exceeds maxPayloadLength"

  // The reply to a header that announces too long a payload.
  function OversizeReply(dict: Dictionary, payloadLength: u32): Queued {
    XReply(dict, ERR_MSG_LEN_MISMATCH, payloadLength, OVERSIZE_TEXT)
  }

  const BARE_X: Queued := Ready(Message(MID_X, []))

  /** An 'X' message carries no error item exactly when the stated length of its text exceeds twelve. */
  lemma XReplyIsBareIff(dict: Dictionary, errIndex: u32, info: u32, text: string)
    requires ErrorEntries(dict)
    ensures XReply(dict, errIndex, info, text) == BARE_X <==> StatedLength(TextBytes(text)) > 12
  {
    SysErrorBuiltIff(dict, STAGE_PARSE, errIndex, info, TextBytes(text));
  }

  /** Without a text it says the stage, which is parsing, the code and the info word. */
  lemma XReplyWithoutText(dict: Dictionary, errIndex: u32, info: u32)
    requires ErrorEntries(dict)
    ensures XReply(dict, errIndex, info, "") == Ready(Message('X' as int, [Item(0xEFF0, SysError(1, errIndex, info))]))
  {
    SysErrorBuiltIff(dict, STAGE_PARSE, errIndex, info, TextBytes(""));
  }

  /** So the reply to an oversize header never carries one, whatever the length announced. */
  lemma OversizeReplyIsBare(dict: Dictionary, payloadLength: u32)
    requires ErrorEntries(dict)
    ensures OversizeReply(dict, payloadLength) == BARE_X
  {
    XReplyIsBareIff(dict, ERR_MSG_LEN_MISMATCH, payloadLength, OVERSIZE_TEXT);
  }

  lemma {:induction false} DecimalLength(n: nat, k: nat)
    requires n < Pow10(k) && 0 < k
    ensures 1 <= |ToDecimal(n)| <= k
  {
    if n >= 10 {
      assert k > 1 by {
        assert Pow10(1) == 10 * Pow10(0);
      }
      DecimalLength(n / 10, k - 1);
    }
  }

  function Pow10(k: nat): nat {
    if k == 0 then 1 else 10 * Pow10(k - 1)
  }

  lemma IntLength(n: int)
    requires -0x8000_0000 <= n < 0x8000_0000
    ensures |ToDecimalInt(n)| <= 11
  {
    assert Pow10(4) == 10 * Pow10(3) == 10 * (10 * Pow10(2)) && Pow10(2) == 10 * Pow10(1) == 10 * (10 * Pow10(0));
    assert Pow10(8) == 10 * Pow10(7) == 10 * (10 * Pow10(6)) && Pow10(6) == 10 * Pow10(5) == 10 * (10 * Pow10(4));
    assert Pow10(10) == 10 * Pow10(9) == 10 * (10 * Pow10(8));
    DecimalLength(if n < 0 then -n else n, 10);
  }

  /** A frame whose parsing threw is answered by a bare 'X' exactly when the stated length exceeds twelve. */
  lemma FailedParseIsBareIff(dict: Dictionary, said: Said, frame: seq<byte>)
    requires ErrorEntries(dict) && (FromBytes(dict, frame).Exception? || FromBytes(dict, frame).TooShort?)
    ensures GotMessage(dict, said, frame) == BARE_X <==> StatedLength(TextBytes(said(frame))) > 12
  {
    var (e, i) := ParseWhat(said(frame), ERR_MSG_PARSE, 0);
    XReplyIsBareIff(dict, e, i, said(frame));
  }

  /** When the exception says nothing, the 'X' names a parse error, code 3, with no info. */
  lemma SilentFailureNamesParse(dict: Dictionary, said: Said, frame: seq<byte>)
    requires ErrorEntries(dict) && FromBytes(dict, frame).Exception? && said(frame) == ""
    ensures GotMessage(dict, said, frame) == Ready(Message('X' as int, [Item(0xEFF0, SysError(1, 3, 0))]))
  {
    XReplyWithoutText(dict, ERR_MSG_PARSE, 0);
    NoMarkerKeepsWords("", ERR_MSG_PARSE, 0);
  }

  lemma GuardWhatLength(file: string, func: string, line: int, index: nat, info: u32)
    requires index < |ERR_MSG| && -0x8000_0000 <= line < 0x8000_0000
    ensures |file| + |func| < |GuardWhat(file, func, line, index, info)| <= |file| + |func| + 80
  {
    IntLength(line);
    assert Pow10(2) == 10 * Pow10(1) == 10 * (10 * Pow10(0));
    DecimalLength(index, 2);
    MessageLength(index);
  }

  /** So a frame whose parsing GUARD ended is answered by a bare 'X', unless the names of GUARD's file and
      function are some 65000 characters long. */
  lemma GuardedParseRepliesBareX(dict: Dictionary, said: Said, frame: seq<byte>, file: string, func: string, line: int,
                                 index: nat, info: u32)
    requires ErrorEntries(dict) && FromBytes(dict, frame).Exception? && index < |ERR_MSG|
    requires said(frame) == GuardWhat(file, func, line, index, info)
    requires |file| + |func| <= 65000 && -0x8000_0000 <= line < 0x8000_0000
    ensures GotMessage(dict, said, frame) == BARE_X
  {
    GuardWhatLength(file, func, line, index, info);
    ShortTextExceeds(said(frame));
    FailedParseIsBareIff(dict, said, frame);
  }

  lemma ShortTextExceeds(text: string)
    requires 0 < |text| < 0x1_0000 - 12
    ensures StatedLength(TextBytes(text)) > 12
  {
  }

  lemma MessageLength(index: nat)
    requires index < |ERR_MSG|
    ensures |ERR_MSG[index]| <= 30
  {
  }
}
