/** Messages: TMessage::FromBytes and AsBytes, the payload parser, and how GotMessage uses them. */
module Messages {
  import opened Wrappers
  import opened Bytes
  import opened Items

  datatype Message = Message(mid: byte, items: seq<Item>)

  const HEADER_SIZE: nat := 5
  const MINIMUM_LENGTH: nat := 6
  const ITEM_HEADER_SIZE: nat := 4
  const MAX_PAYLOAD_LENGTH: nat := 65539 * 16

  const MID_X: byte := 'X' as int
  const MID_E: byte := 'E' as int
  const MID_R: byte := 'R' as int

  predicate IsValidMessageID(mid: byte) {
    mid in {'Q' as int, 'C' as int, 'M' as int, 'R' as int, 'X' as int, 'E' as int, 'H' as int}
  }

  // ---------------------------------------------------------------- parsing one item

  datatype ItemResult = Good(item: Item) | BadLength | Raised(code: nat, info: u32)

  // TDataItemBase::fromBytes, after the header: zero-length data skips the length check.
  function ItemFromBytes(dict: Dictionary, did: u16, data: seq<byte>): ItemResult {
    if did !in dict then Raised(ERR_DID_INVALID, did)
    else if data != [] && !(dict[did].minLen <= |data| <= dict[did].maxLen) then BadLength
    else
      match Construct(dict[did].cls, data)
      case Built(body) => Good(Item(did, body))
      case Threw(code, info) => ItemResult.Raised(code, info)
  }

  // How one item is made from its DId and data, and how it is written: what the payload loops depend on.
  type Factory = (u16, seq<byte>) -> ItemResult

  type Writer = Item -> seq<byte>

  function FactoryOf(dict: Dictionary): Factory {
    (did: u16, data: seq<byte>) => ItemFromBytes(dict, did, data)
  }

  function WriterOf(asReply: bool): Writer {
    (x: Item) => ItemBytes(x, asReply)
  }

  // ---------------------------------------------------------------- parsing a payload

  // Done(left): `left` bytes remained, too few for another item.  OutOfBounds: the parser would have read
  // past its buffer.
  datatype End = Done(left: nat) | Failed(code: nat) | Thrown(code: nat, info: u32) | OutOfBounds

  datatype Parsed = Parsed(items: seq<Item>, end: End)

  function ItemSize(b: seq<byte>): nat {
    ITEM_HEADER_SIZE + U16(b, 2)
  }

  function ParseItems(make: Factory, b: seq<byte>, n: nat): Parsed
    decreases n
  {
    if n < ITEM_HEADER_SIZE then Parsed([], Done(n))
    else if |b| < ITEM_HEADER_SIZE then Parsed([], OutOfBounds)
    else if ItemSize(b) > n then Parsed([], Failed(ERR_ITEM_LEN_MISMATCH))
    else if |b| < ItemSize(b) then Parsed([], OutOfBounds)
    else
      match make( U16(b, 0), b[ITEM_HEADER_SIZE..ItemSize(b)])
      case BadLength => Parsed([], Failed(ERR_ITEM_LEN_MISMATCH))
      case Raised(code, info) => Parsed([], Thrown(code, info))
      case Good(item) =>
        var rest := ParseItems(make, b[ItemSize(b)..], n - ItemSize(b));
        Parsed([item] + rest.items, rest.end)
  }

  /** parsePayload: a loop that cuts one item at a time off the front.  `Thrown` and `OutOfBounds` stand
      for leaving the loop by an exception and for an access outside the vector. */
  method ParsePayload(make: Factory, payload: seq<byte>, payloadLength: nat) returns (r: Parsed)
    ensures r == ParseItems(make, payload, payloadLength)
  {
    var items: seq<Item>, bytes := [], payload;
    var left: nat := payloadLength;
    while left >= ITEM_HEADER_SIZE
      invariant var p := ParseItems(make, bytes, left);
                ParseItems(make, payload, payloadLength) == Parsed(items + p.items, p.end)
      decreases left
    {
      if |bytes| < ITEM_HEADER_SIZE { return Parsed(items, OutOfBounds); }
      var size := ItemSize(bytes);
      if size > left { return Parsed(items, Failed(ERR_ITEM_LEN_MISMATCH)); }
      if |bytes| < size { return Parsed(items, OutOfBounds); }
      match make( U16(bytes, 0), bytes[ITEM_HEADER_SIZE..size])
      case BadLength => return Parsed(items, Failed(ERR_ITEM_LEN_MISMATCH));
      case Raised(code, info) => return Parsed(items, Thrown(code, info));
      case Good(item) =>
        ghost var p := ParseItems(make, bytes[size..], left - size);
        assert items + ([item] + p.items) == items + [item] + p.items;
        items, bytes, left := items + [item], bytes[size..], left - size;
    }
    r := Parsed(items, Done(left));
  }

  // The sizes the item headers announce, item by item, for as long as they fit.
  function ItemSizes(b: seq<byte>, n: nat): seq<nat>
    decreases n
  {
    if n < ITEM_HEADER_SIZE || |b| < ITEM_HEADER_SIZE || ItemSize(b) > n || |b| < ItemSize(b) then []
    else [ItemSize(b)] + ItemSizes(b[ItemSize(b)..], n - ItemSize(b))
  }

  function Total(sizes: seq<nat>): nat {
    if sizes == [] then 0 else sizes[0] + Total(sizes[1..])
  }

  /** With at least `n` bytes in the buffer the parser stays inside it, and a parse that ends well accounts
      for every byte: item sizes and a leftover shorter than an item header. */
  lemma {:induction false} ParseAccounts(make: Factory, b: seq<byte>, n: nat)
    requires n <= |b|
    ensures !ParseItems(make, b, n).end.OutOfBounds?
    ensures ParseItems(make, b, n).end.Done? ==>
              Total(ItemSizes(b, n)) + ParseItems(make, b, n).end.left == n &&
              |ItemSizes(b, n)| == |ParseItems(make, b, n).items| &&
              ParseItems(make, b, n).end.left < ITEM_HEADER_SIZE
    decreases n
  {
    if ITEM_HEADER_SIZE <= n && ItemSize(b) <= n {
      ParseAccounts(make, b[ItemSize(b)..], n - ItemSize(b));
    }
  }

  // ---------------------------------------------------------------- serialising

  function ItemsBytes(write: Writer, items: seq<Item>): seq<byte> {
    if items == [] then [] else write(items[0]) + ItemsBytes(write, items[1..])
  }

  function Sum(b: seq<byte>): nat {
    if b == [] then 0 else (var last: int := b[|b| - 1]; Sum(b[..|b| - 1]) + last)
  }

  function Checksum(b: seq<byte>): byte {
    Sum(b) % 0x100
  }

  function Stem(mid: byte, payload: seq<byte>): seq<byte> {
    [mid] + LE32(|payload| % 0x1_0000_0000) + payload
  }

  function Summed(stem: seq<byte>): seq<byte> {
    stem + [(0x100 - Checksum(stem)) % 0x100]
  }

  function AsBytes(m: Message, asReply: bool): seq<byte> {
    Summed(Stem(m.mid, ItemsBytes(WriterOf(asReply), m.items)))
  }

  lemma {:induction false} ItemsBytesAppend(write: Writer, a: seq<Item>, b: seq<Item>)
    ensures ItemsBytes(write, a + b) == ItemsBytes(write, a) + ItemsBytes(write, b)
  {
    if a == [] {
      assert a + b == b;
    } else {
      assert (a + b)[1..] == a[1..] + b;
      ItemsBytesAppend(write, a[1..], b);
    }
  }

  /** calculateChecksum: a byte that wraps as it adds. */
  method CalculateChecksum(message: seq<byte>) returns (checksum: byte)
    ensures checksum == Checksum(message)
  {
    checksum := 0;
    for i := 0 to |message|
      invariant checksum == Checksum(message[..i])
    {
      assert message[..i + 1][..i] == message[..i];
      var sum: int := checksum as int + message[i] as int;
      checksum := sum % 0x100;
    }
    assert message[..|message|] == message;
  }

  lemma ItemsBytesGrow(write: Writer, items: seq<Item>, i: nat)
    requires i < |items|
    ensures ItemsBytes(write, items[..i + 1]) == ItemsBytes(write, items[..i]) + write(items[i])
  {
    assert items[..i + 1] == items[..i] + [items[i]];
    ItemsBytesAppend(write, items[..i], [items[i]]);
    assert ItemsBytes(write, [items[i]]) == write(items[i]) + ItemsBytes(write, []);
  }

  lemma WrappedSum(a: nat, b: nat)
    ensures (a % 0x1_0000_0000 + b) % 0x1_0000_0000 == (a + b) % 0x1_0000_0000
  {
  }

  /** appendPayloadLengthAndItems, with the 32-bit payload length. */
  method AppendPayloadLengthAndItems(buf: seq<byte>, items: seq<Item>, write: Writer) returns (bytes: seq<byte>)
    ensures bytes == buf + LE32(|ItemsBytes(write, items)| % 0x1_0000_0000) + ItemsBytes(write, items)
  {
    var payload: seq<byte>, payloadLength: u32 := [], 0;
    for i := 0 to |items|
      invariant payload == ItemsBytes(write, items[..i])
      invariant payloadLength == |payload| % 0x1_0000_0000
    {
      var itemBytes := write(items[i]);
      ItemsBytesGrow(write, items, i);
      WrappedSum(|payload|, |itemBytes|);
      var sum: int := payloadLength as int + |itemBytes|;
      payloadLength := sum % 0x1_0000_0000;
      payload := payload + itemBytes;
    }
    assert items[..|items|] == items;
    bytes := Stuff(buf, payloadLength, 4);
    FourBytes(payloadLength);
    bytes := bytes + payload;
  }

  /** TMessage::AsBytes */
  method Serialise(m: Message, asReply: bool) returns (bytes: seq<byte>)
    ensures bytes == AsBytes(m, asReply)
  {
    bytes := AppendPayloadLengthAndItems([m.mid], m.items, WriterOf(asReply));
    var checksum := CalculateChecksum(bytes);
    var sum: int := 0x100 - checksum as int;
    bytes := bytes + [sum % 0x100];
  }

  lemma SummedIsZero(stem: seq<byte>)
    ensures Checksum(Summed(stem)) == 0
  {
    var last := (0x100 - Checksum(stem)) % 0x100;
    assert (stem + [last])[..|stem|] == stem;
    assert Sum(stem + [last]) == Sum(stem) + last;
  }

  /** The bytes of every serialised message, checksum included, sum to zero modulo 256. */
  lemma SumsToZero(m: Message, asReply: bool)
    ensures Checksum(AsBytes(m, asReply)) == 0
  {
    SummedIsZero(Stem(m.mid, ItemsBytes(WriterOf(asReply), m.items)));
  }

  // ---------------------------------------------------------------- FromBytes

  // What the caller of FromBytes gets: a code (0 is ERR_SUCCESS) with a message, whose fields are unset
  // when it is None; an exception; TooShort, an exception too, because the message meant to report it is
  // given an id that setMId refuses; or WildRead, an access outside the buffer.
  datatype Received =
    Returned(code: nat, msg: Option<Message>) | Exception(code: nat, info: u32) | TooShort | WildRead

  function FromBytes(dict: Dictionary, buf: seq<byte>): Received {
    if |buf| < MINIMUM_LENGTH then TooShort
    else if !IsValidMessageID(buf[0]) then Returned(ERR_MSG_ID_UNKNOWN, None)
    else
      var size := U32(buf, 1);
      if |buf| < (MINIMUM_LENGTH + size) % 0x1_0000_0000 then Returned(ERR_MSG_LEN_MISMATCH, None)
      else
        var p := ParseItems(FactoryOf(dict), buf[HEADER_SIZE..], size);
        match p.end
        case Thrown(code, info) => Exception(code, info)
        case OutOfBounds => WildRead
        case Failed(code) => AfterParse(buf, code, Message(buf[0], p.items))
        case Done(_) => AfterParse(buf, 0, Message(buf[0], p.items))
  }

  // The checksum is looked at last, and overrides an earlier failure.
  function AfterParse(buf: seq<byte>, code: nat, m: Message): Received {
    if Checksum(buf) != 0 then Returned(ERR_MSG_CHECKSUM, None) else Returned(code, Some(m))
  }

  /** TMessage::FromBytes, with the payload loop and the checksum loop run in that order. */
  method Deserialise(dict: Dictionary, buf: seq<byte>) returns (r: Received)
    ensures r == FromBytes(dict, buf)
  {
    if |buf| < MINIMUM_LENGTH { return TooShort; }
    if !IsValidMessageID(buf[0]) { return Returned(ERR_MSG_ID_UNKNOWN, None); }
    var size := U32(buf, 1);
    if |buf| < (MINIMUM_LENGTH + size) % 0x1_0000_0000 { return Returned(ERR_MSG_LEN_MISMATCH, None); }
    var p := ParsePayload(FactoryOf(dict), buf[HEADER_SIZE..], size);
    if p.end.Thrown? { return Exception(p.end.code, p.end.info); }
    if p.end.OutOfBounds? { return WildRead; }
    var checksum := CalculateChecksum(buf);
    if checksum != 0 { return Returned(ERR_MSG_CHECKSUM, None); }
    r := Returned(if p.end.Failed? then p.end.code else 0, Some(Message(buf[0], p.items)));
  }

  /** Given a whole frame whose length field does not wrap, FromBytes reads inside the frame and never takes
      its too-short or length-mismatch exit. */
  lemma WholeFrameIsSafe(dict: Dictionary, f: seq<byte>)
    requires |f| == MINIMUM_LENGTH + U32(f, 1) < 0x1_0000_0000
    ensures FromBytes(dict, f) != WildRead && FromBytes(dict, f) != TooShort
    ensures FromBytes(dict, f).Returned? ==> FromBytes(dict, f).code != ERR_MSG_LEN_MISMATCH
  {
    ParseAccounts(FactoryOf(dict), f[HEADER_SIZE..], U32(f, 1));
    NoZeroCode(FactoryOf(dict), f[HEADER_SIZE..], U32(f, 1));
  }

  // A request the dictionary admits.
  predicate Admits(dict: Dictionary, x: Item) {
    x.did in dict && Canonical(dict[x.did].cls, x.body) &&
    var len := |Payload(x.body, false)|;
    len == 0 || dict[x.did].minLen <= len <= dict[x.did].maxLen
  }

  predicate Request(dict: Dictionary, m: Message) {
    IsValidMessageID(m.mid) && (forall i :: 0 <= i < |m.items| ==> Admits(dict, m.items[i])) &&
    MINIMUM_LENGTH + |ItemsBytes(WriterOf(false), m.items)| < 0x1_0000_0000
  }

  // The bytes of one item are made back into it.
  predicate ReadsBack(make: Factory, write: Writer, x: Item) {
    var s := write(x);
    ITEM_HEADER_SIZE <= |s| == ItemSize(s) && make(U16(s, 0), s[ITEM_HEADER_SIZE..]) == Good(x)
  }

  lemma AdmittedReadsBack(dict: Dictionary, x: Item)
    requires Admits(dict, x)
    ensures ReadsBack(FactoryOf(dict), WriterOf(false), x)
  {
    var data := Payload(x.body, false);
    FramedReads(x.did, data);
    ConstructPayload(dict[x.did].cls, x.body);
    assert ItemFromBytes(dict, x.did, data) == Good(x);
  }

  lemma FramedReads(did: u16, data: seq<byte>)
    requires |data| < 0x1_0000
    ensures var s := Framed(did, data); U16(s, 0) == did && U16(s, 2) == |data| && s[ITEM_HEADER_SIZE..] == data
  {
    var s := Framed(did, data);
    assert s == [] + LE16(did) + (LE16(|data|) + data);
    ReadBack16(did, [], LE16(|data|) + data);
    ReadBack16(|data|, LE16(did), data);
  }

  lemma {:induction false} ParseSerialised(make: Factory, write: Writer, items: seq<Item>, tail: seq<byte>)
    requires forall i :: 0 <= i < |items| ==> ReadsBack(make, write, items[i])
    ensures ParseItems(make, ItemsBytes(write, items) + tail, |ItemsBytes(write, items)|) == Parsed(items, Done(0))
  {
    if items != [] {
      var s, rest := write(items[0]), ItemsBytes(write, items[1..]) + tail;
      assert ReadsBack(make, write, items[0]);
      var b := s + rest;
      assert ItemsBytes(write, items) + tail == b;
      assert b[ITEM_HEADER_SIZE..|s|] == s[ITEM_HEADER_SIZE..] && b[|s|..] == rest;
      ParseSerialised(make, write, items[1..], tail);
      assert [items[0]] + items[1..] == items;
    }
  }

  lemma FrameShape(mid: byte, p: seq<byte>)
    requires MINIMUM_LENGTH + |p| < 0x1_0000_0000
    ensures var f := Summed(Stem(mid, p));
            |f| == MINIMUM_LENGTH + |p| && f[0] == mid && U32(f, 1) == |p| && f[HEADER_SIZE..] == p + [f[|f| - 1]]
  {
    var f := Summed(Stem(mid, p));
    var last := [f[|f| - 1]];
    assert f == [mid] + LE32(|p|) + (p + last);
    ReadBack32(|p|, [mid], p + last);
  }

  /** Every well-formed request survives serialising and parsing. */
  lemma RoundTrip(dict: Dictionary, m: Message)
    requires Request(dict, m)
    ensures FromBytes(dict, AsBytes(m, false)) == Returned(0, Some(m))
  {
    forall i | 0 <= i < |m.items| ensures ReadsBack(FactoryOf(dict), WriterOf(false), m.items[i]) {
      AdmittedReadsBack(dict, m.items[i]);
    }
    FrameParses(FactoryOf(dict), WriterOf(false), m);
    SumsToZero(m, false);
  }

  lemma FrameParses(make: Factory, write: Writer, m: Message)
    requires forall i :: 0 <= i < |m.items| ==> ReadsBack(make, write, m.items[i])
    requires MINIMUM_LENGTH + |ItemsBytes(write, m.items)| < 0x1_0000_0000
    ensures var f := Summed(Stem(m.mid, ItemsBytes(write, m.items)));
            |f| == MINIMUM_LENGTH + U32(f, 1) < 0x1_0000_0000 && f[0] == m.mid &&
            ParseItems(make, f[HEADER_SIZE..], U32(f, 1)) == Parsed(m.items, Done(0))
  {
    var p := ItemsBytes(write, m.items);
    var f := Summed(Stem(m.mid, p));
    FrameShape(m.mid, p);
    ParseSerialised(make, write, m.items, [f[|f| - 1]]);
  }

  lemma Injective(dict: Dictionary, m1: Message, m2: Message)
    requires Request(dict, m1) && Request(dict, m2) && AsBytes(m1, false) == AsBytes(m2, false)
    ensures m1 == m2
  {
    RoundTrip(dict, m1);
    RoundTrip(dict, m2);
  }

  // ---------------------------------------------------------------- what a client reads in a reply

  // A client that cuts a payload into items and keeps the bytes of each.
  function Keep(did: u16, data: seq<byte>): ItemResult {
    Good(Item(did, Raw(data)))
  }

  // The items of a reply as such a client sees them.
  function AnswersOf(items: seq<Item>): (a: seq<Item>)
    ensures |a| == |items|
    ensures forall i :: 0 <= i < |a| ==> a[i] == Item(items[i].did, Raw(Payload(items[i].body, true)))
  {
    if items == [] then []
    else [Item(items[0].did, Raw(Payload(items[0].body, true)))] + AnswersOf(items[1..])
  }

  lemma {:induction false} AnswersWriteTheSame(items: seq<Item>)
    ensures ItemsBytes(WriterOf(false), AnswersOf(items)) == ItemsBytes(WriterOf(true), items)
  {
    if items != [] {
      AnswersWriteTheSame(items[1..]);
      assert AnswersOf(items)[1..] == AnswersOf(items[1..]);
    }
  }

  /** A client can take every reply apart: its length, id and checksum are right, and cutting its payload by the
      item headers gives, in order, every item's DId and the bytes of its answer. */
  lemma ReplyTakenApart(m: Message)
    requires forall i :: 0 <= i < |m.items| ==> |Payload(m.items[i].body, true)| < 0x1_0000
    requires MINIMUM_LENGTH + |ItemsBytes(WriterOf(true), m.items)| < 0x1_0000_0000
    ensures var f := AsBytes(m, true);
            && |f| == MINIMUM_LENGTH + U32(f, 1) && f[0] == m.mid && Checksum(f) == 0
            && ParseItems(Keep, f[HEADER_SIZE..], U32(f, 1)) == Parsed(AnswersOf(m.items), Done(0))
  {
    var answers := AnswersOf(m.items);
    forall i | 0 <= i < |answers| ensures ReadsBack(Keep, WriterOf(false), answers[i]) {
      FramedReads(answers[i].did, answers[i].body.data);
    }
    AnswersWriteTheSame(m.items);
    FrameParses(Keep, WriterOf(false), Message(m.mid, answers));
    SumsToZero(m, true);
  }

  // ---------------------------------------------------------------- what FromBytes accepts

  /** Parsing is cutting by the item headers and then making the items, up to the first that cannot be made. */
  lemma {:induction false} ParseIsCutThenMake(make: Factory, b: seq<byte>, n: nat)
    ensures var p, cut := ParseItems(make, b, n), ParseItems(Keep, b, n);
            && |p.items| <= |cut.items| && AllRaw(cut.items)
            && (forall i :: 0 <= i < |p.items| ==> make(cut.items[i].did, cut.items[i].body.data) == Good(p.items[i]))
            && if |p.items| == |cut.items| then p.end == cut.end
               else EndsOn(make(cut.items[|p.items|].did, cut.items[|p.items|].body.data), p.end)
    decreases n
  {
    if n >= ITEM_HEADER_SIZE && |b| >= ITEM_HEADER_SIZE && ItemSize(b) <= n && ItemSize(b) <= |b| {
      ParseIsCutThenMake(make, b[ItemSize(b)..], n - ItemSize(b));
      var first, rest := Item(U16(b, 0), Raw(b[ITEM_HEADER_SIZE..ItemSize(b)])), b[ItemSize(b)..];
      assert ParseItems(Keep, b, n).items == [first] + ParseItems(Keep, rest, n - ItemSize(b)).items;
    }
  }

  predicate AllRaw(items: seq<Item>) {
    forall i :: 0 <= i < |items| ==> items[i].body.Raw?
  }

  predicate EndsOn(r: ItemResult, end: End) {
    match r
    case Good(_) => false
    case BadLength => end == Failed(7)
    case Raised(code, info) => end == Thrown(code, info)
  }

  /** Which bytes make an item: a DId of the dictionary, data that is empty or within its limits, and, for a
      write, an offset that names a register and a value as wide as it. */
  lemma ItemAcceptedIff(dict: Dictionary, did: u16, data: seq<byte>)
    ensures ItemFromBytes(dict, did, data).Good? <==>
            did in dict && (data == [] || dict[did].minLen <= |data| <= dict[did].maxLen) &&
            (dict[did].cls.Write1Class? ==>
               (|data| == 2 && data[0] < 0x18) || (|data| == 5 && 0x18 <= data[0] <= 0xFC && data[0] % 4 == 0))
    ensures ItemFromBytes(dict, did, data) == BadLength <==>
            did in dict && data != [] && (|data| < dict[did].minLen || dict[did].maxLen < |data|)
  {
  }

  predicate Acceptable(dict: Dictionary, cut: Item) {
    cut.body.Raw? && ItemFromBytes(dict, cut.did, cut.body.data).Good?
  }

  /** Which whole frames FromBytes accepts: one of the seven ids, bytes that sum to zero, and a payload that
      cuts into items each of which can be made. */
  lemma AcceptedIff(dict: Dictionary, f: seq<byte>)
    requires |f| == MINIMUM_LENGTH + U32(f, 1) < 0x1_0000_0000
    ensures var r, cut := FromBytes(dict, f), ParseItems(Keep, f[HEADER_SIZE..], U32(f, 1));
            (r.Returned? && r.code == 0 && r.msg.Some?) <==>
              f[0] as char in "QCMRXEH" && Checksum(f) == 0 && cut.end.Done? &&
              forall i :: 0 <= i < |cut.items| ==> Acceptable(dict, cut.items[i])
  {
    var make, b, n := FactoryOf(dict), f[HEADER_SIZE..], U32(f, 1);
    IdsAreSeven(f[0]);
    ParseIsCutThenMake(make, b, n);
    NoZeroCode(make, b, n);
    var p, cut := ParseItems(make, b, n), ParseItems(Keep, b, n);
    if p.end.Done? {
      forall i | 0 <= i < |cut.items| ensures Acceptable(dict, cut.items[i]) {
        assert make(cut.items[i].did, cut.items[i].body.data) == Good(p.items[i]);
      }
    } else if |p.items| < |cut.items| {
      assert !Acceptable(dict, cut.items[|p.items|]);
    }
  }

  lemma IdsAreSeven(mid: byte)
    ensures IsValidMessageID(mid) <==> mid as char in "QCMRXEH"
  {
    var ids := "QCMRXEH";
    assert ids[0] == 'Q' && ids[1] == 'C' && ids[2] == 'M' && ids[3] == 'R' && ids[4] == 'X' && ids[5] == 'E' && ids[6] == 'H';
  }

  // The first n bytes are items, nothing is left over, and each writes as many bytes as it was made from.
  predicate Tiles(make: Factory, write: Writer, b: seq<byte>, n: nat)
    requires n <= |b|
    decreases n
  {
    n == 0 ||
    (n >= ITEM_HEADER_SIZE && ItemSize(b) <= n &&
     var r := make(U16(b, 0), b[ITEM_HEADER_SIZE..ItemSize(b)]);
     r.Good? && |write(r.item)| == ItemSize(b) && Tiles(make, write, b[ItemSize(b)..], n - ItemSize(b)))
  }

  // An item either writes the bytes it was made from, or another length, which shows in its header.
  predicate SameOrOtherLength(made: seq<byte>, did: u16, data: seq<byte>)
    requires |data| < 0x1_0000
  {
    if |made| == ITEM_HEADER_SIZE + |data| then made == Framed(did, data)
    else ITEM_HEADER_SIZE <= |made| && made[2..4] != LE16(|data|)
  }

  // The DIds whose codec is modelled.
  function ModelledIn(dict: Dictionary): u16 -> bool {
    (did: u16) => did in dict && !dict[did].cls.ForeignClass?
  }

  predicate AllModelled(known: u16 -> bool, items: seq<Item>) {
    items == [] || (known(items[0].did) && AllModelled(known, items[1..]))
  }

  // What is made from `data` has its DId, and if that is known, writes `data` back or another length.
  predicate FaithfulOn(make: Factory, write: Writer, known: u16 -> bool, did: u16, data: seq<byte>) {
    |data| < 0x1_0000 && make(did, data).Good? ==>
      make(did, data).item.did == did &&
      (known(did) ==> SameOrOtherLength(write(make(did, data).item), did, data))
  }

  ghost predicate Faithful(make: Factory, write: Writer, known: u16 -> bool) {
    forall did: u16, data: seq<byte> :: FaithfulOn(make, write, known, did, data)
  }

  lemma DictionaryIsFaithful(dict: Dictionary)
    ensures Faithful(FactoryOf(dict), WriterOf(false), ModelledIn(dict))
  {
    forall did: u16, data: seq<byte> ensures FaithfulOn(FactoryOf(dict), WriterOf(false), ModelledIn(dict), did, data) {
      if |data| < 0x1_0000 && ItemFromBytes(dict, did, data).Good? && ModelledIn(dict)(did) {
        var x := ItemFromBytes(dict, did, data).item;
        PayloadConstruct(dict[did].cls, data);
        PayloadFits(x.body, dict[did].cls, data);
        FramedOtherLength(did, Payload(x.body, false), data);
      }
    }
  }

  lemma FramedOtherLength(did: u16, written: seq<byte>, data: seq<byte>)
    requires |written| < 0x1_0000 && |data| < 0x1_0000
    ensures |written| != |data| ==> Framed(did, written)[2..4] != LE16(|data|)
  {
    assert Framed(did, written)[2..4] == LE16(|written|);
    if LE16(|written|) == LE16(|data|) {
      assert LE16(|written|)[0] == LE16(|data|)[0] && LE16(|written|)[1] == LE16(|data|)[1];
    }
  }

  lemma FramedAtFront(did: u16, b: seq<byte>)
    requires ITEM_HEADER_SIZE <= ItemSize(b) <= |b| && did == U16(b, 0)
    ensures Framed(did, b[ITEM_HEADER_SIZE..ItemSize(b)]) == b[..ItemSize(b)] && LE16(U16(b, 2)) == b[2..4]
  {
    WriteBack16(b, 0);
    WriteBack16(b, 2);
    var size := ItemSize(b);
    assert Framed(did, b[4..size]) == b[..2] + b[2..4] + b[4..size];
    assert b[..size] == b[..2] + b[2..4] + b[4..size];
  }

  // The item at the front writes the bytes it was made from, or shows another length in its header.
  lemma WrittenAtFront(make: Factory, write: Writer, known: u16 -> bool, b: seq<byte>)
    requires Faithful(make, write, known) && ITEM_HEADER_SIZE <= ItemSize(b) <= |b|
    requires var r := make(U16(b, 0), b[ITEM_HEADER_SIZE..ItemSize(b)]); r.Good? && known(r.item.did)
    ensures var w := write(make(U16(b, 0), b[ITEM_HEADER_SIZE..ItemSize(b)]).item);
            4 <= |w| && if |w| == ItemSize(b) then w == b[..ItemSize(b)] else w[2..4] != b[2..4]
  {
    var data := b[ITEM_HEADER_SIZE..ItemSize(b)];
    assert FaithfulOn(make, write, known, U16(b, 0), data);
    FramedAtFront(U16(b, 0), b);
  }

  // Parsing well, from the first item to the rest.
  lemma FirstAndRest(make: Factory, b: seq<byte>, n: nat)
    requires ITEM_HEADER_SIZE <= n <= |b| && ParseItems(make, b, n).end.Done?
    ensures ITEM_HEADER_SIZE <= ItemSize(b) <= n
    ensures var r, p := make(U16(b, 0), b[ITEM_HEADER_SIZE..ItemSize(b)]), ParseItems(make, b[ItemSize(b)..], n - ItemSize(b));
            r.Good? && p.end.Done? && ParseItems(make, b, n).items == [r.item] + p.items
  {
  }

  // The items of a payload write its first n bytes.
  predicate WritesBack(make: Factory, write: Writer, b: seq<byte>, n: nat)
    requires n <= |b|
  {
    ItemsBytes(write, ParseItems(make, b, n).items) == b[..n]
  }

  // One item of the induction: the first item x, which writes w.
  lemma OneItemWritesBack(make: Factory, write: Writer, b: seq<byte>, n: nat, x: Item)
    requires ITEM_HEADER_SIZE <= n <= |b| && ParseItems(make, b, n).end.Done?
    requires make(U16(b, 0), b[ITEM_HEADER_SIZE..ItemSize(b)]) == Good(x) && ItemSize(b) <= n
    requires 4 <= |write(x)|
    requires if |write(x)| == ItemSize(b) then write(x) == b[..ItemSize(b)] else write(x)[2..4] != b[2..4]
    ensures WritesBack(make, write, b, n) <==>
            |write(x)| == ItemSize(b) && WritesBack(make, write, b[ItemSize(b)..], n - ItemSize(b))
  {
    var items := ParseItems(make, b[ItemSize(b)..], n - ItemSize(b)).items;
    FirstAndRest(make, b, n);
    assert ([x] + items)[1..] == items;
    SplitBytes(write(x), ItemsBytes(write, items), b, n, ItemSize(b));
  }

  lemma {:induction false} ReserialisedItems(make: Factory, write: Writer, known: u16 -> bool, b: seq<byte>, n: nat)
    requires n <= |b| && ParseItems(make, b, n).end.Done? && Faithful(make, write, known)
    requires AllModelled(known, ParseItems(make, b, n).items)
    ensures WritesBack(make, write, b, n) <==> Tiles(make, write, b, n)
    decreases n
  {
    if n >= ITEM_HEADER_SIZE {
      FirstAndRest(make, b, n);
      var x, rest := make(U16(b, 0), b[ITEM_HEADER_SIZE..ItemSize(b)]).item, b[ItemSize(b)..];
      var items := ParseItems(make, rest, n - ItemSize(b)).items;
      assert ([x] + items)[1..] == items;
      WrittenAtFront(make, write, known, b);
      OneItemWritesBack(make, write, b, n, x);
      ReserialisedItems(make, write, known, rest, n - ItemSize(b));
    }
  }

  lemma SplitBytes(head: seq<byte>, tail: seq<byte>, b: seq<byte>, n: nat, size: nat)
    requires 4 <= size <= n <= |b| && 4 <= |head|
    requires if |head| == size then head == b[..size] else head[2..4] != b[2..4]
    ensures head + tail == b[..n] <==> |head| == size && tail == b[size..][..n - size]
  {
    if head + tail == b[..n] {
      assert head[2..4] == (head + tail)[2..4] == b[..n][2..4] == b[2..4];
      assert tail == (head + tail)[size..] == b[..n][size..] == b[size..][..n - size];
    }
    assert b[..n] == b[..size] + b[size..][..n - size];
  }

  lemma PayloadFits(body: Body, cls: Class, d: seq<byte>)
    requires Construct(cls, d) == Built(body) && |d| < 0x1_0000
    ensures |Payload(body, false)| < 0x1_0000
  {
  }

  // A frame is its first byte, its length field, its payload and one more byte.
  lemma FrameParts(f: seq<byte>)
    requires |f| == MINIMUM_LENGTH + U32(f, 1)
    ensures f[..|f| - 1] == [f[0]] + LE32(U32(f, 1)) + f[HEADER_SIZE..][..U32(f, 1)]
  {
    WriteBack32(f, 1);
    assert f[..|f| - 1] == [f[0]] + f[1..5] + f[5..|f| - 1];
    assert f[5..|f| - 1] == f[5..][..U32(f, 1)];
  }

  // The checksum byte is determined by the bytes before it.
  lemma ChecksumByte(stem: seq<byte>, last: byte)
    requires Checksum(stem + [last]) == 0
    ensures last == (0x100 - Checksum(stem)) % 0x100
  {
    assert (stem + [last])[..|stem|] == stem;
  }

  lemma AcceptedFrame(dict: Dictionary, f: seq<byte>, m: Message)
    requires FromBytes(dict, f) == Returned(0, Some(m)) && MINIMUM_LENGTH <= |f|
    ensures var p := ParseItems(FactoryOf(dict), f[HEADER_SIZE..], U32(f, 1));
            p.end.Done? && m == Message(f[0], p.items) && Checksum(f) == 0
  {
    NoZeroCode(FactoryOf(dict), f[HEADER_SIZE..], U32(f, 1));
  }

  // A payload serialises to `f` exactly when it is the payload of `f`.
  lemma SameBytes(p: seq<byte>, f: seq<byte>)
    requires |f| == MINIMUM_LENGTH + U32(f, 1) && Checksum(f) == 0
    ensures Summed(Stem(f[0], p)) == f <==> p == f[HEADER_SIZE..][..U32(f, 1)]
  {
    var n, stem := U32(f, 1), f[..|f| - 1];
    FrameParts(f);
    assert f == stem + [f[|f| - 1]];
    ChecksumByte(stem, f[|f| - 1]);
    if Summed(Stem(f[0], p)) == f {
      assert Stem(f[0], p) == f[..|f| - 1];
      assert p == Stem(f[0], p)[5..] == stem[5..] == f[5..][..n];
    }
  }

  /** An accepted frame whose items all have a modelled codec re-serialises to itself exactly when its items
      tile the payload: nothing is left over and no item was given other than its full parameters. */
  lemma AcceptedFrameReserialises(dict: Dictionary, f: seq<byte>, m: Message)
    requires |f| == MINIMUM_LENGTH + U32(f, 1) && FromBytes(dict, f) == Returned(0, Some(m))
    requires AllModelled(ModelledIn(dict), m.items)
    ensures AsBytes(m, false) == f <==>
            Tiles(FactoryOf(dict), WriterOf(false), f[HEADER_SIZE..], U32(f, 1))
  {
    AcceptedFrame(dict, f, m);
    DictionaryIsFaithful(dict);
    ReserialisedItems(FactoryOf(dict), WriterOf(false), ModelledIn(dict), f[HEADER_SIZE..], U32(f, 1));
    SameBytes(ItemsBytes(WriterOf(false), m.items), f);
  }

  // No failure reports the success code.
  lemma {:induction false} NoZeroCode(make: Factory, b: seq<byte>, n: nat)
    ensures ParseItems(make, b, n).end.Failed? ==> ParseItems(make, b, n).end.code == ERR_ITEM_LEN_MISMATCH
    decreases n
  {
    if n >= ITEM_HEADER_SIZE && |b| >= ITEM_HEADER_SIZE && ItemSize(b) <= n && ItemSize(b) <= |b| {
      NoZeroCode(make, b[ItemSize(b)..], n - ItemSize(b));
    }
  }
}
