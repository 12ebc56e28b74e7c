/** The receiver of aioenetd.cpp: cutting a client's byte stream into frames as it arrives. */
module Framer {
  import opened Wrappers
  import opened Bytes
  import opened Items
  import opened Messages
  import opened ErrorItems
  import opened Queues

  // What the front of a buffer holds.
  datatype Front = More | Oversize(payload: u32) | Frame(len: nat)

  function LookAhead(b: seq<byte>): (r: Front)
    ensures r.Frame? ==> MINIMUM_LENGTH <= r.len <= |b|
  {
    if |b| < HEADER_SIZE then More
    else if U32(b, 1) > MAX_PAYLOAD_LENGTH then Oversize(U32(b, 1))
    else if |b| < MINIMUM_LENGTH + U32(b, 1) then More
    else Frame(MINIMUM_LENGTH + U32(b, 1))
  }

  // Everything a stream of bytes leads to: the frames in it, the bytes after the last one, and the payload
  // length of an oversize header that ended the connection (those bytes are then dropped).
  datatype Cut = Cut(frames: seq<seq<byte>>, rest: seq<byte>, over: Option<u32>)

  // The batch framer: one pass over all the bytes at once.
  function CutAll(b: seq<byte>): Cut
    decreases |b|
  {
    match LookAhead(b)
    case More => Cut([], b, None)
    case Oversize(n) => Cut([], [], Some(n))
    case Frame(len) =>
      var c := CutAll(b[len..]);
      Cut([b[..len]] + c.frames, c.rest, c.over)
  }

  /** A header is taken, and ends the connection, exactly when it announces more than 1048624 bytes: sixteen
      items of the largest size. */
  lemma OversizeIff(b: seq<byte>)
    requires |b| >= 5
    ensures CutAll(b) == Cut([], [], Some(U32(b, 1))) <==> U32(b, 1) > 16 * (4 + 65535)
  {
    if LookAhead(b).Frame? {
      assert CutAll(b).frames != [];
    }
  }

  // How a receiver turns a frame, and the payload length of an oversize header, into queue entries.
  type Parser = seq<byte> -> Queued

  datatype Receiver = Receiver(got: Parser, oversize: u32 -> Queued)

  // The program's: GotMessage and the oversize reply, with its dictionary and the texts of its exceptions.
  function ReceiverOf(dict: Dictionary, said: Said): Receiver {
    Receiver((frame: seq<byte>) => GotMessage(dict, said, frame), (n: u32) => OversizeReply(dict, n))
  }

  // The queue entries of a connection: a message for every frame, and a reply when it ends oversize.
  function Entries(rx: Receiver, socket: int, c: Cut): seq<Action> {
    FrameEntries(rx.got, socket, c.frames) + if c.over.Some? then [Action(socket, rx.oversize(c.over.value))] else []
  }

  function FrameEntries(got: Parser, socket: int, frames: seq<seq<byte>>): seq<Action> {
    if frames == [] then [] else [Action(socket, got(frames[0]))] + FrameEntries(got, socket, frames[1..])
  }

  lemma {:induction false} FrameEntriesAppend(got: Parser, socket: int, a: seq<seq<byte>>, b: seq<seq<byte>>)
    ensures FrameEntries(got, socket, a + b) == FrameEntries(got, socket, a) + FrameEntries(got, socket, b)
  {
    if a == [] {
      assert a + b == b;
    } else {
      assert (a + b)[1..] == a[1..] + b;
      FrameEntriesAppend(got, socket, a[1..], b);
    }
  }

  function Flatten(parts: seq<seq<byte>>): seq<byte> {
    if parts == [] then [] else parts[0] + Flatten(parts[1..])
  }

  // More bytes do not change what the front of a buffer holds, once it holds anything.
  lemma LookAheadStable(a: seq<byte>, b: seq<byte>)
    ensures !LookAhead(a).More? ==> LookAhead(a + b) == LookAhead(a)
  {
    if |a| >= HEADER_SIZE {
      assert U32(a + b, 1) == U32(a, 1);
    }
  }

  /** The law behind chunk independence: cutting a prefix first, then its rest with the remaining bytes, is
      cutting everything at once. */
  lemma {:induction false} CutInTwo(a: seq<byte>, b: seq<byte>)
    ensures CutAll(a + b) ==
            if CutAll(a).over.Some? then CutAll(a)
            else var c := CutAll(CutAll(a).rest + b); Cut(CutAll(a).frames + c.frames, c.rest, c.over)
    decreases |a|
  {
    LookAheadStable(a, b);
    match LookAhead(a)
    case More =>
    case Oversize(_) =>
    case Frame(len) =>
      assert (a + b)[..len] == a[..len];
      assert (a + b)[len..] == a[len..] + b;
      CutInTwo(a[len..], b);
      var c := CutAll(a[len..]);
      if c.over.None? {
        var d := CutAll(c.rest + b);
        assert [a[..len]] + (c.frames + d.frames) == [a[..len]] + c.frames + d.frames;
      }
  }

  // While the connection is open, frames and rest make up the stream, and the rest is short of a whole frame.
  // When it ended, the frames are the front of the stream and nothing is kept.
  predicate Accounts(c: Cut, b: seq<byte>) {
    match c.over
    case None => Flatten(c.frames) + c.rest == b && LookAhead(c.rest).More?
    case Some(_) => Flatten(c.frames) <= b && c.rest == []
  }

  lemma OnePart(c: Cut, b: seq<byte>, len: nat)
    requires len <= |b| && Accounts(c, b[len..])
    ensures Accounts(Cut([b[..len]] + c.frames, c.rest, c.over), b)
  {
    var part, later := b[..len], Flatten(c.frames);
    assert ([part] + c.frames)[1..] == c.frames;
    assert b == part + b[len..];
    assert part + (later + c.rest) == part + later + c.rest;
  }

  /** The batch framer loses no byte. */
  lemma {:induction false} CutKeepsBytes(b: seq<byte>)
    ensures Accounts(CutAll(b), b)
    decreases |b|
  {
    if LookAhead(b).Frame? {
      CutKeepsBytes(b[LookAhead(b).len..]);
      OnePart(CutAll(b[LookAhead(b).len..]), b, LookAhead(b).len);
    }
  }

  /** Every frame has the length its header announces. */
  lemma {:induction false} FramesAreWhole(b: seq<byte>, k: nat)
    requires k < |CutAll(b).frames|
    ensures LookAhead(CutAll(b).frames[k]) == Frame(|CutAll(b).frames[k]|)
    decreases |b|
  {
    var len := LookAhead(b).len;
    if k == 0 {
      assert U32(b[..len], 1) == U32(b, 1);
    } else {
      FramesAreWhole(b[len..], k - 1);
    }
  }

  // The length field of a header that may be cut short, missing bytes read as zero.
  function PaddedLength(rest: seq<byte>): u32 {
    U32(rest + [0, 0, 0, 0, 0], 1)
  }

  lemma PaddedLengthLeast(rest: seq<byte>, more: seq<byte>)
    requires |rest + more| >= HEADER_SIZE
    ensures PaddedLength(rest) <= U32(rest + more, 1)
    ensures |rest| >= HEADER_SIZE ==> PaddedLength(rest) == U32(rest, 1) == U32(rest + more, 1)
  {
    var p, w := rest + [0, 0, 0, 0, 0], rest + more;
    forall k | 1 <= k < HEADER_SIZE ensures p[k] <= w[k] {
    }
  }

  /** What is left over when no whole frame is at the front is a strict prefix of a frame, except when the
      bytes of a cut-short header already make every completion of it oversize. */
  lemma RestIsFramePrefixIff(rest: seq<byte>)
    requires LookAhead(rest).More?
    ensures (exists more :: more != [] && LookAhead(rest + more) == Frame(|rest + more|))
            <==> PaddedLength(rest) <= MAX_PAYLOAD_LENGTH
  {
    forall more | more != [] && LookAhead(rest + more) == Frame(|rest + more|)
      ensures PaddedLength(rest) <= MAX_PAYLOAD_LENGTH
    {
      PaddedLengthLeast(rest, more);
    }
    if PaddedLength(rest) <= MAX_PAYLOAD_LENGTH {
      var total := MINIMUM_LENGTH + PaddedLength(rest);
      PaddedLengthLeast(rest, [0, 0, 0, 0, 0]);
      assert |rest| < total;
      var more := seq(total - |rest|, _ => 0 as byte);
      var w, p := rest + more, rest + [0, 0, 0, 0, 0];
      assert forall k :: 1 <= k < HEADER_SIZE ==> w[k] == p[k];
      assert U32(w, 1) == PaddedLength(rest);
      assert more != [] && LookAhead(rest + more) == Frame(|rest + more|);
    }
  }

  /** Such leftovers exist: four bytes of a header that no more bytes complete to a frame, and that the
      receiver keeps waiting on. */
  lemma RestCanBeHopeless() returns (rest: seq<byte>)
    ensures CutAll(rest) == Cut([], rest, None) && |rest| < HEADER_SIZE
    ensures forall more :: !LookAhead(rest + more).Frame?
  {
    rest := [0, 0xFF, 0xFF, 0xFF];
    forall more ensures !LookAhead(rest + more).Frame? {
      if |rest + more| >= HEADER_SIZE {
        PaddedLengthLeast(rest, more);
      }
    }
  }

  // ---------------------------------------------------------------- the incremental framer

  // One chunk arrives at a connection in state `c`.
  function Feed(c: Cut, chunk: seq<byte>): Cut {
    if c.over.Some? then c
    else var d := CutAll(c.rest + chunk); Cut(c.frames + d.frames, d.rest, d.over)
  }

  function FeedAll(c: Cut, chunks: seq<seq<byte>>): Cut
    decreases |chunks|
  {
    if chunks == [] then c else FeedAll(Feed(c, chunks[0]), chunks[1..])
  }

  const FRESH := Cut([], [], None)

  lemma {:induction false} FeedAllIsCutAll(sofar: seq<byte>, chunks: seq<seq<byte>>)
    ensures FeedAll(CutAll(sofar), chunks) == CutAll(sofar + Flatten(chunks))
    decreases |chunks|
  {
    if chunks == [] {
      assert sofar + Flatten(chunks) == sofar;
    } else {
      CutInTwo(sofar, chunks[0]);
      FeedAllIsCutAll(sofar + chunks[0], chunks[1..]);
      assert sofar + chunks[0] + Flatten(chunks[1..]) == sofar + Flatten(chunks);
    }
  }

  /** Chunk independence: however a stream is split, the frames cut, what is left over and whether the
      connection was ended are one function of the bytes. */
  lemma ChunkIndependence(chunks: seq<seq<byte>>)
    ensures FeedAll(FRESH, chunks) == CutAll(Flatten(chunks))
  {
    assert CutAll([]) == FRESH;
    FeedAllIsCutAll([], chunks);
    assert [] + Flatten(chunks) == Flatten(chunks);
  }

  /** Every frame passed on is parsed inside its bytes, and never leaves FromBytes by the too-short or
      length-mismatch exit. */
  lemma FramesParseSafely(dict: Dictionary, b: seq<byte>, k: nat)
    requires k < |CutAll(b).frames|
    ensures var r := FromBytes(dict, CutAll(b).frames[k]);
            r != WildRead && r != TooShort && (r.Returned? ==> r.code != ERR_MSG_LEN_MISMATCH)
  {
    FramesAreWhole(b, k);
    var f := CutAll(b).frames[k];
    assert LookAhead(f) == Frame(|f|);
    WholeFrameIsSafe(dict, f);
  }

  // ---------------------------------------------------------------- the receiver thread

  // What `recv` gives: bytes (none at all when the peer closed) or an error.
  datatype Recv = Chunk(bytes: seq<byte>) | RecvFailed

  // The chunks that arrive before the peer closes or an error occurs.
  function Arrived(recvs: seq<Recv>): seq<seq<byte>> {
    if recvs == [] || recvs[0].RecvFailed? || recvs[0].bytes == [] then []
    else [recvs[0].bytes] + Arrived(recvs[1..])
  }

  // One more frame cut, one more entry queued.
  lemma OneMoreFrame(got: Parser, socket: int, frames: seq<seq<byte>>, f: seq<byte>)
    ensures FrameEntries(got, socket, frames + [f]) == FrameEntries(got, socket, frames) + [Action(socket, got(f))]
  {
    FrameEntriesAppend(got, socket, frames, [f]);
    assert FrameEntries(got, socket, [f]) == [Action(socket, got(f))] + FrameEntries(got, socket, []);
  }

  // The entries of two consecutive cuts are the entries of both.
  lemma EntriesAppend(rx: Receiver, socket: int, a: Cut, d: Cut)
    requires a.over.None?
    ensures Entries(rx, socket, Cut(a.frames + d.frames, d.rest, d.over)) ==
            Entries(rx, socket, a) + Entries(rx, socket, d)
  {
    FrameEntriesAppend(rx.got, socket, a.frames, d.frames);
  }

  function Prepend(frames: seq<seq<byte>>, c: Cut): Cut {
    Cut(frames + c.frames, c.rest, c.over)
  }

  lemma CutFront(b: seq<byte>, frames: seq<seq<byte>>)
    requires LookAhead(b).Frame?
    ensures var len := LookAhead(b).len;
            Prepend(frames, CutAll(b)) == Prepend(frames + [b[..len]], CutAll(b[len..]))
  {
    var frame, e := [b[..LookAhead(b).len]], CutAll(b[LookAhead(b).len..]);
    assert CutAll(b) == Cut(frame + e.frames, e.rest, e.over);
    assert frames + (frame + e.frames) == frames + frame + e.frames;
  }

  // Once no whole frame is in front, the frames so far and an oversize header, if any, account for the buffer.
  lemma EntriesAtEnd(rx: Receiver, socket: int, frames: seq<seq<byte>>, rest: seq<byte>, all: Cut)
    requires !LookAhead(rest).Frame? && Prepend(frames, CutAll(rest)) == all
    ensures var front := LookAhead(rest);
            Entries(rx, socket, all) ==
              FrameEntries(rx.got, socket, frames) +
              (if front.Oversize? then [Action(socket, rx.oversize(front.payload))] else [])
    ensures all.rest == (if LookAhead(rest).Oversize? then [] else rest) && all.over.Some? == LookAhead(rest).Oversize?
  {
    assert all.frames == frames;
  }

  // Midway: the frames cut so far are queued, and with what the rest cuts into they make up the buffer.
  ghost predicate Cutting(rx: Receiver, socket: int, frames: seq<seq<byte>>, rest: seq<byte>, all: Cut,
                          start: seq<Action>, q: seq<Action>)
  {
    q == start + FrameEntries(rx.got, socket, frames) && Prepend(frames, CutAll(rest)) == all
  }

  lemma CutsOne(rx: Receiver, socket: int, frames: seq<seq<byte>>, rest: seq<byte>, all: Cut, start: seq<Action>,
                q: seq<Action>)
    requires Cutting(rx, socket, frames, rest, all, start, q) && LookAhead(rest).Frame?
    ensures var frame := rest[..LookAhead(rest).len];
            Cutting(rx, socket, frames + [frame], rest[|frame|..], all, start, q + [Action(socket, rx.got(frame))])
  {
    OneMoreFrame(rx.got, socket, frames, rest[..LookAhead(rest).len]);
    CutFront(rest, frames);
  }

  /** ProcessMessages: cut, parse and enqueue frames until the buffer holds no whole one.  The buffer the
      source takes by reference is an in- and an out-parameter here. */
  method ProcessMessages(rx: Receiver, socket: int, buffer: seq<byte>, queue: SafeQueue<Action>)
    returns (rest: seq<byte>, connected: bool)
    modifies queue
    ensures rest == CutAll(buffer).rest && connected == CutAll(buffer).over.None?
    ensures queue.q == old(queue.q) + Entries(rx, socket, CutAll(buffer))
  {
    rest, connected := buffer, true;
    ghost var frames: seq<seq<byte>>, all := [], CutAll(buffer);
    assert Prepend([], all) == all;
    while LookAhead(rest).Frame?
      invariant Cutting(rx, socket, frames, rest, all, old(queue.q), queue.q)
      decreases |rest|
    {
      var frame := rest[..LookAhead(rest).len];
      CutsOne(rx, socket, frames, rest, all, old(queue.q), queue.q);
      queue.Enqueue(Action(socket, rx.got(frame)));
      rest := rest[|frame|..];
      frames := frames + [frame];
    }
    EntriesAtEnd(rx, socket, frames, rest, all);
    if LookAhead(rest).Oversize? {
      queue.Enqueue(Action(socket, rx.oversize(LookAhead(rest).payload)));
      rest, connected := [], false;
    }
  }

  method TakeChunk(rx: Receiver, socket: int, ghost c: Cut, buffer: seq<byte>, chunk: seq<byte>,
                   queue: SafeQueue<Action>, ghost start: seq<Action>)
    returns (rest: seq<byte>, connected: bool)
    requires c.over.None? && buffer == c.rest && queue.q == start + Entries(rx, socket, c)
    modifies queue
    ensures rest == Feed(c, chunk).rest && connected == Feed(c, chunk).over.None?
    ensures queue.q == start + Entries(rx, socket, Feed(c, chunk))
  {
    EntriesAppend(rx, socket, c, CutAll(buffer + chunk));
    rest, connected := ProcessMessages(rx, socket, buffer + chunk, queue);
  }

  /** threadReceiver: whatever the chunks, the queue receives the entries of the bytes that arrived. */
  method ThreadReceiver(rx: Receiver, socket: int, recvs: seq<Recv>, queue: SafeQueue<Action>)
    modifies queue
    ensures queue.q == old(queue.q) + Entries(rx, socket, CutAll(Flatten(Arrived(recvs))))
  {
    var buffer: seq<byte>, connected, i, open := [], true, 0, true;
    ghost var c := FRESH;
    ChunkIndependence(Arrived(recvs));
    while i < |recvs| && connected && open
      invariant 0 <= i <= |recvs| && buffer == c.rest && connected == c.over.None?
      invariant FeedAll(c, if open then Arrived(recvs[i..]) else []) == FeedAll(FRESH, Arrived(recvs))
      invariant queue.q == old(queue.q) + Entries(rx, socket, c)
      decreases |recvs| - i, open
    {
      ArrivedNext(recvs, i);
      if recvs[i].RecvFailed? || recvs[i].bytes == [] {
        open := false;
      } else {
        buffer, connected := TakeChunk(rx, socket, c, buffer, recvs[i].bytes, queue, old(queue.q));
        c := Feed(c, recvs[i].bytes);
        i := i + 1;
      }
    }
    if !connected {
      FeedClosed(c, if open then Arrived(recvs[i..]) else []);
    }
  }

  lemma ArrivedNext(recvs: seq<Recv>, i: nat)
    requires i < |recvs|
    ensures Arrived(recvs[i..]) ==
            if recvs[i].RecvFailed? || recvs[i].bytes == [] then [] else [recvs[i].bytes] + Arrived(recvs[i + 1..])
  {
    assert recvs[i..][1..] == recvs[i + 1..];
  }

  lemma {:induction false} FeedClosed(c: Cut, chunks: seq<seq<byte>>)
    requires c.over.Some?
    ensures FeedAll(c, chunks) == c
    decreases |chunks|
  {
    if chunks != [] {
      FeedClosed(c, chunks[1..]);
    }
  }
}
