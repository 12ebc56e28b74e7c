/** Bytes and the little-endian fields of the protocol. */
module Bytes {

  type byte = x: int | 0 <= x < 0x100
  type u16 = x: int | 0 <= x < 0x1_0000
  type u32 = x: int | 0 <= x < 0x1_0000_0000

  // WriteU16LE / stuff<__u16>
  function LE16(v: u16): (s: seq<byte>)
    ensures |s| == 2
  {
    [v % 0x100, v / 0x100]
  }

  // WriteU32LE / stuff<__u32>
  function LE32(v: u32): (s: seq<byte>)
    ensures |s| == 4
  {
    LE16(v % 0x1_0000) + LE16(v / 0x1_0000)
  }

  // ReadU16LE: bytes beyond the end read as zero.
  function U16(b: seq<byte>, ofs: nat): u16 {
    if ofs + 2 > |b| then 0
    else
      var lo: int, hi: int := b[ofs], b[ofs + 1];
      lo + 0x100 * hi
  }

  // ReadU32LE
  function U32(b: seq<byte>, ofs: nat): u32 {
    if ofs + 4 > |b| then 0
    else
      var lo: int, hi: int := U16(b, ofs), U16(b, ofs + 2);
      lo + 0x1_0000 * hi
  }

  lemma ReadBack16(v: u16, pre: seq<byte>, post: seq<byte>)
    ensures U16(pre + LE16(v) + post, |pre|) == v
  {
    var s := pre + LE16(v) + post;
    assert s[|pre|] == LE16(v)[0] && s[|pre| + 1] == LE16(v)[1];
  }

  lemma ReadBack32(v: u32, pre: seq<byte>, post: seq<byte>)
    ensures U32(pre + LE32(v) + post, |pre|) == v
  {
    var s := pre + LE32(v) + post;
    assert s == pre + LE16(v % 0x1_0000) + (LE16(v / 0x1_0000) + post);
    assert s == (pre + LE16(v % 0x1_0000)) + LE16(v / 0x1_0000) + post;
    ReadBack16(v % 0x1_0000, pre, LE16(v / 0x1_0000) + post);
    ReadBack16(v / 0x1_0000, pre + LE16(v % 0x1_0000), post);
  }

  lemma WriteBack16(b: seq<byte>, ofs: nat)
    requires ofs + 2 <= |b|
    ensures LE16(U16(b, ofs)) == b[ofs..ofs + 2]
  {
  }

  lemma WriteBack32(b: seq<byte>, ofs: nat)
    requires ofs + 4 <= |b|
    ensures LE32(U32(b, ofs)) == b[ofs..ofs + 4]
  {
    WriteBack16(b, ofs);
    WriteBack16(b, ofs + 2);
    assert b[ofs..ofs + 4] == b[ofs..ofs + 2] + b[ofs + 2..ofs + 4];
  }

  // The k low bytes of v, lowest first.
  function LE(v: nat, k: nat): (s: seq<byte>)
    ensures |s| == k
  {
    if k == 0 then [] else [v % 0x100] + LE(v / 0x100, k - 1)
  }

  lemma TwoBytes(v: u16)
    ensures LE(v, 2) == LE16(v)
  {
    assert LE(v / 0x100, 1) == [v / 0x100 % 0x100] + LE(v / 0x100 / 0x100, 0);
  }

  lemma FourBytes(v: u32)
    ensures LE(v, 4) == LE32(v)
  {
    var lo, hi := v % 0x1_0000, v / 0x1_0000;
    TwoBytes(hi);
    assert LE(v, 4) == [v % 0x100] + LE(v / 0x100, 3);
    assert LE(v / 0x100, 3) == [v / 0x100 % 0x100] + LE(hi, 2);
    assert lo % 0x100 == v % 0x100 && lo / 0x100 == v / 0x100 % 0x100;
  }

  /** `stuff<T>` and `appendLengthBytes`: append the low byte and shift, sizeof(T) times. */
  method Stuff(buf: seq<byte>, v: nat, size: nat) returns (bytes: seq<byte>)
    ensures bytes == buf + LE(v, size)
  {
    bytes := buf;
    var value := v;
    for i := 0 to size
      invariant bytes + LE(value, size - i) == buf + LE(v, size)
    {
      assert LE(value, size - i) == [value % 0x100] + LE(value / 0x100, size - i - 1);
      bytes := bytes + [value % 0x100];
      value := value / 0x100;
    }
  }
}
