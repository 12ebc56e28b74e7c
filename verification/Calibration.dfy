/** The float words of the ADC calibration items (DataItems/ADC_.cpp), as 32-bit words: a row of words, and
    scales and offsets one after the other. */
module Calibration {
  import opened Bytes

  // The whole words of a byte string.
  function Words(b: seq<byte>): (ws: seq<u32>)
    ensures |ws| == |b| / 4
  {
    if |b| < 4 then [] else [U32(b, 0)] + Words(b[4..])
  }

  function WordBytes(ws: seq<u32>): (b: seq<byte>)
    ensures |b| == 4 * |ws|
  {
    if ws == [] then [] else LE32(ws[0]) + WordBytes(ws[1..])
  }

  /** Words survive their bytes. */
  lemma {:induction false} WordsReadBack(ws: seq<u32>)
    ensures Words(WordBytes(ws)) == ws
  {
    if ws != [] {
      var rest := WordBytes(ws[1..]);
      assert LE32(ws[0]) + rest == [] + LE32(ws[0]) + rest;
      ReadBack32(ws[0], [], rest);
      WordsReadBack(ws[1..]);
      assert (LE32(ws[0]) + rest)[4..] == rest;
    }
  }

  /** And bytes survive being read as words, when there is no part of a word left over. */
  lemma {:induction false} WordsWriteBack(b: seq<byte>)
    requires |b| % 4 == 0
    ensures WordBytes(Words(b)) == b
  {
    if b != [] {
      WriteBack32(b, 0);
      WordsWriteBack(b[4..]);
      assert b == b[0..4] + b[4..];
    }
  }

  lemma {:induction false} WordAt(b: seq<byte>, i: nat)
    requires 4 * i + 4 <= |b|
    ensures Words(b)[i] == U32(b, 4 * i)
  {
    if i > 0 {
      WordAt(b[4..], i - 1);
    }
  }

  // ---------------------------------------------------------------- scales and offsets in turn

  // scale, offset, scale, offset, ...
  function Interleave(scales: seq<u32>, offsets: seq<u32>): (ws: seq<u32>)
    requires |scales| == |offsets|
    ensures |ws| == 2 * |scales|
  {
    if scales == [] then [] else [scales[0], offsets[0]] + Interleave(scales[1..], offsets[1..])
  }

  // Every second word, from the first on.
  function EverySecond(ws: seq<u32>): (s: seq<u32>)
    ensures |s| == (|ws| + 1) / 2
  {
    if ws == [] then [] else if |ws| == 1 then ws else [ws[0]] + EverySecond(ws[2..])
  }

  function ScalesOf(ws: seq<u32>): seq<u32> {
    EverySecond(ws)
  }

  function OffsetsOf(ws: seq<u32>): seq<u32> {
    if ws == [] then [] else EverySecond(ws[1..])
  }

  lemma {:induction false} EverySecondAt(ws: seq<u32>, i: nat)
    requires 2 * i < |ws|
    ensures EverySecond(ws)[i] == ws[2 * i]
  {
    if i > 0 {
      EverySecondAt(ws[2..], i - 1);
    }
  }

  lemma {:induction false} InterleaveAt(scales: seq<u32>, offsets: seq<u32>, i: nat)
    requires |scales| == |offsets| && i < |scales|
    ensures Interleave(scales, offsets)[2 * i] == scales[i] && Interleave(scales, offsets)[2 * i + 1] == offsets[i]
  {
    if i > 0 {
      InterleaveAt(scales[1..], offsets[1..], i - 1);
    }
  }

  /** Taking apart what was put together gives the two rows back. */
  lemma SplitInterleaved(scales: seq<u32>, offsets: seq<u32>)
    requires |scales| == |offsets|
    ensures ScalesOf(Interleave(scales, offsets)) == scales && OffsetsOf(Interleave(scales, offsets)) == offsets
  {
    var ws := Interleave(scales, offsets);
    forall i | 0 <= i < |scales| ensures ScalesOf(ws)[i] == scales[i] && OffsetsOf(ws)[i] == offsets[i] {
      InterleaveAt(scales, offsets, i);
      EverySecondAt(ws, i);
      EverySecondAt(ws[1..], i);
    }
  }

  /** And putting together what was taken apart gives the words back. */
  lemma InterleaveSplit(ws: seq<u32>)
    requires |ws| % 2 == 0
    ensures |ScalesOf(ws)| == |OffsetsOf(ws)| && Interleave(ScalesOf(ws), OffsetsOf(ws)) == ws
  {
    var s, o := ScalesOf(ws), OffsetsOf(ws);
    var back := Interleave(s, o);
    forall k | 0 <= k < |ws| ensures back[k] == ws[k] {
      var i := k / 2;
      InterleaveAt(s, o, i);
      EverySecondAt(ws, i);
      EverySecondAt(ws[1..], i);
    }
  }

  // ---------------------------------------------------------------- the loops of the constructors and calcPayload

  /** The constructor loop of TADC_ScaleAll and TADC_OffsetAll. */
  method ReadRow(data: seq<byte>) returns (row: seq<u32>)
    requires |data| >= 32
    ensures row == Words(data[..32])
  {
    row := [];
    for i := 0 to 8
      invariant |row| == i
      invariant forall k :: 0 <= k < i ==> row[k] == U32(data, 4 * k)
    {
      row := row + [U32(data, 4 * i)];
    }
    forall k | 0 <= k < 8 ensures row[k] == Words(data[..32])[k] {
      WordAt(data[..32], k);
    }
  }

  /** Their calcPayload loop, four bytes a word. */
  method WriteRow(row: seq<u32>) returns (bytes: seq<byte>)
    ensures bytes == WordBytes(row)
  {
    bytes := [];
    for i := 0 to |row|
      invariant bytes + WordBytes(row[i..]) == WordBytes(row)
    {
      assert row[i..][1..] == row[i + 1..];
      assert bytes + (LE32(row[i]) + WordBytes(row[i + 1..])) == bytes + LE32(row[i]) + WordBytes(row[i + 1..]);
      bytes := bytes + LE32(row[i]);
    }
    assert WordBytes(row[|row|..]) == [];
  }

  /** The constructor loop of TADC_CalibrationAll: scales at even words, offsets at odd ones. */
  method ReadPairs(data: seq<byte>) returns (scales: seq<u32>, offsets: seq<u32>)
    requires |data| >= 64
    ensures scales == ScalesOf(Words(data[..64])) && offsets == OffsetsOf(Words(data[..64]))
  {
    scales, offsets := [], [];
    for i := 0 to 8
      invariant |scales| == |offsets| == i
      invariant forall k :: 0 <= k < i ==> scales[k] == U32(data, 8 * k) && offsets[k] == U32(data, 8 * k + 4)
    {
      scales, offsets := scales + [U32(data, 8 * i)], offsets + [U32(data, 8 * i + 4)];
    }
    var b := data[..64];
    forall k | 0 <= k < 8 ensures scales[k] == ScalesOf(Words(b))[k] && offsets[k] == OffsetsOf(Words(b))[k] {
      WordAt(b, 2 * k);
      WordAt(b, 2 * k + 1);
      EverySecondAt(Words(b), k);
      EverySecondAt(Words(b)[1..], k);
    }
  }

  /** Its calcPayload loop. */
  method WritePairs(scales: seq<u32>, offsets: seq<u32>) returns (bytes: seq<byte>)
    requires |scales| == |offsets|
    ensures bytes == WordBytes(Interleave(scales, offsets))
  {
    bytes := [];
    for i := 0 to |scales|
      invariant bytes + WordBytes(Interleave(scales[i..], offsets[i..])) == WordBytes(Interleave(scales, offsets))
    {
      OnePair(scales[i..], offsets[i..]);
      assert scales[i..][1..] == scales[i + 1..] && offsets[i..][1..] == offsets[i + 1..];
      var pair := LE32(scales[i]) + LE32(offsets[i]);
      ghost var rest := WordBytes(Interleave(scales[i + 1..], offsets[i + 1..]));
      assert bytes + (pair + rest) == bytes + pair + rest;
      bytes := bytes + pair;
    }
    assert WordBytes(Interleave(scales[|scales|..], offsets[|scales|..])) == [];
  }

  lemma OnePair(scales: seq<u32>, offsets: seq<u32>)
    requires |scales| == |offsets| && scales != []
    ensures WordBytes(Interleave(scales, offsets)) ==
            LE32(scales[0]) + LE32(offsets[0]) + WordBytes(Interleave(scales[1..], offsets[1..]))
  {
    var ws, rest := Interleave(scales, offsets), Interleave(scales[1..], offsets[1..]);
    assert ws[1..] == [offsets[0]] + rest && ws[1..][1..] == rest;
  }
}
