/** Reducing one ADC scan to one word per channel (DataItems/ADC_.cpp): the one-pass accumulator against the
    block-per-channel average of the same file. */
module AdcScan {
  import opened Bytes

  // A FIFO word: bit 31 marks an empty read, bits 26 to 20 are the channel, bits 15 to 0 the counts.
  const SENTINEL: u32 := 0x8000_0000

  predicate IsValid(v: u32) {
    v < 0x8000_0000
  }

  function CountsOf(v: u32): u16 {
    v % 0x1_0000
  }

  // The upper sixteen bits.
  function MetaOf(v: u32): u32 {
    v / 0x1_0000 * 0x1_0000
  }

  function ChannelOf(v: u32): byte {
    v / 0x10_0000 % 0x80
  }

  // `meta | counts`, where the low half of `meta` is clear.
  function Join(meta: u32, counts: u16): (v: u32)
    requires meta % 0x1_0000 == 0
  {
    var w: int := meta as int + counts as int;
    w
  }

  /** The fields of a FIFO word: the empty mark, four bits not looked at, the channel, four more bits, and the
      counts.  Each function reads its own field, whatever the others hold. */
  lemma FieldsOfWord(empty: bool, high: nat, ch: nat, low: nat, counts: u16)
    requires high < 16 && ch < 128 && low < 16
    ensures var v := (if empty then 0x8000_0000 else 0) + 0x800_0000 * high + 0x10_0000 * ch + 0x1_0000 * low + counts;
            0 <= v < 0x1_0000_0000 && IsValid(v) == !empty && ChannelOf(v) == ch && CountsOf(v) == counts &&
            MetaOf(v) == v - counts
  {
    var top := (if empty then 0x800 else 0) + 0x80 * high;
    var upper := 0x10 * (top + ch) + low;
    var v := 0x1_0000 * upper + counts;
    assert v / 0x1_0000 == upper && v / 0x10_0000 == top + ch;
  }

  datatype Config = Config(start: byte, end: byte, oversamples: byte)

  function Channels(c: Config): nat {
    if c.end >= c.start then c.end - c.start + 1 else 0
  }

  function PerChannel(c: Config): nat {
    var n: int := c.oversamples;
    n + 1
  }

  datatype Acc = Acc(meta: u32, sum: nat, seen: nat, included: nat, first: u16, firstSet: bool)

  const EMPTY := Acc(SENTINEL, 0, 0, 0, 0, false)

  // ---------------------------------------------------------------- the accumulator, as written

  // What one sample does to the accumulator of its channel.
  function Take(c: Config, a: Acc, v: u32): Acc {
    if a.seen >= PerChannel(c) then a
    else
      var a := if a.meta == SENTINEL then a.(meta := MetaOf(v)) else a;
      if c.oversamples == 0 then a.(first := CountsOf(v), firstSet := true, seen := PerChannel(c))
      else if c.oversamples == 1 || a.seen != 0 then
        a.(sum := a.sum + CountsOf(v), included := a.included + 1, seen := a.seen + 1)
      else a.(seen := a.seen + 1)
  }

  // FinalizeAvgCounts
  function Finalize(c: Config, a: Acc): u16 {
    if c.oversamples == 0 then (if a.firstSet then a.first else 0)
    else if a.included == 0 then 0
    else (a.sum + a.included / 2) / a.included % 0x1_0000
  }

  // The word ADC_ReduceRawToRawPerChannel makes of an accumulator.
  function OutputWord(c: Config, a: Acc): u32
    requires a.meta % 0x1_0000 == 0
  {
    if a.meta == SENTINEL then SENTINEL else Join(a.meta, Finalize(c, a))
  }

  // Which accumulator a word goes to.
  predicate Hits(c: Config, v: u32, i: nat) {
    IsValid(v) && ChannelOf(v) == c.start + i
  }

  /** AccumulateByChannel: one pass over the words, each going to the accumulator of its channel. */
  method AccumulateByChannel(raw: seq<u32>, c: Config) returns (acc: seq<Acc>)
    ensures |acc| == Channels(c)
    ensures forall i :: 0 <= i < |acc| ==> acc[i] == Fold(c, Samples(raw, c.start + i))
  {
    acc := seq(Channels(c), _ => EMPTY);
    for k := 0 to |raw|
      invariant |acc| == Channels(c)
      invariant forall i :: 0 <= i < |acc| ==> acc[i] == Fold(c, Samples(raw[..k], c.start + i))
    {
      var v := raw[k];
      if IsValid(v) && c.start <= ChannelOf(v) <= c.end {
        var idx := ChannelOf(v) - c.start;
        acc := acc[idx := Take(c, acc[idx], v)];
      }
      forall i | 0 <= i < |acc| ensures acc[i] == Fold(c, Samples(raw[..k + 1], c.start + i)) {
        OneMoreWord(raw, k, c, i);
      }
    }
    assert raw[..|raw|] == raw;
  }

  /** ADC_ReduceRawToRawPerChannel */
  method ReduceRawToRawPerChannel(raw: seq<u32>, c: Config) returns (words: seq<u32>)
    ensures words == Reduce(raw, c)
  {
    var acc := AccumulateByChannel(raw, c);
    words := [];
    for i := 0 to |acc|
      invariant |words| == i
      invariant forall k :: 0 <= k < i ==> words[k] == Reduced(c, Samples(raw, c.start + k))
    {
      SamplesAreValid(raw, c.start + i);
      ReducedFromAcc(c, Samples(raw, c.start + i));
      words := words + [OutputWord(c, acc[i])];
    }
  }

  /** ADC_ReduceRawToCountsPerChannel */
  method ReduceRawToCountsPerChannel(raw: seq<u32>, c: Config) returns (counts: seq<u16>)
    ensures |counts| == Channels(c)
    ensures forall i :: 0 <= i < |counts| ==> counts[i] == Average(c, Samples(raw, c.start + i))
  {
    var acc := AccumulateByChannel(raw, c);
    counts := [];
    for i := 0 to |acc|
      invariant |counts| == i
      invariant forall k :: 0 <= k < i ==> counts[k] == Average(c, Samples(raw, c.start + k))
    {
      SamplesAreValid(raw, c.start + i);
      FinalizeIsAverage(c, Samples(raw, c.start + i));
      counts := counts + [Finalize(c, acc[i])];
    }
  }

  // ---------------------------------------------------------------- what it computes

  // The valid words of one channel, in order.
  function Samples(raw: seq<u32>, ch: int): seq<u32> {
    if raw == [] then []
    else
      var v := raw[|raw| - 1];
      Samples(raw[..|raw| - 1], ch) + if IsValid(v) && ChannelOf(v) == ch then [v] else []
  }

  function Fold(c: Config, s: seq<u32>): Acc {
    if s == [] then EMPTY else Take(c, Fold(c, s[..|s| - 1]), s[|s| - 1])
  }

  // One more word changes the accumulator of its channel and no other.
  lemma OneMoreWord(raw: seq<u32>, k: nat, c: Config, i: nat)
    requires k < |raw|
    ensures var a := Fold(c, Samples(raw[..k], c.start + i));
            Fold(c, Samples(raw[..k + 1], c.start + i)) == if Hits(c, raw[k], i) then Take(c, a, raw[k]) else a
  {
    var s := Samples(raw[..k], c.start + i);
    assert raw[..k + 1][..k] == raw[..k];
    assert (s + [raw[k]])[..|s|] == s && s + [] == s;
  }

  function SumCounts(s: seq<u32>): nat {
    if s == [] then 0 else (var last: int := CountsOf(s[|s| - 1]); SumCounts(s[..|s| - 1]) + last)
  }

  function Min(a: nat, b: nat): nat {
    if a <= b then a else b
  }

  // The samples of a channel that count: the first alone, both, or all but the first, of at most perChannel.
  function Included(c: Config, s: seq<u32>): seq<u32> {
    var k := Min(|s|, PerChannel(c));
    if c.oversamples <= 1 then s[..k] else if k == 0 then [] else s[1..k]
  }

  // Their average, to the nearest count.
  function Rounded(t: seq<u32>): nat {
    if t == [] then 0 else (SumCounts(t) + |t| / 2) / |t|
  }

  function Average(c: Config, s: seq<u32>): u16 {
    AverageIsCount(Included(c, s), 0, 0xFFFF);
    Rounded(Included(c, s))
  }

  // One output word.
  function Reduced(c: Config, s: seq<u32>): u32 {
    if s == [] then SENTINEL else Join(MetaOf(s[0]), Average(c, s))
  }

  function Reduce(raw: seq<u32>, c: Config): (words: seq<u32>)
    ensures |words| == Channels(c)
  {
    seq<u32>(Channels(c), i requires 0 <= i < Channels(c) => Reduced(c, Samples(raw, c.start + i)))
  }

  lemma {:induction false} SamplesOfChannel(raw: seq<u32>, ch: int, k: nat)
    requires k < |Samples(raw, ch)|
    ensures IsValid(Samples(raw, ch)[k]) && ChannelOf(Samples(raw, ch)[k]) == ch
  {
    var front := raw[..|raw| - 1];
    if k < |Samples(front, ch)| {
      SamplesOfChannel(front, ch, k);
    }
  }

  predicate AllValid(s: seq<u32>) {
    forall k :: 0 <= k < |s| ==> IsValid(s[k])
  }

  lemma SamplesAreValid(raw: seq<u32>, ch: int)
    ensures AllValid(Samples(raw, ch))
    ensures Samples(raw, ch) != [] ==> MetaOf(Samples(raw, ch)[0]) != SENTINEL
  {
    forall k | 0 <= k < |Samples(raw, ch)| ensures IsValid(Samples(raw, ch)[k]) {
      SamplesOfChannel(raw, ch, k);
    }
  }

  lemma {:induction false} SeenAndMeta(c: Config, s: seq<u32>)
    requires AllValid(s)
    ensures Fold(c, s).seen == Min(|s|, PerChannel(c))
    ensures Fold(c, s).meta == if s == [] then SENTINEL else MetaOf(s[0])
  {
    if s != [] {
      SeenAndMeta(c, s[..|s| - 1]);
    }
  }

  lemma {:induction false} FirstKept(c: Config, s: seq<u32>)
    requires AllValid(s) && c.oversamples == 0
    ensures Fold(c, s).firstSet == (s != []) && (s != [] ==> Fold(c, s).first == CountsOf(s[0]))
  {
    if s != [] {
      SeenAndMeta(c, s[..|s| - 1]);
      FirstKept(c, s[..|s| - 1]);
    }
  }

  // One more sample is one more included, unless enough were seen or it is the one to drop.
  lemma IncludedGrows(c: Config, front: seq<u32>, v: u32)
    requires c.oversamples != 0
    ensures Included(c, front + [v]) ==
            Included(c, front) +
            if |front| < PerChannel(c) && (c.oversamples == 1 || front != []) then [v] else []
  {
  }

  lemma SumSnoc(t: seq<u32>, v: u32)
    ensures SumCounts(t + [v]) == SumCounts(t) + CountsOf(v) && t + [] == t
  {
    assert (t + [v])[..|t|] == t;
  }

  lemma {:induction false} IncludedSummed(c: Config, s: seq<u32>)
    requires AllValid(s) && c.oversamples != 0
    ensures Fold(c, s).included == |Included(c, s)| && Fold(c, s).sum == SumCounts(Included(c, s))
  {
    if s != [] {
      var front, v := s[..|s| - 1], s[|s| - 1];
      assert s == front + [v];
      SeenAndMeta(c, front);
      IncludedSummed(c, front);
      IncludedGrows(c, front, v);
      SumSnoc(Included(c, front), v);
    }
  }

  lemma LoneCount(v: u32)
    ensures SumCounts([v]) == CountsOf(v) && Rounded([v]) == CountsOf(v)
  {
    assert SumCounts([v]) == SumCounts([]) + CountsOf(v);
  }

  lemma FinalizeIsAverage(c: Config, s: seq<u32>)
    requires AllValid(s)
    ensures Finalize(c, Fold(c, s)) == Average(c, s)
  {
    AverageIsCount(Included(c, s), 0, 0xFFFF);
    if c.oversamples == 0 {
      FirstKept(c, s);
      if s != [] {
        assert Included(c, s) == [s[0]];
        LoneCount(s[0]);
      }
    } else {
      IncludedSummed(c, s);
      assert Included(c, s) != [] ==> Finalize(c, Fold(c, s)) == Rounded(Included(c, s)) % 0x1_0000;
    }
  }

  lemma ReducedFromAcc(c: Config, s: seq<u32>)
    requires AllValid(s) && (s != [] ==> MetaOf(s[0]) != SENTINEL)
    ensures Fold(c, s).meta % 0x1_0000 == 0 && OutputWord(c, Fold(c, s)) == Reduced(c, s)
  {
    SeenAndMeta(c, s);
    FinalizeIsAverage(c, s);
  }

  // ---------------------------------------------------------------- the average

  lemma {:induction false} SumBounds(t: seq<u32>, lo: nat, hi: nat)
    requires forall k :: 0 <= k < |t| ==> lo <= CountsOf(t[k]) <= hi
    ensures |t| * lo <= SumCounts(t) <= |t| * hi
  {
    if t != [] {
      var front := t[..|t| - 1];
      SumBounds(front, lo, hi);
      assert |t| * lo == |front| * lo + lo && |t| * hi == |front| * hi + hi;
    }
  }

  lemma Nearest(sum: int, n: int)
    requires 0 <= sum && 0 < n
    ensures var q := (sum + n / 2) / n; 2 * (q * n - sum) <= n && 2 * (sum - q * n) <= n
  {
    var q := (sum + n / 2) / n;
    assert q * n <= sum + n / 2 < q * n + n;
  }

  lemma QuotientBetween(sum: int, n: int, lo: int, hi: int)
    requires 0 < n && 0 <= lo <= hi && n * lo <= sum <= n * hi
    ensures lo <= (sum + n / 2) / n <= hi
  {
    var q := (sum + n / 2) / n;
    assert q * n <= sum + n / 2 < q * n + n;
    if q < lo {
      Multiples(q + 1, lo, n);
    } else if q > hi {
      Multiples(hi + 1, q, n);
    }
  }

  lemma Multiples(a: int, b: int, n: int)
    requires a <= b && 0 < n
    ensures a * n <= b * n
  {
  }

  /** The average of the included samples lies between the least and the greatest of them, is within half a
      count of the true mean, and so never needs its sixteen-bit mask. */
  lemma AverageIsCount(t: seq<u32>, lo: nat, hi: nat)
    requires lo <= hi <= 0xFFFF && forall k :: 0 <= k < |t| ==> lo <= CountsOf(t[k]) <= hi
    ensures t != [] ==> lo <= Rounded(t) <= hi && Rounded(t) % 0x1_0000 == Rounded(t)
    ensures t != [] ==> 2 * (Rounded(t) * |t| - SumCounts(t)) <= |t| && 2 * (SumCounts(t) - Rounded(t) * |t|) <= |t|
  {
    if t != [] {
      SumBounds(t, lo, hi);
      QuotientBetween(SumCounts(t), |t|, lo, hi);
      Nearest(SumCounts(t), |t|);
    }
  }

  // ---------------------------------------------------------------- the slow form

  // The block of `per` samples of one channel, averaged by the policy.
  function BlockAverage(block: seq<u32>, oversamples: byte): nat
    requires |block| == oversamples as int + 1
  {
    if oversamples == 0 then CountsOf(block[0])
    else if oversamples == 1 then (var sum: int := CountsOf(block[0]) as int + CountsOf(block[1]) as int; (sum + 1) / 2)
    else (SumCounts(block[1..]) + (|block| - 1) / 2) / (|block| - 1)
  }

  /** ADC_AverageCountsForChannel, with its loop over the block. */
  method AverageCountsForChannel(raw: seq<u32>, base: nat, per: nat, oversamples: byte) returns (counts: u16)
    requires per == oversamples as int + 1 && base + per <= |raw|
    ensures counts == BlockAverage(raw[base..base + per], oversamples)
  {
    ghost var block := raw[base..base + per];
    if oversamples == 0 {
      counts := CountsOf(raw[base]);
    } else if oversamples == 1 {
      var sum: int := CountsOf(raw[base]) as int + CountsOf(raw[base + 1]) as int;
      counts := (sum + 1) / 2 % 0x1_0000;
    } else {
      var sum: nat, n := 0, 0;
      for k := 1 to per
        invariant n == k - 1
        invariant sum == SumCounts(block[1..k])
      {
        assert block[1..k + 1] == block[1..k] + [raw[base + k]];
        SumSnoc(block[1..k], raw[base + k]);
        var count: int := CountsOf(raw[base + k]);
        sum, n := sum + count, n + 1;
      }
      assert block[1..per] == block[1..];
      AverageIsCount(block[1..], 0, 0xFFFF);
      counts := (sum + n / 2) / n % 0x1_0000;
    }
  }

  lemma AverageOfBlock(c: Config, s: seq<u32>)
    requires |s| >= PerChannel(c)
    ensures Average(c, s) == BlockAverage(s[..PerChannel(c)], c.oversamples)
  {
    var block := s[..PerChannel(c)];
    if c.oversamples == 0 {
      assert Included(c, s) == [s[0]];
      LoneCount(s[0]);
    } else if c.oversamples == 1 {
      assert Included(c, s) == [s[0], s[1]];
      TwoCounts(s[0], s[1]);
    } else {
      assert Included(c, s) == block[1..];
    }
  }

  lemma TwoCounts(v: u32, w: u32)
    ensures SumCounts([v, w]) == CountsOf(v) as int + CountsOf(w) as int
  {
    assert [v, w][..1] == [v];
    LoneCount(v);
  }

  /** Refinement: whatever the interleaving, a channel with enough valid samples gets the average the
      block-per-channel form computes on that channel's own first samples, for every oversample policy. */
  lemma OnePassRefinesBlocks(raw: seq<u32>, c: Config, i: nat)
    requires i < Channels(c) && |Samples(raw, c.start + i)| >= PerChannel(c)
    ensures Finalize(c, Fold(c, Samples(raw, c.start + i))) ==
            BlockAverage(Samples(raw, c.start + i)[..PerChannel(c)], c.oversamples)
  {
    SamplesAreValid(raw, c.start + i);
    FinalizeIsAverage(c, Samples(raw, c.start + i));
    AverageOfBlock(c, Samples(raw, c.start + i));
  }

  // ---------------------------------------------------------------- only a channel's own order matters

  // The samples that can matter for channel start + i.
  function Heard(raw: seq<u32>, c: Config, i: nat): seq<u32> {
    var s := Samples(raw, c.start + i);
    s[..Min(|s|, PerChannel(c))]
  }

  /** The output depends on nothing but each channel's own first samples, in their own order. */
  lemma OnlyOwnSamplesMatter(a: seq<u32>, b: seq<u32>, c: Config)
    requires forall i :: 0 <= i < Channels(c) ==> Heard(a, c, i) == Heard(b, c, i)
    ensures Reduce(a, c) == Reduce(b, c)
  {
    forall i | 0 <= i < Channels(c) ensures Reduce(a, c)[i] == Reduce(b, c)[i] {
      var s, t := Samples(a, c.start + i), Samples(b, c.start + i);
      assert Heard(a, c, i) == Heard(b, c, i);
      SameHeard(c, s, t);
    }
  }

  lemma SameHeard(c: Config, s: seq<u32>, t: seq<u32>)
    requires s[..Min(|s|, PerChannel(c))] == t[..Min(|t|, PerChannel(c))]
    ensures Reduced(c, s) == Reduced(c, t)
  {
    var h, k := s[..Min(|s|, PerChannel(c))], Min(|s|, PerChannel(c));
    assert |h| == k == Min(|t|, PerChannel(c));
    assert s != [] ==> h[0] == s[0];
    assert t != [] ==> h[0] == t[0];
    assert k > 0 ==> s[1..k] == h[1..] == t[1..k];
    assert Included(c, s) == Included(c, t);
  }

  lemma {:induction false} SamplesAppend(a: seq<u32>, b: seq<u32>, ch: int)
    ensures Samples(a + b, ch) == Samples(a, ch) + Samples(b, ch)
  {
    if b == [] {
      assert a + b == a;
    } else {
      assert (a + b)[..|a + b| - 1] == a + b[..|b| - 1];
      SamplesAppend(a, b[..|b| - 1], ch);
    }
  }

  lemma PairSamples(a: seq<u32>, v: u32, w: u32, b: seq<u32>, ch: int)
    ensures Samples(a + [v, w] + b, ch) == Samples(a, ch) + (Samples([v], ch) + Samples([w], ch)) + Samples(b, ch)
  {
    SamplesAppend(a + [v, w], b, ch);
    SamplesAppend(a, [v, w], ch);
    SamplesAppend([v], [w], ch);
    assert [v] + [w] == [v, w];
  }

  /** Words of two different channels may change places. */
  lemma SwapAcrossChannels(a: seq<u32>, v: u32, w: u32, b: seq<u32>, c: Config)
    requires ChannelOf(v) != ChannelOf(w)
    ensures Reduce(a + [v, w] + b, c) == Reduce(a + [w, v] + b, c)
  {
    forall i | 0 <= i < Channels(c) ensures Heard(a + [v, w] + b, c, i) == Heard(a + [w, v] + b, c, i) {
      var ch := c.start + i;
      PairSamples(a, v, w, b, ch);
      PairSamples(a, w, v, b, ch);
      assert Samples([v], ch) == [] || Samples([w], ch) == [];
      assert Samples([v], ch) + Samples([w], ch) == Samples([w], ch) + Samples([v], ch);
    }
    OnlyOwnSamplesMatter(a + [v, w] + b, a + [w, v] + b, c);
  }

  lemma InsertedSample(a: seq<u32>, v: u32, b: seq<u32>, ch: int)
    ensures Samples(a + [v] + b, ch) ==
            if IsValid(v) && ChannelOf(v) == ch then Samples(a, ch) + [v] + Samples(b, ch) else Samples(a + b, ch)
  {
    SamplesAppend(a + [v], b, ch);
    SamplesAppend(a, [v], ch);
    SamplesAppend(a, b, ch);
    assert Samples([v], ch) == Samples([], ch) + if IsValid(v) && ChannelOf(v) == ch then [v] else [];
  }

  lemma LateSampleUnheard(s: seq<u32>, v: u32, t: seq<u32>, c: Config)
    requires |s| >= PerChannel(c)
    ensures var long, short := s + [v] + t, s + t;
            long[..Min(|long|, PerChannel(c))] == short[..Min(|short|, PerChannel(c))]
  {
  }

  /** An empty read, a channel outside the scan, or a sample its channel no longer needs may be put in anywhere
      (the last: anywhere after the ones it needs). */
  lemma InsertedWordIsIgnored(a: seq<u32>, v: u32, b: seq<u32>, c: Config)
    requires !IsValid(v) || ChannelOf(v) < c.start || ChannelOf(v) > c.end ||
             |Samples(a, ChannelOf(v))| >= PerChannel(c)
    ensures Reduce(a + [v] + b, c) == Reduce(a + b, c)
  {
    forall i | 0 <= i < Channels(c) ensures Heard(a + [v] + b, c, i) == Heard(a + b, c, i) {
      var ch := c.start + i;
      InsertedSample(a, v, b, ch);
      if IsValid(v) && ChannelOf(v) == ch {
        SamplesAppend(a, b, ch);
        LateSampleUnheard(Samples(a, ch), v, Samples(b, ch), c);
      }
    }
    OnlyOwnSamplesMatter(a + [v] + b, a + b, c);
  }

  // ---------------------------------------------------------------- draining the FIFO

  // One look at the FIFO: the words its count announces, or nothing there and whether time has run out.
  datatype Look = Words(ws: seq<u32>) | Empty(expired: bool)

  function ValidOf(ws: seq<u32>): seq<u32> {
    if ws == [] then [] else (if IsValid(ws[0]) then [ws[0]] else []) + ValidOf(ws[1..])
  }

  // The valid words that arrive before time runs out.
  function Delivered(looks: seq<Look>): seq<u32> {
    if looks == [] then []
    else
      match looks[0]
      case Words(ws) => ValidOf(ws) + Delivered(looks[1..])
      case Empty(expired) => if expired then [] else Delivered(looks[1..])
  }

  /** What is kept is valid, and every valid word is kept as often as it occurs. */
  lemma {:induction false} ValidOfKeepsValid(ws: seq<u32>)
    ensures AllValid(ValidOf(ws))
    ensures forall v :: multiset(ValidOf(ws))[v] == if v < 0x8000_0000 then multiset(ws)[v] else 0
    ensures AllValid(ws) ==> ValidOf(ws) == ws
  {
    if ws != [] {
      var head := if IsValid(ws[0]) then [ws[0]] else [];
      ValidOfKeepsValid(ws[1..]);
      assert ws == [ws[0]] + ws[1..] && ValidOf(ws) == head + ValidOf(ws[1..]);
    }
  }

  lemma {:induction false} ValidOfAppend(a: seq<u32>, b: seq<u32>)
    ensures ValidOf(a + b) == ValidOf(a) + ValidOf(b)
  {
    if a == [] {
      assert a + b == b;
    } else {
      assert (a + b)[1..] == a[1..] + b;
      ValidOfAppend(a[1..], b);
    }
  }

  // Every word the FIFO hands out before time runs out, empty reads among them.
  function Handed(looks: seq<Look>): seq<u32> {
    if looks == [] || (looks[0].Empty? && looks[0].expired) then []
    else (if looks[0].Words? then looks[0].ws else []) + Handed(looks[1..])
  }

  /** The words delivered are the valid ones among the words handed out. */
  lemma {:induction false} DeliveredIsValidOfHanded(looks: seq<Look>)
    ensures Delivered(looks) == ValidOf(Handed(looks)) && AllValid(Delivered(looks))
  {
    ValidOfKeepsValid(Handed(looks));
    if looks != [] && !(looks[0].Empty? && looks[0].expired) {
      DeliveredIsValidOfHanded(looks[1..]);
      ValidOfAppend(if looks[0].Words? then looks[0].ws else [], Handed(looks[1..]));
    }
  }

  // The inner loop: words of one look, until enough are kept.
  method KeepValid(raw: seq<u32>, ws: seq<u32>, expected: nat) returns (raw': seq<u32>)
    requires |raw| <= expected
    ensures raw' <= raw + ValidOf(ws) && |raw'| == Min(expected, |raw + ValidOf(ws)|)
  {
    raw' := raw;
    var j := 0;
    assert ws[0..] == ws;
    while j < |ws| && |raw'| < expected
      invariant 0 <= j <= |ws| && |raw'| <= expected
      invariant raw' + ValidOf(ws[j..]) == raw + ValidOf(ws)
    {
      assert ws[j..][1..] == ws[j + 1..];
      if IsValid(ws[j]) {
        assert raw' + ([ws[j]] + ValidOf(ws[j + 1..])) == raw' + [ws[j]] + ValidOf(ws[j + 1..]);
        raw' := raw' + [ws[j]];
      }
      j := j + 1;
    }
  }

  // The outer loop before look k.
  ghost predicate Draining(looks: seq<Look>, k: nat, raw: seq<u32>, expired: bool, expected: nat) {
    k <= |looks| && |raw| <= expected && raw <= Delivered(looks) &&
    (|raw| < expected ==> Delivered(looks) == raw + if expired then [] else Delivered(looks[k..]))
  }

  lemma OneLook(looks: seq<Look>, k: nat, raw: seq<u32>, raw': seq<u32>, expected: nat)
    requires Draining(looks, k, raw, false, expected) && k < |looks| && |raw| < expected
    requires if looks[k].Empty? then raw' == raw
             else raw' <= raw + ValidOf(looks[k].ws) && |raw'| == Min(expected, |raw + ValidOf(looks[k].ws)|)
    ensures Draining(looks, k + 1, raw', looks[k].Empty? && looks[k].expired, expected)
  {
    assert looks[k..][1..] == looks[k + 1..];
    var rest := Delivered(looks[k + 1..]);
    if looks[k].Words? {
      var more := ValidOf(looks[k].ws);
      assert raw + (more + rest) == raw + more + rest;
      assert raw' <= raw + more;
      assert |raw'| < expected ==> raw' == raw + more;
    }
  }

  /** ADC_DrainAdcFifoRaw: the scan is exactly the first valid words delivered, as many as expected; it fails
      only when fewer arrive in time. */
  method DrainFifo(looks: seq<Look>, expected: nat) returns (ok: bool, raw: seq<u32>)
    ensures raw <= Delivered(looks) && |raw| == Min(expected, |Delivered(looks)|)
    ensures ok <==> expected <= |Delivered(looks)|
    ensures AllValid(raw)
  {
    DeliveredIsValidOfHanded(looks);
    raw := [];
    var k, expired := 0, false;
    assert looks[0..] == looks;
    while k < |looks| && |raw| < expected && !expired
      invariant Draining(looks, k, raw, expired, expected)
      decreases |looks| - k
    {
      ghost var before := raw;
      if looks[k].Words? {
        raw := KeepValid(raw, looks[k].ws, expected);
      } else {
        expired := looks[k].expired;
      }
      OneLook(looks, k, before, raw, expected);
      k := k + 1;
    }
    assert !expired && k == |looks| ==> Delivered(looks[k..]) == [];
    ok := |raw| == expected;
    assert forall k :: 0 <= k < |raw| ==> raw[k] == Delivered(looks)[k];
  }

  lemma {:induction false} ValidKeepsSamples(ws: seq<u32>, ch: int)
    ensures Samples(ValidOf(ws), ch) == Samples(ws, ch)
  {
    if ws != [] {
      var head := if IsValid(ws[0]) then [ws[0]] else [];
      ValidKeepsSamples(ws[1..], ch);
      SamplesAppend(head, ValidOf(ws[1..]), ch);
      SamplesAppend([ws[0]], ws[1..], ch);
      assert ws == [ws[0]] + ws[1..];
      assert Samples([ws[0]], ch) == Samples(head, ch);
    }
  }

  /** Throwing the empty reads away while draining changes no output. */
  lemma DiscardingInvalidChangesNothing(ws: seq<u32>, c: Config)
    ensures Reduce(ValidOf(ws), c) == Reduce(ws, c)
  {
    forall i | 0 <= i < Channels(c) ensures Heard(ValidOf(ws), c, i) == Heard(ws, c, i) {
      ValidKeepsSamples(ws, c.start + i);
    }
    OnlyOwnSamplesMatter(ValidOf(ws), ws, c);
  }

  // ---------------------------------------------------------------- the words describe themselves

  lemma JoinParts(v: u32, counts: u16)
    ensures var w := Join(MetaOf(v), counts);
            MetaOf(w) == MetaOf(v) && CountsOf(w) == counts && ChannelOf(w) == ChannelOf(v) && IsValid(w) == IsValid(v)
  {
    var h := v / 0x1_0000;
    var w := Join(MetaOf(v), counts);
    assert w == h * 0x1_0000 + counts && w / 0x1_0000 == h;
    assert v / 0x10_0000 == h / 16 && w / 0x10_0000 == h / 16;
  }

  lemma ReducedDescribesItself(c: Config, s: seq<u32>)
    requires s != []
    ensures var w := Reduced(c, s); IsValid(w) == IsValid(s[0]) && ChannelOf(w) == ChannelOf(s[0]) && CountsOf(w) == Average(c, s)
  {
    JoinParts(s[0], Average(c, s));
  }

  /** Output i is the sentinel exactly when channel start + i had no valid sample; otherwise it is a valid word
      of that channel, carrying the channel's average. */
  lemma WordsDescribeThemselves(raw: seq<u32>, c: Config, i: nat)
    requires i < Channels(c)
    ensures var w, s := Reduce(raw, c)[i], Samples(raw, c.start + i);
            && (w == SENTINEL <==> s == [])
            && (s != [] ==> IsValid(w) && ChannelOf(w) == c.start + i && CountsOf(w) == Average(c, s))
  {
    var s := Samples(raw, c.start + i);
    assert Reduce(raw, c)[i] == Reduced(c, s);
    if s != [] {
      SamplesOfChannel(raw, c.start + i, 0);
      ReducedDescribesItself(c, s);
    }
  }

  // Among words that describe themselves, each channel finds its own.
  lemma {:induction false} SamplesOfReduced(words: seq<u32>, start: byte, i: nat)
    requires forall k :: 0 <= k < |words| ==> words[k] == SENTINEL || (IsValid(words[k]) && ChannelOf(words[k]) == start + k)
    ensures Samples(words, start + i) == if i < |words| && words[i] != SENTINEL then [words[i]] else []
  {
    if words != [] {
      var front := words[..|words| - 1];
      SamplesOfReduced(front, start, i);
      assert words[|words| - 1] == SENTINEL || ChannelOf(words[|words| - 1]) == start + (|words| - 1);
    }
  }

  lemma LoneSample(c: Config, v: u32)
    requires c.oversamples == 0
    ensures Reduced(c, [v]) == v
  {
    assert Included(c, [v]) == [v];
    LoneCount(v);
  }

  lemma ReducedOnce(words: seq<u32>, c: Config, i: nat)
    requires |words| == Channels(c) && i < |words| && c.oversamples == 0
    requires forall k :: 0 <= k < |words| ==> words[k] == SENTINEL || (IsValid(words[k]) && ChannelOf(words[k]) == c.start + k)
    ensures Reduced(c, Samples(words, c.start + i)) == words[i]
  {
    SamplesOfReduced(words, c.start, i);
    LoneSample(c, words[i]);
  }

  /** Reducing the reduced words again, one sample per channel, returns them unchanged. */
  lemma ReduceIsStable(raw: seq<u32>, c: Config)
    ensures var words := Reduce(raw, c); Reduce(words, c.(oversamples := 0)) == words
  {
    var words, once := Reduce(raw, c), c.(oversamples := 0);
    forall k | 0 <= k < |words|
      ensures words[k] == SENTINEL || (IsValid(words[k]) && ChannelOf(words[k]) == c.start + k)
    {
      WordsDescribeThemselves(raw, c, k);
    }
    forall i | 0 <= i < |words| ensures Reduce(words, once)[i] == words[i] {
      ReducedOnce(words, once, i);
    }
  }
}
