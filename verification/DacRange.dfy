/** DAC ranges and volts (DataItems/DAC_.cpp).  Volts and calibration are real numbers here. */
module DacRange {
  import opened Bytes

  const RC_UNIPOLAR_5: u32 := 0x35303055
  const RC_BIPOLAR_5: u32 := 0x3530E142
  const RC_UNIPOLAR_10: u32 := 0x30313055
  const RC_BIPOLAR_10: u32 := 0x3031E142

  // DacRangeIndexFromCode
  function RangeIndex(code: u32): int {
    if code == RC_UNIPOLAR_5 || code == 0 then 0
    else if code == RC_BIPOLAR_5 || code == 1 then 1
    else if code == RC_UNIPOLAR_10 || code == 2 then 2
    else if code == RC_BIPOLAR_10 || code == 3 then 3
    else -1
  }

  // ---------------------------------------------------------------- DAC_Range1

  const READ_ONLY: u32 := 0xFFFF_FFFF

  // What parseBytes lets through.
  predicate Accepts(code: u32) {
    code < 4 || code == 0x30313055 || code == 0x35303055 || code == 0x3530E142 || code == 0x3031E142
  }

  /** The codes a command may store are exactly the ones the voltage table knows. */
  lemma AcceptedIffKnown(code: u32)
    ensures Accepts(code) <==> 0 <= RangeIndex(code) < 4
  {
  }

  // The little-endian word with these four bytes, the first two of them a letter and a sign.
  function Named(letter: char, sign: byte, tens: char, units: char): u32
    requires letter < 128 as char && tens < 128 as char && units < 128 as char
  {
    U32([letter as int, sign, tens as int, units as int], 0)
  }

  /** The codes are eight: the indices 0 to 3 and the words of the names "U005", "U010" and, with plus-minus as
      0xE1, "B 05" and "B 10". */
  lemma AcceptedByName(code: u32)
    ensures Accepts(code) <==>
            0 <= code <= 3 || code == Named('U', '0' as int, '0', '5') || code == Named('U', '0' as int, '1', '0') ||
            code == Named('B', 0xE1, '0', '5') || code == Named('B', 0xE1, '1', '0')
  {
  }

  // One DAC_Range1 command, and whether its configuration file can be written.
  datatype Command = Command(bytes: seq<byte>, fileWrites: bool)

  // Config.dacRanges
  type Ranges = r: seq<u32> | |r| == 4 witness [1, 1, 1, 1]

  const INIT_CONFIG: Ranges := [1, 1, 1, 1]

  function WithRange(r: Ranges, channel: byte, code: u32): Ranges
    requires channel < 4
  {
    r[channel := code]
  }

  predicate Stores(c: Command) {
    |c.bytes| == 5 && c.bytes[0] < 4 && Accepts(U32(c.bytes, 1)) && c.fileWrites
  }

  function Obey(r: Ranges, c: Command): Ranges {
    if Stores(c) then WithRange(r, c.bytes[0], U32(c.bytes, 1)) else r
  }

  function ObeyAll(r: Ranges, cs: seq<Command>): Ranges
    decreases |cs|
  {
    if cs == [] then r else ObeyAll(Obey(r, cs[0]), cs[1..])
  }

  class TDAC_Range1 {
    var channel: byte
    var range: u32
    var write: bool

    constructor ()
      ensures channel == 0 && range == 0 && !write
    {
      channel, range, write := 0, 0, false;
    }

    /** parseBytes; `ok` is false when GUARD throws. */
    method ParseBytes(bytes: seq<byte>) returns (ok: bool)
      modifies this
      ensures ok == (bytes == [] || bytes[0] < 4)
      ensures ok && bytes != [] ==> channel == bytes[0]
      ensures ok && bytes != [] ==> write == (|bytes| == 5 && Accepts(U32(bytes, 1)))
      ensures ok && bytes != [] ==> range == if write then U32(bytes, 1) else READ_ONLY
      ensures bytes == [] || !ok ==> channel == old(channel) && range == old(range) && write == old(write)
    {
      ok := bytes == [] || bytes[0] < 4;
      if ok && bytes != [] {
        channel, range, write := bytes[0], READ_ONLY, false;
        if |bytes| == 5 {
          var code := U32(bytes, 1);
          if Accepts(code) {
            write, range := true, code;
          }
        }
      }
    }

    /** Go; the ranges of Config are an in- and an out-parameter. */
    method Go(ranges: Ranges, fileWrites: bool) returns (ranges': Ranges)
      requires channel < 4
      modifies this`range
      ensures ranges' == if write && fileWrites then WithRange(ranges, channel, old(range)) else ranges
      ensures write ==> range == ranges'[channel]
    {
      ranges' := ranges;
      if write {
        if fileWrites {
          ranges' := WithRange(ranges, channel, range);
        } else {
          range := ranges[channel];
        }
      }
    }
  }

  /** One command, from its bytes to the configuration. */
  method Serve(ranges: Ranges, c: Command) returns (ranges': Ranges)
    ensures ranges' == Obey(ranges, c)
  {
    var item := new TDAC_Range1();
    var ok := item.ParseBytes(c.bytes);
    ranges' := ranges;
    if ok {
      ranges' := item.Go(ranges, c.fileWrites);
    }
  }

  predicate AllKnown(r: Ranges) {
    forall ch :: 0 <= ch < 4 ==> 0 <= RangeIndex(r[ch]) < 4
  }

  lemma {:induction false} KnownStaysKnown(r: Ranges, cs: seq<Command>)
    requires AllKnown(r)
    ensures AllKnown(ObeyAll(r, cs))
    decreases |cs|
  {
    if cs != [] {
      if Stores(cs[0]) {
        AcceptedIffKnown(U32(cs[0].bytes, 1));
      }
      KnownStaysKnown(Obey(r, cs[0]), cs[1..]);
    }
  }

  /** From the compiled defaults, whatever commands arrive and whichever files cannot be written, every stored
      range is one the voltage table knows. */
  lemma RangesStayKnown(cs: seq<Command>)
    ensures AllKnown(ObeyAll(INIT_CONFIG, cs))
  {
    KnownStaysKnown(INIT_CONFIG, cs);
  }

  // ---------------------------------------------------------------- volts to counts

  type Index = i: int | 0 <= i < 4

  function Span(i: Index): real {
    if i == 0 then 5.0 else if i == 3 then 20.0 else 10.0
  }

  function Offset(i: Index): real {
    if i == 1 || i == 3 then -0.5 else 0.0
  }

  // std::lround of a number that is not negative.
  function Lround(x: real): int
    requires 0.0 <= x
  {
    (x + 0.5).Floor
  }

  function Clamped(x: real): (y: real)
    ensures 0.0 <= y <= 65535.0
  {
    if x < 0.0 then 0.0 else if x > 65535.0 then 65535.0 else x
  }

  function Ideal(i: Index, volts: real): real {
    65536.0 * (volts / Span(i) - Offset(i))
  }

  // DACVoltsToCounts
  function VoltsToCounts(i: Index, volts: real): u16 {
    Lround(Clamped(Ideal(i, volts)))
  }

  // The voltage a count stands for.
  function Decoded(i: Index, counts: int): real {
    (counts as real / 65536.0 + Offset(i)) * Span(i)
  }

  predicate InRange(i: Index, volts: real) {
    Offset(i) * Span(i) <= volts <= (1.0 + Offset(i)) * Span(i)
  }

  lemma IdealMonotone(i: Index, v: real, w: real)
    requires v <= w
    ensures Ideal(i, v) <= Ideal(i, w)
  {
    assert if i == 0 then Span(i) == 5.0 else if i == 3 then Span(i) == 20.0 else Span(i) == 10.0;
  }

  /** More volts never give fewer counts. */
  lemma VoltsToCountsMonotone(i: Index, v: real, w: real)
    requires v <= w
    ensures VoltsToCounts(i, v) <= VoltsToCounts(i, w)
  {
    IdealMonotone(i, v, w);
    var x, y := Clamped(Ideal(i, v)) + 0.5, Clamped(Ideal(i, w)) + 0.5;
    assert x <= y;
  }

  // Decoding undoes the ideal conversion.
  lemma IdealDecodes(i: Index, volts: real)
    ensures (Ideal(i, volts) / 65536.0 + Offset(i)) * Span(i) == volts
  {
  }

  lemma RoundsNear(x: real)
    requires 0.0 <= x
    ensures -0.5 <= Lround(x) as real - x <= 0.5
  {
  }

  /** The counts for a voltage in range decode to within one step, span / 65536, of it. */
  lemma DecodedWithinOneStep(i: Index, volts: real)
    requires InRange(i, volts)
    ensures var e := Decoded(i, VoltsToCounts(i, volts)) - volts; -Span(i) / 65536.0 <= e <= Span(i) / 65536.0
  {
    var x := Ideal(i, volts);
    assert 0.0 <= x <= 65536.0;
    RoundsNear(Clamped(x));
    IdealDecodes(i, volts);
    var c := VoltsToCounts(i, volts);
    assert -1.0 <= c as real - x <= 1.0;
  }

  /** Every count is reached: converting the voltage it stands for gives it back. */
  lemma CountsRoundTrip(i: Index, counts: u16)
    ensures VoltsToCounts(i, Decoded(i, counts)) == counts
  {
    assert Ideal(i, Decoded(i, counts)) == counts as real;
  }

  // The voltages at the ends of a range, as its code reads: 5 or 10 volts, unipolar or bipolar.
  function Ends(code: u32): (real, real) {
    if code == 0 || code == 0x35303055 then (0.0, 5.0)
    else if code == 1 || code == 0x3530E142 then (-5.0, 5.0)
    else if code == 2 || code == 0x30313055 then (0.0, 10.0)
    else (-10.0, 10.0)
  }

  // Where a voltage lies between the ends of a range, in steps of which there are 65536.
  function Share(code: u32, volts: real): real {
    var (lo, hi) := Ends(code);
    65536.0 * (volts - lo) / (hi - lo)
  }

  lemma IdealByEnds(code: u32, volts: real)
    requires Accepts(code)
    ensures 0 <= RangeIndex(code) < 4 && Ideal(RangeIndex(code), volts) == Share(code, volts)
    ensures var (lo, hi), x := Ends(code), Share(code, volts);
            (volts <= lo ==> x <= 0.0) && (hi <= volts ==> 65536.0 <= x) && (2.0 * volts == lo + hi ==> x == 32768.0) &&
            (lo <= volts <= hi ==> 0.0 <= x <= 65536.0)
  {
    AcceptedIffKnown(code);
    var i := RangeIndex(code);
    if i == 0 {
      assert Ends(code) == (0.0, 5.0);
    } else if i == 1 {
      assert Ends(code) == (-5.0, 5.0);
    } else if i == 2 {
      assert Ends(code) == (0.0, 10.0);
    } else {
      assert Ends(code) == (-10.0, 10.0);
    }
  }

  /** For every code a command may store: the lower end of its range and anything below gives 0, the upper end
      and anything above gives 65535, the middle gives 32768, and a voltage between the ends the count nearest to
      its share of 65536, of which the last step is cut off. */
  lemma CountsByEnds(code: u32, volts: real)
    requires Accepts(code)
    ensures var (lo, hi), c := Ends(code), VoltsToCounts(RangeIndex(code), volts);
            && (volts <= lo ==> c == 0) && (hi <= volts ==> c == 65535)
            && (2.0 * volts == lo + hi ==> c == 32768)
            && (lo <= volts <= hi ==> var off := c as real - Share(code, volts);
                                      -1.0 <= off <= 0.5 && (c < 65535 ==> -0.5 <= off))
  {
    IdealByEnds(code, volts);
    var x := Share(code, volts);
    var c := VoltsToCounts(RangeIndex(code), volts);
    assert c == Lround(Clamped(x));
    RoundsNear(Clamped(x));
    assert 65535.0 < x ==> c == 65535;
  }

  // ---------------------------------------------------------------- calibration

  // sat_u16_from_double
  function Saturated(x: real): u16 {
    if x <= 0.0 then 0 else if x >= 65535.0 then 0xFFFF else Lround(x)
  }

  // The counts written for nominal counts, a scale and an offset.
  function Calibrated(counts: u16, scale: real, offset: real): u16 {
    Saturated(counts as real * scale + offset)
  }

  lemma SaturatedMonotone(x: real, y: real)
    requires x <= y
    ensures Saturated(x) <= Saturated(y)
  {
    assert (x + 0.5).Floor <= (y + 0.5).Floor;
  }

  /** Calibration with a scale that is not negative keeps the order of counts; with scale one and offset zero
      it changes nothing. */
  lemma CalibrationKeepsOrder(a: u16, b: u16, scale: real, offset: real)
    requires a <= b
    ensures 0.0 <= scale ==> Calibrated(a, scale, offset) <= Calibrated(b, scale, offset)
    ensures Calibrated(a, 1.0, 0.0) == a
  {
    if 0.0 <= scale {
      ScaledOrder(a as real, b as real, scale);
      SaturatedMonotone(a as real * scale + offset, b as real * scale + offset);
    }
    assert a as real * 1.0 + 0.0 == a as real;
  }

  /** What is written is the count nearest to scale times count plus offset, or the end it passes. */
  lemma CalibrationIsNearest(counts: u16, scale: real, offset: real)
    ensures var x, c := counts as real * scale + offset, Calibrated(counts, scale, offset);
            && (x <= 0.0 ==> c == 0) && (65535.0 <= x ==> c == 65535)
            && (0.0 <= x <= 65535.0 ==> -0.5 <= c as real - x <= 0.5)
  {
    var x := counts as real * scale + offset;
    if 0.0 <= x <= 65535.0 {
      RoundsNear(x);
    }
  }

  lemma ScaledOrder(x: real, y: real, scale: real)
    requires x <= y && 0.0 <= scale
    ensures x * scale <= y * scale
  {
    assert (y - x) * scale >= 0.0;
  }
}
