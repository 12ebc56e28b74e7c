/** Numbers as text: std::to_string, to_hex of utilities.h, and std::stoul. */
module Text {
  import opened Wrappers

  type Base = b: int | b == 10 || b == 16 witness 10

  function DigitOf(d: nat): char
    requires d < 16
  {
    if d < 10 then '0' + d as char else 'A' + (d - 10) as char
  }

  // The value of a digit, 16 for any other character.
  function DigitValue(c: char): (d: nat)
    ensures d <= 16
  {
    if '0' <= c <= '9' then (c - '0') as int
    else if 'A' <= c <= 'F' then (c - 'A') as int + 10
    else if 'a' <= c <= 'f' then (c - 'a') as int + 10
    else 16
  }

  predicate IsDigit(c: char, base: Base) {
    DigitValue(c) < base
  }

  predicate AllDigits(s: string, base: Base) {
    forall i {:trigger IsDigit(s[i], base)} :: 0 <= i < |s| ==> IsDigit(s[i], base)
  }

  lemma DigitOfValue(d: nat)
    requires d < 16
    ensures DigitValue(DigitOf(d)) == d
    ensures '0' <= DigitOf(d) <= '9' || 'A' <= DigitOf(d) <= 'F'
  {
  }

  // The number a string of digits stands for.
  function Value(s: string, base: Base): nat {
    if s == [] then 0
    else
      var v := Value(s[..|s| - 1], base);
      (if base == 10 then 10 * v else 16 * v) + DigitValue(s[|s| - 1])
  }

  // std::to_string of a natural number.
  function ToDecimal(n: nat): string {
    if n < 10 then [DigitOf(n)] else ToDecimal(n / 10) + [DigitOf(n % 10)]
  }

  function ToDecimalInt(n: int): string {
    if n < 0 then "-" + ToDecimal(-n) else ToDecimal(n)
  }

  // to_hex<T>: exactly `width` upper-case digits.
  function ToHex(v: nat, width: nat): (s: string)
    ensures |s| == width
  {
    if width == 0 then [] else ToHex(v / 16, width - 1) + [DigitOf(v % 16)]
  }

  function Pow16(k: nat): (p: nat)
    ensures 1 <= p
  {
    if k == 0 then 1 else 16 * Pow16(k - 1)
  }

  lemma {:induction false} DecimalReads(n: nat)
    ensures AllDigits(ToDecimal(n), 10) && ToDecimal(n) != [] && Value(ToDecimal(n), 10) == n
    ensures forall c :: c in ToDecimal(n) ==> '0' <= c <= '9'
  {
    if n < 10 {
      DigitOfValue(n);
      assert [DigitOf(n)][..0] == [];
    } else {
      DecimalReads(n / 10);
      DigitOfValue(n % 10);
      var s := ToDecimal(n);
      assert s[..|s| - 1] == ToDecimal(n / 10);
    }
  }

  lemma {:induction false} HexReads(v: nat, width: nat)
    requires v < Pow16(width)
    ensures AllDigits(ToHex(v, width), 16) && Value(ToHex(v, width), 16) == v
    ensures forall c :: c in ToHex(v, width) ==> '0' <= c <= '9' || 'A' <= c <= 'F'
  {
    if width > 0 {
      HexReads(v / 16, width - 1);
      DigitOfValue(v % 16);
      var s := ToHex(v, width);
      assert s[..|s| - 1] == ToHex(v / 16, width - 1);
    }
  }

  lemma PowersOf16()
    ensures Pow16(8) == 0x1_0000_0000 && Pow16(2) == 0x100
  {
    assert Pow16(4) == 16 * Pow16(3) == 16 * (16 * Pow16(2));
    assert Pow16(2) == 16 * Pow16(1) == 16 * (16 * Pow16(0));
    assert Pow16(8) == 16 * Pow16(7) == 16 * (16 * Pow16(6));
    assert Pow16(6) == 16 * Pow16(5) == 16 * (16 * Pow16(4));
  }

  // ---------------------------------------------------------------- to_hex, as written

  function Lower(c: char): char {
    if 'A' <= c <= 'F' then c - 'A' + 'a' else c
  }

  function Upper(c: char): char {
    if 'a' <= c <= 'z' then c - 'a' + 'A' else c
  }

  // std::to_chars(.., 16): the shortest lower-case form.
  function ToChars16(v: nat): (s: string) {
    if v < 16 then [Lower(DigitOf(v))] else ToChars16(v / 16) + [Lower(DigitOf(v % 16))]
  }

  function UpperAll(s: string): (r: string)
    ensures |r| == |s|
  {
    seq(|s|, i requires 0 <= i < |s| => Upper(s[i]))
  }

  function Zeros(k: nat): (s: string)
    ensures |s| == k
  {
    if k == 0 then [] else Zeros(k - 1) + ['0']
  }

  lemma UpperLower(d: nat)
    requires d < 16
    ensures Upper(Lower(DigitOf(d))) == DigitOf(d)
  {
  }

  lemma UpperAllSnoc(s: string, c: char)
    ensures UpperAll(s + [c]) == UpperAll(s) + [Upper(c)]
  {
  }

  lemma Sixteen()
    ensures Pow16(1) == 16
  {
    assert Pow16(1) == 16 * Pow16(0);
  }

  lemma ShorterByOne(v: nat, width: nat)
    requires 16 <= v < Pow16(width)
    ensures 2 <= width && v / 16 < Pow16(width - 1)
  {
    Sixteen();
  }

  lemma {:induction false} PaddedShortForm(v: nat, width: nat)
    requires v < Pow16(width) && 0 < width
    ensures |ToChars16(v)| <= width
    ensures UpperAll(Zeros(width - |ToChars16(v)|) + ToChars16(v)) == ToHex(v, width)
  {
    var last := Lower(DigitOf(v % 16));
    UpperLower(v % 16);
    if v < 16 {
      UpperAllSnoc(Zeros(width - 1), last);
      ZerosAreHexOfZero(width - 1);
    } else {
      ShorterByOne(v, width);
      PaddedShortForm(v / 16, width - 1);
      var t := ToChars16(v / 16);
      UpperAllSnoc(Zeros(width - 1 - |t|) + t, last);
      assert Zeros(width - 1 - |t|) + (t + [last]) == Zeros(width - 1 - |t|) + t + [last];
    }
  }

  lemma {:induction false} ZerosAreHexOfZero(k: nat)
    ensures UpperAll(Zeros(k)) == ToHex(0, k)
  {
    if k > 0 {
      ZerosAreHexOfZero(k - 1);
      UpperAllSnoc(Zeros(k - 1), '0');
    }
  }

  /** to_hex: the shortest form, padded on the left with zeros, then put into upper case. */
  method ToHexPadded(v: nat, width: nat) returns (out: string)
    requires v < Pow16(width) && 0 < width
    ensures out == ToHex(v, width)
  {
    var digits := ToChars16(v);
    PaddedShortForm(v, width);
    out := Zeros(width - |digits|) + digits;
    ghost var padded := out;
    for i := 0 to |out|
      invariant |out| == |padded|
      invariant forall k :: 0 <= k < |out| ==> out[k] == if k < i then Upper(padded[k]) else padded[k]
    {
      out := out[i := Upper(out[i])];
    }
    assert out == UpperAll(padded);
  }

  // ---------------------------------------------------------------- C strings

  const NUL: char := 0 as char

  // Up to the first NUL.
  function CString(s: string): (r: string)
    ensures r <= s
  {
    if s == "" || s[0] == NUL then "" else [s[0]] + CString(s[1..])
  }

  // ---------------------------------------------------------------- std::stoul

  predicate IsSpace(c: char) {
    c == ' ' || (9 as char <= c && c <= 13 as char)
  }

  function SkipSpace(s: string): string {
    if s != [] && IsSpace(s[0]) then SkipSpace(s[1..]) else s
  }

  function TrimBack(s: string): string {
    if s != [] && IsSpace(s[|s| - 1]) then TrimBack(s[..|s| - 1]) else s
  }

  // The longest prefix made of digits.
  function DigitRun(s: string, base: Base): (k: nat)
    ensures k <= |s|
  {
    if s == [] || !IsDigit(s[0], base) then 0 else DigitRun(s[1..], base) + 1
  }

  lemma {:induction false} DigitRunDigits(s: string, base: Base)
    ensures var k := DigitRun(s, base); AllDigits(s[..k], base) && (k < |s| ==> !IsDigit(s[k], base))
  {
    if s != [] && IsDigit(s[0], base) {
      var k := DigitRun(s[1..], base);
      DigitRunDigits(s[1..], base);
      assert s[..k + 1] == [s[0]] + s[1..][..k];
    }
  }

  const ULONG_MAX: nat := 0xFFFF_FFFF_FFFF_FFFF

  function StripSign(t: string): string {
    if t != [] && (t[0] == '-' || t[0] == '+') then t[1..] else t
  }

  // An optional "0x", taken only when a hex digit follows.
  function StripPrefix(u: string, base: Base): string {
    if base == 16 && |u| >= 3 && u[0] == '0' && (u[1] == 'x' || u[1] == 'X') && IsDigit(u[2], 16) then u[2..] else u
  }

  // Negation of a 64-bit unsigned long.
  function Negated(n: nat): nat
    requires n <= ULONG_MAX
  {
    if n == 0 then 0 else ULONG_MAX + 1 - n
  }

  // The digits at the front of a text; None when there are none or they exceed an unsigned long.
  function Leading(v: string, base: Base): (n: Option<nat>)
    ensures n.Some? ==> n.value <= ULONG_MAX
  {
    var k := DigitRun(v, base);
    if k == 0 || Value(v[..k], base) > ULONG_MAX then None else Some(Value(v[..k], base))
  }

  // std::stoul with a 64-bit unsigned long; None for the exceptions it throws.
  function Stoul(s: string, base: Base): Option<nat> {
    var t := SkipSpace(s);
    match Leading(StripPrefix(StripSign(t), base), base)
    case None => None
    case Some(n) => Some(if t != [] && t[0] == '-' then Negated(n) else n)
  }

  lemma DigitIsPlain(c: char, base: Base)
    requires IsDigit(c, base)
    ensures !IsSpace(c) && c != '-' && c != '+' && c != 'x' && c != 'X' && c != '='
  {
  }

  lemma {:induction false} DigitRunStops(digits: string, rest: string, base: Base)
    requires AllDigits(digits, base) && (rest == [] || !IsDigit(rest[0], base))
    ensures DigitRun(digits + rest, base) == |digits|
  {
    if digits == [] {
      assert digits + rest == rest;
    } else {
      assert IsDigit(digits[0], base);
      assert (digits + rest)[1..] == digits[1..] + rest;
      DigitRunStops(digits[1..], rest, base);
    }
  }

  lemma PlainDigitsKept(s: string, base: Base)
    requires s != [] && AllDigits(s, base)
    ensures SkipSpace(s) == s && StripSign(s) == s && StripPrefix(s, base) == s && s[0] != '-'
  {
    DigitIsPlain(s[0], base);
    if |s| >= 2 {
      DigitIsPlain(s[1], base);
    }
  }

  // A non-empty run of plain digits reads as its value.
  lemma StoulDigits(s: string, base: Base)
    requires s != [] && AllDigits(s, base) && Value(s, base) <= ULONG_MAX
    ensures Stoul(s, base) == Some(Value(s, base))
  {
    PlainDigitsKept(s, base);
    DigitRunStops(s, [], base);
    assert s + [] == s && s[..|s|] == s;
  }

  // ---------------------------------------------------------------- which texts stoul reads, and as what

  predicate AllSpace(s: string) {
    forall i :: 0 <= i < |s| ==> s[i] == ' ' || '\t' <= s[i] <= '\r'
  }

  lemma {:induction false} SkipSpaceStops(blanks: string, rest: string)
    requires AllSpace(blanks) && (rest == "" || !IsSpace(rest[0]))
    ensures SkipSpace(blanks + rest) == rest
  {
    if blanks == "" {
      assert blanks + rest == rest;
    } else {
      assert (blanks + rest)[1..] == blanks[1..] + rest;
      SkipSpaceStops(blanks[1..], rest);
    }
  }

  // What may stand in front of the digits, sign aside.
  predicate IsPrefix(prefix: string, base: Base) {
    prefix == "" || (base == 16 && (prefix == "0x" || prefix == "0X"))
  }

  // Digits, and what follows them: the digits end there, and are not themselves the zero of a prefix.
  predicate Follows(digits: string, rest: string, base: Base) {
    (rest == "" || !IsDigit(rest[0], base)) &&
    (base == 16 && digits == "0" && |rest| >= 2 && (rest[0] == 'x' || rest[0] == 'X') ==> !IsDigit(rest[1], 16))
  }

  lemma PrefixStripped(prefix: string, digits: string, rest: string, base: Base)
    requires IsPrefix(prefix, base) && digits != "" && AllDigits(digits, base) && Follows(digits, rest, base)
    ensures StripPrefix(prefix + digits + rest, base) == digits + rest
  {
    var u := prefix + digits + rest;
    assert IsDigit(digits[0], base);
    DigitIsPlain(digits[0], base);
    if prefix == "" {
      assert u == digits + rest;
      if |digits| >= 2 {
        assert IsDigit(digits[1], base);
        DigitIsPlain(digits[1], base);
      } else if |rest| >= 2 {
        assert u[1] == rest[0] && u[2] == rest[1];
      }
    } else {
      assert u[2..] == digits + rest && u[2] == digits[0];
    }
  }

  predicate IsSign(sign: string) {
    sign == "" || sign == "+" || sign == "-"
  }

  // What is left once blanks and a sign are taken.
  lemma SignTaken(blanks: string, sign: string, u: string)
    requires AllSpace(blanks) && IsSign(sign)
    requires sign == "" && u != "" ==> !IsSpace(u[0]) && u[0] != '+' && u[0] != '-'
    ensures var t := SkipSpace(blanks + (sign + u)); StripSign(t) == u && ((t != [] && t[0] == '-') <==> sign == "-")
  {
    var t := sign + u;
    if sign == "" {
      assert t == u;
    } else {
      assert t[0] == sign[0] && t[1..] == u;
    }
    SkipSpaceStops(blanks, t);
  }

  lemma LeadingReads(digits: string, rest: string, base: Base)
    requires digits != "" && AllDigits(digits, base) && (rest == "" || !IsDigit(rest[0], base))
    ensures Leading(digits + rest, base) == if Value(digits, base) > ULONG_MAX then None else Some(Value(digits, base))
  {
    DigitRunStops(digits, rest, base);
    assert (digits + rest)[..|digits|] == digits;
  }

  lemma FirstIsPlain(prefix: string, digits: string, rest: string, base: Base)
    requires IsPrefix(prefix, base) && digits != "" && AllDigits(digits, base)
    ensures var u := prefix + digits + rest; u != "" && !IsSpace(u[0]) && u[0] != '+' && u[0] != '-'
  {
    assert IsDigit(digits[0], base);
    DigitIsPlain(digits[0], base);
    var u := prefix + digits + rest;
    assert if prefix == "" then u[0] == digits[0] else u[0] == prefix[0] == '0';
  }

  /** std::stoul reads blanks, a sign, in base 16 "0x" or "0X", and digits, whatever comes after the digits.  It
      gives the digits' value, modulo 2 to the 64 when the sign is a minus, and throws exactly when that value
      is larger than an unsigned long. */
  lemma StoulReads(blanks: string, sign: string, prefix: string, digits: string, rest: string, base: Base)
    requires AllSpace(blanks) && IsSign(sign) && IsPrefix(prefix, base)
    requires digits != "" && AllDigits(digits, base) && Follows(digits, rest, base)
    ensures Stoul(blanks + (sign + (prefix + digits + rest)), base) ==
            if Value(digits, base) >= 0x1_0000_0000_0000_0000 then None
            else if sign == "-" && Value(digits, base) != 0
            then Some(0x1_0000_0000_0000_0000 - Value(digits, base))
            else Some(Value(digits, base))
  {
    FirstIsPlain(prefix, digits, rest, base);
    SignTaken(blanks, sign, prefix + digits + rest);
    PrefixStripped(prefix, digits, rest, base);
    LeadingReads(digits, rest, base);
    StoulOf(blanks + (sign + (prefix + digits + rest)), sign == "-", prefix + digits + rest, base);
  }

  // stoul, by what is left after blanks and a sign.
  lemma StoulOf(s: string, minus: bool, u: string, base: Base)
    requires var t := SkipSpace(s); StripSign(t) == u && ((t != [] && t[0] == '-') <==> minus)
    ensures Stoul(s, base) == match Leading(StripPrefix(u, base), base)
                              case None => None
                              case Some(n) => Some(if minus then Negated(n) else n)
  {
  }

  lemma PlainStoul(digits: string, base: Base)
    requires digits != "" && AllDigits(digits, base)
    ensures Stoul(digits, base) == if Value(digits, base) > ULONG_MAX then None else Some(Value(digits, base))
  {
    PlainDigitsKept(digits, base);
    LeadingReads(digits, "", base);
    assert digits + "" == digits;
  }

  /** And it throws when, after blanks and a sign, there is no digit. */
  lemma StoulThrows(blanks: string, sign: string, rest: string, base: Base)
    requires AllSpace(blanks) && IsSign(sign) && (rest == "" || !IsDigit(rest[0], base))
    requires sign == "" && rest != "" ==> !IsSpace(rest[0]) && rest[0] != '+' && rest[0] != '-'
    ensures Stoul(blanks + (sign + rest), base) == None
  {
    SignTaken(blanks, sign, rest);
    assert IsDigit('0', base);
  }

  lemma {:induction false} TrimBackStops(text: string, blanks: string)
    requires AllSpace(blanks) && (text == "" || !IsSpace(text[|text| - 1]))
    ensures TrimBack(text + blanks) == text
  {
    if blanks == "" {
      assert text + blanks == text;
    } else {
      assert (text + blanks)[..|text + blanks| - 1] == text + blanks[..|blanks| - 1];
      TrimBackStops(text, blanks[..|blanks| - 1]);
    }
  }

  /** The case of the letters among hex digits does not matter. */
  lemma {:induction false} HexCaseDoesNotMatter(s: string)
    ensures Value(UpperAll(s), 16) == Value(s, 16) && (AllDigits(UpperAll(s), 16) <==> AllDigits(s, 16))
  {
    if s != "" {
      var front, u := s[..|s| - 1], UpperAll(s);
      HexCaseDoesNotMatter(front);
      assert u[..|u| - 1] == UpperAll(front);
      assert DigitValue(Upper(s[|s| - 1])) == DigitValue(s[|s| - 1]);
      assert AllDigits(s, 16) <==> AllDigits(front, 16) && IsDigit(s[|s| - 1], 16) by {
        assert forall i :: 0 <= i < |front| ==> front[i] == s[i];
      }
      assert AllDigits(u, 16) <==> AllDigits(UpperAll(front), 16) && IsDigit(u[|s| - 1], 16) by {
        assert forall i :: 0 <= i < |front| ==> UpperAll(front)[i] == u[i];
      }
    }
  }

  /** Letters and digits: upper case turns each lower-case letter into its capital and leaves the rest. */
  lemma UpperLetters(c: char)
    ensures 'a' <= c <= 'z' ==> Upper(c) as int == c as int - 32
    ensures !('a' <= c <= 'z') ==> Upper(c) == c
  {
  }
}
