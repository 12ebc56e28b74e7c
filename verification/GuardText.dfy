/** The text GUARD throws (utilities.h) and the parser that takes it apart again
    (TryParseGuardWhat, aioenetd.cpp). */
module GuardText {
  import opened Wrappers
  import opened Bytes
  import opened Text

  // err_msg of TError.cpp, indexed by the negated code.
  const ERR_MSG: seq<string> := [
    "VALID", "Message too short", "Checksum error", "Parse error", "Invalid Start symbol found",
    "Unknown Message ID", "Length mismatch", "DataItem length mismatch", "DataItem ID unknown",
    "DataItem too short", "DataItem Payload error", "DId Offset Arg error", "DId Invalid",
    "Not Yet Implemented", "ADC Busy", "ADC FATAL"]

  const MARKER := "): -"

  // What GUARD throws for the code -index and the info word.
  function GuardWhat(file: string, func: string, line: int, index: nat, info: u32): string
    requires index < |ERR_MSG|
  {
    Head(file, func, line) + MARKER + (ToDecimal(index) + Tail(index, info))
  }

  function Head(file: string, func: string, line: int): string {
    "\nGUARD! " + (file + ": " + func) + "(" + ToDecimalInt(line)
  }

  function Tail(index: nat, info: u32): string
    requires index < |ERR_MSG|
  {
    " " + ERR_MSG[index] + " " + ("= " + ToHex(info, 8))
  }

  // ---------------------------------------------------------------- searching

  predicate Matches(s: string, i: nat, pattern: string) {
    i + |pattern| <= |s| && s[i..i + |pattern|] == pattern
  }

  predicate Contains(s: string, pattern: string) {
    exists i :: 0 <= i < |s| && Matches(s, i, pattern)
  }

  // std::string::find from position i on: the first match, or |s| when there is none.
  function Find(s: string, pattern: string, i: nat): (p: nat)
    requires i <= |s|
    ensures i <= p <= |s|
    ensures p < |s| ==> Matches(s, p, pattern)
    ensures forall k :: i <= k < p ==> !Matches(s, k, pattern)
    decreases |s| - i
  {
    if i == |s| || Matches(s, i, pattern) then i else Find(s, pattern, i + 1)
  }

  // std::string::rfind of one character: the position after the last one, or 0 when there is none.
  function AfterLast(s: string, c: char): (p: nat)
    ensures p <= |s|
    ensures p > 0 ==> s[p - 1] == c
    ensures forall k :: p <= k < |s| ==> s[k] != c
  {
    if s == [] then 0 else if s[|s| - 1] == c then |s| else AfterLast(s[..|s| - 1], c)
  }

  // ---------------------------------------------------------------- the parser

  // Drops one "0x", wherever more digits follow or not.
  function DropPrefix(h: string): string {
    if |h| >= 2 && h[0] == '0' && (h[1] == 'x' || h[1] == 'X') then h[2..] else h
  }

  // static_cast<__u32> of what std::stoul gave, or `otherwise` when it threw.
  function Word(v: Option<nat>, otherwise: u32): u32 {
    match v
    case Some(n) => n % 0x1_0000_0000
    case None => otherwise
  }

  // What the text after the last '=' reads as; `info` when it does not read as a hex number.
  function InfoAfter(t: string, info: u32): u32 {
    Word(Stoul(DropPrefix(TrimBack(SkipSpace(t))), 16), info)
  }

  function InfoWord(s: string, info: u32): u32 {
    var p := AfterLast(s, '=');
    if p == 0 then info else InfoAfter(s[p..], info)
  }

  function LeadingDigits(t: string): string {
    t[..DigitRun(t, 10)]
  }

  // The digits right after the first marker; none when there is no marker.
  function MarkedDigits(s: string): string {
    var p := Find(s, MARKER, 0);
    if p == |s| then "" else LeadingDigits(s[p + |MARKER|..])
  }

  // What they stand for, as an error index.
  function IndexOf(digits: string): Option<u32> {
    if digits == "" then None
    else
      match Stoul(digits, 10)
      case Some(v) => Some(v % 0x1_0000_0000)
      case None => None
  }

  function ErrorIndex(s: string): Option<u32> {
    IndexOf(MarkedDigits(s))
  }

  // The two words TryParseGuardWhat leaves behind when called with the given ones.
  function ParseWhat(s: string, errIndex: u32, info: u32): (u32, u32) {
    match ErrorIndex(s)
    case Some(e) => (e, InfoWord(s, info))
    case None => (errIndex, info)
  }

  /** The second half of TryParseGuardWhat, with its trimming loops. */
  method ReadInfo(s: string, info: u32) returns (info': u32)
    ensures info' == InfoWord(s, info)
  {
    info' := info;
    var eq := AfterLast(s, '=');
    if eq > 0 {
      var hex := s[eq..];
      while hex != [] && IsSpace(hex[0])
        invariant SkipSpace(hex) == SkipSpace(s[eq..])
      {
        hex := hex[1..];
      }
      while hex != [] && IsSpace(hex[|hex| - 1])
        invariant TrimBack(hex) == TrimBack(SkipSpace(s[eq..]))
      {
        hex := hex[..|hex| - 1];
      }
      info' := Word(Stoul(DropPrefix(hex), 16), info);
    }
  }

  /** The digit loop. */
  method ReadDigits(s: string, start: nat) returns (digits: string)
    requires start <= |s|
    ensures digits == LeadingDigits(s[start..])
  {
    var q := start;
    while q < |s| && IsDigit(s[q], 10)
      invariant start <= q <= |s|
      invariant DigitRun(s[start..], 10) == q - start + DigitRun(s[q..], 10)
    {
      assert s[q..][1..] == s[q + 1..];
      q := q + 1;
    }
    assert s[start..][..q - start] == s[start..q];
    digits := s[start..q];
  }

  /** TryParseGuardWhat */
  method TryParseGuardWhat(s: string, errIndex: u32, info: u32) returns (ok: bool, errIndex': u32, info': u32)
    ensures ok == ErrorIndex(s).Some?
    ensures (errIndex', info') == ParseWhat(s, errIndex, info)
  {
    ok, errIndex', info' := false, errIndex, info;
    var p := Find(s, MARKER, 0);
    if p < |s| {
      var digits := ReadDigits(s, p + |MARKER|);
      var e := IndexOf(digits);
      if e.Some? {
        ok, errIndex' := true, e.value;
        info' := ReadInfo(s, info);
      }
    }
  }

  // ---------------------------------------------------------------- the round trip

  lemma LineHasNoParenthesis(line: int)
    ensures forall k :: 0 <= k < |ToDecimalInt(line)| ==> ToDecimalInt(line)[k] != ')'
  {
    var s := ToDecimalInt(line);
    DecimalReads(if line < 0 then -line else line);
    assert forall k :: 0 <= k < |s| && s[k] != '-' ==> s[k] in ToDecimal(if line < 0 then -line else line);
  }

  // Inside "file: func", and nowhere else before GUARD's own marker, another marker can appear.
  lemma MarkerBeforeOwn(body: string, line: string, rest: string, i: nat)
    requires forall k :: 0 <= k < |line| ==> line[k] != ')'
    requires i < 8 + |body| + 1 + |line|
    ensures Matches("\nGUARD! " + body + "(" + line + MARKER + rest, i, MARKER) <==>
            8 <= i && i - 8 < |body| && Matches(body, i - 8, MARKER)
  {
    var s := "\nGUARD! " + body + "(" + line + MARKER + rest;
    var e := 8 + |body|;
    assert s[8..e] == body && s[e] == '(';
    assert forall k :: 0 <= k < 8 ==> s[k] != ')';
    assert forall k :: e < k < e + 1 + |line| ==> s[k] == line[k - e - 1];
    if i + 4 <= |s| {
      var w := s[i..i + 4];
      assert w[0] == s[i] && w[1] == s[i + 1] && w[2] == s[i + 2] && w[3] == s[i + 3];
      if 8 <= i && i + 4 <= e {
        assert w == s[8..e][i - 8..i - 4];
      }
    }
  }

  lemma {:induction false} AfterLastInSuffix(a: string, b: string, c: char)
    requires AfterLast(b, c) > 0
    ensures AfterLast(a + b, c) == |a| + AfterLast(b, c)
  {
    var s, p := a + b, AfterLast(b, c);
    assert s[|a| + p - 1] == b[p - 1];
    assert forall k :: |a| + p <= k < |s| ==> s[k] == b[k - |a|];
  }

  lemma EqualsOfHex(hex: string)
    requires AllDigits(hex, 16)
    ensures AfterLast("= " + hex, '=') == 1
  {
    var s := "= " + hex;
    assert s[0] == '=' && s[1] == ' ';
    forall k | 2 <= k < |s| ensures s[k] != '=' {
      assert IsDigit(hex[k - 2], 16);
    }
  }

  lemma TrimmedHex(hex: string)
    requires AllDigits(hex, 16) && |hex| >= 2
    ensures DropPrefix(TrimBack(SkipSpace(" " + hex))) == hex
  {
    assert IsDigit(hex[0], 16) && IsDigit(hex[1], 16) && IsDigit(hex[|hex| - 1], 16);
    DigitIsPlain(hex[0], 16);
    DigitIsPlain(hex[1], 16);
    DigitIsPlain(hex[|hex| - 1], 16);
    assert (" " + hex)[1..] == hex;
  }

  lemma HexAfterSpace(info: u32, i0: u32)
    ensures InfoAfter(" " + ToHex(info, 8), i0) == info
  {
    var hex := ToHex(info, 8);
    PowersOf16();
    HexReads(info, 8);
    PlainHexAfterSpace(hex, i0);
  }

  lemma PlainHexAfterSpace(hex: string, i0: u32)
    requires AllDigits(hex, 16) && |hex| >= 2 && Value(hex, 16) < 0x1_0000_0000
    ensures InfoAfter(" " + hex, i0) == Value(hex, 16)
  {
    assert DropPrefix(TrimBack(SkipSpace(" " + hex))) == hex by {
      TrimmedHex(hex);
    }
    StoulDigits(hex, 16);
    InfoIs(" " + hex, hex, Value(hex, 16), i0);
  }

  lemma InfoIs(t: string, hex: string, v: u32, i0: u32)
    requires DropPrefix(TrimBack(SkipSpace(t))) == hex && Stoul(hex, 16) == Some(v)
    ensures InfoAfter(t, i0) == v
  {
    assert InfoAfter(t, i0) == Word(Stoul(hex, 16), i0);
  }

  lemma InfoWordOfHex(before: string, info: u32, i0: u32)
    ensures InfoWord(before + ("= " + ToHex(info, 8)), i0) == info
  {
    var hex := ToHex(info, 8);
    PowersOf16();
    HexReads(info, 8);
    EqualsOfHex(hex);
    AfterLastInSuffix(before, "= " + hex, '=');
    assert (before + ("= " + hex))[|before| + 1..] == " " + hex;
    HexAfterSpace(info, i0);
  }

  lemma TrimmedInfo(blanks: string, prefix: string, digits: string, after: string)
    requires AllSpace(blanks) && AllSpace(after) && IsPrefix(prefix, 16) && digits != "" && AllDigits(digits, 16)
    ensures TrimBack(SkipSpace(blanks + (prefix + digits + after))) == prefix + digits
    ensures DropPrefix(prefix + digits) == digits
  {
    var t := prefix + digits;
    assert IsDigit(digits[0], 16) && IsDigit(digits[|digits| - 1], 16);
    FirstIsPlain(prefix, digits, after, 16);
    DigitIsPlain(digits[0], 16);
    DigitIsPlain(digits[|digits| - 1], 16);
    assert t[|t| - 1] == digits[|digits| - 1];
    SkipSpaceStops(blanks, t + after);
    TrimBackStops(t, after);
    if prefix == "" {
      assert t == digits;
      if |digits| >= 2 {
        assert IsDigit(digits[1], 16);
      }
    } else {
      assert t[..2] == prefix && t[2..] == digits;
    }
  }

  lemma NoMoreEquals(blanks: string, prefix: string, digits: string, after: string)
    requires AllSpace(blanks) && AllSpace(after) && IsPrefix(prefix, 16) && AllDigits(digits, 16)
    ensures AfterLast("=" + (blanks + (prefix + digits + after)), '=') == 1
  {
    var t := blanks + (prefix + digits + after);
    forall k | 0 <= k < |t| ensures t[k] != '=' {
      var d := k - |blanks| - |prefix|;
      if 0 <= d < |digits| {
        assert t[k] == digits[d] && IsDigit(digits[d], 16);
      } else if d >= |digits| {
        assert t[k] == after[d - |digits|];
      }
    }
    var s := "=" + t;
    assert s[0] == '=' && forall k :: 1 <= k < |s| ==> s[k] == t[k - 1];
  }

  /** The info word is whatever hex number stands after the last '=', with blanks around it, with or without
      "0x", in letters of any case, modulo 2 to the 32; one too large for an unsigned long is not read. */
  lemma InfoIsHexAfterEquals(before: string, blanks: string, prefix: string, digits: string, after: string, i0: u32)
    requires AllSpace(blanks) && AllSpace(after) && IsPrefix(prefix, 16) && digits != "" && AllDigits(digits, 16)
    ensures InfoWord(before + ("=" + (blanks + (prefix + digits + after))), i0) ==
            if Value(digits, 16) < 0x1_0000_0000_0000_0000 then Value(digits, 16) % 0x1_0000_0000 else i0
  {
    var t := blanks + (prefix + digits + after);
    NoMoreEquals(blanks, prefix, digits, after);
    TrimmedInfo(blanks, prefix, digits, after);
    PlainStoul(digits, 16);
    InfoIsWord(t, digits, i0);
    InfoAt(before, t, i0);
  }

  lemma InfoIsWord(t: string, hex: string, i0: u32)
    requires DropPrefix(TrimBack(SkipSpace(t))) == hex
    ensures InfoAfter(t, i0) == Word(Stoul(hex, 16), i0)
  {
  }

  lemma InfoAt(before: string, t: string, i0: u32)
    requires AfterLast("=" + t, '=') == 1
    ensures InfoWord(before + ("=" + t), i0) == InfoAfter(t, i0)
  {
    AfterLastInSuffix(before, "=" + t, '=');
    assert (before + ("=" + t))[|before| + 1..] == t;
  }

  lemma IndexOfDecimal(index: u32)
    ensures IndexOf(ToDecimal(index)) == Some(index)
  {
    DecimalReads(index);
    IndexOfDigits(ToDecimal(index));
  }

  lemma IndexOfDigits(digits: string)
    requires digits != [] && AllDigits(digits, 10) && Value(digits, 10) < 0x1_0000_0000
    ensures IndexOf(digits) == Some(Value(digits, 10))
  {
    StoulDigits(digits, 10);
    IndexIs(digits, Value(digits, 10));
  }

  lemma IndexIs(digits: string, v: u32)
    requires digits != [] && Stoul(digits, 10) == Some(v)
    ensures IndexOf(digits) == Some(v)
  {
    assert IndexOf(digits) == Some(v % 0x1_0000_0000);
  }

  // Without another marker in "file: func", GUARD's own is the first.
  lemma OwnMarkerFirst(file: string, func: string, line: int, rest: string)
    requires !Contains(file + ": " + func, MARKER)
    ensures Find(Head(file, func, line) + MARKER + rest, MARKER, 0) == |Head(file, func, line)|
  {
    var body, num, head := file + ": " + func, ToDecimalInt(line), Head(file, func, line);
    LineHasNoParenthesis(line);
    forall k | 0 <= k < |head| ensures !Matches(head + MARKER + rest, k, MARKER) {
      assert head == "\nGUARD! " + body + "(" + num;
      MarkerBeforeOwn(body, num, rest, k);
    }
    assert Matches(head + MARKER + rest, |head|, MARKER);
  }

  lemma InfoAtEnd(a: string, digits: string, index: nat, info: u32, i0: u32)
    requires index < |ERR_MSG|
    ensures InfoWord(a + (digits + Tail(index, info)), i0) == info
  {
    var words, hex := " " + ERR_MSG[index] + " ", "= " + ToHex(info, 8);
    assert a + (digits + (words + hex)) == a + (digits + words) + hex;
    InfoWordOfHex(a + (digits + words), info, i0);
  }

  lemma OwnDigits(head: string, digits: string, rest: string)
    requires Find(head + MARKER + (digits + rest), MARKER, 0) == |head|
    requires AllDigits(digits, 10) && rest != [] && !IsDigit(rest[0], 10)
    ensures MarkedDigits(head + MARKER + (digits + rest)) == digits
  {
    var s := head + MARKER + (digits + rest);
    assert s[|head| + 4..] == digits + rest;
    DigitRunStops(digits, rest, 10);
  }

  lemma RecoversWithoutMarker(file: string, func: string, line: int, index: nat, info: u32, e0: u32, i0: u32)
    requires index < |ERR_MSG| && !Contains(file + ": " + func, MARKER)
    ensures ParseWhat(GuardWhat(file, func, line, index, info), e0, i0) == (index, info)
  {
    var head, rest := Head(file, func, line), Tail(index, info);
    OwnMarkerFirst(file, func, line, ToDecimal(index) + rest);
    DecimalReads(index);
    OwnDigits(head, ToDecimal(index), rest);
    IndexOfDecimal(index);
    InfoAtEnd(head + MARKER, ToDecimal(index), index, info, i0);
  }

  // A marker in the part of the text before a '(' decides the digits: nothing after that '(' matters.
  lemma MarkerInHead(h: string, x: string)
    requires h != [] && h[|h| - 1] == '(' && Find(h, MARKER, 0) < |h|
    ensures MarkedDigits(h + x) == MarkedDigits(h)
  {
    var p := Find(h, MARKER, 0);
    FirstInFront(h, x, MARKER);
    MarkerEndsEarlier(h, p);
    var t := h[p + 4..];
    assert (h + x)[p + 4..] == t + x;
    DigitsInFront(t, x);
  }

  lemma MarkerEndsEarlier(h: string, p: nat)
    requires Matches(h, p, MARKER) && h != [] && h[|h| - 1] == '('
    ensures p + 4 < |h| && h[p + 4..][|h| - p - 5] == '('
  {
    assert h[p..p + 4][3] == h[p + 3];
  }

  lemma FirstInFront(h: string, x: string, pattern: string)
    requires pattern != [] && Find(h, pattern, 0) < |h|
    ensures Find(h + x, pattern, 0) == Find(h, pattern, 0)
  {
    var s, p := h + x, Find(h, pattern, 0);
    assert s[p..p + |pattern|] == h[p..p + |pattern|];
    assert Matches(s, p, pattern);
    forall k | 0 <= k < p ensures !Matches(s, k, pattern) {
      assert !Matches(h, k, pattern);
      assert s[k..k + |pattern|] == h[k..k + |pattern|];
    }
  }

  lemma NotAllDigits(t: string)
    requires t != [] && t[|t| - 1] == '('
    ensures !AllDigits(t, 10)
  {
    assert !IsDigit(t[|t| - 1], 10);
  }

  lemma DigitsInFront(t: string, x: string)
    requires t != [] && t[|t| - 1] == '('
    ensures LeadingDigits(t + x) == LeadingDigits(t)
  {
    var k := DigitRun(t, 10);
    DigitRunDigits(t, 10);
    NotAllDigits(t);
    assert t[..|t|] == t;
    DigitRunStops(t[..k], t[k..] + x, 10);
    assert t + x == t[..k] + (t[k..] + x);
  }

  /** A text without the marker leaves both words as they were. */
  lemma NoMarkerKeepsWords(s: string, e0: u32, i0: u32)
    requires !Contains(s, "): -")
    ensures ParseWhat(s, e0, i0) == (e0, i0)
  {
    assert Find(s, MARKER, 0) == |s|;
  }

  // So a marker in "file: func" makes two different codes read alike.
  lemma MarkerHidesCode(file: string, func: string)
    requires Contains(file + ": " + func, MARKER)
    ensures MarkedDigits(GuardWhat(file, func, 0, 1, 0)) == MarkedDigits(GuardWhat(file, func, 0, 2, 0))
  {
    var body := file + ": " + func;
    var h := "\nGUARD! " + body + "(";
    var i :| 0 <= i < |body| && Matches(body, i, MARKER);
    assert h[8 + i..12 + i] == body[i..i + 4];
    assert Matches(h, 8 + i, MARKER);
    HeadDecides(file, func, 1);
    HeadDecides(file, func, 2);
  }

  lemma Regroup(a: string, b: string, c: string, d: string)
    ensures (a + b) + c + d == a + (b + c + d)
  {
  }

  lemma HeadDecides(file: string, func: string, index: nat)
    requires index < |ERR_MSG| && Find("\nGUARD! " + (file + ": " + func) + "(", MARKER, 0) < 9 + |file + ": " + func|
    ensures MarkedDigits(GuardWhat(file, func, 0, index, 0)) == MarkedDigits("\nGUARD! " + (file + ": " + func) + "(")
  {
    var h, num, rest := "\nGUARD! " + (file + ": " + func) + "(", ToDecimalInt(0), ToDecimal(index) + Tail(index, 0);
    Regroup(h, num, MARKER, rest);
    MarkerInHead(h, num + MARKER + rest);
  }

  // Every code and info word thrown from this place comes back, whatever the line and the words passed in.
  ghost predicate Recovers(file: string, func: string) {
    forall line: int, index: nat, info: u32, e0: u32, i0: u32 :: index < |ERR_MSG| ==>
      ParseWhat(GuardWhat(file, func, line, index, info), e0, i0) == (index, info)
  }

  /** Printer and parser agree exactly when "file: func" holds no marker.  The name of the file and of the
      function may each be free of it: a file ending in ")" and a function beginning with "-" join into one. */
  lemma GuardRoundTripIff(file: string, func: string)
    ensures Recovers(file, func) <==> !Contains(file + ": " + func, MARKER)
  {
    if !Contains(file + ": " + func, MARKER) {
      forall line: int, index: nat, info: u32, e0: u32, i0: u32 | index < |ERR_MSG|
        ensures ParseWhat(GuardWhat(file, func, line, index, info), e0, i0) == (index, info)
      {
        RecoversWithoutMarker(file, func, line, index, info, e0, i0);
      }
    } else {
      MarkerHidesCode(file, func);
      assert ParseWhat(GuardWhat(file, func, 0, 1, 0), 0, 0).0 == ParseWhat(GuardWhat(file, func, 0, 2, 0), 0, 0).0;
    }
  }

  /** The pair of names that shows the condition is about the joined text. */
  lemma NamesFreeOfMarkerCanJoinIntoOne()
    ensures !Contains("a)", MARKER) && !Contains("-f", MARKER) && !Recovers("a)", "-f")
  {
    JoinedMarker();
    GuardRoundTripIff("a)", "-f");
  }

  lemma JoinedMarker()
    ensures Contains("a)" + ": " + "-f", MARKER)
  {
    var s := "a)" + ": " + "-f";
    assert s[1..5] == MARKER;
    assert Matches(s, 1, MARKER);
  }
}
