/** The model string of a board (DataItems/BRD_.cpp): how many DACs and ADC channels it names. */
module ModelString {
  import opened Wrappers
  import opened Bytes
  import opened Text

  // trim_whitespace
  function Trim(s: string): string {
    TrimBack(SkipSpace(s))
  }

  lemma {:induction false} TextUpTo(buffer: seq<char>, n: nat)
    requires n < |buffer| && buffer[n] == NUL && forall k :: 0 <= k < n ==> buffer[k] != NUL
    ensures CString(buffer) == buffer[..n]
  {
    if n > 0 {
      TextUpTo(buffer[1..], n - 1);
      assert buffer[..n] == [buffer[0]] + buffer[1..][..n - 1];
    }
  }

  lemma {:induction false} SkipSpaceFrom(t: string, p: nat)
    requires p <= |t| && (forall k :: 0 <= k < p ==> IsSpace(t[k])) && (p < |t| ==> !IsSpace(t[p]))
    ensures SkipSpace(t) == t[p..]
  {
    if p > 0 {
      SkipSpaceFrom(t[1..], p - 1);
    }
  }

  method StrLen(s: array<char>) returns (n: nat)
    requires NUL in s[..]
    ensures n < s.Length && s[n] == NUL && CString(s[..]) == s[..n]
    ensures forall k :: 0 <= k < n ==> s[k] != NUL
  {
    n := 0;
    while s[n] != NUL
      invariant n < s.Length && NUL in s[n..]
      invariant forall k :: 0 <= k < n ==> s[k] != NUL
      decreases s.Length - n
    {
      n := n + 1;
    }
    TextUpTo(s[..], n);
  }

  method FirstNonBlank(s: array<char>, n: nat) returns (p: nat)
    requires n <= s.Length
    ensures p <= n && SkipSpace(s[..n]) == s[p..n]
  {
    p := 0;
    while p < n && IsSpace(s[p])
      invariant p <= n && forall k :: 0 <= k < p ==> IsSpace(s[k])
    {
      p := p + 1;
    }
    SkipSpaceFrom(s[..n], p);
    assert s[..n][p..] == s[p..n];
  }

  // memmove of s[p..n] to the front.
  method MoveToFront(s: array<char>, p: nat, n: nat)
    requires p <= n <= s.Length
    modifies s
    ensures s[..n - p] == old(s[p..n])
  {
    for k := 0 to n - p
      invariant forall i :: 0 <= i < k ==> s[i] == old(s[p + i])
      invariant forall i :: k <= i < s.Length ==> s[i] == old(s[i])
    {
      s[k] := s[p + k];
    }
  }

  method LastNonBlank(s: array<char>, n: nat) returns (q: nat)
    requires n <= s.Length
    ensures q <= n && TrimBack(s[..n]) == s[..q]
  {
    q := n;
    while q > 0 && IsSpace(s[q - 1])
      invariant q <= n && TrimBack(s[..n]) == TrimBack(s[..q])
    {
      assert s[..q][..q - 1] == s[..q - 1];
      q := q - 1;
    }
  }

  // A NUL at q ends the text there.
  lemma CutText(b: seq<char>, t: string, q: nat)
    requires q < |b| && q <= |t| && b[q] == NUL && b[..q] == t[..q] && NUL !in t
    ensures NUL in b && CString(b) == t[..q]
  {
    forall k | 0 <= k < q ensures b[k] != NUL {
      assert b[k] == b[..q][k] == t[k];
    }
    TextUpTo(b, q);
  }

  // memmove of s[p..n] to the front, and the new end.
  method CutBlanks(s: array<char>, p: nat, n: nat)
    requires p <= n < s.Length && NUL !in s[p..n]
    modifies s
    ensures NUL in s[..] && CString(s[..]) == TrimBack(old(s[p..n]))
  {
    ghost var kept := s[p..n];
    MoveToFront(s, p, n);
    var q := LastNonBlank(s, n - p);
    s[q] := NUL;
    CutText(s[..], kept, q);
  }

  /** trim_whitespace, on the buffer itself: strlen, skip, memmove, cut. */
  method TrimWhitespace(s: array<char>)
    requires NUL in s[..]
    modifies s
    ensures NUL in s[..] && CString(s[..]) == Trim(CString(old(s[..])))
  {
    var n := StrLen(s);
    var p := FirstNonBlank(s, n);
    CutBlanks(s, p, n);
  }

  // snprintf into a buffer of `size` bytes.
  function Cut(s: string, size: nat): string
    requires 0 < size
  {
    if |s| < size then s else s[..size - 1]
  }

  const ESCAPED_PREFIX := "\\000027"
  const FAMILY := "ENET-AI"

  // The normalised copy both parsers start from; the model is the text up to its NUL.
  function Prepared(model: string): string {
    var b := Trim(Cut(model, 256));
    Trim(if ESCAPED_PREFIX <= b then b[7..] else b)
  }

  // What follows "eNET-AI", in any case of letters.
  function BodyOf(model: string): Option<string> {
    var p := Prepared(model);
    if 7 <= |p| && UpperAll(p[..7]) == FAMILY then Some(p[7..]) else None
  }

  // strtok_r on '-', to the end: the maximal runs of other characters.
  function Tokens(s: string): seq<string>
    decreases |s|
  {
    if s == "" then []
    else if s[0] == '-' then Tokens(s[1..])
    else
      var k := RunLength(s);
      [s[..k]] + Tokens(s[k..])
  }

  function RunLength(s: string): (k: nat)
    ensures k <= |s| && (s != "" && s[0] != '-' ==> 0 < k)
    ensures forall i :: 0 <= i < k ==> s[i] != '-'
    ensures k < |s| ==> s[k] == '-'
  {
    if s == "" || s[0] == '-' then 0 else 1 + RunLength(s[1..])
  }

  // The components of a model that has a core and a channel block.
  function Components(model: string): (c: Option<seq<string>>)
    ensures c.Some? ==> 2 <= |c.value|
  {
    match BodyOf(model)
    case None => None
    case Some(body) => if |Tokens(body)| < 2 then None else Some(Tokens(body))
  }

  // ---------------------------------------------------------------- options

  function OptionCode(token: string): string {
    UpperAll(Trim(Cut(token, 32)))
  }

  predicate IsRange(code: string) {
    code == "5B" || code == "10B" || code == "5U" || code == "10U"
  }

  predicate IsFour(code: string) {
    code == "4AO"
  }

  predicate IsAio(core: string) {
    core != "" && Upper(core[0]) == 'O'
  }

  // How many range codes there are among the options.
  function Ranges(tokens: seq<string>): nat {
    if tokens == [] then 0
    else Ranges(tokens[..|tokens| - 1]) + if IsRange(OptionCode(tokens[|tokens| - 1])) then 1 else 0
  }

  predicate HasFour(tokens: seq<string>) {
    exists i :: 0 <= i < |tokens| && IsFour(OptionCode(tokens[i]))
  }

  // The return code and the count; 255 is (__u8)-1.
  datatype Answer = Answer(rc: int, count: byte)

  const REJECTED := Answer(-1, 255)

  function Verdict(aio: bool, ranges: nat, four: bool): Answer {
    if ranges > 1 then REJECTED
    else if aio then (if ranges == 0 then REJECTED else Answer(0, if four then 4 else 2))
    else if ranges > 0 || four then REJECTED
    else Answer(0, 0)
  }

  function DacCount(model: string): Answer {
    match Components(model)
    case None => REJECTED
    case Some(parts) => Verdict(IsAio(parts[0]), Ranges(parts[2..]), HasFour(parts[2..]))
  }

  /** enet_ai_parse_dac_count: one pass over the options, with its two flags and its early way out. */
  method ParseDacCount(model: string) returns (a: Answer)
    ensures a == DacCount(model)
  {
    var components := Components(model);
    if components.Some? {
      a := ScanOptions(IsAio(components.value[0]), components.value[2..]);
    } else {
      a := REJECTED;
    }
  }

  method ScanOptions(hasDacs: bool, options: seq<string>) returns (a: Answer)
    ensures a == Verdict(hasDacs, Ranges(options), HasFour(options))
  {
    var seenFour, foundRange, k := false, "", 0;
    var duplicate := false;
    while k < |options| && !duplicate
      invariant 0 <= k <= |options|
      invariant seenFour == HasFour(options[..k])
      invariant Ranges(options[..k]) == (if duplicate then 2 else if foundRange == "" then 0 else 1)
      decreases |options| - k, !duplicate
    {
      var code := OptionCode(options[k]);
      OneMoreOption(options, k);
      if IsFour(code) {
        seenFour := true;
      } else if IsRange(code) {
        if foundRange == "" {
          foundRange := code;
        } else {
          duplicate := true;
        }
      }
      k := k + 1;
    }
    if duplicate {
      RangesGrow(options, k);
      a := REJECTED;
    } else {
      assert options[..k] == options;
      a := if hasDacs then (if foundRange == "" then REJECTED else Answer(0, if seenFour then 4 else 2))
           else if foundRange != "" || seenFour then REJECTED else Answer(0, 0);
    }
  }

  lemma OneMoreOption(options: seq<string>, k: nat)
    requires k < |options|
    ensures var code := OptionCode(options[k]);
            && Ranges(options[..k + 1]) == Ranges(options[..k]) + (if IsRange(code) then 1 else 0)
            && HasFour(options[..k + 1]) == (HasFour(options[..k]) || IsFour(code))
  {
    var more := options[..k + 1];
    assert more[..k] == options[..k];
    if HasFour(options[..k]) {
      var i :| 0 <= i < k && IsFour(OptionCode(options[..k][i]));
      assert IsFour(OptionCode(more[i]));
    }
    assert more[k] == options[k];
    if HasFour(more) {
      var i :| 0 <= i < k + 1 && IsFour(OptionCode(more[i]));
      assert i < k ==> IsFour(OptionCode(options[..k][i]));
    }
  }

  lemma {:induction false} RangesGrow(options: seq<string>, k: nat)
    requires k <= |options|
    ensures Ranges(options[..k]) <= Ranges(options)
  {
    if k < |options| {
      RangesGrow(options[..|options| - 1], k);
      assert options[..|options| - 1][..k] == options[..k];
    } else {
      assert options[..k] == options;
    }
  }

  // ---------------------------------------------------------------- order and unknown options do not matter

  // The options that mean something, as codes.
  function KnownCodes(tokens: seq<string>): seq<string> {
    if tokens == [] then []
    else
      var code := OptionCode(tokens[|tokens| - 1]);
      KnownCodes(tokens[..|tokens| - 1]) + if IsRange(code) || IsFour(code) then [code] else []
  }

  // Counting over a multiset of codes.
  function RangesIn(codes: multiset<string>): nat {
    codes["5B"] + codes["10B"] + codes["5U"] + codes["10U"]
  }

  lemma OneMoreCode(codes: multiset<string>, code: string)
    ensures RangesIn(codes + multiset{code}) == RangesIn(codes) + if IsRange(code) then 1 else 0
  {
    var more := codes + multiset{code};
    assert forall c :: more[c] == codes[c] + if c == code then 1 else 0;
    assert "5B"[1] != "5U"[1] && "10B"[2] != "10U"[2];
  }

  lemma {:induction false} CountsFromKnown(tokens: seq<string>)
    ensures Ranges(tokens) == RangesIn(multiset(KnownCodes(tokens)))
  {
    if tokens != [] {
      var front, code := tokens[..|tokens| - 1], OptionCode(tokens[|tokens| - 1]);
      CountsFromKnown(front);
      if IsRange(code) || IsFour(code) {
        OneMoreCode(multiset(KnownCodes(front)), code);
        assert multiset(KnownCodes(front) + [code]) == multiset(KnownCodes(front)) + multiset{code};
      }
    }
  }

  lemma {:induction false} FourFromKnown(tokens: seq<string>)
    ensures HasFour(tokens) <==> "4AO" in multiset(KnownCodes(tokens))
  {
    if tokens != [] {
      var front, code := tokens[..|tokens| - 1], OptionCode(tokens[|tokens| - 1]);
      FourFromKnown(front);
      OneMoreOption(tokens, |tokens| - 1);
      assert tokens[..|tokens|] == tokens;
    }
  }

  /** The DAC count depends on nothing but the first letter of the core and how often each meaningful option
      occurs: not on the order of the options, not on their letter case or the blanks around them, and not on
      any option it does not know. */
  lemma OnlyKnownOptionsMatter(a: string, b: string)
    requires Components(a).Some? && Components(b).Some?
    requires var p, q := Components(a).value, Components(b).value;
             IsAio(p[0]) == IsAio(q[0]) && multiset(KnownCodes(p[2..])) == multiset(KnownCodes(q[2..]))
    ensures DacCount(a) == DacCount(b)
  {
    var p, q := Components(a).value[2..], Components(b).value[2..];
    CountsFromKnown(p);
    CountsFromKnown(q);
    FourFromKnown(p);
    FourFromKnown(q);
  }

  lemma {:induction false} KnownAppend(a: seq<string>, b: seq<string>)
    ensures KnownCodes(a + b) == KnownCodes(a) + KnownCodes(b)
  {
    if b == [] {
      assert a + b == a;
    } else {
      assert (a + b)[..|a + b| - 1] == a + b[..|b| - 1];
      KnownAppend(a, b[..|b| - 1]);
    }
  }

  // One option in the middle of others.
  lemma KnownInsert(a: seq<string>, u: string, b: seq<string>)
    ensures multiset(KnownCodes(a + [u] + b)) == multiset(KnownCodes(a + b)) + multiset(KnownCodes([u]))
  {
    KnownAppend(a + [u], b);
    KnownAppend(a, [u]);
    KnownAppend(a, b);
  }

  // The elements around one occurrence of u.
  lemma Around(b: seq<string>, u: string) returns (l: seq<string>, r: seq<string>)
    requires u in b
    ensures b == l + [u] + r && multiset(l + r) == multiset(b) - multiset{u}
  {
    var k :| 0 <= k < |b| && b[k] == u;
    l, r := b[..k], b[k + 1..];
    assert b == l + [u] + r;
  }

  lemma {:induction false} KnownOfPermutation(a: seq<string>, b: seq<string>)
    requires multiset(a) == multiset(b)
    ensures multiset(KnownCodes(a)) == multiset(KnownCodes(b))
  {
    if a == [] {
      assert b == [] by {
        assert |multiset(b)| == |multiset(a)|;
      }
    } else {
      var front, u := a[..|a| - 1], a[|a| - 1];
      assert a == front + [u];
      assert u in multiset(b);
      var l, r := Around(b, u);
      assert multiset(front) == multiset(a) - multiset{u};
      KnownOfPermutation(front, l + r);
      KnownAppend(front, [u]);
      KnownInsert(l, u, r);
    }
  }

  /** The options of a model may stand in any order. */
  lemma OptionOrderDoesNotMatter(a: string, b: string)
    requires Components(a).Some? && Components(b).Some?
    requires var p, q := Components(a).value, Components(b).value;
             IsAio(p[0]) == IsAio(q[0]) && multiset(p[2..]) == multiset(q[2..])
    ensures DacCount(a) == DacCount(b)
  {
    KnownOfPermutation(Components(a).value[2..], Components(b).value[2..]);
    OnlyKnownOptionsMatter(a, b);
  }

  /** An option that means nothing here may be put in anywhere. */
  lemma UnknownOptionIsIgnored(a: string, b: string, k: nat, u: string)
    requires Components(a).Some? && Components(b).Some? && !IsRange(OptionCode(u)) && !IsFour(OptionCode(u))
    requires var p, q := Components(a).value, Components(b).value;
             2 <= k <= |p| && q == p[..k] + [u] + p[k..]
    ensures DacCount(a) == DacCount(b)
  {
    var p, q := Components(a).value, Components(b).value;
    var l, r := p[2..k], p[k..];
    assert p[2..] == l + r && q[2..] == l + [u] + r;
    KnownInsert(l, u, r);
    assert KnownCodes([u]) == KnownCodes([]) + [];
    OnlyKnownOptionsMatter(a, b);
  }

  // ---------------------------------------------------------------- the channel count

  // strtol(.., 10): the value, or None when there is no digit to read.  Larger values than a long holds are
  // clipped there, far outside the range accepted.
  function Strtol(s: string): Option<int> {
    var t := SkipSpace(s);
    var digits := StripSign(t);
    var k := DigitRun(digits, 10);
    var n: int := Value(digits[..k], 10);
    if k == 0 then None else Some(if t != "" && t[0] == '-' then -n else n)
  }

  function ChannelCount(model: string): Answer {
    match Components(model)
    case None => Answer(-1, 0)
    case Some(parts) =>
      match Strtol(Trim(Cut(parts[1], 64)))
      case None => Answer(-1, 0)
      case Some(n) => if 1 <= n <= 128 then Answer(0, n) else Answer(-1, 0)
  }

  // ---------------------------------------------------------------- a model that is printed is read back

  // A component: not empty, no '-', no blank at either end.
  predicate IsComponent(s: string) {
    s != "" && '-' !in s && !IsSpace(s[0]) && !IsSpace(s[|s| - 1])
  }

  // A board: its core ("16", or "O16" with DACs), its channels with a rate letter or more, and its options.  Its
  // number of channels need not be one that the parser takes.
  datatype Board = Board(core: string, channels: nat, rate: string, options: seq<string>)

  predicate IsBoard(b: Board) {
    IsComponent(b.core) && b.channels < 1000000 &&
    (b.rate == "" || (IsComponent(b.rate) && !IsDigit(b.rate[0], 10))) &&
    (forall i :: 0 <= i < |b.options| ==> IsComponent(b.options[i]))
  }

  function BlockOf(b: Board): string {
    ToDecimal(b.channels) + b.rate
  }

  function Dashed(parts: seq<string>): string {
    if parts == [] then "" else "-" + parts[0] + Dashed(parts[1..])
  }

  function Print(b: Board): string {
    "eNET-AI" + (b.core + Dashed([BlockOf(b)] + b.options))
  }

  // The options say what the core says: one range with DACs; none, and no fourth pair, without.
  predicate Consistent(b: Board) {
    Ranges(b.options) == (if IsAio(b.core) then 1 else 0) && (HasFour(b.options) ==> IsAio(b.core))
  }

  lemma {:induction false} RunStops(a: string, rest: string)
    requires '-' !in a && (rest == "" || rest[0] == '-')
    ensures RunLength(a + rest) == |a|
  {
    if a == "" {
      assert a + rest == rest;
    } else {
      assert (a + rest)[1..] == a[1..] + rest;
      RunStops(a[1..], rest);
    }
  }

  lemma {:induction false} TokensOfDashed(first: string, parts: seq<string>)
    requires first != "" && '-' !in first
    requires forall i :: 0 <= i < |parts| ==> parts[i] != "" && '-' !in parts[i]
    ensures Tokens(first + Dashed(parts)) == [first] + parts
    decreases |parts|
  {
    var rest := Dashed(parts);
    RunStops(first, rest);
    assert (first + rest)[..|first|] == first && (first + rest)[|first|..] == rest;
    if parts != [] {
      TokensOfDashed(parts[0], parts[1..]);
      assert rest[1..] == parts[0] + Dashed(parts[1..]);
      assert [parts[0]] + parts[1..] == parts;
    }
  }

  lemma TrimmedStays(s: string)
    requires s != "" && !IsSpace(s[0]) && !IsSpace(s[|s| - 1])
    ensures Trim(s) == s
  {
  }

  lemma {:induction false} DashedEnds(first: string, parts: seq<string>)
    requires first != "" && !IsSpace(first[|first| - 1])
    requires forall i :: 0 <= i < |parts| ==> parts[i] != "" && !IsSpace(parts[i][|parts[i]| - 1])
    ensures var s := first + Dashed(parts); !IsSpace(s[|s| - 1])
    decreases |parts|
  {
    if parts != [] {
      DashedEnds(parts[0], parts[1..]);
      assert first + Dashed(parts) == first + "-" + (parts[0] + Dashed(parts[1..]));
    }
  }

  lemma BlockIsComponent(b: Board)
    requires IsBoard(b)
    ensures IsComponent(BlockOf(b))
  {
    DecimalReads(b.channels);
    var d, s := ToDecimal(b.channels), BlockOf(b);
    forall k | 0 <= k < |s| ensures s[k] != '-' {
      assert if k < |d| then s[k] == d[k] && d[k] in d else s[k] == b.rate[k - |d|] && s[k] in b.rate;
    }
    assert s[0] in d && (b.rate == "" ==> s[|s| - 1] in d);
  }

  lemma PrintedBody(body: string)
    requires body != "" && !IsSpace(body[|body| - 1]) && 7 + |body| <= 255
    ensures BodyOf("eNET-AI" + body) == Some(body)
  {
    var s := "eNET-AI" + body;
    assert s[|s| - 1] == body[|body| - 1] && s[0] == 'e' && ESCAPED_PREFIX[0] != 'e';
    TrimmedStays(s);
    assert Prepared(s) == s;
    assert s[..7] == "eNET-AI" && s[7..] == body;
    FamilyMatches();
  }

  lemma PrintedTokens(b: Board)
    requires IsBoard(b)
    ensures var body := b.core + Dashed([BlockOf(b)] + b.options);
            Tokens(body) == [b.core, BlockOf(b)] + b.options && !IsSpace(body[|body| - 1])
  {
    var parts := [BlockOf(b)] + b.options;
    BlockIsComponent(b);
    DashedEnds(b.core, parts);
    TokensOfDashed(b.core, parts);
    assert [b.core] + parts == [b.core, BlockOf(b)] + b.options;
  }

  lemma PrintedParts(b: Board)
    requires IsBoard(b) && |Print(b)| <= 255
    ensures Components(Print(b)) == Some([b.core, BlockOf(b)] + b.options)
  {
    PrintedTokens(b);
    PrintedBody(b.core + Dashed([BlockOf(b)] + b.options));
  }

  lemma FamilyMatches()
    ensures UpperAll("eNET-AI") == FAMILY
  {
  }

  lemma {:induction false} TrimBackKeeps(d: string, r: string)
    requires d != "" && !IsSpace(d[|d| - 1])
    ensures TrimBack(d + r) == d + TrimBack(r) && TrimBack(r) <= r
  {
    var s := d + r;
    if r == "" {
      assert s == d;
    } else if IsSpace(r[|r| - 1]) {
      assert s[..|s| - 1] == d + r[..|r| - 1];
      TrimBackKeeps(d, r[..|r| - 1]);
    }
  }

  lemma ShortDecimal(n: nat)
    requires n < 1000000
    ensures |ToDecimal(n)| <= 6
  {
    assert |ToDecimal(n / 10 / 10 / 10 / 10)| <= 2 by {
      assert |ToDecimal(n / 10 / 10 / 10 / 10 / 10)| == 1;
    }
    assert |ToDecimal(n / 10 / 10)| <= 4;
  }

  // Digits and then something else, or nothing, read as the number.
  lemma StrtolDigits(d: string, rest: string)
    requires d != "" && AllDigits(d, 10) && (rest == "" || !IsDigit(rest[0], 10))
    ensures Strtol(d + rest) == Some(Value(d, 10))
  {
    assert IsDigit(d[0], 10);
    DigitIsPlain(d[0], 10);
    DigitRunStops(d, rest, 10);
    assert (d + rest)[..|d|] == d;
  }

  lemma BlockReads(b: Board)
    requires IsBoard(b)
    ensures Strtol(Trim(Cut(BlockOf(b), 64))) == Some(b.channels)
  {
    var d := ToDecimal(b.channels);
    DecimalReads(b.channels);
    ShortDecimal(b.channels);
    var r := b.rate[..if |d + b.rate| < 64 then |b.rate| else 63 - |d|];
    assert Cut(BlockOf(b), 64) == d + r;
    assert IsDigit(d[0], 10) && IsDigit(d[|d| - 1], 10);
    DigitIsPlain(d[0], 10);
    DigitIsPlain(d[|d| - 1], 10);
    TrimBackKeeps(d, r);
    var rest := TrimBack(r);
    assert Trim(d + r) == d + rest;
    assert rest != "" ==> rest[0] == b.rate[0];
    StrtolDigits(d, rest);
  }

  /** Round trip.  For every board whose model fits the parsers' buffer, whatever the order of its options and
      whatever other options it has: the channel count is read back exactly when it is from 1 to 128, and the DAC
      count is accepted exactly when the options are consistent with the core, and is then 0 without DACs, 4 with
      "4AO" and 2 without. */
  lemma PrintedModelReadsBack(b: Board)
    requires IsBoard(b) && |Print(b)| <= 255
    ensures ChannelCount(Print(b)) == if 1 <= b.channels <= 128 then Answer(0, b.channels) else Answer(-1, 0)
    ensures DacCount(Print(b)) ==
            if Consistent(b) then Answer(0, if !IsAio(b.core) then 0 else if HasFour(b.options) then 4 else 2)
            else REJECTED
  {
    PrintedParts(b);
    var parts := [b.core, BlockOf(b)] + b.options;
    assert parts[2..] == b.options;
    BlockReads(b);
  }

  // ---------------------------------------------------------------- letter case, blanks and the escaped prefix

  lemma UpperParts(s: string, k: nat)
    requires k <= |s|
    ensures UpperAll(s)[..k] == UpperAll(s[..k]) && UpperAll(s)[k..] == UpperAll(s[k..])
  {
  }

  lemma {:induction false} SkipSpaceUpper(s: string)
    ensures SkipSpace(UpperAll(s)) == UpperAll(SkipSpace(s))
  {
    if s != "" && IsSpace(s[0]) {
      UpperParts(s, 1);
      SkipSpaceUpper(s[1..]);
    }
  }

  lemma {:induction false} TrimBackUpper(s: string)
    ensures TrimBack(UpperAll(s)) == UpperAll(TrimBack(s))
  {
    if s != "" && IsSpace(s[|s| - 1]) {
      UpperParts(s, |s| - 1);
      TrimBackUpper(s[..|s| - 1]);
    }
  }

  lemma TrimUpper(s: string, size: nat)
    requires 0 < size
    ensures Trim(Cut(UpperAll(s), size)) == UpperAll(Trim(Cut(s, size)))
  {
    if |s| >= size {
      UpperParts(s, size - 1);
    }
    SkipSpaceUpper(Cut(s, size));
    TrimBackUpper(SkipSpace(Cut(s, size)));
  }

  lemma UpperTwice(s: string)
    ensures UpperAll(UpperAll(s)) == UpperAll(s)
  {
  }

  lemma PreparedUpper(model: string)
    ensures Prepared(UpperAll(model)) == UpperAll(Prepared(model))
  {
    var b := Trim(Cut(model, 256));
    TrimUpper(model, 256);
    EscapedEitherWay(b);
    var rest := if ESCAPED_PREFIX <= b then b[7..] else b;
    if ESCAPED_PREFIX <= b {
      UpperParts(b, 7);
    }
    SkipSpaceUpper(rest);
    TrimBackUpper(SkipSpace(rest));
  }

  lemma EscapedEitherWay(b: string)
    ensures ESCAPED_PREFIX <= UpperAll(b) <==> ESCAPED_PREFIX <= b
  {
    if |b| >= 7 {
      assert forall k :: 0 <= k < 7 ==> ESCAPED_PREFIX[k] < 'A' || ESCAPED_PREFIX[k] == '\\';
      assert forall k :: 0 <= k < 7 ==> (UpperAll(b)[k] == ESCAPED_PREFIX[k] <==> b[k] == ESCAPED_PREFIX[k]);
    }
  }

  lemma BodyUpper(model: string)
    ensures BodyOf(UpperAll(model)) == match BodyOf(model) case None => None case Some(body) => Some(UpperAll(body))
  {
    PreparedUpper(model);
    var p := Prepared(model);
    if 7 <= |p| {
      UpperParts(p, 7);
      UpperTwice(p[..7]);
    }
  }

  function UpperEach(parts: seq<string>): (r: seq<string>)
    ensures |r| == |parts| && forall i :: 0 <= i < |parts| ==> r[i] == UpperAll(parts[i])
  {
    seq(|parts|, i requires 0 <= i < |parts| => UpperAll(parts[i]))
  }

  lemma {:induction false} RunUpper(s: string)
    ensures RunLength(UpperAll(s)) == RunLength(s)
  {
    if s != "" && s[0] != '-' {
      UpperParts(s, 1);
      RunUpper(s[1..]);
    }
  }

  lemma {:induction false} TokensUpper(s: string)
    ensures Tokens(UpperAll(s)) == UpperEach(Tokens(s))
    decreases |s|
  {
    if s != "" {
      if s[0] == '-' {
        UpperParts(s, 1);
        TokensUpper(s[1..]);
      } else {
        var k := RunLength(s);
        RunUpper(s);
        UpperParts(s, k);
        TokensUpper(s[k..]);
        assert UpperEach(Tokens(s)) == [UpperAll(s[..k])] + UpperEach(Tokens(s[k..]));
      }
    }
  }

  lemma OptionUpper(token: string)
    ensures OptionCode(UpperAll(token)) == OptionCode(token)
  {
    TrimUpper(token, 32);
    UpperTwice(Trim(Cut(token, 32)));
  }

  lemma {:induction false} KnownUpper(tokens: seq<string>)
    ensures KnownCodes(UpperEach(tokens)) == KnownCodes(tokens)
  {
    if tokens != [] {
      var front := tokens[..|tokens| - 1];
      KnownUpper(front);
      OptionUpper(tokens[|tokens| - 1]);
      assert UpperEach(tokens)[..|front|] == UpperEach(front);
    }
  }

  lemma {:induction false} DigitsUpper(s: string)
    ensures DigitRun(UpperAll(s), 10) == DigitRun(s, 10)
    ensures UpperAll(s)[..DigitRun(s, 10)] == s[..DigitRun(s, 10)]
  {
    if s != "" && IsDigit(s[0], 10) {
      UpperParts(s, 1);
      DigitsUpper(s[1..]);
      var k, u := DigitRun(s[1..], 10), UpperAll(s);
      assert u[..k + 1] == [u[0]] + u[1..][..k] && s[..k + 1] == [s[0]] + s[1..][..k];
    }
  }

  lemma StrtolUpper(s: string)
    ensures Strtol(UpperAll(s)) == Strtol(s)
  {
    var t := SkipSpace(s);
    SkipSpaceUpper(s);
    if t != "" {
      UpperParts(t, 1);
    }
    assert StripSign(UpperAll(t)) == UpperAll(StripSign(t));
    DigitsUpper(StripSign(t));
  }

  lemma ComponentsUpper(model: string)
    ensures Components(UpperAll(model)) ==
            match Components(model) case None => None case Some(parts) => Some(UpperEach(parts))
  {
    BodyUpper(model);
    if BodyOf(model).Some? {
      TokensUpper(BodyOf(model).value);
    }
  }

  lemma DacCountUpper(model: string, parts: seq<string>)
    requires Components(model) == Some(parts) && Components(UpperAll(model)) == Some(UpperEach(parts))
    ensures DacCount(UpperAll(model)) == DacCount(model)
  {
    assert UpperEach(parts)[2..] == UpperEach(parts[2..]);
    KnownUpper(parts[2..]);
    assert IsAio(UpperEach(parts)[0]) == IsAio(parts[0]);
    OnlyKnownOptionsMatter(UpperAll(model), model);
  }

  lemma ChannelCountUpper(model: string, parts: seq<string>)
    requires Components(model) == Some(parts) && Components(UpperAll(model)) == Some(UpperEach(parts))
    ensures ChannelCount(UpperAll(model)) == ChannelCount(model)
  {
    TrimUpper(parts[1], 64);
    StrtolUpper(Trim(Cut(parts[1], 64)));
  }

  /** A model may be written in letters of any case: putting all of it into capitals changes neither count. */
  lemma LetterCaseDoesNotMatter(model: string)
    ensures DacCount(UpperAll(model)) == DacCount(model) && ChannelCount(UpperAll(model)) == ChannelCount(model)
  {
    ComponentsUpper(model);
    if Components(model).Some? {
      DacCountUpper(model, Components(model).value);
      ChannelCountUpper(model, Components(model).value);
    }
  }

  lemma TrimmedOf(blanks: string, text: string, after: string)
    requires AllSpace(blanks) && AllSpace(after) && text != "" && !IsSpace(text[0]) && !IsSpace(text[|text| - 1])
    ensures Trim(blanks + (text + after)) == text
  {
    SkipSpaceStops(blanks, text + after);
    TrimBackStops(text, after);
  }

  // A model with no blank at its ends, that does not begin with the escaped prefix.
  predicate IsPlain(model: string) {
    model != "" && !IsSpace(model[0]) && !IsSpace(model[|model| - 1]) && !("\\000027" <= model)
  }

  lemma PreparedIs(b1: string, escape: string, b2: string, model: string, b3: string)
    requires IsPlain(model) && AllSpace(b1) && AllSpace(b2) && AllSpace(b3)
    requires (escape == "" && b2 == "") || escape == "\\000027"
    requires |b1 + (escape + b2 + model + b3)| <= 255
    ensures Prepared(b1 + (escape + b2 + model + b3)) == model
  {
    var text := escape + b2 + model;
    assert text[|text| - 1] == model[|model| - 1];
    assert text[0] == if escape == "" then model[0] else escape[0];
    TrimmedOf(b1, text, b3);
    if escape == "" {
      assert text == model;
      TrimmedStays(model);
    } else {
      assert text[..7] == escape && text[7..] == b2 + (model + "");
      TrimmedOf(b2, model, "");
    }
  }

  /** Blanks around a model, and the escaped prefix "\000027" with blanks after it, change neither count. */
  lemma BlanksAndPrefixDoNotMatter(b1: string, escape: string, b2: string, model: string, b3: string)
    requires IsPlain(model) && AllSpace(b1) && AllSpace(b2) && AllSpace(b3)
    requires (escape == "" && b2 == "") || escape == "\\000027"
    requires |b1 + (escape + b2 + model + b3)| <= 255
    ensures var m := b1 + (escape + b2 + model + b3);
            DacCount(m) == DacCount(model) && ChannelCount(m) == ChannelCount(model)
  {
    PreparedIs(b1, escape, b2, model, b3);
    PreparedIs("", "", "", model, "");
    assert "" + ("" + "" + model + "") == model;
  }

  /** An option is what is left of its component without blanks around it, in capitals. */
  lemma OptionOf(blanks: string, text: string, after: string)
    requires AllSpace(blanks) && AllSpace(after) && IsComponent(text) && |blanks + (text + after)| < 32
    ensures OptionCode(blanks + (text + after)) == UpperAll(text)
  {
    TrimmedOf(blanks, text, after);
  }

  lemma UpperOfThree(text: string)
    ensures UpperAll(text) == "4AO" <==>
            |text| == 3 && text[0] == '4' && (text[1] == 'A' || text[1] == 'a') && (text[2] == 'O' || text[2] == 'o')
  {
    if |text| == 3 {
      var u := UpperAll(text);
      assert u == [u[0], u[1], u[2]];
    }
  }

  lemma UpperOfRange(text: string)
    ensures UpperAll(text) in ["5B", "5U", "10B", "10U"] <==> text in ["5B", "5b", "5U", "5u", "10B", "10b", "10U", "10u"]
  {
    var u := UpperAll(text);
    if |text| == 2 {
      assert u == [u[0], u[1]] && text == [text[0], text[1]];
    } else if |text| == 3 {
      assert u == [u[0], u[1], u[2]] && text == [text[0], text[1], text[2]];
    }
  }

  /** Which components mean something: with blanks around it, "4AO" in letters of any case, and the four ranges;
      and a core has DACs exactly when it begins with an O of either case. */
  lemma OptionsByName(blanks: string, text: string, after: string)
    requires AllSpace(blanks) && AllSpace(after) && IsComponent(text) && |blanks + (text + after)| < 32
    ensures var code := OptionCode(blanks + (text + after));
            && (IsFour(code) <==> |text| == 3 && text[0] == '4' && text[1] in "aA" && text[2] in "oO")
            && (IsRange(code) <==> text in ["5B", "5b", "5U", "5u", "10B", "10b", "10U", "10u"])
            && (IsAio(text) <==> text[0] in "oO")
  {
    OptionOf(blanks, text, after);
    UpperOfThree(text);
    UpperOfRange(text);
    assert "aA"[0] == 'a' && "aA"[1] == 'A' && "oO"[0] == 'o' && "oO"[1] == 'O';
  }
}
