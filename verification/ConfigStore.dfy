/** Saving the configuration to its files and loading it back (config.cpp): the layers a read falls through,
    the text of numbers, and every saved field. */
module ConfigStore {
  import opened Wrappers
  import opened Bytes
  import opened Text
  import ConfigSeed

  type Tree = ConfigSeed.Tree

  // Directory to files.
  type Disk = map<string, Tree>

  const CURRENT := "config.current/"
  const FACTORY := "config.factory/"
  const USER := "config.user/"

  function Layer(d: Disk, which: string): Tree {
    if which in d then d[which] else map[]
  }

  function FileOf(key: string): string {
    key + ".conf"
  }

  // ---------------------------------------------------------------- reading one text

  const CR: char := 13 as char
  const LF: char := 10 as char

  function StripEol(s: string): (r: string)
    ensures r <= s
  {
    if s != "" && (s[|s| - 1] == LF || s[|s| - 1] == CR) then StripEol(s[..|s| - 1]) else s
  }

  // ReadConfigStringRaw: at most 1023 bytes, as a C string, without its line end.
  function ReadText(s: string): string {
    StripEol(CString(s[..if |s| <= 1023 then |s| else 1023]))
  }

  predicate Storable(s: string) {
    |s| <= 1023 && NUL !in s && (s != "" ==> s[|s| - 1] != LF && s[|s| - 1] != CR)
  }

  lemma {:induction false} CStringWhole(s: string)
    ensures CString(s) == s <==> NUL !in s
  {
    if s != "" {
      CStringWhole(s[1..]);
      assert s == [s[0]] + s[1..];
    }
  }

  /** A text comes back from its file as it was written exactly when it is short enough, holds no NUL and does
      not end in a line end. */
  lemma TextReadsBackIff(s: string)
    ensures ReadText(s) == s <==> Storable(s)
  {
    CStringWhole(s);
    assert |s| <= 1023 ==> s[..|s|] == s;
  }

  // ---------------------------------------------------------------- the layers

  // ReadConfigString: the layer asked for, then, for a user layer, current, and at last factory.
  function ReadConfigString(d: Disk, key: string, which: string): Option<string> {
    var name := FileOf(key);
    if name in Layer(d, which) then Some(ReadText(Layer(d, which)[name]))
    else if USER <= which && name in Layer(d, CURRENT) then Some(ReadText(Layer(d, CURRENT)[name]))
    else if name in Layer(d, FACTORY) then Some(ReadText(Layer(d, FACTORY)[name]))
    else None
  }

  // One tree laid over another.
  function Over(top: Tree, bottom: Tree): Tree {
    bottom + top
  }

  function Overlay(d: Disk, which: string): Tree {
    Over(Layer(d, which), if USER <= which then Over(Layer(d, CURRENT), Layer(d, FACTORY)) else Layer(d, FACTORY))
  }

  /** A read is a lookup in the layers merged: user over current over factory, or any other layer over factory. */
  lemma ReadIsOverlayLookup(d: Disk, key: string, which: string)
    ensures ReadConfigString(d, key, which) ==
            if FileOf(key) in Overlay(d, which) then Some(ReadText(Overlay(d, which)[FileOf(key)])) else None
  {
  }

  /** Only the user's layers fall through to the current one: a file that is nowhere else is found from there,
      from the current layer itself, and from no other. */
  lemma FoundOnlyInCurrent(d: Disk, key: string, which: string)
    requires FileOf(key) in Layer(d, "config.current/") && FileOf(key) !in Layer(d, "config.factory/")
    requires which != "config.current/" ==> FileOf(key) !in Layer(d, which)
    ensures ReadConfigString(d, key, which).Some? <==> which == "config.current/" || "config.user/" <= which
  {
  }

  // ---------------------------------------------------------------- numbers

  datatype Value = Chars(s: string) | Byte(b: byte) | Word(w: u32)

  // The text a value is stored as; a float is the word with its bits.
  function Encode(v: Value): string {
    match v
    case Chars(s) => s
    case Byte(b) => ToHex(b, 2)
    case Word(w) => ToHex(w, 8)
  }

  datatype Kind = CharsKind | ByteKind | WordKind

  predicate Fits(k: Kind, v: Value) {
    match k
    case CharsKind => v.Chars?
    case ByteKind => v.Byte?
    case WordKind => v.Word?
  }

  // What reading a text as a value of a kind gives: the value, -EINVAL, or the exception of std::stoul.
  datatype Decoded = Got(v: Value) | Invalid | Threw

  function Decode(k: Kind, text: string): Decoded {
    match k
    case CharsKind => Got(Chars(text))
    case ByteKind => if |text| < 2 then Invalid else FromHex(k, Stoul(text, 16))
    case WordKind => if |text| < 8 then Invalid else FromHex(k, Stoul(text, 16))
  }

  // The casts to __u8 and __u32.
  function FromHex(k: Kind, n: Option<nat>): Decoded {
    match n
    case None => Threw
    case Some(n) => Got(if k.ByteKind? then Byte(n % 0x100) else Word(n % 0x1_0000_0000))
  }

  // What a value is after it went to its file and back.
  function Restored(v: Value): Value {
    if v.Chars? then Chars(ReadText(v.s)) else v
  }

  lemma HexIsStorable(v: nat, width: nat)
    requires 0 < width <= 8 && v < Pow16(width)
    ensures Storable(ToHex(v, width))
  {
    HexReads(v, width);
    var s := ToHex(v, width);
    assert s[|s| - 1] in s;
  }

  lemma HexDecodes(v: nat, width: nat)
    requires 0 < width <= 8 && v < Pow16(width) <= 0x1_0000_0000
    ensures ReadText(ToHex(v, width)) == ToHex(v, width) && Stoul(ToHex(v, width), 16) == Some(v)
  {
    HexReads(v, width);
    HexIsStorable(v, width);
    TextReadsBackIff(ToHex(v, width));
    StoulDigits(ToHex(v, width), 16);
  }

  lemma DecodeByte(text: string, b: byte)
    requires |text| == 2 && Stoul(text, 16) == Some(b)
    ensures Decode(ByteKind, text) == Got(Byte(b))
  {
    assert FromHex(ByteKind, Some(b)) == Got(Byte(b));
  }

  lemma DecodeWord(text: string, w: u32)
    requires |text| == 8 && Stoul(text, 16) == Some(w)
    ensures Decode(WordKind, text) == Got(Word(w))
  {
    assert FromHex(WordKind, Some(w)) == Got(Word(w));
  }

  /** Every number survives its text bit for bit. */
  lemma ValueReadsBack(k: Kind, v: Value)
    requires Fits(k, v)
    ensures Decode(k, ReadText(Encode(v))) == Got(Restored(v))
  {
    PowersOf16();
    match v
    case Chars(_) =>
    case Byte(b) =>
      HexDecodes(b, 2);
      DecodeByte(ToHex(b, 2), b);
    case Word(w) =>
      HexDecodes(w, 8);
      DecodeWord(ToHex(w, 8), w);
  }

  // ---------------------------------------------------------------- the fields

  type Four = i: nat | i < 4
  type Eight = i: nat | i < 8
  type Sixteen = i: nat | i < 16

  // The saved fields of TConfig.
  datatype Field =
    | Model | AdcChannels | Description | SerialNumber
    | DacScale(ch: Four) | DacOffset(ch: Four) | AdcScale(range: Eight) | AdcOffset(range: Eight)
    | NumDacs | DacRange(ch: Four)
    | AdcDifferential | AdcRangeCode(adcCh: Sixteen)
    | NumberOfSubmuxes | SubmuxBarcode(i: Four) | SubmuxType(i: Four) | SubmuxScale(i: Four, g: Four)
    | SubmuxOffset(i: Four, g: Four)

  type Config = map<Field, Value>

  function KindOf(f: Field): Kind {
    match f
    case Model => CharsKind
    case Description => CharsKind
    case SerialNumber => CharsKind
    case SubmuxBarcode(_) => CharsKind
    case SubmuxType(_) => CharsKind
    case AdcChannels => ByteKind
    case NumDacs => ByteKind
    case AdcDifferential => ByteKind
    case NumberOfSubmuxes => ByteKind
    case _ => WordKind
  }

  function Digit(i: nat): string
    requires i < 10
  {
    [DigitOf(i)]
  }

  function KeyOf(f: Field): string {
    match f
    case Model => "BRD_Model"
    case AdcChannels => "BRD_NumberOfAdcChannels"
    case Description => "BRD_Description"
    case SerialNumber => "BRD_SerialNumber"
    case DacScale(ch) => "DAC_ScaleCh" + Digit(ch)
    case DacOffset(ch) => "DAC_OffsetCh" + Digit(ch)
    case AdcScale(r) => "ADC_ScaleRange" + Digit(r)
    case AdcOffset(r) => "ADC_OffsetRange" + Digit(r)
    case NumDacs => "BRD_NUM_DACs"
    case DacRange(ch) => "DAC_RangeCh" + Digit(ch)
    case AdcDifferential => "ADC_Differential"
    case AdcRangeCode(ch) => "ADC_RangeCodeCh" + Digit(ch / 10) + Digit(ch % 10)
    case NumberOfSubmuxes => "BRD_NumberOfSubmuxes"
    case SubmuxBarcode(i) => "BRD_SubmuxBarcode" + Digit(i)
    case SubmuxType(i) => "BRD_SubmuxType" + Digit(i)
    case SubmuxScale(i, g) => "BRD_Submux" + Digit(i) + "Range" + Digit(g)
    case SubmuxOffset(i, g) => "BRD_Submux" + Digit(i) + "Offset" + Digit(g)
  }

  // What tells the families of keys apart: the length, and the characters at 0, 4 and, in the longest
  // shared length, 10.
  datatype Shape = Shape(len: nat, first: char, fifth: char, mark: char, last: char)

  function DigitChar(i: nat): char
    requires i < 10
  {
    DigitOf(i)
  }

  function ShapeOf(f: Field): Shape {
    match f
    case Model => Shape(9, 'B', 'M', '-', 'l')
    case AdcChannels => Shape(23, 'B', 'N', '-', 's')
    case Description => Shape(15, 'B', 'D', '-', 'n')
    case SerialNumber => Shape(16, 'B', 'S', '-', 'r')
    case DacScale(ch) => Shape(12, 'D', 'S', '-', DigitChar(ch))
    case DacOffset(ch) => Shape(13, 'D', 'O', '-', DigitChar(ch))
    case AdcScale(r) => Shape(15, 'A', 'S', '-', DigitChar(r))
    case AdcOffset(r) => Shape(16, 'A', 'O', '-', DigitChar(r))
    case NumDacs => Shape(12, 'B', 'N', '-', 's')
    case DacRange(ch) => Shape(12, 'D', 'R', '-', DigitChar(ch))
    case AdcDifferential => Shape(16, 'A', 'D', '-', 'l')
    case AdcRangeCode(ch) => Shape(17, 'A', 'R', DigitChar(ch / 10), DigitChar(ch % 10))
    case NumberOfSubmuxes => Shape(20, 'B', 'N', '-', 's')
    case SubmuxBarcode(i) => Shape(18, 'B', 'S', 'B', DigitChar(i))
    case SubmuxType(i) => Shape(15, 'B', 'S', '-', DigitChar(i))
    case SubmuxScale(i, g) => Shape(17, 'B', 'S', DigitChar(i), DigitChar(g))
    case SubmuxOffset(i, g) => Shape(18, 'B', 'S', DigitChar(i), DigitChar(g))
  }

  // The same, read off a key.
  function ShapeOfKey(k: string): Shape
    requires 9 <= |k|
  {
    Shape(|k|, k[0], k[4],
          if |k| == 17 && k[0] == 'A' then k[15] else if |k| == 17 || |k| == 18 then k[10] else '-', k[|k| - 1])
  }

  lemma SubmuxKeyHasShape(f: Field)
    requires f.SubmuxBarcode? || f.SubmuxType? || f.SubmuxScale? || f.SubmuxOffset?
    ensures 9 <= |KeyOf(f)| && ShapeOfKey(KeyOf(f)) == ShapeOf(f)
  {
  }

  lemma KeyHasShape(f: Field)
    ensures 9 <= |KeyOf(f)| && ShapeOfKey(KeyOf(f)) == ShapeOf(f)
  {
    if f.SubmuxBarcode? || f.SubmuxType? || f.SubmuxScale? || f.SubmuxOffset? {
      SubmuxKeyHasShape(f);
    }
  }

  lemma ShapesDiffer(f: Field, g: Field)
    requires ShapeOf(f) == ShapeOf(g)
    ensures f == g
  {
  }

  /** No two fields share a key. */
  lemma KeysDiffer(f: Field, g: Field)
    requires KeyOf(f) == KeyOf(g)
    ensures f == g
  {
    KeyHasShape(f);
    KeyHasShape(g);
    ShapesDiffer(f, g);
  }

  lemma FilesDiffer(f: Field, g: Field)
    requires FileOf(KeyOf(f)) == FileOf(KeyOf(g))
    ensures f == g
  {
    assert FileOf(KeyOf(f))[..|KeyOf(f)|] == KeyOf(f) && FileOf(KeyOf(g))[..|KeyOf(g)|] == KeyOf(g);
    KeysDiffer(f, g);
  }

  // ---------------------------------------------------------------- the orders they are saved and loaded in

  const CALIBRATION: seq<Field> :=
    seq(4, i requires 0 <= i < 4 => DacScale(i)) + seq(4, i requires 0 <= i < 4 => DacOffset(i)) +
    seq(8, i requires 0 <= i < 8 => AdcScale(i)) + seq(8, i requires 0 <= i < 8 => AdcOffset(i))

  const DAC_FIELDS: seq<Field> := [NumDacs] + seq(4, i requires 0 <= i < 4 => DacRange(i))

  const ADC_FIELDS: seq<Field> := [AdcDifferential] + seq(16, i requires 0 <= i < 16 => AdcRangeCode(i))

  const SUBMUX_FIELDS: seq<Field> :=
    [NumberOfSubmuxes] +
    seq(4, i requires 0 <= i < 4 => SubmuxBarcode(i)) + seq(4, i requires 0 <= i < 4 => SubmuxType(i)) +
    seq(16, i requires 0 <= i < 16 => SubmuxScale(i / 4, i % 4)) +
    seq(16, i requires 0 <= i < 16 => SubmuxOffset(i / 4, i % 4))

  const REST: seq<Field> := CALIBRATION + DAC_FIELDS + ADC_FIELDS + SUBMUX_FIELDS

  const LOAD_ORDER: seq<Field> := [Model, AdcChannels, Description, SerialNumber] + REST
  const SAVE_ORDER: seq<Field> := [Description, Model, AdcChannels, SerialNumber] + REST

  lemma CalibrationHas(f: Field)
    requires f.DacScale? || f.DacOffset? || f.AdcScale? || f.AdcOffset?
    ensures f in CALIBRATION
  {
    match f
    case DacScale(i) => assert seq(4, i requires 0 <= i < 4 => DacScale(i))[i] == f;
    case DacOffset(i) => assert seq(4, i requires 0 <= i < 4 => DacOffset(i))[i] == f;
    case AdcScale(i) => assert seq(8, i requires 0 <= i < 8 => AdcScale(i))[i] == f;
    case AdcOffset(i) => assert seq(8, i requires 0 <= i < 8 => AdcOffset(i))[i] == f;
  }

  lemma SubmuxHas(f: Field)
    requires f.NumberOfSubmuxes? || f.SubmuxBarcode? || f.SubmuxType? || f.SubmuxScale? || f.SubmuxOffset?
    ensures f in SUBMUX_FIELDS
  {
    match f
    case NumberOfSubmuxes =>
    case SubmuxBarcode(i) => assert seq(4, i requires 0 <= i < 4 => SubmuxBarcode(i))[i] == f;
    case SubmuxType(i) => assert seq(4, i requires 0 <= i < 4 => SubmuxType(i))[i] == f;
    case SubmuxScale(i, g) => assert seq(16, i requires 0 <= i < 16 => SubmuxScale(i / 4, i % 4))[4 * i + g] == f;
    case SubmuxOffset(i, g) => assert seq(16, i requires 0 <= i < 16 => SubmuxOffset(i / 4, i % 4))[4 * i + g] == f;
  }

  /** Every field is saved and loaded. */
  lemma EveryField(f: Field)
    ensures f in SAVE_ORDER && f in LOAD_ORDER
  {
    if f.DacScale? || f.DacOffset? || f.AdcScale? || f.AdcOffset? {
      CalibrationHas(f);
    } else if f.NumberOfSubmuxes? || f.SubmuxBarcode? || f.SubmuxType? || f.SubmuxScale? || f.SubmuxOffset? {
      SubmuxHas(f);
    } else if f.DacRange? {
      assert seq(4, i requires 0 <= i < 4 => DacRange(i))[f.ch] == f;
    } else if f.AdcRangeCode? {
      assert seq(16, i requires 0 <= i < 16 => AdcRangeCode(i))[f.adcCh] == f;
    }
  }

  // ---------------------------------------------------------------- saving and loading

  ghost predicate Valid(c: Config) {
    forall f: Field :: f in c && Fits(KindOf(f), c[f])
  }

  // WriteConfigString
  function Put(d: Disk, which: string, key: string, text: string): Disk {
    d[which := Layer(d, which)[FileOf(key) := text]]
  }

  function Saved(d: Disk, which: string, c: Config, order: seq<Field>): Disk
    requires forall f :: f in order ==> f in c
  {
    if order == [] then d
    else
      var f := order[|order| - 1];
      Put(Saved(d, which, c, order[..|order| - 1]), which, KeyOf(f), Encode(c[f]))
  }

  datatype Loading = Loaded(c: Config) | Aborted(c: Config)

  // One HandleError(ReadConfig..(..)): errors leave the field alone, an exception leaves LoadConfig.
  function LoadField(d: Disk, which: string, c: Config, f: Field): Loading {
    match ReadConfigString(d, KeyOf(f), which)
    case None => Loaded(c)
    case Some(text) =>
      match Decode(KindOf(f), text)
      case Got(v) => Loaded(c[f := v])
      case Invalid => Loaded(c)
      case Threw => Aborted(c)
  }

  // How one field is loaded, given a disk and a layer.
  type Loader = (Config, Field) -> Loading

  function LoaderOf(d: Disk, which: string): Loader {
    (c: Config, f: Field) => LoadField(d, which, c, f)
  }

  function LoadAll(load: Loader, c: Config, order: seq<Field>): Loading
    decreases |order|
  {
    if order == [] then Loaded(c)
    else
      var r := load(c, order[0]);
      if r.Aborted? then r else LoadAll(load, r.c, order[1..])
  }

  class ConfigFiles {
    var disk: Disk
    var config: Config

    constructor (d: Disk, c: Config)
      ensures disk == d && config == c
    {
      disk, config := d, c;
    }

    /** SaveConfig: every field in turn. */
    method SaveConfig(which: string)
      requires Valid(config)
      modifies this`disk
      ensures disk == Saved(old(disk), which, config, SAVE_ORDER)
    {
      var order := SAVE_ORDER;
      for i := 0 to |order|
        invariant disk == Saved(old(disk), which, config, order[..i])
      {
        assert order[..i + 1][..i] == order[..i];
        disk := Put(disk, which, KeyOf(order[i]), Encode(config[order[i]]));
      }
      assert order[..|order|] == order;
    }

    /** LoadConfig after the host name; `ok` is false when an exception left it. */
    method LoadConfig(which: string) returns (ok: bool)
      modifies this`config
      ensures LoadAll(LoaderOf(disk, which), old(config), LOAD_ORDER) == if ok then Loaded(config) else Aborted(config)
    {
      ok := LoadFields(LoaderOf(disk, which), LOAD_ORDER);
    }

    method LoadFields(load: Loader, order: seq<Field>) returns (ok: bool)
      modifies this`config
      ensures LoadAll(load, old(config), order) == if ok then Loaded(config) else Aborted(config)
    {
      var i := 0;
      ok := true;
      assert order[0..] == order;
      while i < |order| && ok
        invariant 0 <= i <= |order|
        invariant LoadAll(load, old(config), order) ==
                  if ok then LoadAll(load, config, order[i..]) else Aborted(config)
        decreases |order| - i, ok
      {
        var r := load(config, order[i]);
        assert order[i..][1..] == order[i + 1..];
        ok, config := r.Loaded?, r.c;
        i := i + 1;
      }
    }
  }

  lemma {:induction false} SavedHolds(d: Disk, which: string, c: Config, order: seq<Field>, f: Field)
    requires Valid(c) && f in order
    ensures var t := Layer(Saved(d, which, c, order), which);
            FileOf(KeyOf(f)) in t && t[FileOf(KeyOf(f))] == Encode(c[f])
  {
    var front, last := order[..|order| - 1], order[|order| - 1];
    assert order == front + [last];
    if f != last {
      SavedHolds(d, which, c, front, f);
      if FileOf(KeyOf(f)) == FileOf(KeyOf(last)) {
        FilesDiffer(f, last);
      }
    }
  }

  /** Saving touches no other layer and no file that is not one of a field. */
  lemma {:induction false} SavedElsewhere(d: Disk, which: string, c: Config, order: seq<Field>, other: string, name: string)
    requires Valid(c) && (other == which ==> forall f: Field :: name != FileOf(KeyOf(f)))
    ensures name in Layer(Saved(d, which, c, order), other) <==> name in Layer(d, other)
    ensures name in Layer(d, other) ==> Layer(Saved(d, which, c, order), other)[name] == Layer(d, other)[name]
  {
    if order != [] {
      SavedElsewhere(d, which, c, order[..|order| - 1], other, name);
    }
  }

  // `r` is `c` with the fields of `order` that are wanted as wanted.
  ghost predicate Took(r: Config, c: Config, want: Config, order: seq<Field>) {
    forall f: Field ::
      if f in order && f in want then f in r && r[f] == want[f]
      else (f in r <==> f in c) && (f in c ==> r[f] == c[f])
  }

  // A wanted field is found; any other is not, and stays as it is.
  ghost predicate Fetches(load: Loader, want: Config, f: Field) {
    forall c: Config :: load(c, f) == Loaded(if f in want then c[f := want[f]] else c)
  }

  lemma {:induction false} LoadFetches(load: Loader, want: Config, c: Config, order: seq<Field>)
    requires forall f :: f in order ==> Fetches(load, want, f)
    ensures LoadAll(load, c, order).Loaded? && Took(LoadAll(load, c, order).c, c, want, order)
    decreases |order|
  {
    if order != [] {
      var f, rest := order[0], order[1..];
      assert order == [f] + rest && Fetches(load, want, f);
      LoadFetches(load, want, if f in want then c[f := want[f]] else c, rest);
    }
  }

  lemma SavedFieldLoads(d: Disk, which: string, c: Config, c1: Config, f: Field)
    requires Valid(c)
    ensures LoadField(Saved(d, which, c, SAVE_ORDER), which, c1, f) == Loaded(c1[f := Restored(c[f])])
  {
    EveryField(f);
    SavedHolds(d, which, c, SAVE_ORDER, f);
    ValueReadsBack(KindOf(f), c[f]);
  }

  ghost predicate RestoredFrom(r: Config, c: Config)
    requires Valid(c)
  {
    Valid(r) && forall f: Field :: r[f] == Restored(c[f])
  }

  function AllRestored(c: Config, order: seq<Field>): Config
    requires forall f :: f in order ==> f in c
  {
    map f | f in order :: Restored(c[f])
  }

  lemma SavedFieldsFetch(d: Disk, which: string, c: Config, order: seq<Field>)
    requires Valid(c)
    ensures forall f :: f in order ==>
              Fetches(LoaderOf(Saved(d, which, c, SAVE_ORDER), which), AllRestored(c, order), f)
  {
    forall f, c1: Config | f in order
      ensures LoadField(Saved(d, which, c, SAVE_ORDER), which, c1, f) == Loaded(c1[f := Restored(c[f])])
    {
      SavedFieldLoads(d, which, c, c1, f);
    }
  }

  lemma TookEverything(r: Config, c: Config, c0: Config, order: seq<Field>)
    requires Valid(c) && (forall f: Field :: f in order) && Took(r, c0, AllRestored(c, order), order)
    ensures RestoredFrom(r, c)
  {
  }

  /** Loading what was saved, into any configuration and over any disk, succeeds, and gives every field as it
      comes back from its text. */
  lemma LoadAfterSave(d: Disk, which: string, c: Config, c0: Config)
    requires Valid(c)
    ensures var r := LoadAll(LoaderOf(Saved(d, which, c, SAVE_ORDER), which), c0, LOAD_ORDER);
            r.Loaded? && RestoredFrom(r.c, c)
  {
    SavedFieldsFetch(d, which, c, LOAD_ORDER);
    LoadFetches(LoaderOf(Saved(d, which, c, SAVE_ORDER), which), AllRestored(c, LOAD_ORDER), c0, LOAD_ORDER);
    forall f: Field ensures f in LOAD_ORDER {
      EveryField(f);
    }
    TookEverything(LoadAll(LoaderOf(Saved(d, which, c, SAVE_ORDER), which), c0, LOAD_ORDER).c, c, c0, LOAD_ORDER);
  }

  /** So the numbers and floats come back bit for bit, and a text exactly when its file can hold it. */
  lemma RestoredIff(r: Config, c: Config, f: Field)
    requires Valid(c) && RestoredFrom(r, c)
    ensures r[f] == c[f] <==> (c[f].Chars? ==> Storable(c[f].s))
  {
    if c[f].Chars? {
      TextReadsBackIff(c[f].s);
    }
  }

  // ---------------------------------------------------------------- files that are missing, short or spoiled

  predicate IsText(f: Field) {
    f.Model? || f.Description? || f.SerialNumber? || f.SubmuxBarcode? || f.SubmuxType?
  }

  // The fields of one byte; the others that are not text have four.
  predicate IsByte(f: Field) {
    f.AdcChannels? || f.NumDacs? || f.AdcDifferential? || f.NumberOfSubmuxes?
  }

  // As many digits as a saved number has: fewer characters are not read at all.
  function Digits(f: Field): nat {
    if IsByte(f) then 2 else 8
  }

  // The file a field is read from ends the loading: long enough, but not a number.
  predicate Spoils(d: Disk, which: string, f: Field) {
    !IsText(f) && var text := ReadConfigString(d, KeyOf(f), which);
    text.Some? && |text.value| >= Digits(f) && Stoul(text.value, 16) == None
  }

  // What a field is after its file was read without ending the loading.
  function FieldAfter(d: Disk, which: string, f: Field, was: Value): Value {
    match ReadConfigString(d, KeyOf(f), which)
    case None => was
    case Some(text) =>
      if IsText(f) then Chars(text)
      else if |text| < Digits(f) then was
      else
        match Stoul(text, 16)
        case None => was
        case Some(n) => if IsByte(f) then Byte(n % 0x100) else Word(n % 0x1_0000_0000)
  }

  lemma OneFieldLoads(d: Disk, which: string, c: Config, f: Field)
    requires f in c
    ensures LoadField(d, which, c, f) ==
            if Spoils(d, which, f) then Aborted(c) else Loaded(c[f := FieldAfter(d, which, f, c[f])])
  {
    assert c[f := c[f]] == c;
  }

  ghost predicate LoadsAs(d: Disk, which: string, c: Config, order: seq<Field>, r: Config) {
    r.Keys == c.Keys &&
    forall f :: f in c ==> r[f] == if f in order then FieldAfter(d, which, f, c[f]) else c[f]
  }

  // Loading that gave r ended at field k: the first that spoils it, or none.
  ghost predicate EndsAt(d: Disk, which: string, c: Config, order: seq<Field>, k: nat, r: Loading) {
    k <= |order| && (forall i :: 0 <= i < k ==> !Spoils(d, which, order[i])) &&
    (k < |order| ==> Spoils(d, which, order[k])) &&
    (r.Aborted? <==> k < |order|) && LoadsAs(d, which, c, order[..k], r.c)
  }

  lemma EndsAtCons(d: Disk, which: string, c: Config, f: Field, rest: seq<Field>, j: nat, r: Loading)
    requires f in c && !Spoils(d, which, f) && EndsAt(d, which, c[f := FieldAfter(d, which, f, c[f])], rest, j, r)
    ensures EndsAt(d, which, c, [f] + rest, j + 1, r)
  {
    var order := [f] + rest;
    assert order[..j + 1] == [f] + rest[..j];
  }

  lemma LoadAllCons(d: Disk, which: string, c: Config, order: seq<Field>)
    requires order != [] && order[0] in c
    ensures LoadAll(LoaderOf(d, which), c, order) ==
            if Spoils(d, which, order[0]) then Aborted(c)
            else LoadAll(LoaderOf(d, which), c[order[0] := FieldAfter(d, which, order[0], c[order[0]])], order[1..])
  {
    OneFieldLoads(d, which, c, order[0]);
  }

  /** Loading ends early exactly when some field's file spoils it, and then at the first such field: the fields
      before it are loaded and those from it on keep what they were.  A field whose file is missing, or shorter
      than a saved number, keeps what it was and spoils nothing. */
  lemma {:induction false} LoadingEndsEarlyIff(d: Disk, which: string, c: Config, order: seq<Field>) returns (k: nat)
    requires forall f: Field :: f in c
    ensures EndsAt(d, which, c, order, k, LoadAll(LoaderOf(d, which), c, order))
    decreases |order|
  {
    k := 0;
    if order != [] {
      LoadAllCons(d, which, c, order);
      var f := order[0];
      if !Spoils(d, which, f) {
        var c1 := c[f := FieldAfter(d, which, f, c[f])];
        var j := LoadingEndsEarlyIff(d, which, c1, order[1..]);
        EndsAtCons(d, which, c, f, order[1..], j, LoadAll(LoaderOf(d, which), c1, order[1..]));
        assert order == [f] + order[1..];
        k := j + 1;
      }
    }
  }
}
