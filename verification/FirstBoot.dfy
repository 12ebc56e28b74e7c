/** What InitializeConfigFiles seeds (config.cpp), and what loading the configuration afterwards finds. */
module FirstBoot {
  import opened Bytes
  import opened Text
  import opened ConfigSeed
  import opened ConfigStore

  const SEED_COUNT := 90

  // The fields in the order SeedFactoryFromStruct writes them.
  function FieldAt(i: nat): Field
    requires i < SEED_COUNT
  {
    if i == 0 then Description
    else if i == 1 then Model
    else if i == 2 then SerialNumber
    else if i == 3 then AdcDifferential
    else if i < 20 then AdcRangeCode(i - 4)
    else if i < 36 then (if i % 2 == 0 then AdcScale((i - 20) / 2) else AdcOffset((i - 20) / 2))
    else if i == 36 then NumDacs
    else if i < 41 then DacRange(i - 37)
    else if i < 49 then (if i % 2 == 1 then DacScale((i - 41) / 2) else DacOffset((i - 41) / 2))
    else if i == 49 then NumberOfSubmuxes
    else SubmuxFieldAt((i - 50) / 10, i % 10)
  }

  function SubmuxFieldAt(mux: Four, j: nat): Field
    requires j < 10
  {
    if j == 0 then SubmuxBarcode(mux)
    else if j == 1 then SubmuxType(mux)
    else if j % 2 == 0 then SubmuxScale(mux, (j - 2) / 2)
    else SubmuxOffset(mux, (j - 2) / 2)
  }

  predicate IsSubmuxField(f: Field) {
    f.SubmuxBarcode? || f.SubmuxType? || f.SubmuxScale? || f.SubmuxOffset?
  }

  // Where a field is written; AdcChannels never is.
  function IndexOf(f: Field): (i: nat)
    requires !f.AdcChannels?
    ensures i < SEED_COUNT && (IsSubmuxField(f) ==> 50 <= i)
  {
    if IsSubmuxField(f) then SubmuxIndexOf(f)
    else if f.AdcRangeCode? then 4 + f.adcCh
    else if f.AdcScale? then 20 + 2 * f.range
    else if f.AdcOffset? then 21 + 2 * f.range
    else if f.DacRange? then 37 + f.ch
    else if f.DacScale? then 41 + 2 * f.ch
    else if f.DacOffset? then 42 + 2 * f.ch
    else if f.Description? then 0
    else if f.Model? then 1
    else if f.SerialNumber? then 2
    else if f.AdcDifferential? then 3
    else if f.NumDacs? then 36
    else 49
  }

  function SubmuxIndexOf(f: Field): (i: nat)
    requires IsSubmuxField(f)
    ensures 50 <= i < SEED_COUNT
  {
    match f
    case SubmuxBarcode(i) => 50 + 10 * i
    case SubmuxType(i) => 51 + 10 * i
    case SubmuxScale(i, g) => 52 + 10 * i + 2 * g
    case SubmuxOffset(i, g) => 53 + 10 * i + 2 * g
  }

  lemma SubmuxFieldAtIndex(f: Field)
    requires IsSubmuxField(f)
    ensures FieldAt(SubmuxIndexOf(f)) == f
  {
  }

  lemma FieldAtIndex(f: Field)
    requires !f.AdcChannels?
    ensures FieldAt(IndexOf(f)) == f
  {
    if IsSubmuxField(f) {
      SubmuxFieldAtIndex(f);
    }
  }

  // The key a field is seeded under: the number of DACs has one of its own.
  function SeedKey(f: Field): string {
    if f.NumDacs? then "DAC_NumDACs" else KeyOf(f)
  }

  function SeedAt(c: Config, i: nat): Seed
    requires i < SEED_COUNT && FieldAt(i) in c
  {
    Seed(FileOf(SeedKey(FieldAt(i))), Encode(c[FieldAt(i)]))
  }

  function SeedsOf(c: Config): (s: seq<Seed>)
    requires forall i :: 0 <= i < SEED_COUNT ==> FieldAt(i) in c
    ensures |s| == SEED_COUNT && forall i :: 0 <= i < SEED_COUNT ==> s[i] == SeedAt(c, i)
  {
    seq(SEED_COUNT, i requires 0 <= i < SEED_COUNT => SeedAt(c, i))
  }

  lemma FieldsDiffer(i: nat, j: nat)
    requires i < j < SEED_COUNT
    ensures FieldAt(i) != FieldAt(j)
  {
  }

  lemma SeedKeysDiffer(f: Field, g: Field)
    requires SeedKey(f) == SeedKey(g)
    ensures f == g
  {
    KeyHasShape(f);
    KeyHasShape(g);
    if !f.NumDacs? && !g.NumDacs? {
      KeysDiffer(f, g);
    }
  }

  lemma SameFile(k: string, l: string)
    ensures FileOf(k) == FileOf(l) <==> k == l
    ensures 1 <= |k| ==> IsConf(FileOf(k))
    ensures EndsWith(FileOf(k), ".conf")
  {
    assert FileOf(k)[..|FileOf(k)| - 5] == k && FileOf(l)[..|FileOf(l)| - 5] == l;
  }

  /** The seeds are distinct conf files, as crash-safe seeding asks of them. */
  lemma SeedsWellFormed(c: Config)
    requires Valid(c)
    ensures WellFormed(SeedsOf(c))
  {
    var s := SeedsOf(c);
    forall i | 0 <= i < |s| ensures EndsWith(s[i].name, ".conf") {
      SameFile(SeedKey(FieldAt(i)), "");
    }
    forall i, j | 0 <= i < j < |s| ensures s[i].name != s[j].name {
      FieldsDiffer(i, j);
      SameFile(SeedKey(FieldAt(i)), SeedKey(FieldAt(j)));
      if SeedKey(FieldAt(i)) == SeedKey(FieldAt(j)) {
        SeedKeysDiffer(FieldAt(i), FieldAt(j));
      }
    }
  }

  // The disk after a first boot on an empty tree.
  function Seeding(c: Config): ConfigStore.Disk
    requires forall i :: 0 <= i < SEED_COUNT ==> FieldAt(i) in c
  {
    var t := Seeded(map[], SeedsOf(c));
    map[FACTORY := t, CURRENT := Copied(map[], t)]
  }

  // The two fields a first boot leaves without a file of their own.
  predicate Unseeded(f: Field) {
    f.NumDacs? || f.AdcChannels?
  }

  lemma SeededFieldIsThere(c: Config, f: Field)
    requires Valid(c) && !Unseeded(f)
    ensures var name := FileOf(KeyOf(f));
            name in Layer(Seeding(c), CURRENT) && Layer(Seeding(c), CURRENT)[name] == Encode(c[f])
  {
    SeedsWellFormed(c);
    FieldAtIndex(f);
    SeededHolds(map[], SeedsOf(c), IndexOf(f));
    KeyHasShape(f);
    SameFile(KeyOf(f), "");
    assert SeedsOf(c)[IndexOf(f)] == SeedAt(c, IndexOf(f));
  }

  lemma UnseededFieldIsMissing(c: Config, f: Field)
    requires Valid(c) && Unseeded(f)
    ensures FileOf(KeyOf(f)) !in Seeded(map[], SeedsOf(c))
  {
    if FileOf(KeyOf(f)) in Seeded(map[], SeedsOf(c)) {
      SeededOnly(map[], SeedsOf(c), FileOf(KeyOf(f)));
      var i :| 0 <= i < SEED_COUNT && SeedsOf(c)[i].name == FileOf(KeyOf(f));
      UnseededKey(f, i);
    }
  }

  lemma UnseededKey(f: Field, i: nat)
    requires Unseeded(f) && i < SEED_COUNT
    ensures FileOf(SeedKey(FieldAt(i))) != FileOf(KeyOf(f))
  {
    SameFile(SeedKey(FieldAt(i)), KeyOf(f));
    if SeedKey(FieldAt(i)) == KeyOf(f) {
      KeyHasShape(f);
      if !FieldAt(i).NumDacs? {
        KeysDiffer(FieldAt(i), f);
      }
    }
  }

  lemma FetchedAfterBoot(c: Config, want: Config, f: Field)
    requires Valid(c)
    requires if Unseeded(f) then f !in want else f in want && want[f] == Restored(c[f])
    ensures Fetches(LoaderOf(Seeding(c), CURRENT), want, f)
  {
    if Unseeded(f) {
      UnseededFieldIsMissing(c, f);
    } else {
      SeededFieldIsThere(c, f);
      ValueReadsBack(KindOf(f), c[f]);
    }
  }

  /** After a first boot on an empty tree, loading brings back every field as seeded, except the number of DACs,
      which is seeded under a key nothing reads, and the number of ADC channels, which is not seeded: those two
      keep whatever they were. */
  lemma LoadAfterFirstBoot(c: Config, c0: Config)
    requires Valid(c) && Valid(c0)
    ensures var r := LoadAll(LoaderOf(Seeding(c), CURRENT), c0, LOAD_ORDER);
            r.Loaded? && forall f: Field :: f in r.c && r.c[f] == if Unseeded(f) then c0[f] else Restored(c[f])
  {
    var want: Config := map f | f in LOAD_ORDER && !Unseeded(f) :: Restored(c[f]);
    forall f: Field ensures f in LOAD_ORDER {
      EveryField(f);
    }
    forall f | f in LOAD_ORDER ensures Fetches(LoaderOf(Seeding(c), CURRENT), want, f) {
      FetchedAfterBoot(c, want, f);
    }
    LoadFetches(LoaderOf(Seeding(c), CURRENT), want, c0, LOAD_ORDER);
  }

  // ---------------------------------------------------------------- a first boot that was disturbed

  // The layers a disk of the seeding machine holds.
  function LayersOf(d: ConfigSeed.Disk): ConfigStore.Disk {
    map[FACTORY := d.factory, CURRENT := d.current]
  }

  // Leftovers of interrupted writes are never read.
  lemma LeftoversAreNotRead(t: ConfigSeed.Tree, u: ConfigSeed.Tree, key: string)
    requires Visible(t) == Visible(u)
    ensures FileOf(key) in t <==> FileOf(key) in u
    ensures FileOf(key) in t ==> t[FileOf(key)] == u[FileOf(key)]
  {
    SameFile(key, key);
    ConfIsNotTmp(FileOf(key));
    assert FileOf(key) in t <==> FileOf(key) in Visible(t);
    assert FileOf(key) in u <==> FileOf(key) in Visible(u);
    assert FileOf(key) in t ==> Visible(t)[FileOf(key)] == t[FileOf(key)];
  }

  /** Reading sees no difference between a disk with leftovers and one without. */
  lemma SameReading(d: ConfigSeed.Disk, e: ConfigSeed.Disk, key: string)
    requires Visible(d.factory) == Visible(e.factory) && Visible(d.current) == Visible(e.current)
    ensures ReadConfigString(LayersOf(d), key, CURRENT) == ReadConfigString(LayersOf(e), key, CURRENT)
  {
    LeftoversAreNotRead(d.factory, e.factory, key);
    LeftoversAreNotRead(d.current, e.current, key);
  }

  /** Through any crashes, cut-short files and failed writes, a first boot on an empty tree that has written its
      stamp without missing a write reads, key by key, as the undisturbed one. */
  lemma CrashedFirstBootReads(c: Config, steps: seq<Step>, key: string)
    requires Valid(c) && IsRun(SeedsOf(c), State(EMPTY, Boot, Nothing), steps)
    requires var s := After(SeedsOf(c), State(EMPTY, Boot, Nothing), steps); s.disk.stamp && s.missed.Nothing?
    ensures var s := After(SeedsOf(c), State(EMPTY, Boot, Nothing), steps);
            ReadConfigString(LayersOf(s.disk), key, CURRENT) == ReadConfigString(Seeding(c), key, CURRENT)
  {
    SeedsWellFormed(c);
    CrashSafeSeeding(EMPTY, SeedsOf(c), steps);
    var s, t := After(SeedsOf(c), State(EMPTY, Boot, Nothing), steps), Seeded(map[], SeedsOf(c));
    VisibleSeeded(map[], SeedsOf(c));
    VisibleCopied(map[], t);
    assert Visible(map[]) == map[];
    SameReading(s.disk, ConfigSeed.Disk(t, Copied(map[], t), true), key);
  }

  lemma {:induction false} SameReadingsLoad(d: ConfigStore.Disk, e: ConfigStore.Disk, which: string, c0: Config,
                                            order: seq<Field>)
    requires forall f: Field :: ReadConfigString(d, KeyOf(f), which) == ReadConfigString(e, KeyOf(f), which)
    ensures LoadAll(LoaderOf(d, which), c0, order) == LoadAll(LoaderOf(e, which), c0, order)
    decreases |order|
  {
    if order != [] {
      var r := LoadField(d, which, c0, order[0]);
      assert r == LoadField(e, which, c0, order[0]);
      SameReadingsLoad(d, e, which, r.c, order[1..]);
    }
  }

  /** So however a first boot was disturbed, once it has its stamp and missed no write, loading succeeds and
      restores every seeded field. */
  lemma LoadAfterCrashedFirstBoot(c: Config, c0: Config, steps: seq<Step>)
    requires Valid(c) && Valid(c0) && IsRun(SeedsOf(c), State(EMPTY, Boot, Nothing), steps)
    requires var s := After(SeedsOf(c), State(EMPTY, Boot, Nothing), steps); s.disk.stamp && s.missed.Nothing?
    ensures var s := After(SeedsOf(c), State(EMPTY, Boot, Nothing), steps);
            var r := LoadAll(LoaderOf(LayersOf(s.disk), CURRENT), c0, LOAD_ORDER);
            r.Loaded? && forall f: Field :: f in r.c && r.c[f] == if Unseeded(f) then c0[f] else Restored(c[f])
  {
    var d := LayersOf(After(SeedsOf(c), State(EMPTY, Boot, Nothing), steps).disk);
    forall f: Field ensures ReadConfigString(d, KeyOf(f), CURRENT) == ReadConfigString(Seeding(c), KeyOf(f), CURRENT) {
      CrashedFirstBootReads(c, steps, KeyOf(f));
    }
    SameReadingsLoad(d, Seeding(c), CURRENT, c0, LOAD_ORDER);
    LoadAfterFirstBoot(c, c0);
  }
}
