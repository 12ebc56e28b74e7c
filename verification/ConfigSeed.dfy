/** First-boot seeding of the configuration tree (config.cpp): write-if-missing into factory, copy what is
    missing into current, then a stamp.  The machine may lose power between any two steps and start again. */
module ConfigSeed {

  // A directory: file name to contents.
  type Tree = map<string, string>

  // What SeedFactoryFromStruct writes, in order: file name and contents.
  datatype Seed = Seed(name: string, text: string)

  predicate EndsWith(s: string, suffix: string) {
    |suffix| <= |s| && s[|s| - |suffix|..] == suffix
  }

  predicate IsTmp(name: string) {
    EndsWith(name, ".tmp")
  }

  // The names the copy into current considers.
  predicate IsConf(name: string) {
    6 <= |name| && EndsWith(name, ".conf")
  }

  lemma LastOf(s: string, suffix: string)
    requires EndsWith(s, suffix) && suffix != ""
    ensures s[|s| - 1] == suffix[|suffix| - 1]
  {
    assert s[|s| - |suffix|..][|suffix| - 1] == s[|s| - 1];
  }

  lemma ConfIsNotTmp(name: string)
    requires EndsWith(name, ".conf")
    ensures !IsTmp(name)
  {
    LastOf(name, ".conf");
    if IsTmp(name) {
      LastOf(name, ".tmp");
    }
  }

  /** The names that are copied are those of a stem and ".conf"; those of unfinished writes end in ".tmp". */
  lemma NamesByEnding(name: string)
    ensures IsConf(name) <==> exists stem :: stem != "" && name == stem + ".conf"
    ensures IsTmp(name) <==> exists stem :: name == stem + ".tmp"
  {
    if IsConf(name) {
      assert name == name[..|name| - 5] + ".conf" && name[..|name| - 5] != "";
    }
    if IsTmp(name) {
      assert name == name[..|name| - 4] + ".tmp";
    }
  }

  // A tree without leftovers of interrupted writes.
  function Visible(t: Tree): Tree {
    map name | name in t && !IsTmp(name) :: t[name]
  }

  predicate WellFormed(seeds: seq<Seed>) {
    (forall i :: 0 <= i < |seeds| ==> EndsWith(seeds[i].name, ".conf")) &&
    (forall i, j :: 0 <= i < j < |seeds| ==> seeds[i].name != seeds[j].name)
  }

  // ---------------------------------------------------------------- what seeding is for

  function WithSeed(t: Tree, s: Seed): Tree {
    if s.name in t then t else t[s.name := s.text]
  }

  // The factory tree with every missing seed.
  function Seeded(t: Tree, seeds: seq<Seed>): Tree {
    if seeds == [] then t else WithSeed(Seeded(t, seeds[..|seeds| - 1]), seeds[|seeds| - 1])
  }

  // The current tree with every missing conf file of the factory tree.
  function Copied(current: Tree, factory: Tree): Tree {
    map name | name in current.Keys + factory.Keys && (name in current || IsConf(name)) ::
      if name in current then current[name] else factory[name]
  }

  function TargetFactory(factory: Tree, seeds: seq<Seed>): Tree {
    Seeded(Visible(factory), seeds)
  }

  function TargetCurrent(factory: Tree, current: Tree, seeds: seq<Seed>): Tree {
    Copied(Visible(current), TargetFactory(factory, seeds))
  }

  lemma {:induction false} SeededHolds(t: Tree, seeds: seq<Seed>, i: nat)
    requires i < |seeds| && WellFormed(seeds)
    ensures seeds[i].name in Seeded(t, seeds)
    ensures seeds[i].name !in t ==> Seeded(t, seeds)[seeds[i].name] == seeds[i].text
  {
    var front := seeds[..|seeds| - 1];
    if i < |front| {
      SeededHolds(t, front, i);
    } else {
      SeededOnly(t, front, seeds[i].name);
    }
  }

  // Seeding keeps what is there and adds seeds only.
  lemma {:induction false} SeededOnly(t: Tree, seeds: seq<Seed>, name: string)
    ensures name in t ==> name in Seeded(t, seeds) && Seeded(t, seeds)[name] == t[name]
    ensures name in Seeded(t, seeds) && name !in t ==> exists i :: 0 <= i < |seeds| && seeds[i].name == name
  {
    if seeds != [] {
      var front := seeds[..|seeds| - 1];
      SeededOnly(t, front, name);
      if name in Seeded(t, seeds) && name !in t {
        if name in Seeded(t, front) {
          var i :| 0 <= i < |front| && front[i].name == name;
          assert seeds[i].name == name;
        } else {
          assert seeds[|seeds| - 1].name == name;
        }
      }
    }
  }

  // ---------------------------------------------------------------- the machine

  // `order` is the listing of the factory directory the copy works through.
  datatype Pc =
    | Boot
    | Factory(i: nat)
    | FactoryRename(i: nat)
    | Current(order: seq<string>, j: nat)
    | CurrentRename(order: seq<string>, j: nat)
    | Stamp
    | Finished

  // A write of this run that failed, if any: which tree, and the file.
  datatype Missed = Nothing | InFactory(i: nat) | InCurrent(name: string)

  datatype Disk = Disk(factory: Tree, current: Tree, stamp: bool)

  datatype State = State(disk: Disk, pc: Pc, missed: Missed)

  // `Partial` is a temporary file cut short, `Fail` a write reported as failed, `Crash` a loss of power.
  datatype Step = Next | List(order: seq<string>) | Partial(text: string) | Fail | Crash

  function TmpOf(name: string): string {
    name + ".tmp"
  }

  // A directory listing: every name once.
  predicate Lists(order: seq<string>, t: Tree) {
    (forall i :: 0 <= i < |order| ==> order[i] in t) &&
    (forall name :: name in t ==> name in order) &&
    (forall i, j :: 0 <= i < j < |order| ==> order[i] != order[j])
  }

  predicate Writing(s: State, seeds: seq<Seed>) {
    match s.pc
    case Factory(i) => i < |seeds| && seeds[i].name !in s.disk.factory
    case Current(order, j) => j < |order| && IsConf(order[j]) && order[j] !in s.disk.current
    case _ => false
  }

  predicate Enabled(seeds: seq<Seed>, s: State, step: Step) {
    match step
    case Next =>
      (match s.pc
       case Factory(i) => i < |seeds|
       case FactoryRename(i) => i < |seeds|
       case CurrentRename(order, j) => j < |order|
       case Finished => false
       case _ => true)
    case List(order) => s.pc == Factory(|seeds|) && Lists(order, s.disk.factory)
    case Partial(_) => Writing(s, seeds)
    case Fail => Writing(s, seeds) || (s.pc.FactoryRename? && s.pc.i < |seeds|) ||
                 (s.pc.CurrentRename? && s.pc.j < |s.pc.order|) || s.pc.Stamp?
    case Crash => true
  }

  // One seed of the factory tree: skip it, write its temporary file, or rename that.
  function FactoryStep(s: State, seed: Seed, i: nat): State {
    var f := s.disk.factory;
    if s.pc.Factory? then
      if seed.name in f then s.(pc := Factory(i + 1))
      else State(s.disk.(factory := f[TmpOf(seed.name) := seed.text]), FactoryRename(i), s.missed)
    else
      var text := if TmpOf(seed.name) in f then f[TmpOf(seed.name)] else seed.text;
      State(s.disk.(factory := (f - {TmpOf(seed.name)})[seed.name := text]), Factory(i + 1), s.missed)
  }

  // One name of the listing.
  function CurrentStep(s: State, order: seq<string>, j: nat): State
    requires j < |order|
  {
    var c, f, name := s.disk.current, s.disk.factory, order[j];
    if s.pc.Current? then
      if !IsConf(name) || name in c then s.(pc := Current(order, j + 1))
      else
        var text := if name in f then f[name] else "";
        State(s.disk.(current := c[TmpOf(name) := text]), CurrentRename(order, j), s.missed)
    else
      var text := if TmpOf(name) in c then c[TmpOf(name)] else "";
      State(s.disk.(current := (c - {TmpOf(name)})[name := text]), Current(order, j + 1), s.missed)
  }

  function NextStep(seeds: seq<Seed>, s: State): State
    requires Enabled(seeds, s, Next)
  {
    match s.pc
    case Boot => if s.disk.stamp then s.(pc := Finished) else State(s.disk, Factory(0), Nothing)
    case Factory(i) => FactoryStep(s, seeds[i], i)
    case FactoryRename(i) => FactoryStep(s, seeds[i], i)
    case Current(order, j) => if j < |order| then CurrentStep(s, order, j) else s.(pc := Stamp)
    case CurrentRename(order, j) => CurrentStep(s, order, j)
    case Stamp => s.(disk := s.disk.(stamp := true), pc := Finished)
  }

  function Apply(seeds: seq<Seed>, s: State, step: Step): State
    requires Enabled(seeds, s, step)
  {
    match step
    case Next => NextStep(seeds, s)
    case List(order) => s.(pc := Current(order, 0))
    case Partial(text) =>
      if s.pc.Factory? then
        s.(disk := s.disk.(factory := s.disk.factory[TmpOf(seeds[s.pc.i].name) := text]))
      else s.(disk := s.disk.(current := s.disk.current[TmpOf(s.pc.order[s.pc.j]) := text]))
    case Fail =>
      (match s.pc
       case Factory(i) => s.(pc := Factory(i + 1), missed := InFactory(i))
       case FactoryRename(i) => s.(pc := Factory(i + 1), missed := InFactory(i))
       case Current(order, j) => s.(pc := Current(order, j + 1), missed := InCurrent(order[j]))
       case CurrentRename(order, j) => s.(pc := Current(order, j + 1), missed := InCurrent(order[j]))
       case _ => s.(pc := Finished))
    case Crash => s.(pc := Boot)
  }

  predicate IsRun(seeds: seq<Seed>, s: State, steps: seq<Step>)
    decreases |steps|
  {
    steps == [] || (Enabled(seeds, s, steps[0]) && IsRun(seeds, Apply(seeds, s, steps[0]), steps[1..]))
  }

  function After(seeds: seq<Seed>, s: State, steps: seq<Step>): State
    requires IsRun(seeds, s, steps)
    decreases |steps|
  {
    if steps == [] then s else After(seeds, Apply(seeds, s, steps[0]), steps[1..])
  }

  // ---------------------------------------------------------------- the invariant

  // Every file of `a` is in `b`, with the same contents.
  predicate Within(a: Tree, b: Tree) {
    forall name :: name in a ==> name in b && b[name] == a[name]
  }

  // Between the trees at the start and the trees seeding is for.
  ghost predicate Between(d0: Disk, seeds: seq<Seed>, d: Disk) {
    var tf, tc := TargetFactory(d0.factory, seeds), TargetCurrent(d0.factory, d0.current, seeds);
    Within(Visible(d0.factory), Visible(d.factory)) && Within(Visible(d.factory), tf) &&
    Within(Visible(d0.current), Visible(d.current)) && Within(Visible(d.current), tc)
  }

  // The factory seeds before i are there, or one is known to be missing.
  ghost predicate FactoryUpTo(seeds: seq<Seed>, s: State, i: nat) {
    i <= |seeds| &&
    match s.missed
    case Nothing => forall k :: 0 <= k < i ==> seeds[k].name in s.disk.factory
    case InFactory(m) => m < i && seeds[m].name !in s.disk.factory
    case InCurrent(_) => false
  }

  // The conf files of the listing before j are there, or one is known to be missing.
  ghost predicate CurrentUpTo(seeds: seq<Seed>, s: State, order: seq<string>, j: nat) {
    j <= |order| && Lists(order, s.disk.factory) &&
    match s.missed
    case Nothing =>
      (forall k :: 0 <= k < |seeds| ==> seeds[k].name in s.disk.factory) &&
      (forall k :: 0 <= k < j && IsConf(order[k]) ==> order[k] in s.disk.current)
    case InFactory(m) => m < |seeds| && seeds[m].name !in s.disk.factory
    case InCurrent(name) => name in order[..j] && IsConf(name) && name !in s.disk.current
  }

  // Nothing is missing, or something is.
  ghost predicate Settled(d0: Disk, seeds: seq<Seed>, s: State) {
    var tf, tc := TargetFactory(d0.factory, seeds), TargetCurrent(d0.factory, d0.current, seeds);
    (Visible(s.disk.factory) == tf && Visible(s.disk.current) == tc) <==> s.missed.Nothing?
  }

  ghost predicate Place(d0: Disk, seeds: seq<Seed>, s: State) {
    match s.pc
    case Boot => true
    case Factory(i) => FactoryUpTo(seeds, s, i)
    case FactoryRename(i) =>
      i < |seeds| && FactoryUpTo(seeds, s, i) && seeds[i].name !in s.disk.factory &&
      TmpOf(seeds[i].name) in s.disk.factory && s.disk.factory[TmpOf(seeds[i].name)] == seeds[i].text
    case Current(order, j) => CurrentUpTo(seeds, s, order, j)
    case CurrentRename(order, j) =>
      j < |order| && CurrentUpTo(seeds, s, order, j) && IsConf(order[j]) && order[j] !in s.disk.current &&
      TmpOf(order[j]) in s.disk.current && s.disk.current[TmpOf(order[j])] == s.disk.factory[order[j]]
    case Stamp => Settled(d0, seeds, s)
    case Finished => true
  }

  ghost predicate Inv(d0: Disk, seeds: seq<Seed>, s: State) {
    Between(d0, seeds, s.disk) && Place(d0, seeds, s) && (s.disk.stamp ==> Settled(d0, seeds, s)) &&
    (s.disk.stamp ==> s.pc.Boot? || s.pc.Finished?)
  }

  lemma TmpIsTmp(name: string)
    ensures IsTmp(TmpOf(name))
  {
  }

  lemma VisibleKeepsTmp(t: Tree, tmp: string, text: string)
    requires IsTmp(tmp)
    ensures Visible(t[tmp := text]) == Visible(t)
  {
  }

  lemma VisibleRename(t: Tree, tmp: string, name: string, text: string)
    requires IsTmp(tmp) && !IsTmp(name)
    ensures Visible((t - {tmp})[name := text]) == Visible(t)[name := text]
  {
  }

  // The text a missing seed is written with is the one the target has.
  lemma SeedIsTarget(d0: Disk, seeds: seq<Seed>, d: Disk, i: nat)
    requires Between(d0, seeds, d) && WellFormed(seeds) && i < |seeds|
    ensures var tf := TargetFactory(d0.factory, seeds);
            seeds[i].name in tf && (seeds[i].name !in d.factory ==> tf[seeds[i].name] == seeds[i].text)
    ensures !IsTmp(seeds[i].name)
  {
    ConfIsNotTmp(seeds[i].name);
    SeededHolds(Visible(d0.factory), seeds, i);
    assert seeds[i].name in Visible(d0.factory) ==> seeds[i].name in Visible(d.factory);
  }

  // And so is the text a missing conf file is copied with.
  lemma CopyIsTarget(d0: Disk, seeds: seq<Seed>, d: Disk, name: string)
    requires Between(d0, seeds, d) && IsConf(name) && name in d.factory && name !in d.current
    ensures var tc := TargetCurrent(d0.factory, d0.current, seeds); name in tc && tc[name] == d.factory[name]
    ensures !IsTmp(name)
  {
    ConfIsNotTmp(name);
    assert name in Visible(d.factory);
    assert name in Visible(d0.current) ==> name in Visible(d.current);
  }

  lemma FactoryNextKeepsInv(d0: Disk, seeds: seq<Seed>, s: State)
    requires Inv(d0, seeds, s) && WellFormed(seeds) && Enabled(seeds, s, Next) && s.pc.Factory?
    ensures Inv(d0, seeds, NextStep(seeds, s))
  {
    var i := s.pc.i;
    var name := seeds[i].name;
    if name !in s.disk.factory {
      SeedIsTarget(d0, seeds, s.disk, i);
      TmpIsTmp(name);
      VisibleKeepsTmp(s.disk.factory, TmpOf(name), seeds[i].text);
      TmpsAreNoSeeds(seeds, TmpOf(name));
    }
  }

  lemma TmpsAreNoSeeds(seeds: seq<Seed>, tmp: string)
    requires WellFormed(seeds) && IsTmp(tmp)
    ensures forall k :: 0 <= k < |seeds| ==> seeds[k].name != tmp
  {
    forall k | 0 <= k < |seeds| ensures seeds[k].name != tmp {
      ConfIsNotTmp(seeds[k].name);
    }
  }

  // A file the target has, added where it was missing, leaves the tree between start and target.
  lemma AddedWithin(start: Tree, now: Tree, grown: Tree, target: Tree, name: string, text: string)
    requires Within(start, now) && Within(now, target) && grown == now[name := text]
    requires name in target && target[name] == text && name !in now
    ensures Within(start, grown) && Within(grown, target)
  {
  }

  lemma FactoryRenameKeepsTrees(d0: Disk, seeds: seq<Seed>, s: State)
    requires Inv(d0, seeds, s) && WellFormed(seeds) && s.pc.FactoryRename?
    ensures Between(d0, seeds, FactoryStep(s, seeds[s.pc.i], s.pc.i).disk)
  {
    var i := s.pc.i;
    var name := seeds[i].name;
    var r := FactoryStep(s, seeds[i], i);
    SeedIsTarget(d0, seeds, s.disk, i);
    TmpIsTmp(name);
    VisibleRename(s.disk.factory, TmpOf(name), name, seeds[i].text);
    AddedWithin(Visible(d0.factory), Visible(s.disk.factory), Visible(r.disk.factory),
                TargetFactory(d0.factory, seeds), name, seeds[i].text);
  }

  lemma FactoryRenameKeepsPlace(d0: Disk, seeds: seq<Seed>, s: State)
    requires Inv(d0, seeds, s) && WellFormed(seeds) && s.pc.FactoryRename?
    ensures Place(d0, seeds, FactoryStep(s, seeds[s.pc.i], s.pc.i))
  {
    TmpIsTmp(seeds[s.pc.i].name);
    TmpsAreNoSeeds(seeds, TmpOf(seeds[s.pc.i].name));
  }

  lemma CurrentNextKeepsInv(d0: Disk, seeds: seq<Seed>, s: State)
    requires Inv(d0, seeds, s) && s.pc.Current? && s.pc.j < |s.pc.order|
    ensures Inv(d0, seeds, CurrentStep(s, s.pc.order, s.pc.j))
  {
    var name := s.pc.order[s.pc.j];
    if IsConf(name) && name !in s.disk.current {
      TmpIsTmp(name);
      CopyIsTarget(d0, seeds, s.disk, name);
      VisibleKeepsTmp(s.disk.current, TmpOf(name), s.disk.factory[name]);
      TmpsAreNoConf(TmpOf(name));
    }
  }

  lemma TmpsAreNoConf(tmp: string)
    requires IsTmp(tmp)
    ensures !IsConf(tmp)
  {
    if IsConf(tmp) {
      ConfIsNotTmp(tmp);
    }
  }

  lemma CurrentRenameKeepsTrees(d0: Disk, seeds: seq<Seed>, s: State)
    requires Inv(d0, seeds, s) && s.pc.CurrentRename?
    ensures Between(d0, seeds, CurrentStep(s, s.pc.order, s.pc.j).disk)
  {
    var name := s.pc.order[s.pc.j];
    var r := CurrentStep(s, s.pc.order, s.pc.j);
    TmpIsTmp(name);
    CopyIsTarget(d0, seeds, s.disk, name);
    VisibleRename(s.disk.current, TmpOf(name), name, s.disk.factory[name]);
    AddedWithin(Visible(d0.current), Visible(s.disk.current), Visible(r.disk.current),
                TargetCurrent(d0.factory, d0.current, seeds), name, s.disk.factory[name]);
  }

  lemma CurrentRenameKeepsPlace(d0: Disk, seeds: seq<Seed>, s: State)
    requires Inv(d0, seeds, s) && s.pc.CurrentRename?
    ensures Place(d0, seeds, CurrentStep(s, s.pc.order, s.pc.j))
  {
    TmpIsTmp(s.pc.order[s.pc.j]);
    TmpsAreNoConf(TmpOf(s.pc.order[s.pc.j]));
  }

  lemma FailKeepsInv(d0: Disk, seeds: seq<Seed>, s: State)
    requires Inv(d0, seeds, s) && WellFormed(seeds) && Enabled(seeds, s, Fail)
    ensures Inv(d0, seeds, Apply(seeds, s, Fail))
  {
  }

  lemma PartialKeepsInv(d0: Disk, seeds: seq<Seed>, s: State, text: string)
    requires Inv(d0, seeds, s) && WellFormed(seeds) && Enabled(seeds, s, Partial(text))
    ensures Inv(d0, seeds, Apply(seeds, s, Partial(text)))
  {
    if s.pc.Factory? {
      var tmp := TmpOf(seeds[s.pc.i].name);
      TmpIsTmp(seeds[s.pc.i].name);
      VisibleKeepsTmp(s.disk.factory, tmp, text);
      TmpsAreNoSeeds(seeds, tmp);
    } else {
      var tmp := TmpOf(s.pc.order[s.pc.j]);
      TmpIsTmp(s.pc.order[s.pc.j]);
      VisibleKeepsTmp(s.disk.current, tmp, text);
      TmpsAreNoConf(tmp);
    }
  }

  lemma WithinAll(a: Tree, b: Tree)
    requires Within(a, b) && forall name :: name in b ==> name in a
    ensures a == b
  {
  }

  // Everything between the start and the target is the target once nothing is missing.
  lemma FactoryComplete(d0: Disk, seeds: seq<Seed>, d: Disk)
    requires Between(d0, seeds, d) && WellFormed(seeds)
    requires forall k :: 0 <= k < |seeds| ==> seeds[k].name in d.factory
    ensures Visible(d.factory) == TargetFactory(d0.factory, seeds)
  {
    var tf := TargetFactory(d0.factory, seeds);
    forall name | name in tf ensures name in Visible(d.factory) {
      SeededOnly(Visible(d0.factory), seeds, name);
      if name !in Visible(d0.factory) {
        var i :| 0 <= i < |seeds| && seeds[i].name == name;
        ConfIsNotTmp(name);
      }
    }
    WithinAll(Visible(d.factory), tf);
  }

  lemma CurrentComplete(d0: Disk, seeds: seq<Seed>, d: Disk)
    requires Between(d0, seeds, d) && Visible(d.factory) == TargetFactory(d0.factory, seeds)
    requires forall name :: name in d.factory && IsConf(name) ==> name in d.current
    ensures Visible(d.current) == TargetCurrent(d0.factory, d0.current, seeds)
  {
    var tc := TargetCurrent(d0.factory, d0.current, seeds);
    forall name | name in tc ensures name in Visible(d.current) {
      if name !in Visible(d0.current) {
        ConfIsNotTmp(name);
        assert name in Visible(d.factory);
      }
    }
    WithinAll(Visible(d.current), tc);
  }

  lemma NothingMissing(d0: Disk, seeds: seq<Seed>, s: State, order: seq<string>)
    requires Between(d0, seeds, s.disk) && WellFormed(seeds) && s.missed.Nothing?
    requires CurrentUpTo(seeds, s, order, |order|)
    ensures Settled(d0, seeds, s)
  {
    FactoryComplete(d0, seeds, s.disk);
    forall name | name in s.disk.factory && IsConf(name) ensures name in s.disk.current {
      var k :| 0 <= k < |order| && order[k] == name;
    }
    CurrentComplete(d0, seeds, s.disk);
  }

  lemma SomethingMissing(d0: Disk, seeds: seq<Seed>, s: State, order: seq<string>)
    requires Between(d0, seeds, s.disk) && WellFormed(seeds) && !s.missed.Nothing?
    requires CurrentUpTo(seeds, s, order, |order|)
    ensures Settled(d0, seeds, s)
  {
    match s.missed
    case InFactory(m) => SeedIsTarget(d0, seeds, s.disk, m);
    case InCurrent(name) =>
      assert name in order;
      CopyIsTarget(d0, seeds, s.disk, name);
  }

  lemma StepKeepsInv(d0: Disk, seeds: seq<Seed>, s: State, step: Step)
    requires Inv(d0, seeds, s) && WellFormed(seeds) && Enabled(seeds, s, step)
    ensures Inv(d0, seeds, Apply(seeds, s, step))
  {
    match step
    case List(_) =>
    case Partial(text) => PartialKeepsInv(d0, seeds, s, text);
    case Fail => FailKeepsInv(d0, seeds, s);
    case Crash =>
    case Next =>
      if s.pc.Factory? {
        FactoryNextKeepsInv(d0, seeds, s);
      } else if s.pc.FactoryRename? {
        FactoryRenameKeepsTrees(d0, seeds, s);
        FactoryRenameKeepsPlace(d0, seeds, s);
      } else if s.pc.CurrentRename? {
        CurrentRenameKeepsTrees(d0, seeds, s);
        CurrentRenameKeepsPlace(d0, seeds, s);
      } else if s.pc.Current? {
        if s.pc.j < |s.pc.order| {
          CurrentNextKeepsInv(d0, seeds, s);
        } else if s.missed.Nothing? {
          NothingMissing(d0, seeds, s, s.pc.order);
        } else {
          SomethingMissing(d0, seeds, s, s.pc.order);
        }
      }
  }

  lemma {:induction false} RunKeepsInv(d0: Disk, seeds: seq<Seed>, s: State, steps: seq<Step>)
    requires Inv(d0, seeds, s) && WellFormed(seeds) && IsRun(seeds, s, steps)
    ensures Inv(d0, seeds, After(seeds, s, steps))
    decreases |steps|
  {
    if steps != [] {
      StepKeepsInv(d0, seeds, s, steps[0]);
      RunKeepsInv(d0, seeds, Apply(seeds, s, steps[0]), steps[1..]);
    }
  }

  lemma {:induction false} StartIsBetween(d: Disk, seeds: seq<Seed>)
    ensures Between(d, seeds, d)
  {
    forall name | name in Visible(d.factory)
      ensures name in TargetFactory(d.factory, seeds) && TargetFactory(d.factory, seeds)[name] == d.factory[name]
    {
      SeededOnly(Visible(d.factory), seeds, name);
    }
  }

  /** Crash safety.  From any trees without a stamp, through any number of crashes, cut-short temporary files
      and failed writes, in any directory order: no file that was there is ever altered or removed, and once
      the stamp is written the trees, leftovers aside, are those of one undisturbed run, exactly when no write
      of the run that wrote the stamp was reported as failed. */
  lemma CrashSafeSeeding(d0: Disk, seeds: seq<Seed>, steps: seq<Step>)
    requires WellFormed(seeds) && !d0.stamp && IsRun(seeds, State(d0, Boot, Nothing), steps)
    ensures var s := After(seeds, State(d0, Boot, Nothing), steps);
            && Within(Visible(d0.factory), Visible(s.disk.factory))
            && Within(Visible(d0.current), Visible(s.disk.current))
            && (s.disk.stamp ==>
                  (s.missed.Nothing? <==>
                     Visible(s.disk.factory) == TargetFactory(d0.factory, seeds) &&
                     Visible(s.disk.current) == TargetCurrent(d0.factory, d0.current, seeds)))
  {
    StartIsBetween(d0, seeds);
    RunKeepsInv(d0, seeds, State(d0, Boot, Nothing), steps);
  }

  lemma {:induction false} StampedStep(seeds: seq<Seed>, s: State, step: Step)
    requires s.disk.stamp && (s.pc.Boot? || s.pc.Finished?) && Enabled(seeds, s, step)
    ensures var r := Apply(seeds, s, step); r.disk == s.disk && (r.pc.Boot? || r.pc.Finished?)
  {
  }

  /** The stamp is written by the step that writes it and by no other: not by one that reports failure, and not
      by a crash. */
  lemma StampWrittenIff(seeds: seq<Seed>, s: State, step: Step)
    requires Enabled(seeds, s, step)
    ensures Apply(seeds, s, step).disk.stamp <==> s.disk.stamp || (s.pc.Stamp? && step.Next?)
  {
  }

  /** A stamped tree is never touched again, complete or not. */
  lemma {:induction false} StampedStays(seeds: seq<Seed>, s: State, steps: seq<Step>)
    requires s.disk.stamp && (s.pc.Boot? || s.pc.Finished?) && IsRun(seeds, s, steps)
    ensures After(seeds, s, steps).disk == s.disk
    decreases |steps|
  {
    if steps != [] {
      StampedStep(seeds, s, steps[0]);
      StampedStays(seeds, Apply(seeds, s, steps[0]), steps[1..]);
    }
  }

  const EMPTY := Disk(map[], map[], false)

  /** And it may be incomplete: whatever the seeds, there is a first boot that ends with the stamp and no file
      at all. */
  lemma StampCanComeWithoutSeeds(seeds: seq<Seed>) returns (steps: seq<Step>)
    requires WellFormed(seeds) && seeds != []
    ensures IsRun(seeds, State(EMPTY, Boot, Nothing), steps)
    ensures After(seeds, State(EMPTY, Boot, Nothing), steps).disk == Disk(map[], map[], true)
    ensures seeds[0].name in TargetFactory(map[], seeds)
  {
    steps := FailsFrom(seeds, State(EMPTY, Factory(0), Nothing));
    assert ([Next] + steps)[1..] == steps;
    steps := [Next] + steps;
    SeededHolds(Visible(map[]), seeds, 0);
  }

  // Every write still to come fails.
  lemma {:induction false} FailsFrom(seeds: seq<Seed>, s: State) returns (steps: seq<Step>)
    requires s.disk == EMPTY && s.pc.Factory? && s.pc.i <= |seeds|
    ensures IsRun(seeds, s, steps) && After(seeds, s, steps).disk == Disk(map[], map[], true)
    decreases |seeds| - s.pc.i
  {
    if s.pc.i < |seeds| {
      var r := Apply(seeds, s, Fail);
      steps := FailsFrom(seeds, r);
      assert ([Fail] + steps)[1..] == steps;
      steps := [Fail] + steps;
    } else {
      var r := State(Disk(map[], map[], true), Finished, s.missed);
      var a := Apply(seeds, s, List([]));
      assert IsRun(seeds, r, []) && After(seeds, r, []) == r;
      assert [Next][1..] == [] && [Next, Next][1..] == [Next];
      assert IsRun(seeds, Apply(seeds, a, Next), [Next]) && IsRun(seeds, a, [Next, Next]);
      steps := [List([]), Next, Next];
      assert steps[1..] == [Next, Next];
    }
  }

  // ---------------------------------------------------------------- one undisturbed run, as written

  datatype WriteEnd = Written | WriteFailed | StillWriting

  /** The write loop of AtomicWriteTextFile: `results` is what each write() returns, a count of at most what is
      left or a negative error.  The temporary file holds a prefix of the contents at every moment, so it is
      the whole of them when, and only when, the loop ends without an error. */
  method WriteAll(contents: string, results: seq<int>) returns (end: WriteEnd, file: string)
    ensures file <= contents
    ensures end.Written? <==> file == contents
  {
    var need, k, failed := |contents|, 0, false;
    file := "";
    while need > 0 && k < |results| && !failed
      invariant 0 <= need <= |contents| && file == contents[..|contents| - need]
      invariant 0 <= k <= |results| && (failed ==> need > 0)
      decreases |results| - k
    {
      var w := results[k];
      if w < 0 {
        failed := true;
      } else {
        var count := if w <= need then w else need;
        file := file + contents[|file|..|file| + count];
        need := need - count;
      }
      k := k + 1;
    }
    end := if need == 0 then Written else if failed then WriteFailed else StillWriting;
  }

  // The current tree after the first names of a listing have been looked at.
  function CopiedOf(current: Tree, factory: Tree, names: seq<string>): Tree
    requires forall k :: 0 <= k < |names| ==> names[k] in factory
  {
    if names == [] then current
    else
      var before, name := CopiedOf(current, factory, names[..|names| - 1]), names[|names| - 1];
      if IsConf(name) && name !in before then before[name := factory[name]] else before
  }

  lemma {:induction false} CopiedOfHas(current: Tree, factory: Tree, names: seq<string>, name: string)
    requires forall k :: 0 <= k < |names| ==> names[k] in factory
    ensures var r := CopiedOf(current, factory, names);
            && (name in r <==> name in current || (IsConf(name) && name in names))
            && (name in r ==> r[name] == if name in current then current[name] else factory[name])
  {
    if names != [] {
      CopiedOfHas(current, factory, names[..|names| - 1], name);
      assert names == names[..|names| - 1] + [names[|names| - 1]];
      CopiedOfHas(current, factory, names[..|names| - 1], names[|names| - 1]);
    }
  }

  lemma CopiedOfAll(current: Tree, factory: Tree, order: seq<string>)
    requires Lists(order, factory)
    ensures CopiedOf(current, factory, order) == Copied(current, factory)
  {
    var r, c := CopiedOf(current, factory, order), Copied(current, factory);
    forall name ensures name in r <==> name in c {
      CopiedOfHas(current, factory, order, name);
    }
    forall name | name in r ensures r[name] == c[name] {
      CopiedOfHas(current, factory, order, name);
    }
  }

  class ConfigTree {
    var factory: Tree
    var current: Tree
    var stamp: bool

    constructor (d: Disk)
      ensures factory == d.factory && current == d.current && stamp == d.stamp
    {
      factory, current, stamp := d.factory, d.current, d.stamp;
    }

    /** WriteIfMissing into the factory tree. */
    method WriteIfMissing(name: string, text: string)
      modifies this`factory
      ensures factory == WithSeed(old(factory), Seed(name, text))
    {
      if name !in factory {
        factory := factory[name := text];
      }
    }

    method SeedFactory(seeds: seq<Seed>)
      modifies this`factory
      ensures factory == Seeded(old(factory), seeds)
    {
      for i := 0 to |seeds|
        invariant factory == Seeded(old(factory), seeds[..i])
      {
        assert seeds[..i + 1][..i] == seeds[..i];
        WriteIfMissing(seeds[i].name, seeds[i].text);
      }
      assert seeds[..|seeds|] == seeds;
    }

    /** SeedCurrentFromFactoryIfMissing, over the directory in the order it is listed. */
    method SeedCurrent(order: seq<string>)
      requires Lists(order, factory)
      modifies this`current
      ensures current == Copied(old(current), factory)
    {
      ghost var was := current;
      for j := 0 to |order|
        invariant current == CopiedOf(was, factory, order[..j])
      {
        var name := order[j];
        assert order[..j + 1][..j] == order[..j];
        if IsConf(name) && name !in current {
          current := current[name := factory[name]];
        }
      }
      assert order[..|order|] == order;
      CopiedOfAll(was, factory, order);
    }

    /** InitializeConfigFiles, when no write fails. */
    method Initialize(seeds: seq<Seed>, order: seq<string>)
      requires WellFormed(seeds) && Lists(order, Seeded(factory, seeds))
      modifies this
      ensures stamp
      ensures old(stamp) ==> factory == old(factory) && current == old(current)
      ensures !old(stamp) ==> Visible(factory) == TargetFactory(old(factory), seeds) &&
                              Visible(current) == TargetCurrent(old(factory), old(current), seeds)
    {
      if !stamp {
        SeedFactory(seeds);
        SeedCurrent(order);
        stamp := true;
        VisibleSeeded(old(factory), seeds);
        VisibleCopied(old(current), factory);
      }
    }
  }

  // Leftovers play no part in an undisturbed run.
  lemma {:induction false} VisibleSeeded(t: Tree, seeds: seq<Seed>)
    requires WellFormed(seeds)
    ensures Visible(Seeded(t, seeds)) == Seeded(Visible(t), seeds)
  {
    if seeds != [] {
      var front, seed := seeds[..|seeds| - 1], seeds[|seeds| - 1];
      VisibleSeeded(t, front);
      assert EndsWith(seed.name, ".conf");
      ConfIsNotTmp(seed.name);
    }
  }

  lemma VisibleCopied(current: Tree, factory: Tree)
    ensures Visible(Copied(current, factory)) == Copied(Visible(current), Visible(factory))
  {
    forall name | IsConf(name) ensures !IsTmp(name) {
      ConfIsNotTmp(name);
    }
  }
}
