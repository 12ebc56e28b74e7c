/** RunMessage of aioenetd.cpp: running the items of one message in order, whatever each of them does. */
module RunBundle {
  import opened Wrappers
  import opened Bytes
  import opened Items
  import opened Messages
  import opened ErrorItems
  import GuardText

  // How `Go` ends: with a result code (0 is success), a std::logic_error, or any other exception.
  datatype Outcome = Code(rc: u32) | LogicError(what: string) | OtherException(what: string)

  datatype GoResult<+D> = GoResult(dev: D, item: Item, outcome: Outcome)

  // What executing an item does to the device and to the item.
  type Semantics<!D> = (D, Item) -> GoResult<D>

  predicate IsFailure(o: Outcome) {
    !(o.Code? && o.rc == 0)
  }

  // ErrIndex: the negated code, as a 32-bit word.
  function ErrIndex(rc: u32): u32 {
    (0x1_0000_0000 - rc) % 0x1_0000_0000
  }

  // The error item RunMessage tries to build for slot i.
  function ErrorFor(dict: Dictionary, i: nat, did: u16, o: Outcome): Option<Item> {
    match o
    case Code(rc) =>
      if rc == 0 then None else BuildSysItemError(dict, i % 0x1_0000, did, ErrIndex(rc), 0, [])
    case LogicError(what) =>
      var (errIndex, info) := GuardText.ParseWhat(what, ERR_MSG_PARSE, 0);
      BuildSysItemError(dict, i % 0x1_0000, did, errIndex, info, TextBytes(what))
    case OtherException(what) =>
      BuildSysItemError(dict, i % 0x1_0000, did, ERR_MSG_PARSE, 0, TextBytes(what))
  }

  // Slot i afterwards: the error item if one was built, otherwise the item itself as `Go` left it.
  function SlotAfter<D>(dict: Dictionary, i: nat, before: Item, r: GoResult<D>): Item {
    match ErrorFor(dict, i, before.did, r.outcome)
    case Some(e) => e
    case None => r.item
  }

  // What becomes of slot i, given the item it held and how that item ran.
  type Patch<!D> = (nat, Item, GoResult<D>) -> Item

  function PatchOf<D>(dict: Dictionary): Patch<D> {
    (i: nat, before: Item, r: GoResult<D>) => SlotAfter(dict, i, before, r)
  }

  datatype Ran<+D> = Ran(dev: D, items: seq<Item>, anyError: bool)

  function RunItems<D>(patch: Patch<D>, go: Semantics<D>, dev: D, items: seq<Item>, base: nat): Ran<D>
    decreases |items|
  {
    if items == [] then Ran(dev, [], false)
    else
      var r := go(dev, items[0]);
      var rest := RunItems(patch, go, r.dev, items[1..], base + 1);
      Ran(rest.dev, [patch(base, items[0], r)] + rest.items, IsFailure(r.outcome) || rest.anyError)
  }

  function RunMessage<D>(patch: Patch<D>, go: Semantics<D>, dev: D, m: Message): (D, Message) {
    var ran := RunItems(patch, go, dev, m.items, 0);
    (ran.dev, Message(if ran.anyError then MID_E else MID_R, ran.items))
  }

  // The loop of RunMessage before item i, with `items` run and patched up to there: running the rest gives `all`.
  ghost predicate Midway<D>(patch: Patch<D>, go: Semantics<D>, dev: D, given: seq<Item>, items: seq<Item>, i: nat,
                            anyError: bool, all: Ran<D>)
  {
    i <= |items| == |given| && items[i..] == given[i..] &&
    var rest := RunItems(patch, go, dev, given[i..], i);
    all == Ran(rest.dev, items[..i] + rest.items, anyError || rest.anyError)
  }

  lemma OneItem<D>(patch: Patch<D>, go: Semantics<D>, dev: D, given: seq<Item>, items: seq<Item>, i: nat,
                   anyError: bool, all: Ran<D>)
    requires Midway(patch, go, dev, given, items, i, anyError, all) && i < |items|
    ensures var r := go(dev, items[i]);
            Midway(patch, go, r.dev, given, items[i := patch(i, items[i], r)], i + 1,
                   anyError || IsFailure(r.outcome), all)
  {
    var r := go(dev, items[i]);
    var slot, rest := patch(i, items[i], r), RunItems(patch, go, r.dev, given[i + 1..], i + 1);
    assert items[i] == items[i..][0] == given[i];
    assert given[i..][1..] == given[i + 1..] == items[i + 1..];
    assert items[i := slot][..i + 1] == items[..i] + [slot];
    assert items[..i] + ([slot] + rest.items) == items[..i] + [slot] + rest.items;
  }

  class TMessage {
    var mid: byte
    var items: seq<Item>

    constructor (m: Message)
      ensures mid == m.mid && items == m.items
    {
      mid, items := m.mid, m.items;
    }

    /** The loop of RunMessage: run item i, then write its slot back in place. */
    method Run<D>(patch: Patch<D>, go: Semantics<D>, dev: D) returns (ok: bool, dev': D)
      modifies this
      ensures (dev', Message(mid, items)) == RunMessage(patch, go, dev, Message(old(mid), old(items)))
      ensures ok <==> mid == MID_R
    {
      var anyError, i := false, 0;
      dev' := dev;
      ghost var given, all := items, RunItems(patch, go, dev, items, 0);
      assert given[0..] == given && items[..0] + all.items == all.items;
      while i < |items|
        invariant Midway(patch, go, dev', given, items, i, anyError, all)
        decreases |given| - i
      {
        OneItem(patch, go, dev', given, items, i, anyError, all);
        var r := go(dev', items[i]);
        anyError := anyError || IsFailure(r.outcome);
        dev', items := r.dev, items[i := patch(i, items[i], r)];
        i := i + 1;
      }
      assert items[..i] + [] == items;
      mid := if anyError then MID_E else MID_R;
      ok := !anyError;
    }
  }

  // ---------------------------------------------------------------- what running a message guarantees

  // How each item ran, in order.
  function Trace<D>(go: Semantics<D>, dev: D, items: seq<Item>): (t: seq<GoResult<D>>)
    ensures |t| == |items|
  {
    if items == [] then [] else [go(dev, items[0])] + Trace(go, go(dev, items[0]).dev, items[1..])
  }

  predicate SomeFailed<D>(t: seq<GoResult<D>>) {
    exists i :: 0 <= i < |t| && IsFailure(t[i].outcome)
  }

  lemma SomeFailedCons<D>(r: GoResult<D>, t: seq<GoResult<D>>)
    ensures SomeFailed([r] + t) <==> IsFailure(r.outcome) || SomeFailed(t)
  {
    var all := [r] + t;
    if SomeFailed(t) {
      var i :| 0 <= i < |t| && IsFailure(t[i].outcome);
      assert IsFailure(all[i + 1].outcome);
    }
    if IsFailure(r.outcome) {
      assert IsFailure(all[0].outcome);
    }
  }

  lemma {:induction false} RunFollowsTrace<D>(patch: Patch<D>, go: Semantics<D>, dev: D, items: seq<Item>, base: nat)
    ensures var ran, t := RunItems(patch, go, dev, items, base), Trace(go, dev, items);
            && |ran.items| == |items|
            && (forall i :: 0 <= i < |items| ==> ran.items[i] == patch(base + i, items[i], t[i]))
            && ran.anyError == SomeFailed(t)
    decreases |items|
  {
    if items != [] {
      var r := go(dev, items[0]);
      RunFollowsTrace(patch, go, r.dev, items[1..], base + 1);
      SomeFailedCons(r, Trace(go, r.dev, items[1..]));
      var ran, rest := RunItems(patch, go, dev, items, base), RunItems(patch, go, r.dev, items[1..], base + 1);
      assert forall i :: 1 <= i < |items| ==> ran.items[i] == rest.items[i - 1];
    }
  }

  // The device after the last item of a trace.
  function DeviceAfter<D>(dev: D, t: seq<GoResult<D>>): D {
    if t == [] then dev else t[|t| - 1].dev
  }

  lemma {:induction false} RunEndsOnTrace<D>(patch: Patch<D>, go: Semantics<D>, dev: D, items: seq<Item>, base: nat)
    ensures RunItems(patch, go, dev, items, base).dev == DeviceAfter(dev, Trace(go, dev, items))
    decreases |items|
  {
    if items != [] {
      RunEndsOnTrace(patch, go, go(dev, items[0]).dev, items[1..], base + 1);
    }
  }

  // Item i runs on the device the items before it left.
  lemma {:induction false} TraceAt<D>(go: Semantics<D>, dev: D, items: seq<Item>, i: nat)
    requires i < |items|
    ensures Trace(go, dev, items)[i] == go(DeviceAfter(dev, Trace(go, dev, items[..i])), items[i])
    decreases |items|
  {
    if i > 0 {
      TraceAt(go, go(dev, items[0]).dev, items[1..], i - 1);
      assert items[..i][1..] == items[1..][..i - 1];
    }
  }

  // What stands in slot i after the item there ran with result r, given what an exception explained: its
  // item as `Go` left it, or what the stated length keeps of an item error.
  function SlotIs<D>(i: nat, before: Item, r: GoResult<D>): Item {
    match r.outcome
    case Code(rc) =>
      if rc == 0 then r.item else Item(DID_SYS_ITEM_ERROR, ItemError(i % 0x1_0000, before.did, ErrIndex(rc), 0))
    case LogicError(what) =>
      var (errIndex, info) := GuardText.ParseWhat(what, ERR_MSG_PARSE, 0);
      Explained(i, before.did, errIndex, info, what, r.item)
    case OtherException(what) => Explained(i, before.did, ERR_MSG_PARSE, 0, what, r.item)
  }

  function Explained(i: nat, did: u16, errIndex: u32, info: u32, what: string, left: Item): Item {
    var k := (12 + |what|) % 0x1_0000;
    if k > 12 then left else Item(DID_SYS_ITEM_ERROR, ItemErrorKept(k, i % 0x1_0000, did, errIndex, info))
  }

  /** Running a message keeps the number and the order of its items; its id becomes 'E' exactly when some
      item failed and 'R' otherwise; and slot i holds, for every outcome, exactly this: after success its item;
      after a failing result code an error item with index i modulo 65536 and the DId the slot had; after an
      exception its item when twelve bytes and the text, modulo 65536, exceed twelve, and otherwise as much of
      that error item as those bytes keep: all of it when the text is empty. */
  lemma RunMessageKeepsSlots<D>(dict: Dictionary, go: Semantics<D>, dev: D, m: Message)
    requires ErrorEntries(dict)
    ensures var r, t := RunMessage(PatchOf(dict), go, dev, m).1, Trace(go, dev, m.items);
            && |r.items| == |m.items|
            && r.mid == (if SomeFailed(t) then MID_E else MID_R)
            && forall i :: 0 <= i < |m.items| ==> r.items[i] == SlotIs(i, m.items[i], t[i])
  {
    var patch: Patch<D>, t := PatchOf(dict), Trace(go, dev, m.items);
    RunFollowsTrace(patch, go, dev, m.items, 0);
    forall i | 0 <= i < |m.items| ensures patch(0 + i, m.items[i], t[i]) == SlotIs(i, m.items[i], t[i]) {
      SlotCases(dict, i, m.items[i], t[i]);
    }
  }

  lemma SlotCases<D>(dict: Dictionary, i: nat, before: Item, r: GoResult<D>)
    requires ErrorEntries(dict)
    ensures SlotAfter(dict, i, before, r) == SlotIs(i, before, r)
  {
    match r.outcome
    case Code(rc) => ItemErrorBuiltIff(dict, i % 0x1_0000, before.did, ErrIndex(rc), 0, []);
    case LogicError(what) =>
      var (errIndex, info) := GuardText.ParseWhat(what, ERR_MSG_PARSE, 0);
      ItemErrorBuiltIff(dict, i % 0x1_0000, before.did, errIndex, info, TextBytes(what));
    case OtherException(what) =>
      ItemErrorBuiltIff(dict, i % 0x1_0000, before.did, ERR_MSG_PARSE, 0, TextBytes(what));
  }

  /** The library's codes are negative: an item that ends with -code leaves an error item that names the code
      itself, its own place and its DId. */
  lemma NegativeCodeIsNamed<D>(dict: Dictionary, i: nat, before: Item, r: GoResult<D>, code: u32)
    requires ErrorEntries(dict) && 0 < code && r.outcome == Code(0x1_0000_0000 - code)
    ensures PatchOf(dict)(i, before, r) == Item(0xEFF1, ItemError(i % 0x1_0000, before.did, code, 0))
  {
    SlotCases(dict, i, before, r);
  }

  /** When an exception explains itself in fewer than 65524 characters the slot keeps the item that failed, and
      when it says nothing the slot names it. */
  lemma SlotOfException(i: nat, did: u16, errIndex: u32, info: u32, what: string, left: Item)
    ensures 0 < |what| < 0x1_0000 - 12 ==> Explained(i, did, errIndex, info, what, left) == left
    ensures what == "" ==> Explained(i, did, errIndex, info, what, left) ==
                           Item(DID_SYS_ITEM_ERROR, ItemError(i % 0x1_0000, did, errIndex, info))
  {
  }
}
