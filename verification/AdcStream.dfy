/** The ADC streaming pipeline of adc.cpp: a DMA worker and a TCP logger share a ring of `n` blocks
    guarded by two counting semaphores and a mutex; the action thread starts workers, and anyone may
    ask for a stop.  The threads interleave freely, so the code is modelled as a step relation over
    their program counters.  The shipped program has n = 255, both for the ring and for the first
    value of `empty`. */
module AdcStream {

  type Block = int

  datatype Owner = Free | HeldByWorker | HeldByLogger

  // Program counters of worker_main: each names the next thing the worker does.
  datatype WorkerPc =
    | WAbsent | WInit | WSpawn | WPoll | WIrq | WWait | WLock | WCopy | WPost | WDone
    | WStop | WWake | WJoin | WDestroy | WClear

  // Program counters of log_main.
  datatype LoggerPc =
    | LAbsent | LBegin | LHead | LWait | LLock | LSend | LPipe | LPost | LNext | LEnded

  datatype Shared = Shared(
    empty: int, full: int, semsLive: bool, mutex: Owner, ring: seq<Block>,
    loggerTerminate: bool, streamTerminate: bool, done: bool, workerId: int, loggerId: int)

  datatype Worker = Worker(pc: WorkerPc, first: nat, count: nat, i: nat, loggerStarted: bool)

  datatype Logger = Logger(pc: LoggerPc, rd: nat)

  // Completed blocks, the DMA slots they occupy, and how many were given back by `done(1)`.
  datatype Driver = Driver(dma: seq<Block>, produced: seq<Block>, acked: nat)

  // What happened in this session (blocks copied into the ring, blocks handed to `send`, whether a
  // send found the pipe broken) and over all sessions (their number, and whether two workers or two
  // loggers ever coexisted).
  datatype History = History(copied: nat, sent: seq<Block>, piped: bool, session: nat, overlap: bool)

  // `spawned`: TADC_StreamStart::Go has created a worker and not yet recorded it.
  datatype State = State(sh: Shared, w: Worker, l: Logger, spawned: bool, d: Driver, h: History)

  // The worker setting up and tearing down ...
  datatype LifeStep =
    | WorkerInit | WorkerInitFails | WorkerSpawn(created: bool)
    | WorkerStop | WorkerWake | WorkerJoin | WorkerDestroy | WorkerClear

  // ... and moving blocks from the DMA buffer into the ring.
  datatype PumpStep =
    | WorkerPoll | WorkerIrq(canceled: bool) | WorkerWait | WorkerLock | WorkerCopy | WorkerPost | WorkerAck

  datatype LoggerStep =
    | LoggerBegin | LoggerHead | LoggerTimeout | LoggerWaitError | LoggerTake | LoggerLock
    | LoggerSend(broken: bool) | LoggerPipe | LoggerPost | LoggerNext

  datatype OtherStep = StartSpawn | StartMark | SetDone | DmaComplete(block: Block)

  datatype Step =
    | Life(life: LifeStep) | Pump(pump: PumpStep) | LoggerMoves(ls: LoggerStep) | OtherMoves(os: OtherStep)

  // The ring slot of the k-th block: k modulo n.
  function Slot(k: nat, n: nat): (r: nat)
    requires 0 < n
    ensures r < n
    decreases k
  {
    if k < n then k else Slot(k - n, n)
  }

  lemma {:induction false} SlotIsRemainder(k: nat, n: nat) returns (q: nat)
    requires 0 < n
    ensures k == q * n + Slot(k, n) && Slot(k, n) < n
    decreases k
  {
    if k < n {
      q := 0;
    } else {
      q := SlotIsRemainder(k - n, n);
      q := q + 1;
    }
  }

  lemma {:induction false} SlotAdd(a: nat, b: nat, n: nat)
    requires 0 < n
    ensures Slot(Slot(a, n) + b, n) == Slot(a + b, n)
    decreases a
  {
    if n <= a {
      SlotAdd(a - n, b, n);
    }
  }

  lemma {:induction false} SlotApart(a: nat, b: nat, n: nat)
    requires 0 < n && a < b < a + n
    ensures Slot(a, n) != Slot(b, n)
    decreases a
  {
    if n <= a {
      SlotApart(a - n, b - n, n);
    }
  }

  function Zeros(n: nat): (s: seq<Block>)
    ensures |s| == n
  {
    seq(n, _ => 0)
  }

  function Init(n: nat): State {
    State(Shared(0, 0, false, Free, Zeros(n), false, false, false, -1, -1),
          Worker(WAbsent, 0, 0, 0, false), Logger(LAbsent, 0), false,
          Driver(Zeros(n), [], 0), History(0, [], false, 0, false))
  }

  predicate Sized(n: nat, s: State) {
    0 < n == |s.sh.ring| == |s.d.dma| && s.l.rd < n && s.d.acked <= |s.d.produced|
  }

  // ---------------------------------------------------------------- steps

  function At(s: State, pc: WorkerPc): State {
    s.(w := s.w.(pc := pc))
  }

  predicate LifeEnabled(s: State, step: LifeStep) {
    match step
    case WorkerInit => s.w.pc.WInit?
    case WorkerInitFails => s.w.pc.WInit?
    case WorkerSpawn(_) => s.w.pc.WSpawn?
    case WorkerStop => s.w.pc.WStop?
    case WorkerWake => s.w.pc.WWake?
    case WorkerJoin => s.w.pc.WJoin? && (s.w.loggerStarted ==> s.l.pc.LEnded?)
    case WorkerDestroy => s.w.pc.WDestroy?
    case WorkerClear => s.w.pc.WClear?
  }

  function LifeApply(n: nat, s: State, step: LifeStep): (r: State)
    requires Sized(n, s) && LifeEnabled(s, step)
    ensures Sized(n, r)
  {
    match step
    case WorkerInit =>
      State(s.sh.(done := false, empty := n, full := 0, mutex := Free, semsLive := true),
            s.w.(pc := WSpawn, loggerStarted := false), s.l, s.spawned, s.d, s.h)
    case WorkerInitFails => At(s.(sh := s.sh.(done := false)), WAbsent)
    case WorkerSpawn(created) =>
      if s.sh.loggerId != -1 then At(s, WPoll)
      else if created then
        State(s.sh.(loggerTerminate := false, loggerId := 0), s.w.(pc := WPoll, loggerStarted := true),
              s.l.(pc := LBegin), s.spawned, s.d, s.h.(overlap := s.h.overlap || !s.l.pc.LAbsent?))
      else At(s.(sh := s.sh.(loggerTerminate := false)), WPoll)
    case WorkerStop => At(s.(sh := s.sh.(loggerTerminate := true)), WWake)
    case WorkerWake => At(s.(sh := s.sh.(full := s.sh.full + 1)), WJoin)
    case WorkerJoin =>
      if s.w.loggerStarted then
        s.(sh := s.sh.(loggerId := -1), w := s.w.(pc := WDestroy, loggerStarted := false), l := s.l.(pc := LAbsent))
      else At(s, WDestroy)
    case WorkerDestroy => At(s.(sh := s.sh.(semsLive := false)), WClear)
    case WorkerClear => At(s.(sh := s.sh.(workerId := -1)), WAbsent)
  }

  predicate PumpEnabled(s: State, step: PumpStep) {
    match step
    case WorkerPoll => s.w.pc.WPoll?
    case WorkerIrq(_) => s.w.pc.WIrq?
    case WorkerWait => s.w.pc.WWait? && (s.w.i < s.w.count ==> 0 < s.sh.empty)
    case WorkerLock => s.w.pc.WLock? && s.sh.mutex.Free?
    case WorkerCopy => s.w.pc.WCopy?
    case WorkerPost => s.w.pc.WPost?
    case WorkerAck => s.w.pc.WDone? && s.d.acked < |s.d.produced|
  }

  function PumpApply(n: nat, s: State, step: PumpStep): (r: State)
    requires Sized(n, s) && PumpEnabled(s, step)
    ensures Sized(n, r)
  {
    match step
    case WorkerPoll =>
      if s.sh.done then At(s, WStop)
      else
        var pending: nat := |s.d.produced| - s.d.acked;
        s.(w := Worker(if pending == 0 then WIrq else WWait, Slot(s.d.acked, n), pending, 0, s.w.loggerStarted))
    case WorkerIrq(canceled) =>
      if canceled then At(s.(sh := s.sh.(streamTerminate := true, loggerTerminate := true)), WStop) else At(s, WPoll)
    case WorkerWait =>
      if s.w.i < s.w.count then At(s.(sh := s.sh.(empty := s.sh.empty - 1)), WLock) else At(s, WPoll)
    case WorkerLock => At(s.(sh := s.sh.(mutex := HeldByWorker)), WCopy)
    case WorkerCopy =>
      var slot := Slot(s.w.first + s.w.i, n);
      At(s.(sh := s.sh.(mutex := Free, ring := s.sh.ring[slot := s.d.dma[slot]]), h := s.h.(copied := s.h.copied + 1)),
         WPost)
    case WorkerPost => At(s.(sh := s.sh.(full := s.sh.full + 1)), WDone)
    case WorkerAck => s.(w := s.w.(pc := WWait, i := s.w.i + 1), d := s.d.(acked := s.d.acked + 1))
  }

  predicate LoggerEnabled(s: State, step: LoggerStep) {
    match step
    case LoggerBegin => s.l.pc.LBegin?
    case LoggerHead => s.l.pc.LHead?
    case LoggerTimeout => s.l.pc.LWait?
    case LoggerWaitError => s.l.pc.LWait?
    case LoggerTake => s.l.pc.LWait? && 0 < s.sh.full
    case LoggerLock => s.l.pc.LLock? && s.sh.mutex.Free?
    case LoggerSend(_) => s.l.pc.LSend?
    case LoggerPipe => s.l.pc.LPipe?
    case LoggerPost => s.l.pc.LPost?
    case LoggerNext => s.l.pc.LNext?
  }

  function Logging(s: State, pc: LoggerPc): State {
    s.(l := s.l.(pc := pc))
  }

  function LoggerApply(n: nat, s: State, step: LoggerStep): (r: State)
    requires Sized(n, s) && LoggerEnabled(s, step)
    ensures Sized(n, r)
  {
    match step
    case LoggerBegin => s.(sh := s.sh.(loggerTerminate := false), l := Logger(LHead, 0))
    case LoggerHead => Logging(s, if s.sh.loggerTerminate then LEnded else LWait)
    case LoggerTimeout => Logging(s, LHead)
    case LoggerWaitError => Logging(s, LEnded)
    case LoggerTake => Logging(s.(sh := s.sh.(full := s.sh.full - 1)), LLock)
    case LoggerLock => Logging(s.(sh := s.sh.(mutex := HeldByLogger)), LSend)
    case LoggerSend(broken) =>
      Logging(s.(sh := s.sh.(mutex := Free), h := s.h.(sent := s.h.sent + [s.sh.ring[s.l.rd]], piped := broken)),
              if broken then LPipe else LPost)
    case LoggerPipe => Logging(s.(sh := s.sh.(streamTerminate := true, loggerTerminate := true)), LHead)
    case LoggerPost => Logging(s.(sh := s.sh.(empty := s.sh.empty + 1)), LNext)
    case LoggerNext => s.(l := Logger(LHead, Slot(s.l.rd + 1, n)))
  }

  // `DmaComplete` carries the driver contract: at most n blocks are outstanding.
  predicate OtherEnabled(n: nat, s: State, step: OtherStep) {
    match step
    case StartSpawn => !s.spawned && s.sh.workerId == -1
    case StartMark => s.spawned
    case SetDone => true
    case DmaComplete(_) => |s.d.produced| < s.d.acked + n
  }

  function OtherApply(n: nat, s: State, step: OtherStep): (r: State)
    requires Sized(n, s) && OtherEnabled(n, s, step)
    ensures Sized(n, r)
  {
    match step
    case StartSpawn =>
      State(s.sh.(streamTerminate := false), s.w.(pc := WInit), s.l, true, s.d.(produced := [], acked := 0),
            History(0, [], false, s.h.session + 1, s.h.overlap || !s.w.pc.WAbsent?))
    case StartMark => s.(spawned := false, sh := s.sh.(workerId := 0))
    case SetDone => s.(sh := s.sh.(done := true))
    case DmaComplete(b) =>
      s.(d := Driver(s.d.dma[Slot(|s.d.produced|, n) := b], s.d.produced + [b], s.d.acked))
  }

  predicate Enabled(n: nat, s: State, step: Step) {
    match step
    case Life(x) => LifeEnabled(s, x)
    case Pump(x) => PumpEnabled(s, x)
    case LoggerMoves(x) => LoggerEnabled(s, x)
    case OtherMoves(x) => OtherEnabled(n, s, x)
  }

  function Apply(n: nat, s: State, step: Step): (r: State)
    requires Sized(n, s) && Enabled(n, s, step)
    ensures Sized(n, r)
  {
    match step
    case Life(x) => LifeApply(n, s, x)
    case Pump(x) => PumpApply(n, s, x)
    case LoggerMoves(x) => LoggerApply(n, s, x)
    case OtherMoves(x) => OtherApply(n, s, x)
  }

  // `steps` is a run from `s`: every step is enabled when it is taken.
  predicate IsRun(n: nat, s: State, steps: seq<Step>)
    requires Sized(n, s)
    decreases |steps|
  {
    steps == [] || (Enabled(n, s, steps[0]) && IsRun(n, Apply(n, s, steps[0]), steps[1..]))
  }

  function After(n: nat, s: State, steps: seq<Step>): (r: State)
    requires Sized(n, s) && IsRun(n, s, steps)
    ensures Sized(n, r)
    decreases |steps|
  {
    if steps == [] then s else After(n, Apply(n, s, steps[0]), steps[1..])
  }

  // ---------------------------------------------------------------- the invariant

  predicate InSession(s: State) {
    !s.w.pc.WAbsent? && !s.w.pc.WInit? && !s.w.pc.WClear?
  }

  // Tokens taken from `empty` and not yet turned into a token of `full`.
  function WorkerInHand(s: State): nat {
    if s.w.pc.WLock? || s.w.pc.WCopy? || s.w.pc.WPost? then 1 else 0
  }

  // Tokens taken from `full` and not yet given back to `empty`; a broken pipe keeps its token for good.
  function LoggerInHand(s: State): nat {
    if s.l.pc.LLock? || s.l.pc.LSend? || s.l.pc.LPost? || s.h.piped then 1 else 0
  }

  // The wake-up token the worker adds to `full` on its way out.
  function Extra(s: State): nat {
    if s.w.pc.WJoin? || s.w.pc.WDestroy? then 1 else 0
  }

  predicate Tokens(n: nat, s: State) {
    && 0 <= s.sh.empty && 0 <= s.sh.full
    && s.sh.empty + WorkerInHand(s) + s.sh.full + LoggerInHand(s) == n + Extra(s)
    && s.sh.full + |s.h.sent| + (if s.l.pc.LLock? || s.l.pc.LSend? then 1 else 0) ==
       s.h.copied - (if s.w.pc.WPost? then 1 else 0) + Extra(s)
  }

  predicate TokensInSession(n: nat, s: State) {
    && (InSession(s) && !s.w.pc.WSpawn? ==> Tokens(n, s))
    && (s.w.pc.WSpawn? ==> s.sh.empty == n && s.sh.full == 0)
  }

  predicate LoggerLocals(n: nat, s: State)
    requires 0 < n
  {
    && (s.h.piped ==> 0 < |s.h.sent| && (s.l.pc.LPipe? || s.l.pc.LHead? || s.l.pc.LEnded? || s.l.pc.LAbsent?))
    && (s.h.piped && s.l.pc.LHead? ==> s.sh.loggerTerminate)
    && (s.l.pc.LPipe? ==> s.h.piped)
    && (s.l.pc.LPost? || s.l.pc.LNext? ==> 0 < |s.h.sent|)
    && (s.l.pc.LBegin? ==> s.h.sent == [])
    && (s.l.pc.LHead? || s.l.pc.LWait? || s.l.pc.LLock? || s.l.pc.LSend? ==>
          s.h.piped || s.l.rd == Slot(|s.h.sent|, n))
    && (s.l.pc.LPost? || s.l.pc.LNext? ==> s.l.rd == Slot(|s.h.sent| - 1, n))
  }

  predicate Copying(s: State) {
    s.w.pc.WLock? || s.w.pc.WCopy? || s.w.pc.WPost? || s.w.pc.WDone?
  }

  predicate WorkerLocals(n: nat, s: State)
    requires 0 < n
  {
    && s.d.acked == s.h.copied - (if s.w.pc.WPost? || s.w.pc.WDone? then 1 else 0)
    && |s.d.produced| <= s.d.acked + n
    && s.h.copied <= |s.d.produced|
    && |s.h.sent| <= s.h.copied + 1
    && (Copying(s) || s.w.pc.WWait? ==>
          s.w.i <= s.w.count && s.w.i <= s.d.acked && s.d.acked - s.w.i + s.w.count <= |s.d.produced| &&
          s.w.first == Slot(s.d.acked - s.w.i, n))
    && (Copying(s) ==> s.w.i < s.w.count)
    && (s.w.pc.WInit? || s.w.pc.WSpawn? ==> s.h.copied == 0 && s.h.sent == [] && !s.h.piped)
  }

  // A produced block sits in its DMA slot until given back, and a copied block in its ring slot until sent.
  ghost predicate Slots(n: nat, s: State)
    requires Sized(n, s)
  {
    && (forall k :: s.d.acked <= k < |s.d.produced| ==> s.d.dma[Slot(k, n)] == s.d.produced[k])
    && (forall k :: |s.h.sent| <= k < s.h.copied && k < |s.d.produced| ==> s.sh.ring[Slot(k, n)] == s.d.produced[k])
    && (forall k :: 0 <= k < |s.h.sent| && k < s.h.copied && k < |s.d.produced| ==> s.h.sent[k] == s.d.produced[k])
  }

  predicate Threads(s: State) {
    && !s.h.overlap
    && (InSession(s) ==> s.sh.semsLive)
    && (InSession(s) && !s.w.pc.WSpawn? ==>
          ((s.sh.mutex.HeldByWorker? <==> s.w.pc.WCopy?) && (s.sh.mutex.HeldByLogger? <==> s.l.pc.LSend?)))
    && (s.w.pc.WSpawn? ==> s.sh.mutex.Free? && !s.w.loggerStarted)
    && (InSession(s) && s.w.loggerStarted <==> !s.l.pc.LAbsent?)
    && (s.w.pc.WDestroy? ==> !s.w.loggerStarted)
    && s.sh.loggerId == (if s.l.pc.LAbsent? then -1 else 0)
    && (s.spawned ==> s.sh.workerId == -1)
    && (!s.spawned && !s.w.pc.WAbsent? ==> s.sh.workerId == 0)
  }

  // Everything but what the slots hold.
  predicate Control(n: nat, s: State) {
    && Sized(n, s)
    && Threads(s)
    && LoggerLocals(n, s)
    && WorkerLocals(n, s)
    && TokensInSession(n, s)
  }

  ghost predicate Inv(n: nat, s: State) {
    Control(n, s) && Slots(n, s)
  }

  lemma {:induction false} InitInv(n: nat)
    requires 0 < n
    ensures Inv(n, Init(n))
  {
  }

  lemma LifeKeepsThreads(n: nat, s: State, step: LifeStep)
    requires Control(n, s) && LifeEnabled(s, step)
    ensures Threads(LifeApply(n, s, step))
  {
  }

  lemma LifeKeepsTokens(n: nat, s: State, step: LifeStep)
    requires Control(n, s) && LifeEnabled(s, step)
    ensures TokensInSession(n, LifeApply(n, s, step))
  {
  }

  lemma LifeKeepsLoggerLocals(n: nat, s: State, step: LifeStep)
    requires Control(n, s) && LifeEnabled(s, step)
    ensures LoggerLocals(n, LifeApply(n, s, step))
  {
  }

  lemma LifeKeepsWorkerLocals(n: nat, s: State, step: LifeStep)
    requires Control(n, s) && LifeEnabled(s, step)
    ensures WorkerLocals(n, LifeApply(n, s, step))
  {
  }

  lemma LifeKeepsSlots(n: nat, s: State, step: LifeStep)
    requires Inv(n, s) && LifeEnabled(s, step)
    ensures Slots(n, LifeApply(n, s, step))
  {
  }

  lemma PumpKeepsThreads(n: nat, s: State, step: PumpStep)
    requires Control(n, s) && PumpEnabled(s, step)
    ensures Threads(PumpApply(n, s, step))
  {
  }

  lemma PumpKeepsTokens(n: nat, s: State, step: PumpStep)
    requires Control(n, s) && PumpEnabled(s, step)
    ensures TokensInSession(n, PumpApply(n, s, step))
  {
  }

  lemma PumpKeepsLoggerLocals(n: nat, s: State, step: PumpStep)
    requires Control(n, s) && PumpEnabled(s, step)
    ensures LoggerLocals(n, PumpApply(n, s, step))
  {
  }

  lemma PumpKeepsWorkerLocals(n: nat, s: State, step: PumpStep)
    requires Control(n, s) && PumpEnabled(s, step)
    ensures WorkerLocals(n, PumpApply(n, s, step))
  {
  }

  // What the copy changes, in a state that satisfies the invariant.
  lemma CopyStep(n: nat, s: State)
    requires Inv(n, s) && s.w.pc.WCopy?
    ensures var r, slot := PumpApply(n, s, WorkerCopy), Slot(s.h.copied, n);
            && r.d == s.d && r.h.sent == s.h.sent && r.h.copied == s.h.copied + 1
            && r.sh.ring == s.sh.ring[slot := s.d.dma[slot]]
    ensures s.d.acked == s.h.copied
  {
    CopyFillsFreeSlot(n, s);
  }

  lemma CopyKeepsSlots(n: nat, s: State)
    requires Inv(n, s) && s.w.pc.WCopy?
    ensures Slots(n, PumpApply(n, s, WorkerCopy))
  {
    CopyFillsFreeSlot(n, s);
    CopyStep(n, s);
  }

  lemma PumpKeepsSlots(n: nat, s: State, step: PumpStep)
    requires Inv(n, s) && PumpEnabled(s, step)
    ensures Slots(n, PumpApply(n, s, step))
  {
    if step.WorkerCopy? {
      CopyKeepsSlots(n, s);
    } else {
      var r := PumpApply(n, s, step);
      assert r.sh.ring == s.sh.ring && r.h == s.h && r.d.dma == s.d.dma && r.d.produced == s.d.produced;
      assert s.d.acked <= r.d.acked;
    }
  }

  // The slot the worker fills holds no block that is still waiting to be sent.
  lemma CopyFillsFreeSlot(n: nat, s: State)
    requires Inv(n, s) && s.w.pc.WCopy?
    ensures Slot(s.w.first + s.w.i, n) == Slot(s.h.copied, n)
    ensures |s.h.sent| <= s.h.copied < |s.h.sent| + n
    ensures forall k :: |s.h.sent| <= k < s.h.copied ==> Slot(k, n) != Slot(s.h.copied, n)
  {
    SlotAdd(s.d.acked - s.w.i, s.w.i, n);
    forall k | |s.h.sent| <= k < s.h.copied ensures Slot(k, n) != Slot(s.h.copied, n) {
      SlotApart(k, s.h.copied, n);
    }
  }

  lemma LoggerKeepsThreads(n: nat, s: State, step: LoggerStep)
    requires Control(n, s) && LoggerEnabled(s, step)
    ensures Threads(LoggerApply(n, s, step))
  {
  }

  lemma LoggerKeepsTokens(n: nat, s: State, step: LoggerStep)
    requires Control(n, s) && LoggerEnabled(s, step)
    ensures TokensInSession(n, LoggerApply(n, s, step))
  {
  }

  lemma LoggerKeepsLoggerLocals(n: nat, s: State, step: LoggerStep)
    requires Control(n, s) && LoggerEnabled(s, step)
    ensures LoggerLocals(n, LoggerApply(n, s, step))
  {
    if step.LoggerNext? {
      SlotAdd(|s.h.sent| - 1, 1, n);
    }
  }

  lemma LoggerKeepsWorkerLocals(n: nat, s: State, step: LoggerStep)
    requires Control(n, s) && LoggerEnabled(s, step)
    ensures WorkerLocals(n, LoggerApply(n, s, step))
  {
  }

  lemma LoggerKeepsSlots(n: nat, s: State, step: LoggerStep)
    requires Inv(n, s) && LoggerEnabled(s, step)
    ensures Slots(n, LoggerApply(n, s, step))
  {
  }

  lemma OtherKeepsSlots(n: nat, s: State, step: OtherStep)
    requires Inv(n, s) && OtherEnabled(n, s, step)
    ensures Slots(n, OtherApply(n, s, step))
  {
    if step.DmaComplete? {
      forall k | s.d.acked <= k < |s.d.produced| ensures Slot(k, n) != Slot(|s.d.produced|, n) {
        SlotApart(k, |s.d.produced|, n);
      }
    }
  }

  lemma OtherKeepsRest(n: nat, s: State, step: OtherStep)
    requires Control(n, s) && OtherEnabled(n, s, step)
    ensures var r := OtherApply(n, s, step);
            Threads(r) && LoggerLocals(n, r) && WorkerLocals(n, r) && TokensInSession(n, r)
  {
  }

  lemma StepKeepsInv(n: nat, s: State, step: Step)
    requires Inv(n, s) && Enabled(n, s, step)
    ensures Inv(n, Apply(n, s, step))
  {
    match step
    case Life(x) =>
      LifeKeepsThreads(n, s, x);
      LifeKeepsTokens(n, s, x);
      LifeKeepsLoggerLocals(n, s, x);
      LifeKeepsWorkerLocals(n, s, x);
      LifeKeepsSlots(n, s, x);
    case Pump(x) =>
      PumpKeepsThreads(n, s, x);
      PumpKeepsTokens(n, s, x);
      PumpKeepsLoggerLocals(n, s, x);
      PumpKeepsWorkerLocals(n, s, x);
      PumpKeepsSlots(n, s, x);
    case LoggerMoves(x) =>
      LoggerKeepsThreads(n, s, x);
      LoggerKeepsTokens(n, s, x);
      LoggerKeepsLoggerLocals(n, s, x);
      LoggerKeepsWorkerLocals(n, s, x);
      LoggerKeepsSlots(n, s, x);
    case OtherMoves(x) =>
      OtherKeepsRest(n, s, x);
      OtherKeepsSlots(n, s, x);
  }

  lemma {:induction false} RunKeepsInv(n: nat, s: State, steps: seq<Step>)
    requires Inv(n, s) && IsRun(n, s, steps)
    ensures Inv(n, After(n, s, steps))
    decreases |steps|
  {
    if steps != [] {
      StepKeepsInv(n, s, steps[0]);
      RunKeepsInv(n, Apply(n, s, steps[0]), steps[1..]);
    }
  }

  lemma {:induction false} RunsCompose(n: nat, s: State, a: seq<Step>, b: seq<Step>)
    requires Sized(n, s) && IsRun(n, s, a) && IsRun(n, After(n, s, a), b)
    ensures IsRun(n, s, a + b) && After(n, s, a + b) == After(n, After(n, s, a), b)
    decreases |a|
  {
    if a == [] {
      assert a + b == b;
    } else {
      assert (a + b)[1..] == a[1..] + b;
      RunsCompose(n, Apply(n, s, a[0]), a[1..], b);
    }
  }

  // ---------------------------------------------------------------- delivery

  /** In every run the blocks handed to `send` are the blocks the driver produced, in order, none lost
      or repeated; the one send that may carry no block is the one the leaving worker's wake-up causes. */
  lemma InOrderDelivery(n: nat, steps: seq<Step>)
    requires 0 < n && IsRun(n, Init(n), steps)
    ensures var s := After(n, Init(n), steps);
            && (!s.w.pc.WJoin? && !s.w.pc.WDestroy? && !s.w.pc.WClear? && !s.w.pc.WAbsent? ==>
                  s.h.sent <= s.d.produced)
            && |s.h.sent| <= s.h.copied + 1 <= |s.d.produced| + 1
            && forall j :: 0 <= j < |s.h.sent| && j < s.h.copied ==> s.h.sent[j] == s.d.produced[j]
  {
    InitInv(n);
    RunKeepsInv(n, Init(n), steps);
  }

  /** Whenever the worker copies, the slot it fills holds no block still to be sent, the logger is not
      inside `send`, and the block copied is the next one the driver produced. */
  lemma NoOverwrite(n: nat, steps: seq<Step>)
    requires 0 < n && IsRun(n, Init(n), steps) && After(n, Init(n), steps).w.pc.WCopy?
    ensures var s := After(n, Init(n), steps);
            && !s.l.pc.LSend?
            && s.h.copied < |s.d.produced|
            && s.d.dma[Slot(s.w.first + s.w.i, n)] == s.d.produced[s.h.copied]
            && forall k :: |s.h.sent| <= k < s.h.copied ==> Slot(k, n) != Slot(s.w.first + s.w.i, n)
  {
    InitInv(n);
    RunKeepsInv(n, Init(n), steps);
    CopyFillsFreeSlot(n, After(n, Init(n), steps));
  }

  /** Every token is in one of the semaphores or in the hand of one thread, until the worker's wake-up
      adds one more. */
  lemma TokensConserved(n: nat, steps: seq<Step>)
    requires 0 < n && IsRun(n, Init(n), steps)
    ensures var s := After(n, Init(n), steps);
            InSession(s) && !s.w.pc.WSpawn? ==>
              0 <= s.sh.empty && 0 <= s.sh.full &&
              s.sh.empty + s.sh.full + WorkerInHand(s) + LoggerInHand(s) ==
                (if s.w.pc.WJoin? || s.w.pc.WDestroy? then n + 1 else n)
  {
    InitInv(n);
    RunKeepsInv(n, Init(n), steps);
  }

  // ---------------------------------------------------------------- threads and semaphores

  predicate WorkerUsesSemaphores(s: State) {
    s.w.pc.WWait? || s.w.pc.WLock? || s.w.pc.WCopy? || s.w.pc.WPost? || s.w.pc.WWake?
  }

  predicate LoggerUsesSemaphores(s: State) {
    s.l.pc.LWait? || s.l.pc.LLock? || s.l.pc.LSend? || s.l.pc.LPost?
  }

  /** Over any sequence of starts and stops there is never a second worker or a second logger, and no
      thread is about to use a semaphore or the mutex outside their lifetime. */
  lemma ThreadLifetimes(n: nat, steps: seq<Step>)
    requires 0 < n && IsRun(n, Init(n), steps)
    ensures var s := After(n, Init(n), steps);
            && !s.h.overlap
            && (WorkerUsesSemaphores(s) || LoggerUsesSemaphores(s) ==> s.sh.semsLive)
            && (s.w.pc.WDestroy? ==> s.l.pc.LAbsent?)
  {
    InitInv(n);
    RunKeepsInv(n, Init(n), steps);
  }

  // ---------------------------------------------------------------- a worker blocked on `empty`

  predicate Blocked(s: State) {
    s.w.pc.WWait? && s.w.i < s.w.count && s.sh.empty == 0
  }

  // The logger is gone, or on its way out with nothing left to post.
  predicate LoggerGone(s: State) {
    s.l.pc.LAbsent? || s.l.pc.LEnded? || s.l.pc.LPipe? ||
    (s.sh.loggerTerminate && (s.l.pc.LHead? || s.l.pc.LNext?))
  }

  function LoggerRank(s: State): nat {
    match s.l.pc
    case LNext => 7 case LBegin => 7 case LHead => 6 case LWait => 5 case LLock => 4 case LSend => 3 case LPost => 2
    case _ => 0
  }

  function NextLoggerStep(s: State): LoggerStep {
    match s.l.pc
    case LNext => LoggerNext case LBegin => LoggerBegin case LHead => LoggerHead case LWait => LoggerTake
    case LLock => LoggerLock case LSend => LoggerSend(false) case _ => LoggerPost
  }

  lemma LoggerCanStep(n: nat, s: State)
    requires Inv(n, s) && Blocked(s) && !LoggerGone(s)
    ensures LoggerEnabled(s, NextLoggerStep(s))
    ensures var r := LoggerApply(n, s, NextLoggerStep(s));
            !Blocked(r) || (!LoggerGone(r) && LoggerRank(r) < LoggerRank(s))
  {
  }

  lemma {:induction false} LoggerReleases(n: nat, s: State) returns (steps: seq<Step>)
    requires Inv(n, s) && Blocked(s) && !LoggerGone(s)
    ensures IsRun(n, s, steps) && !Blocked(After(n, s, steps)) && |steps| <= LoggerRank(s) <= 7
    decreases LoggerRank(s)
  {
    LoggerCanStep(n, s);
    var step := LoggerMoves(NextLoggerStep(s));
    var r := Apply(n, s, step);
    StepKeepsInv(n, s, step);
    var rest := [];
    if Blocked(r) {
      rest := LoggerReleases(n, r);
    }
    steps := [step] + rest;
    assert steps[1..] == rest;
  }

  lemma StaysBlockedStep(n: nat, s: State, step: Step)
    requires Inv(n, s) && Blocked(s) && LoggerGone(s) && Enabled(n, s, step)
    ensures var r := Apply(n, s, step); Blocked(r) && LoggerGone(r)
  {
  }

  lemma {:induction false} StaysBlocked(n: nat, s: State, steps: seq<Step>)
    requires Inv(n, s) && Blocked(s) && LoggerGone(s) && IsRun(n, s, steps)
    ensures Blocked(After(n, s, steps))
    decreases |steps|
  {
    if steps != [] {
      StaysBlockedStep(n, s, steps[0]);
      StepKeepsInv(n, s, steps[0]);
      StaysBlocked(n, Apply(n, s, steps[0]), steps[1..]);
    }
  }

  /** A worker blocked on `empty` can be released exactly when the logger is not gone: then seven logger
      steps are enough; otherwise no run at all, stop requests and new starts included, releases it. */
  lemma BlockedWorkerReleasedIff(n: nat, s: State)
    requires Inv(n, s) && Blocked(s)
    ensures (exists steps :: IsRun(n, s, steps) && !Blocked(After(n, s, steps))) <==> !LoggerGone(s)
    ensures !LoggerGone(s) ==> exists steps :: IsRun(n, s, steps) && |steps| <= 7 && !Blocked(After(n, s, steps))
  {
    if LoggerGone(s) {
      forall steps | IsRun(n, s, steps) ensures Blocked(After(n, s, steps)) {
        StaysBlocked(n, s, steps);
      }
    } else {
      var steps := LoggerReleases(n, s);
    }
  }

  // ---------------------------------------------------------------- stopping

  lemma {:induction false} SessionsOnlyGrow(n: nat, s: State, steps: seq<Step>)
    requires Sized(n, s) && IsRun(n, s, steps)
    ensures s.h.session <= After(n, s, steps).h.session
    decreases |steps|
  {
    if steps != [] {
      SessionsOnlyGrow(n, Apply(n, s, steps[0]), steps[1..]);
    }
  }

  // The logger has begun, and has been told to stop (or is gone already).
  predicate ToldToStop(s: State) {
    !s.w.pc.WInit? && !s.w.pc.WSpawn? && !s.l.pc.LBegin? && (s.l.pc.LAbsent? || s.sh.loggerTerminate)
  }

  function SendsLeft(s: State): nat {
    if s.l.pc.LWait? || s.l.pc.LLock? || s.l.pc.LSend? then 1 else 0
  }

  lemma ToldToStopStep(n: nat, s: State, step: Step)
    requires Inv(n, s) && ToldToStop(s) && Enabled(n, s, step)
    ensures var r := Apply(n, s, step);
            r.h.session == s.h.session ==>
              ToldToStop(r) && |r.h.sent| + SendsLeft(r) <= |s.h.sent| + SendsLeft(s)
  {
    match step
    case Life(x) => ToldToStopLife(n, s, x);
    case Pump(x) => ToldToStopPump(n, s, x);
    case _ =>
  }

  lemma ToldToStopLife(n: nat, s: State, step: LifeStep)
    requires Inv(n, s) && ToldToStop(s) && LifeEnabled(s, step)
    ensures var r := LifeApply(n, s, step);
            ToldToStop(r) && r.h.sent == s.h.sent && SendsLeft(r) <= SendsLeft(s)
  {
  }

  lemma ToldToStopPump(n: nat, s: State, step: PumpStep)
    requires Inv(n, s) && ToldToStop(s) && PumpEnabled(s, step)
    ensures var r := PumpApply(n, s, step);
            ToldToStop(r) && r.h.sent == s.h.sent && SendsLeft(r) == SendsLeft(s)
  {
  }

  /** Once a logger that has begun is told to stop, it makes at most one more send in the session,
      whatever the interleaving, and none unless it was already past its loop test. */
  lemma {:induction false} AtMostOneMoreSend(n: nat, s: State, steps: seq<Step>)
    requires Inv(n, s) && ToldToStop(s) && IsRun(n, s, steps)
    requires After(n, s, steps).h.session == s.h.session
    ensures |After(n, s, steps).h.sent| <= |s.h.sent| + SendsLeft(s) <= |s.h.sent| + 1
    ensures ToldToStop(After(n, s, steps))
    decreases |steps|
  {
    if steps != [] {
      var r := Apply(n, s, steps[0]);
      SessionsOnlyGrow(n, r, steps[1..]);
      ToldToStopStep(n, s, steps[0]);
      StepKeepsInv(n, s, steps[0]);
      AtMostOneMoreSend(n, r, steps[1..]);
    }
  }

  // The worker waits for a logger that has begun and does not know that it should stop.
  predicate StopLost(s: State) {
    s.w.pc.WJoin? && s.w.loggerStarted && !s.sh.loggerTerminate && !s.h.piped &&
    !s.l.pc.LBegin? && !s.l.pc.LEnded? && !s.l.pc.LAbsent?
  }

  predicate HealthySocket(step: Step) {
    step != LoggerMoves(LoggerSend(true)) && step != LoggerMoves(LoggerWaitError)
  }

  lemma StopLostStep(n: nat, s: State, step: Step)
    requires Inv(n, s) && StopLost(s) && Enabled(n, s, step) && HealthySocket(step)
    ensures StopLost(Apply(n, s, step))
  {
  }

  /** Once the stop is lost the worker never gets past its join while the client stays connected: the
      stream cannot be restarted, whatever is requested. */
  lemma {:induction false} LostStopHangs(n: nat, s: State, steps: seq<Step>)
    requires Inv(n, s) && StopLost(s) && IsRun(n, s, steps)
    requires forall k :: 0 <= k < |steps| ==> HealthySocket(steps[k])
    ensures StopLost(After(n, s, steps))
    decreases |steps|
  {
    if steps != [] {
      assert HealthySocket(steps[0]);
      StopLostStep(n, s, steps[0]);
      StepKeepsInv(n, s, steps[0]);
      LostStopHangs(n, Apply(n, s, steps[0]), steps[1..]);
    }
  }

  /** An error of the logger's wait does end it, and the worker then gets past its join. */
  lemma WaitErrorEndsLostStop(n: nat, s: State)
    requires Inv(n, s) && StopLost(s) && s.l.pc.LWait?
    ensures var r := LoggerApply(n, s, LoggerWaitError);
            LifeEnabled(r, WorkerJoin) && LifeApply(n, r, WorkerJoin).w.pc.WDestroy? &&
            LifeApply(n, r, WorkerJoin).l.pc.LAbsent?
  {
  }

  /** log_main clears the terminate flag as its first act.  So when the leaving worker raises the flag
      (adc.cpp:167), the stop can be lost exactly when the logger it created has not begun. */
  lemma StopLostIff(n: nat, s: State)
    requires Inv(n, s) && s.w.pc.WStop?
    ensures var r := LifeApply(n, s, WorkerStop);
            (exists steps :: IsRun(n, r, steps) && StopLost(After(n, r, steps)) &&
                             After(n, r, steps).h.session == s.h.session)
            <==> s.l.pc.LBegin?
  {
    var r := LifeApply(n, s, WorkerStop);
    StepKeepsInv(n, s, Life(WorkerStop));
    if s.l.pc.LBegin? {
      LateLoggerLosesStop(n, s);
      var steps := [Life(WorkerWake), LoggerMoves(LoggerBegin)];
      assert IsRun(n, r, steps) && StopLost(After(n, r, steps)) && After(n, r, steps).h.session == s.h.session;
    } else {
      forall steps | IsRun(n, r, steps) && After(n, r, steps).h.session == s.h.session
        ensures !StopLost(After(n, r, steps))
      {
        AtMostOneMoreSend(n, r, steps);
      }
    }
  }

  lemma LateLoggerLosesStop(n: nat, s: State)
    requires Inv(n, s) && s.w.pc.WStop? && s.l.pc.LBegin?
    ensures var r, steps := LifeApply(n, s, WorkerStop), [Life(WorkerWake), LoggerMoves(LoggerBegin)];
            IsRun(n, r, steps) && StopLost(After(n, r, steps)) && After(n, r, steps).h.session == s.h.session
  {
    var r := LifeApply(n, s, WorkerStop);
    var a := LifeApply(n, r, WorkerWake);
    var b := LoggerApply(n, a, LoggerBegin);
    var steps := [Life(WorkerWake), LoggerMoves(LoggerBegin)];
    assert steps[1..] == [LoggerMoves(LoggerBegin)] && steps[1..][1..] == [];
    assert IsRun(n, b, []) && IsRun(n, a, steps[1..]);
    assert After(n, a, steps[1..]) == b;
  }

  // ---------------------------------------------------------------- a stop request stops the worker

  // Blocks of the current poll still to be copied.
  function Remaining(s: State): nat {
    if s.w.i < s.w.count then
      if s.w.pc.WWait? || s.w.pc.WLock? || s.w.pc.WCopy? then s.w.count - s.w.i
      else if s.w.pc.WPost? || s.w.pc.WDone? then s.w.count - s.w.i - 1
      else 0
    else 0
  }

  // Worker steps still to take once `done` is set.
  function StepsLeft(s: State): nat {
    match s.w.pc
    case WAbsent => 0
    case WInit => 9
    case WSpawn => 7
    case WPoll => 6
    case WIrq => 7
    case WWait => 7 + 5 * Remaining(s)
    case WLock => 6 + 5 * Remaining(s)
    case WCopy => 5 + 5 * Remaining(s)
    case WPost => 9 + 5 * Remaining(s)
    case WDone => 8 + 5 * Remaining(s)
    case WStop => 5
    case WWake => 4
    case WJoin => 3
    case WDestroy => 2
    case WClear => 1
  }

  predicate Stopping(s: State) {
    s.sh.done && !s.w.pc.WInit?
  }

  // The steps the worker takes in a run.
  function WorkerSteps(steps: seq<Step>): nat {
    if steps == [] then 0 else (if steps[0].Life? || steps[0].Pump? then 1 else 0) + WorkerSteps(steps[1..])
  }

  // The worker gets nearer to its end, and what it has copied and what it will copy never grow.
  predicate Winds(s: State, r: State, taken: nat) {
    Stopping(r) && r.h.copied + Remaining(r) <= s.h.copied + Remaining(s) && taken + StepsLeft(r) <= StepsLeft(s)
  }

  lemma StoppingLife(n: nat, s: State, step: LifeStep)
    requires Sized(n, s) && Stopping(s) && LifeEnabled(s, step)
    ensures Winds(s, LifeApply(n, s, step), 1)
  {
  }

  lemma StoppingPump(n: nat, s: State, step: PumpStep)
    requires Control(n, s) && Stopping(s) && PumpEnabled(s, step)
    ensures Winds(s, PumpApply(n, s, step), 1)
  {
  }

  lemma StoppingElsewhere(n: nat, s: State, step: Step)
    requires Sized(n, s) && Stopping(s) && Enabled(n, s, step) && (step.LoggerMoves? || step.OtherMoves?)
    ensures var r := Apply(n, s, step); r.h.session == s.h.session ==> Winds(s, r, 0)
  {
  }

  lemma StoppingStep(n: nat, s: State, step: Step)
    requires Inv(n, s) && Stopping(s) && Enabled(n, s, step)
    ensures var r := Apply(n, s, step);
            r.h.session == s.h.session ==> Winds(s, r, if step.Life? || step.Pump? then 1 else 0)
  {
    match step
    case Life(x) => StoppingLife(n, s, x);
    case Pump(x) => StoppingPump(n, s, x);
    case _ => StoppingElsewhere(n, s, step);
  }

  /** A stop request stops the worker: once `done` is set after its initialisation, the worker copies at most
      what is left of the current poll and takes a bounded number of steps more, however long the run is and
      whatever the driver, the logger and the client do, until the next session starts. */
  lemma {:induction false} StopRequestBoundsWorker(n: nat, s: State, steps: seq<Step>)
    requires Inv(n, s) && Stopping(s) && IsRun(n, s, steps)
    requires After(n, s, steps).h.session == s.h.session
    ensures After(n, s, steps).h.copied <= s.h.copied + Remaining(s)
    ensures WorkerSteps(steps) + StepsLeft(After(n, s, steps)) <= StepsLeft(s)
    ensures Winds(s, After(n, s, steps), WorkerSteps(steps))
    decreases |steps|
  {
    if steps != [] {
      var r := Apply(n, s, steps[0]);
      SessionsOnlyGrow(n, r, steps[1..]);
      StoppingStep(n, s, steps[0]);
      StepKeepsInv(n, s, steps[0]);
      StopRequestBoundsWorker(n, r, steps[1..]);
    }
  }

  /** At its poll a worker that has been asked to stop can only leave the loop, and otherwise cannot. */
  lemma PollLeavesIff(n: nat, s: State, step: Step)
    requires Inv(n, s) && s.w.pc.WPoll? && Enabled(n, s, step) && (step.Life? || step.Pump?)
    ensures Apply(n, s, step).w.pc.WStop? <==> s.sh.done
  {
  }

  /** The first thing a worker does, whether its initialisation succeeds or fails, clears the request. */
  lemma FirstActClearsRequest(n: nat, s: State, step: Step)
    requires Inv(n, s) && s.w.pc.WInit? && Enabled(n, s, step) && (step.Life? || step.Pump?)
    ensures !Apply(n, s, step).sh.done
  {
  }

  /** A cancelled wait tells the logger at once: a logger that has begun makes at most one more send from there
      (`AtMostOneMoreSend`). */
  lemma CancelledWaitTellsLogger(n: nat, s: State)
    requires Inv(n, s) && s.w.pc.WIrq? && !s.l.pc.LBegin?
    ensures ToldToStop(PumpApply(n, s, WorkerIrq(true))) && PumpApply(n, s, WorkerIrq(true)).w.pc.WStop?
  {
  }

  // Some run of the session forgets that a stop was requested.
  ghost predicate Forgets(n: nat, s: State)
    requires Sized(n, s)
  {
    exists steps :: IsRun(n, s, steps) && After(n, s, steps).h.session == s.h.session && !After(n, s, steps).sh.done
  }

  /** A stop request can be forgotten within the session exactly when it comes before the worker's
      initialisation, whose first act is to clear it. */
  lemma StopRequestForgottenIff(n: nat, s: State)
    requires Inv(n, s)
    ensures Forgets(n, Apply(n, s, OtherMoves(SetDone))) <==> s.w.pc.WInit?
  {
    var r := Apply(n, s, OtherMoves(SetDone));
    StepKeepsInv(n, s, OtherMoves(SetDone));
    if s.w.pc.WInit? {
      var q, steps := LifeApply(n, r, WorkerInit), [Life(WorkerInit)];
      assert steps[1..] == [];
      assert IsRun(n, q, []) && After(n, q, []) == q;
      assert IsRun(n, r, steps) && After(n, r, steps) == q;
    } else {
      forall steps | IsRun(n, r, steps) && After(n, r, steps).h.session == r.h.session
        ensures After(n, r, steps).sh.done
      {
        StopRequestBoundsWorker(n, r, steps);
      }
    }
  }

  // ---------------------------------------------------------------- both failures do happen

  ghost predicate Reachable(n: nat, s: State)
    requires 0 < n
  {
    exists steps :: IsRun(n, Init(n), steps) && After(n, Init(n), steps) == s
  }

  lemma ReachableInv(n: nat, s: State)
    requires 0 < n && Reachable(n, s)
    ensures Inv(n, s)
  {
    var steps :| IsRun(n, Init(n), steps) && After(n, Init(n), steps) == s;
    InitInv(n);
    RunKeepsInv(n, Init(n), steps);
  }

  lemma Start(n: nat) returns (s: State)
    requires 0 < n
    ensures Reachable(n, s) && s == Init(n)
  {
    s := Init(n);
    assert IsRun(n, s, []) && After(n, s, []) == s;
  }

  lemma Go(n: nat, s: State, step: Step) returns (r: State)
    requires 0 < n && Reachable(n, s) && Sized(n, s) && Enabled(n, s, step)
    ensures Reachable(n, r) && r == Apply(n, s, step)
  {
    var steps :| IsRun(n, Init(n), steps) && After(n, Init(n), steps) == s;
    r := Apply(n, s, step);
    assert [step][1..] == [];
    assert IsRun(n, r, []) && IsRun(n, s, [step]) && After(n, s, [step]) == r;
    RunsCompose(n, Init(n), steps, [step]);
  }

  /** For every ring size there is a run that loses the stop: the worker is told to stop before the
      logger it created has begun. */
  lemma StopCanBeLost(n: nat) returns (s: State)
    requires 0 < n
    ensures Reachable(n, s) && StopLost(s)
  {
    s := StreamStarts(n);
    s := Go(n, s, Pump(WorkerPoll));
    s := Go(n, s, Pump(WorkerIrq(true)));
    s := Go(n, s, Life(WorkerStop));
    ReachableInv(n, s);
    LateLoggerLoses(n, s);
    s := Go(n, s, Life(WorkerWake));
    s := Go(n, s, LoggerMoves(LoggerBegin));
  }

  lemma LateLoggerLoses(n: nat, s: State)
    requires Inv(n, s) && s.w.pc.WWake? && s.l.pc.LBegin?
    ensures StopLost(LoggerApply(n, LifeApply(n, s, WorkerWake), LoggerBegin))
  {
  }

  lemma StreamStarts(n: nat) returns (s: State)
    requires 0 < n
    ensures Reachable(n, s) && Inv(n, s) && s.w.pc.WPoll? && s.l.pc.LBegin? && !s.sh.done
    ensures s.d.produced == [] && s.h.copied == 0 && s.sh.empty == n && s.sh.full == 0 && !s.h.piped && s.w.loggerStarted
  {
    s := Start(n);
    s := Go(n, s, OtherMoves(StartSpawn));
    s := Go(n, s, Life(WorkerInit));
    s := Go(n, s, Life(WorkerSpawn(true)));
    s := Go(n, s, OtherMoves(StartMark));
    ReachableInv(n, s);
  }

  // One block on its way from the driver into the ring, as far as `full`.
  lemma WorkerMovesOne(n: nat, s: State) returns (r: State)
    requires 0 < n && Reachable(n, s) && Inv(n, s)
    requires s.w.pc.WPoll? && !s.sh.done && !s.l.pc.LSend? && |s.d.produced| == s.d.acked && 0 < s.sh.empty
    ensures Reachable(n, r) && Inv(n, r)
    ensures r.w.pc.WPoll? && !r.sh.done && r.l == s.l && r.h.sent == s.h.sent && r.h.piped == s.h.piped
    ensures |r.d.produced| == r.d.acked && r.sh.empty == s.sh.empty - 1 && r.sh.full == s.sh.full + 1
    ensures r.sh.loggerTerminate == s.sh.loggerTerminate
  {
    r := Go(n, s, OtherMoves(DmaComplete(0)));
    r := Go(n, r, Pump(WorkerPoll));
    r := Go(n, r, Pump(WorkerWait));
    r := Go(n, r, Pump(WorkerLock));
    r := WorkerPassesOn(n, r);
    ReachableInv(n, r);
  }

  // The last of the blocks a poll found, from the copy on.
  lemma WorkerPassesOn(n: nat, s: State) returns (r: State)
    requires 0 < n && Reachable(n, s) && Sized(n, s) && s.w.pc.WCopy? && s.w.i + 1 == s.w.count
    requires s.d.acked + 1 == |s.d.produced|
    ensures Reachable(n, r) && Sized(n, r) && r.w.pc.WPoll? && r.l == s.l && r.h.sent == s.h.sent && r.h.piped == s.h.piped
    ensures |r.d.produced| == r.d.acked && r.sh.empty == s.sh.empty && r.sh.full == s.sh.full + 1
    ensures r.sh.loggerTerminate == s.sh.loggerTerminate && r.sh.done == s.sh.done
  {
    r := Go(n, s, Pump(WorkerCopy));
    r := Go(n, r, Pump(WorkerPost));
    r := Go(n, r, Pump(WorkerAck));
    r := Go(n, r, Pump(WorkerWait));
  }

  lemma {:induction false} WorkerFillsRing(n: nat, s: State) returns (r: State)
    requires 0 < n && Reachable(n, s) && Inv(n, s)
    requires s.w.pc.WPoll? && !s.sh.done && s.l.pc.LPipe? && |s.d.produced| == s.d.acked
    ensures Reachable(n, r) && Blocked(r) && LoggerGone(r)
    decreases s.sh.empty
  {
    if s.sh.empty == 0 {
      r := Go(n, s, OtherMoves(DmaComplete(0)));
      r := Go(n, r, Pump(WorkerPoll));
    } else {
      r := WorkerMovesOne(n, s);
      r := WorkerFillsRing(n, r);
    }
  }

  /** For every ring size there is a run in which the client's connection breaks and the worker then
      blocks on `empty` for good (`StaysBlocked`): the logger keeps the token of the failed send. */
  lemma BrokenPipeWedgesWorker(n: nat) returns (s: State)
    requires 0 < n
    ensures Reachable(n, s) && Inv(n, s) && Blocked(s) && LoggerGone(s)
  {
    s := StreamStarts(n);
    s := WorkerMovesOne(n, s);
    s := Go(n, s, LoggerMoves(LoggerBegin));
    s := Go(n, s, LoggerMoves(LoggerHead));
    s := Go(n, s, LoggerMoves(LoggerTake));
    ReachableInv(n, s);
    s := Go(n, s, LoggerMoves(LoggerLock));
    s := Go(n, s, LoggerMoves(LoggerSend(true)));
    ReachableInv(n, s);
    s := WorkerFillsRing(n, s);
    ReachableInv(n, s);
  }

  // ---------------------------------------------------------------- a start mark that outlives its worker

  // No worker is left, but the mark that says one is running is set, or will be by the start under way.
  predicate StaleMark(s: State) {
    s.w.pc.WAbsent? && (s.spawned || s.sh.workerId != -1)
  }

  lemma StaleMarkStep(n: nat, s: State, step: Step)
    requires Sized(n, s) && StaleMark(s) && Enabled(n, s, step)
    requires s.spawned ==> s.sh.workerId == -1
    ensures var r := Apply(n, s, step);
            StaleMark(r) && r.h.session == s.h.session && (r.spawned ==> s.spawned && r.sh.workerId == -1)
  {
  }

  /** A stale mark stays: no run from it creates another worker. */
  lemma {:induction false} StaleMarkStays(n: nat, s: State, steps: seq<Step>)
    requires Sized(n, s) && StaleMark(s) && (s.spawned ==> s.sh.workerId == -1) && IsRun(n, s, steps)
    ensures StaleMark(After(n, s, steps)) && After(n, s, steps).h.session == s.h.session
    decreases |steps|
  {
    if steps != [] {
      StaleMarkStep(n, s, steps[0]);
      StaleMarkStays(n, Apply(n, s, steps[0]), steps[1..]);
    }
  }

  ghost predicate CanStartAgain(n: nat, s: State)
    requires Sized(n, s)
  {
    exists steps :: IsRun(n, s, steps) && s.h.session < After(n, s, steps).h.session
  }

  lemma WithoutMarkStarts(n: nat, s: State)
    requires Sized(n, s) && !s.spawned && s.sh.workerId == -1
    ensures CanStartAgain(n, s)
  {
    var steps := [OtherMoves(StartSpawn)];
    var r := Apply(n, s, steps[0]);
    assert steps[1..] == [];
    assert IsRun(n, r, steps[1..]) && After(n, r, steps[1..]) == r;
    assert IsRun(n, s, steps) && s.h.session < After(n, s, steps).h.session;
  }

  /** Without a worker the stream can be started again, by some run, exactly when the mark is not stale. */
  lemma StartsAgainIff(n: nat, s: State)
    requires Inv(n, s) && s.w.pc.WAbsent?
    ensures CanStartAgain(n, s) <==> !StaleMark(s)
  {
    if StaleMark(s) {
      forall steps | IsRun(n, s, steps) ensures After(n, s, steps).h.session == s.h.session {
        StaleMarkStays(n, s, steps);
      }
    } else {
      WithoutMarkStarts(n, s);
    }
  }

  /** When a worker ends, the stream can be started again exactly when the worker got past its initialisation
      and the start that created it has set the mark by then. */
  lemma EndedWorkerRestartsIff(n: nat, s: State, step: LifeStep)
    requires Inv(n, s) && LifeEnabled(s, step) && (step.WorkerInitFails? || step.WorkerClear?)
    ensures CanStartAgain(n, LifeApply(n, s, step)) <==> step.WorkerClear? && !s.spawned
  {
    StepKeepsInv(n, s, Life(step));
    StartsAgainIff(n, LifeApply(n, s, step));
  }

  /** For every ring size there is a run in which a worker fails to initialise and leaves a mark that stays ... */
  lemma FailedStartLeavesMark(n: nat) returns (s: State)
    requires 0 < n
    ensures Reachable(n, s) && Inv(n, s) && StaleMark(s) && !s.spawned && !CanStartAgain(n, s)
  {
    s := Start(n);
    s := Go(n, s, OtherMoves(StartSpawn));
    s := Go(n, s, Life(WorkerInitFails));
    s := Go(n, s, OtherMoves(StartMark));
    ReachableInv(n, s);
    StartsAgainIff(n, s);
  }

  /** ... and one in which a worker comes and goes before the start that created it sets the mark. */
  lemma QuickEndLeavesMark(n: nat) returns (s: State)
    requires 0 < n
    ensures Reachable(n, s) && Inv(n, s) && StaleMark(s) && !s.spawned && !CanStartAgain(n, s)
  {
    s := Start(n);
    s := Go(n, s, OtherMoves(StartSpawn));
    s := Go(n, s, Life(WorkerInit));
    s := Go(n, s, Life(WorkerSpawn(false)));
    s := Go(n, s, Pump(WorkerPoll));
    s := Go(n, s, Pump(WorkerIrq(true)));
    s := WorkerLeaves(n, s);
    s := Go(n, s, OtherMoves(StartMark));
    ReachableInv(n, s);
    StartsAgainIff(n, s);
  }

  // A worker without a logger ends its session.
  lemma WorkerLeaves(n: nat, s: State) returns (r: State)
    requires 0 < n && Reachable(n, s) && Sized(n, s) && s.w.pc.WStop? && !s.w.loggerStarted
    ensures Reachable(n, r) && Sized(n, r) && r.w.pc.WAbsent? && r.spawned == s.spawned
  {
    r := Go(n, s, Life(WorkerStop));
    r := Go(n, r, Life(WorkerWake));
    r := Go(n, r, Life(WorkerJoin));
    r := Go(n, r, Life(WorkerDestroy));
    r := Go(n, r, Life(WorkerClear));
  }
}
