/** The whole request path of aioenetd.cpp: any number of receiver threads feeding one queue, and the one
    action thread that empties it.  Every interleaving of their steps is a run of this machine. */
module ActionQueue {
  import opened Wrappers
  import opened Bytes
  import opened Items
  import opened Messages
  import opened ErrorItems
  import opened Queues
  import opened Framer
  import opened RunBundle

  // What the two kinds of thread compute with: the receiver's parser, what `Go` does, and how slots are patched.
  datatype Server<!D> = Server(rx: Receiver, go: Semantics<D>, patch: Patch<D>)

  // A connection: every byte received so far, the receiver's buffer, and the frames it has cut and queued.
  datatype Client = Client(received: seq<byte>, buffer: seq<byte>, frames: seq<seq<byte>>, over: Option<u32>)

  // What the action thread is doing.
  datatype Activity =
    | Idle
    | Running(socket: int, given: seq<Item>, items: seq<Item>, i: nat, anyError: bool)
    | Replying(reply: Action)

  // `log` is everything ever queued and `sent` every reply, in order.
  datatype System<+D> = System(clients: map<int, Client>, queue: seq<Action>, act: Activity, dev: D,
                               log: seq<Action>, sent: seq<Action>)

  // ---------------------------------------------------------------- one after the other

  // Only these messages are run; anything else on the queue is a reply already.
  predicate IsRequest(m: Queued) {
    m.Ready? && m.m.mid in {'Q' as int, 'C' as int, 'M' as int}
  }

  datatype Served<+D> = Served(dev: D, sent: seq<Action>)

  // Serving one action on its own, from start to end.
  function Serve<D>(sv: Server<D>, dev: D, a: Action): (D, Action) {
    if IsRequest(a.m) then
      var (dev', m) := RunMessage(sv.patch, sv.go, dev, a.m.m);
      (dev', Action(a.socket, Ready(m)))
    else (dev, a)
  }

  // Serving whole actions in the order they were queued.
  function ServeAll<D>(sv: Server<D>, dev: D, log: seq<Action>): Served<D> {
    if log == [] then Served(dev, [])
    else
      var before := ServeAll(sv, dev, log[..|log| - 1]);
      var (dev', reply) := Serve(sv, before.dev, log[|log| - 1]);
      Served(dev', before.sent + [reply])
  }

  lemma {:induction false} OneReplyEach<D>(sv: Server<D>, dev: D, log: seq<Action>, k: nat)
    requires k < |log|
    ensures |ServeAll(sv, dev, log).sent| == |log|
    ensures ServeAll(sv, dev, log).sent[k] == Serve(sv, ServeAll(sv, dev, log[..k]).dev, log[k]).1
  {
    var front := log[..|log| - 1];
    if k < |front| {
      OneReplyEach(sv, dev, front, k);
      assert front[..k] == log[..k];
    } else if front != [] {
      OneReplyEach(sv, dev, front, 0);
    }
  }

  // A query, a configuration or a multi message.
  predicate AsksToRun(m: Queued) {
    m.Ready? && (m.m.mid == 'Q' as int || m.m.mid == 'C' as int || m.m.mid == 'M' as int)
  }

  lemma FailedIsNotZero<D>(t: seq<GoResult<D>>)
    ensures SomeFailed(t) <==> exists i :: 0 <= i < |t| && t[i].outcome != Code(0)
  {
    if SomeFailed(t) {
      var i :| 0 <= i < |t| && IsFailure(t[i].outcome);
      assert t[i].outcome != Code(0);
    }
    if i :| 0 <= i < |t| && t[i].outcome != Code(0) {
      assert IsFailure(t[i].outcome);
    }
  }

  /** A 'Q', 'C' or 'M' message is run, and answered to its sender by an 'R', or by an 'E' exactly when some item
      failed; any other entry is sent back as it stands and leaves the device alone. */
  lemma RunExactlyWhenAsked<D>(sv: Server<D>, dev: D, a: Action)
    ensures var (dev', reply), t := Serve(sv, dev, a), if AsksToRun(a.m) then Trace(sv.go, dev, a.m.m.items) else [];
            if AsksToRun(a.m) then
              reply.socket == a.socket && reply.m.Ready? &&
              reply.m.m.mid == (if exists i :: 0 <= i < |t| && t[i].outcome != Code(0) then 'E' else 'R') as int &&
              |reply.m.m.items| == |a.m.m.items| &&
              (forall i :: 0 <= i < |t| ==> reply.m.m.items[i] == sv.patch(i, a.m.m.items[i], t[i])) &&
              dev' == DeviceAfter(dev, t)
            else dev' == dev && reply == a
  {
    if AsksToRun(a.m) {
      RunFollowsTrace(sv.patch, sv.go, dev, a.m.m.items, 0);
      RunEndsOnTrace(sv.patch, sv.go, dev, a.m.m.items, 0);
      FailedIsNotZero(Trace(sv.go, dev, a.m.m.items));
      forall i | 0 <= i < |a.m.m.items|
        ensures RunItems(sv.patch, sv.go, dev, a.m.m.items, 0).items[i] ==
                sv.patch(i, a.m.m.items[i], Trace(sv.go, dev, a.m.m.items)[i])
      {
        assert 0 + i == i;
      }
    }
  }

  // ---------------------------------------------------------------- the machine

  datatype ReceiverStep =
    | Connect(socket: int)
    | Receive(socket: int, chunk: seq<byte>)
    | CutOne(socket: int)

  datatype ActionStep = Dequeue | RunItem | FinishRun | SendReply

  datatype Step = Receiver(r: ReceiverStep) | ActionThread(a: ActionStep)

  function Init<D>(dev: D): System<D> {
    System(map[], [], Idle, dev, [], [])
  }

  // A receiver calls `recv` only when its buffer holds no whole frame and no oversize header.
  predicate ReceiverEnabled<D>(s: System<D>, step: ReceiverStep) {
    match step
    case Connect(c) => c !in s.clients
    case Receive(c, chunk) =>
      c in s.clients && s.clients[c].over.None? && LookAhead(s.clients[c].buffer).More? && chunk != []
    case CutOne(c) => c in s.clients && s.clients[c].over.None? && !LookAhead(s.clients[c].buffer).More?
  }

  function Enqueue<D>(s: System<D>, a: Action, c: int, client: Client): System<D> {
    s.(clients := s.clients[c := client], queue := s.queue + [a], log := s.log + [a])
  }

  function ReceiverApply<D>(sv: Server<D>, s: System<D>, step: ReceiverStep): System<D>
    requires ReceiverEnabled(s, step)
  {
    match step
    case Connect(c) => s.(clients := s.clients[c := Client([], [], [], None)])
    case Receive(c, chunk) =>
      var k := s.clients[c];
      s.(clients := s.clients[c := k.(received := k.received + chunk, buffer := k.buffer + chunk)])
    case CutOne(c) =>
      var k := s.clients[c];
      match LookAhead(k.buffer)
      case Frame(len) =>
        var frame := k.buffer[..len];
        Enqueue(s, Action(c, sv.rx.got(frame)), c, k.(buffer := k.buffer[len..], frames := k.frames + [frame]))
      case Oversize(n) => Enqueue(s, Action(c, sv.rx.oversize(n)), c, k.(buffer := [], over := Some(n)))
  }

  predicate ActionEnabled<D>(s: System<D>, step: ActionStep) {
    match step
    case Dequeue => s.act.Idle? && s.queue != []
    case RunItem => s.act.Running? && s.act.i < |s.act.items|
    case FinishRun => s.act.Running? && s.act.i >= |s.act.items|
    case SendReply => s.act.Replying?
  }

  function ActionApply<D>(sv: Server<D>, s: System<D>, step: ActionStep): System<D>
    requires ActionEnabled(s, step)
  {
    match step
    case Dequeue =>
      var a := s.queue[0];
      s.(queue := s.queue[1..],
         act := if IsRequest(a.m) then Running(a.socket, a.m.m.items, a.m.m.items, 0, false) else Replying(a))
    case RunItem =>
      var x := s.act;
      var r := sv.go(s.dev, x.items[x.i]);
      s.(dev := r.dev,
         act := x.(items := x.items[x.i := sv.patch(x.i, x.items[x.i], r)], i := x.i + 1,
                   anyError := x.anyError || IsFailure(r.outcome)))
    case FinishRun =>
      var x := s.act;
      s.(act := Replying(Action(x.socket, Ready(Message(if x.anyError then MID_E else MID_R, x.items)))))
    case SendReply => s.(act := Idle, sent := s.sent + [s.act.reply])
  }

  predicate Enabled<D>(s: System<D>, step: Step) {
    match step
    case Receiver(r) => ReceiverEnabled(s, r)
    case ActionThread(a) => ActionEnabled(s, a)
  }

  function Apply<D>(sv: Server<D>, s: System<D>, step: Step): System<D>
    requires Enabled(s, step)
  {
    match step
    case Receiver(r) => ReceiverApply(sv, s, r)
    case ActionThread(a) => ActionApply(sv, s, a)
  }

  predicate IsRun<D>(sv: Server<D>, s: System<D>, steps: seq<Step>)
    decreases |steps|
  {
    steps == [] || (Enabled(s, steps[0]) && IsRun(sv, Apply(sv, s, steps[0]), steps[1..]))
  }

  function After<D>(sv: Server<D>, s: System<D>, steps: seq<Step>): System<D>
    requires IsRun(sv, s, steps)
    decreases |steps|
  {
    if steps == [] then s else After(sv, Apply(sv, s, steps[0]), steps[1..])
  }

  // ---------------------------------------------------------------- the action thread serves whole messages

  // Where the action thread is in the sequential service of the log.
  ghost predicate InOrder<D>(sv: Server<D>, dev0: D, s: System<D>) {
    var k := |s.sent|;
    && k <= |s.log|
    && var before := ServeAll(sv, dev0, s.log[..k]);
    && before.sent == s.sent
    && (s.act.Idle? ==> before.dev == s.dev && s.queue == s.log[k..])
    && (!s.act.Idle? ==> k < |s.log| && s.queue == s.log[k + 1..])
    && (s.act.Running? ==>
          var a, x := s.log[k], s.act;
          IsRequest(a.m) && x.socket == a.socket && x.given == a.m.m.items &&
          Midway(sv.patch, sv.go, s.dev, x.given, x.items, x.i, x.anyError,
                 RunItems(sv.patch, sv.go, before.dev, x.given, 0)))
    && (s.act.Replying? ==> Serve(sv, before.dev, s.log[k]) == (s.dev, s.act.reply))
  }

  lemma QueueGrows<D>(sv: Server<D>, dev0: D, s: System<D>, a: Action, c: int, k: Client)
    requires InOrder(sv, dev0, s)
    ensures InOrder(sv, dev0, Enqueue(s, a, c, k))
  {
    var n := |s.sent|;
    assert (s.log + [a])[..n] == s.log[..n];
    assert (s.log + [a])[n..] == s.log[n..] + [a];
    if n < |s.log| {
      assert (s.log + [a])[n + 1..] == s.log[n + 1..] + [a];
    }
  }

  lemma ReceiverKeepsOrder<D>(sv: Server<D>, dev0: D, s: System<D>, step: ReceiverStep)
    requires InOrder(sv, dev0, s) && ReceiverEnabled(s, step)
    ensures InOrder(sv, dev0, ReceiverApply(sv, s, step))
  {
    if step.CutOne? {
      var k := s.clients[step.socket];
      match LookAhead(k.buffer)
      case Frame(len) =>
        var frame := k.buffer[..len];
        QueueGrows(sv, dev0, s, Action(step.socket, sv.rx.got(frame)), step.socket,
                   k.(buffer := k.buffer[len..], frames := k.frames + [frame]));
      case Oversize(n) =>
        QueueGrows(sv, dev0, s, Action(step.socket, sv.rx.oversize(n)), step.socket, k.(buffer := [], over := Some(n)));
    }
  }

  lemma ActionKeepsOrder<D>(sv: Server<D>, dev0: D, s: System<D>, step: ActionStep)
    requires InOrder(sv, dev0, s) && ActionEnabled(s, step)
    ensures InOrder(sv, dev0, ActionApply(sv, s, step))
  {
    var k := |s.sent|;
    match step
    case Dequeue =>
      assert s.log[k..][1..] == s.log[k + 1..];
      if IsRequest(s.log[k].m) {
        StartsMidway(sv, s.dev, s.log[k].m.m.items);
      }
    case RunItem =>
      var x, all := s.act, RunItems(sv.patch, sv.go, ServeAll(sv, dev0, s.log[..k]).dev, s.act.given, 0);
      OneItem(sv.patch, sv.go, s.dev, x.given, x.items, x.i, x.anyError, all);
    case FinishRun =>
      var x := s.act;
      assert x.given[x.i..] == [] && x.items[..x.i] + [] == x.items;
    case SendReply =>
      assert s.log[..k + 1][..k] == s.log[..k];
  }

  lemma StartsMidway<D>(sv: Server<D>, dev: D, items: seq<Item>)
    ensures Midway(sv.patch, sv.go, dev, items, items, 0, false, RunItems(sv.patch, sv.go, dev, items, 0))
  {
    assert items[0..] == items;
    assert items[..0] + RunItems(sv.patch, sv.go, dev, items, 0).items == RunItems(sv.patch, sv.go, dev, items, 0).items;
  }

  // ---------------------------------------------------------------- the queue holds each stream in order

  // The actions of one client.
  function Of(log: seq<Action>, c: int): seq<Action> {
    if log == [] then []
    else Of(log[..|log| - 1], c) + if log[|log| - 1].socket == c then [log[|log| - 1]] else []
  }

  predicate ClientInv(rx: Receiver, log: seq<Action>, c: int, k: Client) {
    && Of(log, c) == Entries(rx, c, Cut(k.frames, [], k.over))
    && CutAll(k.received) == if k.over.Some? then Cut(k.frames, [], k.over) else Prepend(k.frames, CutAll(k.buffer))
  }

  ghost predicate Streams<D>(sv: Server<D>, s: System<D>) {
    && (forall c :: c in s.clients ==> ClientInv(sv.rx, s.log, c, s.clients[c]))
    && (forall c :: c !in s.clients ==> Of(s.log, c) == [])
  }

  lemma OfSnoc(log: seq<Action>, a: Action, c: int)
    ensures Of(log + [a], c) == Of(log, c) + if a.socket == c then [a] else []
  {
    assert (log + [a])[..|log|] == log;
  }

  // A client whose receiver queues one more action.
  lemma EnqueueKeepsStreams<D>(sv: Server<D>, s: System<D>, a: Action, c: int, k: Client)
    requires Streams(sv, s) && c in s.clients && a.socket == c && ClientInv(sv.rx, s.log + [a], c, k)
    ensures Streams(sv, Enqueue(s, a, c, k))
  {
    forall d ensures Of(s.log + [a], d) == Of(s.log, d) + if d == c then [a] else [] {
      OfSnoc(s.log, a, d);
    }
  }

  lemma CutKeepsClient(rx: Receiver, log: seq<Action>, c: int, k: Client)
    requires ClientInv(rx, log, c, k) && k.over.None? && LookAhead(k.buffer).Frame?
    ensures var len := LookAhead(k.buffer).len; var frame := k.buffer[..len];
            ClientInv(rx, log + [Action(c, rx.got(frame))], c, k.(buffer := k.buffer[len..], frames := k.frames + [frame]))
  {
    var frame := k.buffer[..LookAhead(k.buffer).len];
    OfSnoc(log, Action(c, rx.got(frame)), c);
    OneMoreFrame(rx.got, c, k.frames, frame);
    CutFront(k.buffer, k.frames);
  }

  lemma CloseKeepsClient(rx: Receiver, log: seq<Action>, c: int, k: Client)
    requires ClientInv(rx, log, c, k) && k.over.None? && LookAhead(k.buffer).Oversize?
    ensures var n := LookAhead(k.buffer).payload;
            ClientInv(rx, log + [Action(c, rx.oversize(n))], c, k.(buffer := [], over := Some(n)))
  {
    OfSnoc(log, Action(c, rx.oversize(LookAhead(k.buffer).payload)), c);
    assert k.frames + [] == k.frames;
  }

  lemma ReceiveKeepsClient(rx: Receiver, log: seq<Action>, c: int, k: Client, chunk: seq<byte>)
    requires ClientInv(rx, log, c, k) && k.over.None? && LookAhead(k.buffer).More?
    ensures ClientInv(rx, log, c, k.(received := k.received + chunk, buffer := k.buffer + chunk))
  {
    assert k.frames + [] == k.frames;
    CutInTwo(k.received, chunk);
  }

  lemma ReceiverKeepsStreams<D>(sv: Server<D>, s: System<D>, step: ReceiverStep)
    requires Streams(sv, s) && ReceiverEnabled(s, step)
    ensures Streams(sv, ReceiverApply(sv, s, step))
  {
    var c := step.socket;
    match step
    case Connect(_) =>
      assert ClientInv(sv.rx, s.log, c, Client([], [], [], None));
    case Receive(_, chunk) => ReceiveKeepsClient(sv.rx, s.log, c, s.clients[c], chunk);
    case CutOne(_) =>
      var k := s.clients[c];
      match LookAhead(k.buffer)
      case Frame(len) =>
        var frame := k.buffer[..len];
        CutKeepsClient(sv.rx, s.log, c, k);
        EnqueueKeepsStreams(sv, s, Action(c, sv.rx.got(frame)), c,
                            k.(buffer := k.buffer[len..], frames := k.frames + [frame]));
      case Oversize(n) =>
        CloseKeepsClient(sv.rx, s.log, c, k);
        EnqueueKeepsStreams(sv, s, Action(c, sv.rx.oversize(n)), c, k.(buffer := [], over := Some(n)));
  }

  lemma ActionKeepsStreams<D>(sv: Server<D>, s: System<D>, step: ActionStep)
    requires Streams(sv, s) && ActionEnabled(s, step)
    ensures Streams(sv, ActionApply(sv, s, step))
  {
    var r := ActionApply(sv, s, step);
    assert r.log == s.log && r.clients == s.clients;
  }

  // ---------------------------------------------------------------- every run

  ghost predicate Inv<D>(sv: Server<D>, dev0: D, s: System<D>) {
    InOrder(sv, dev0, s) && Streams(sv, s)
  }

  lemma StepKeepsInv<D>(sv: Server<D>, dev0: D, s: System<D>, step: Step)
    requires Inv(sv, dev0, s) && Enabled(s, step)
    ensures Inv(sv, dev0, Apply(sv, s, step))
  {
    match step
    case Receiver(r) =>
      ReceiverKeepsOrder(sv, dev0, s, r);
      ReceiverKeepsStreams(sv, s, r);
    case ActionThread(a) =>
      ActionKeepsOrder(sv, dev0, s, a);
      ActionKeepsStreams(sv, s, a);
  }

  lemma {:induction false} RunKeepsInv<D>(sv: Server<D>, dev0: D, s: System<D>, steps: seq<Step>)
    requires Inv(sv, dev0, s) && IsRun(sv, s, steps)
    ensures Inv(sv, dev0, After(sv, s, steps))
    decreases |steps|
  {
    if steps != [] {
      StepKeepsInv(sv, dev0, s, steps[0]);
      RunKeepsInv(sv, dev0, Apply(sv, s, steps[0]), steps[1..]);
    }
  }

  lemma InitInv<D>(sv: Server<D>, dev: D)
    ensures Inv(sv, dev, Init(dev))
  {
  }

  /** Serialisability: after any interleaving of any number of receivers with the action thread, whenever the
      action thread is idle the device is what serving whole messages one after the other, in the order they
      were queued, makes of it; the replies sent are the replies of that service; and what it has not reached
      yet is exactly what is on the queue. */
  lemma Serialisable<D>(sv: Server<D>, dev: D, steps: seq<Step>)
    requires IsRun(sv, Init(dev), steps)
    ensures var s := After(sv, Init(dev), steps);
            && |s.sent| <= |s.log|
            && ServeAll(sv, dev, s.log[..|s.sent|]).sent == s.sent
            && (s.act.Idle? ==> ServeAll(sv, dev, s.log[..|s.sent|]).dev == s.dev && s.queue == s.log[|s.sent|..])
  {
    InitInv(sv, dev);
    RunKeepsInv(sv, dev, Init(dev), steps);
  }

  /** What a client has put on the queue is what its bytes cut into, in order, whatever the other clients do:
      all of it, once its receiver has nothing left to cut. */
  lemma QueueFollowsStream<D>(sv: Server<D>, dev: D, steps: seq<Step>, c: int)
    requires IsRun(sv, Init(dev), steps)
    ensures var s := After(sv, Init(dev), steps);
            if c !in s.clients then Of(s.log, c) == []
            else
              var all := Entries(sv.rx, c, CutAll(s.clients[c].received));
              Of(s.log, c) <= all &&
              (s.clients[c].over.Some? || LookAhead(s.clients[c].buffer).More? ==> Of(s.log, c) == all)
  {
    InitInv(sv, dev);
    RunKeepsInv(sv, dev, Init(dev), steps);
    var s := After(sv, Init(dev), steps);
    if c in s.clients {
      var k := s.clients[c];
      assert ClientInv(sv.rx, s.log, c, k);
      if k.over.None? {
        EntriesAppend(sv.rx, c, Cut(k.frames, [], None), CutAll(k.buffer));
      }
    }
  }

  // ---------------------------------------------------------------- what one client sees

  // Where in the log the j-th action of a client is.
  function Position(log: seq<Action>, c: int, j: nat): (k: nat)
    requires j < |Of(log, c)|
    ensures k < |log| && log[k] == Of(log, c)[j]
  {
    var front := log[..|log| - 1];
    if j < |Of(front, c)| then Position(front, c, j) else |log| - 1
  }

  lemma {:induction false} OfPrefix(log: seq<Action>, n: nat, c: int)
    requires n <= |log|
    ensures Of(log[..n], c) <= Of(log, c)
  {
    if n < |log| {
      OfPrefix(log[..|log| - 1], n, c);
      assert log[..|log| - 1][..n] == log[..n];
    } else {
      assert log[..n] == log;
    }
  }

  // Replies go back to where their requests came from, so a client's replies pair up with its requests.
  lemma {:induction false} RepliesPairUp<D>(sv: Server<D>, dev: D, log: seq<Action>, c: int)
    ensures var sent := ServeAll(sv, dev, log).sent;
            |Of(sent, c)| == |Of(log, c)| && |sent| == |log| &&
            forall j :: 0 <= j < |Of(log, c)| ==> Of(sent, c)[j] == sent[Position(log, c, j)]
  {
    if log != [] {
      var front, sent := log[..|log| - 1], ServeAll(sv, dev, log).sent;
      var sentFront := ServeAll(sv, dev, front).sent;
      RepliesPairUp(sv, dev, front, c);
      OfSnoc(sentFront, sent[|front|], c);
      forall j | 0 <= j < |Of(log, c)| ensures Of(sent, c)[j] == sent[Position(log, c, j)] {
        if j < |Of(front, c)| {
          assert sent[Position(front, c, j)] == sentFront[Position(front, c, j)];
        }
      }
    }
  }

  /** A client's j-th reply answers its j-th request: it is what serving that request gives on the device as
      whole earlier messages, and nothing else, left it. */
  lemma RepliesInRequestOrder<D>(sv: Server<D>, dev: D, steps: seq<Step>, c: int, j: nat)
    requires IsRun(sv, Init(dev), steps)
    requires j < |Of(After(sv, Init(dev), steps).sent, c)|
    ensures var s := After(sv, Init(dev), steps);
            && j < |Of(s.log, c)|
            && var k := Position(s.log, c, j);
            && Of(s.log, c)[j] == s.log[k]
            && Of(s.sent, c)[j] == Serve(sv, ServeAll(sv, dev, s.log[..k]).dev, s.log[k]).1
  {
    Serialisable(sv, dev, steps);
    var s := After(sv, Init(dev), steps);
    var served := s.log[..|s.sent|];
    RepliesPairUp(sv, dev, served, c);
    OfPrefix(s.log, |s.sent|, c);
    PositionInPrefix(s.log, |s.sent|, c, j);
    var k := Position(s.log, c, j);
    OneReplyEach(sv, dev, served, k);
    assert served[..k] == s.log[..k];
  }

  /** The same for every reply of every run: the j-th reply of a client to a message that asks to be run is an
      'R' or an 'E' with one item for each of its own, and to anything else the entry itself. */
  lemma RepliesAnswer<D>(sv: Server<D>, dev: D, steps: seq<Step>, c: int, j: nat)
    requires IsRun(sv, Init(dev), steps)
    requires j < |Of(After(sv, Init(dev), steps).sent, c)|
    ensures var s := After(sv, Init(dev), steps);
            && j < |Of(s.log, c)|
            && var a, reply := Of(s.log, c)[j], Of(s.sent, c)[j];
            if AsksToRun(a.m) then
              reply.socket == c && reply.m.Ready? && |reply.m.m.items| == |a.m.m.items| &&
              (reply.m.m.mid == 'R' as int || reply.m.m.mid == 'E' as int)
            else reply == a
  {
    RepliesInRequestOrder(sv, dev, steps, c, j);
    var s := After(sv, Init(dev), steps);
    var k := Position(s.log, c, j);
    RunExactlyWhenAsked(sv, ServeAll(sv, dev, s.log[..k]).dev, s.log[k]);
    OwnSocket(s.log, c, j);
  }

  lemma {:induction false} OwnSocket(log: seq<Action>, c: int, j: nat)
    requires j < |Of(log, c)|
    ensures Of(log, c)[j].socket == c
  {
    var front := log[..|log| - 1];
    if j < |Of(front, c)| {
      OwnSocket(front, c, j);
    }
  }

  lemma {:induction false} PositionInPrefix(log: seq<Action>, n: nat, c: int, j: nat)
    requires n <= |log| && j < |Of(log[..n], c)|
    ensures j < |Of(log, c)| && Position(log, c, j) == Position(log[..n], c, j)
  {
    OfPrefix(log, n, c);
    if n < |log| {
      var front := log[..|log| - 1];
      assert front[..n] == log[..n];
      PositionInPrefix(front, n, c, j);
    } else {
      assert log[..n] == log;
    }
  }

  // ---------------------------------------------------------------- the thread itself

  /** One turn of ActionThread's loop, run without interruption. */
  method Turn<D>(sv: Server<D>, queue: SafeQueue<Action>, done: bool, dev: D) returns (dev': D, sent: seq<Action>)
    modifies queue
    ensures done || old(queue.q) == [] ==> dev' == dev && sent == [] && queue.q == old(queue.q)
    ensures !done && old(queue.q) != [] ==>
              (dev', sent) == (Serve(sv, dev, old(queue.q)[0]).0, [Serve(sv, dev, old(queue.q)[0]).1]) &&
              queue.q == old(queue.q)[1..]
  {
    dev', sent := dev, [];
    var a := queue.Dequeue(done);
    if a.Some? {
      if IsRequest(a.value.m) {
        var message := new TMessage(a.value.m.m);
        var ok;
        ok, dev' := message.Run(sv.patch, sv.go, dev);
        sent := [Action(a.value.socket, Ready(Message(message.mid, message.items)))];
      } else {
        sent := [a.value];
      }
    }
  }
}
