/** The agent's outbound transport: senders, the `Run` goroutine with its read loop,
    teardown, drain and reconnect, and the write pumps, all sharing one bounded
    channel. Each goroutine is a program counter; a step is one critical section,
    channel operation or field access of one goroutine. Queued messages carry the
    number of their acceptance so that the logs can be compared. */
module Transport {
  import opened Common

  datatype Kind =
    | Telemetry | SoftwareInventory | EventReport | NtpStatus | NetworkInfo | SshKeys
    | ProcessList | AgentInfo | CommandOutput | CommandResult | ScreenshotResult | Pong

  datatype Message = Message(kind: Kind, body: string)

  const CAPACITY: nat := 256
  const BUSY: nat := CAPACITY * 3 / 4

  predicate Critical(k: Kind) {
    k.EventReport? || k.CommandResult? || k.ScreenshotResult?
  }

  predicate DropWhenBusy(k: Kind) {
    k.Telemetry? || k.ProcessList? || k.NtpStatus? || k.NetworkInfo?
  }

  /** The `number`-th accepted message. */
  datatype Item = Item(number: nat, message: Message)

  /** A message that `Send` gave up on, with the number of queued ones it saw. */
  datatype Refusal = Refusal(message: Message, queued: nat)

  /** A message whose fate was decided on the connection `conn`. */
  datatype OnConn = OnConn(conn: nat, item: Item)

  // Channels and connections are named by the connection they were made for.

  datatype RunPc =
    | Top                              // before dialling, or waiting to retry
    | Spawn(pump: nat)                 // fields installed, `go writePump()` next
    | Enter                            // readLoop reads `conn`
    | Reading
    | SendPong                         // readLoop inside Send(pong)
    | Clear                            // deferred teardown: clear the fields
    | CloseStop(stop: Option<nat>)     // close the stop channel it saw
    | Await                            // wait for `writeDone`
    | Drain
    | Stopped

  datatype PumpPc =
    | LoopTop                          // about to evaluate the select
    | Select(stop: Option<nat>)        // blocked, on the stop channel it saw
    | Ticked                           // ticker case, `conn` not yet read
    | Ping(conn: nat)
    | Took(item: Item)                 // message case, `conn` not yet read
    | Writing(conn: nat, item: Item)
    | Exit                             // deferred close of `writeDone`
    | Dead

  datatype State = State(
    run: RunPc,
    conn: Option<nat>, writeStop: Option<nat>, writeDone: Option<nat>,
    dialled: nat,                      // connections installed so far
    pumps: map<nat, PumpPc>,           // by the connection that spawned them
    stopCloses: seq<nat>,              // close() calls on stop channels
    doneCloses: seq<nat>,              // close() calls on done channels
    queue: seq<Item>,                  // sendCh
    senders: map<nat, Message>,        // Send calls past the busy check
    accepted: seq<Item>, wire: seq<OnConn>, lost: seq<OnConn>, drained: seq<Item>,
    refused: seq<Refusal>)

  const INIT := State(Top, None, None, None, 0, map[], [], [], [], map[], [], [], [], [], [])

  datatype Step =
    | SendBegin(sender: nat, message: Message)
    | SendFinish(sender: nat)
    | Dial                             // successful dial and field installation
    | GoPump
    | EnterRead
    | GotPing
    | PongFinish
    | ReadEnds
    | ClearFields
    | CloseStopCh
    | AwaitDone
    | DrainOne
    | DrainEnds(shutdown: bool)
    | Shutdown
    | PumpSelect(pump: nat)
    | PumpStopped(pump: nat)
    | PumpTick(pump: nat)
    | PumpTake(pump: nat)
    | PumpReadConn(pump: nat)
    | PumpWritten(pump: nat, ok: bool)
    | PumpExit(pump: nat)

  predicate Enabled(s: State, t: Step) {
    match t
    case SendBegin(id, m) => id !in s.senders
    case SendFinish(id) => id in s.senders && (Critical(s.senders[id].kind) ==> |s.queue| < CAPACITY)
    case Dial => s.run.Top?
    case GoPump => s.run.Spawn?
    case EnterRead => s.run.Enter?
    case GotPing => s.run.Reading?
    case PongFinish => s.run.SendPong?
    case ReadEnds => s.run.Reading?
    case ClearFields => s.run.Clear?
    case CloseStopCh => s.run.CloseStop?
    case AwaitDone => s.run.Await? && (s.writeDone.Some? ==> s.writeDone.value in s.doneCloses)
    case DrainOne => s.run.Drain? && s.queue != []
    case DrainEnds(_) => s.run.Drain? && s.queue == []
    case Shutdown => s.run.Top?
    case PumpSelect(p) => p in s.pumps && s.pumps[p].LoopTop?
    case PumpStopped(p) => p in s.pumps && s.pumps[p].Select? && s.pumps[p].stop.Some? && s.pumps[p].stop.value in s.stopCloses
    case PumpTick(p) => p in s.pumps && s.pumps[p].Select?
    case PumpTake(p) => p in s.pumps && s.pumps[p].Select? && s.queue != []
    case PumpReadConn(p) => p in s.pumps && (s.pumps[p].Ticked? || s.pumps[p].Took?)
    case PumpWritten(p, _) => p in s.pumps && (s.pumps[p].Ping? || s.pumps[p].Writing?)
    case PumpExit(p) => p in s.pumps && s.pumps[p].Exit?
  }

  /** Appends to the channel, numbering the message; the channel must have room. */
  function Enqueue(s: State, m: Message): State {
    var item := Item(|s.accepted|, m);
    s.(queue := s.queue + [item], accepted := s.accepted + [item])
  }

  /** The non-blocking send: append if there is room, else drop. */
  function Offer(s: State, m: Message): State {
    if |s.queue| < CAPACITY then Enqueue(s, m) else s.(refused := s.refused + [Refusal(m, |s.queue|)])
  }

  function Goto(s: State, p: nat, pc: PumpPc): State {
    s.(pumps := s.pumps[p := pc])
  }

  function Do(s: State, t: Step): State
    requires Enabled(s, t)
  {
    match t
    case SendBegin(id, m) =>
      if |s.queue| >= BUSY && DropWhenBusy(m.kind) then s.(refused := s.refused + [Refusal(m, |s.queue|)])
      else s.(senders := s.senders[id := m])
    case SendFinish(id) =>
      Offer(s.(senders := s.senders - {id}), s.senders[id])
    case Dial =>
      var c := s.dialled;
      s.(run := Spawn(c), conn := Some(c), writeStop := Some(c), writeDone := Some(c), dialled := c + 1)
    case GoPump => Goto(s.(run := Enter), s.run.pump, LoopTop)
    case EnterRead => s.(run := if s.conn.None? then Clear else Reading)
    case GotPing => s.(run := SendPong)
    case PongFinish => Offer(s.(run := Reading), Message(Pong, ""))
    case ReadEnds => s.(run := Clear)
    case ClearFields => s.(run := CloseStop(s.writeStop), conn := None, writeStop := None)
    case CloseStopCh =>
      s.(run := Await, stopCloses := if s.run.stop.Some? then s.stopCloses + [s.run.stop.value] else s.stopCloses)
    case AwaitDone => s.(run := Drain)
    case DrainOne => s.(queue := s.queue[1..], drained := s.drained + [s.queue[0]])
    case DrainEnds(shutdown) => s.(run := if shutdown then Stopped else Top)
    case Shutdown => s.(run := Stopped)
    case PumpSelect(p) => Goto(s, p, Select(s.writeStop))
    case PumpStopped(p) => Goto(s, p, Exit)
    case PumpTick(p) => Goto(s, p, Ticked)
    case PumpTake(p) => Goto(s, p, Took(s.queue[0])).(queue := s.queue[1..])
    case PumpReadConn(p) =>
      var pc := s.pumps[p];
      if pc.Ticked? then Goto(s, p, if s.conn.None? then Exit else Ping(s.conn.value))
      else if s.conn.None? then Goto(s, p, Exit).(lost := s.lost + [OnConn(p, pc.item)])
      else Goto(s, p, Writing(s.conn.value, pc.item))
    case PumpWritten(p, ok) =>
      var pc := s.pumps[p];
      if pc.Ping? then Goto(s, p, if ok then LoopTop else Exit)
      else if ok then Goto(s, p, LoopTop).(wire := s.wire + [OnConn(pc.conn, pc.item)])
      else Goto(s, p, Exit).(lost := s.lost + [OnConn(pc.conn, pc.item)])
    case PumpExit(p) =>
      Goto(s, p, Dead).(doneCloses := if s.writeDone.Some? then s.doneCloses + [s.writeDone.value] else s.doneCloses)
  }

  /** The pump that takes a step, if a pump does. */
  function PumpOf(t: Step): Option<nat> {
    match t
    case PumpSelect(p) => Some(p)
    case PumpStopped(p) => Some(p)
    case PumpTick(p) => Some(p)
    case PumpTake(p) => Some(p)
    case PumpReadConn(p) => Some(p)
    case PumpWritten(p, _) => Some(p)
    case PumpExit(p) => Some(p)
    case _ => None
  }

  /** The states a run passes through. */
  ghost predicate IsRun(trace: seq<State>, steps: seq<Step>) {
    && |trace| == |steps| + 1
    && trace[0] == INIT
    && forall i :: 0 <= i < |steps| ==> Enabled(trace[i], steps[i]) && trace[i + 1] == Do(trace[i], steps[i])
  }

  // ------------------------------------------------------------ pump lifecycle

  ghost predicate NoDup(xs: seq<nat>) {
    forall i, j :: 0 <= i < j < |xs| ==> xs[i] != xs[j]
  }

  predicate Connected(pc: RunPc) {
    pc.Enter? || pc.Reading? || pc.SendPong? || pc.Clear?
  }

  /** Who owns what, by the program counter of `Run`. */
  ghost predicate Fields(s: State) {
    && (Connected(s.run) || s.run.Spawn? ==>
          0 < s.dialled && s.conn == s.writeStop == s.writeDone == Some(s.dialled - 1))
    && (!(Connected(s.run) || s.run.Spawn?) ==> s.conn.None? && s.writeStop.None?)
    && (s.writeDone == if s.dialled == 0 then None else Some(s.dialled - 1))
    && (s.run.Spawn? ==> s.run.pump == s.dialled - 1)
    && (s.run.CloseStop? ==> 0 < s.dialled && s.run.stop == Some(s.dialled - 1))
    && (s.run.Await? || s.run.Drain? ==> 0 < s.dialled)
  }

  ghost predicate PumpsKnown(s: State) {
    forall p: nat :: p in s.pumps <==> p < s.dialled && !(s.run.Spawn? && p == s.dialled - 1)
  }

  /** Only the pump of the newest connection can be alive, and not while `Run` is
      between connections. */
  ghost predicate OnlyCurrentAlive(s: State) {
    forall p: nat :: p in s.pumps && !s.pumps[p].Dead? ==>
      p == s.dialled - 1 && (Connected(s.run) || s.run.CloseStop? || s.run.Await?)
  }

  ghost predicate OwnChannels(s: State) {
    forall p: nat :: p in s.pumps ==>
      && (s.pumps[p].Select? && s.pumps[p].stop.Some? ==> s.pumps[p].stop.value == p)
      && (s.pumps[p].Ping? || s.pumps[p].Writing? ==> s.pumps[p].conn == p)
  }

  /** A done channel is closed exactly when its pump is dead, and only once; a stop
      channel is closed at most once. */
  ghost predicate Closes(s: State) {
    && NoDup(s.doneCloses) && NoDup(s.stopCloses)
    && (forall p: nat :: p in s.doneCloses <==> p in s.pumps && s.pumps[p].Dead?)
    && (forall p: nat :: p in s.stopCloses ==> p < s.dialled)
    && (Connected(s.run) || s.run.Spawn? || s.run.CloseStop? ==> s.dialled - 1 !in s.stopCloses)
  }

  ghost predicate Lifecycle(s: State) {
    Fields(s) && PumpsKnown(s) && OnlyCurrentAlive(s) && OwnChannels(s) && Closes(s)
  }

  // Steps of pumps, of senders and of `Run` are treated apart.

  predicate OfSender(t: Step) {
    t.SendBegin? || t.SendFinish?
  }

  /** A sender changes nothing but the channel and the logs of accepted and refused. */
  lemma {:induction false} SenderFrame(s: State, t: Step)
    requires Enabled(s, t) && OfSender(t)
    ensures var s' := Do(s, t);
            s' == s.(senders := s'.senders, queue := s'.queue, accepted := s'.accepted, refused := s'.refused)
  {
  }

  predicate OfRun(t: Step) {
    PumpOf(t).None? && !OfSender(t)
  }

  /** A pump changes nothing but its own program counter and the logs. */
  lemma {:induction false} PumpFrame(s: State, t: Step)
    requires Enabled(s, t) && PumpOf(t).Some?
    ensures var s', p := Do(s, t), PumpOf(t).value;
            && p in s.pumps && !s.pumps[p].Dead? && p in s'.pumps && s'.pumps == s.pumps[p := s'.pumps[p]]
            && s'.run == s.run && s'.dialled == s.dialled && s'.stopCloses == s.stopCloses
            && s'.conn == s.conn && s'.writeStop == s.writeStop && s'.writeDone == s.writeDone
  {
  }

  lemma {:induction false} FieldsRun(s: State, t: Step)
    requires Fields(s) && Enabled(s, t) && OfRun(t)
    ensures Fields(Do(s, t))
  {
  }

  lemma {:induction false} PumpsKnownRun(s: State, t: Step)
    requires Lifecycle(s) && Enabled(s, t) && OfRun(t)
    ensures PumpsKnown(Do(s, t))
  {
  }

  lemma {:induction false} OwnChannelsRun(s: State, t: Step)
    requires OwnChannels(s) && Enabled(s, t) && OfRun(t)
    ensures OwnChannels(Do(s, t))
  {
  }

  lemma {:induction false} AliveRun(s: State, t: Step)
    requires Lifecycle(s) && Enabled(s, t) && OfRun(t)
    ensures OnlyCurrentAlive(Do(s, t))
  {
    if t.AwaitDone? {
      assert s.pumps[s.dialled - 1].Dead?;
    }
  }

  lemma {:induction false} ClosesRun(s: State, t: Step)
    requires Lifecycle(s) && Enabled(s, t) && OfRun(t)
    ensures Closes(Do(s, t))
  {
    if t.CloseStopCh? {
      assert Do(s, t).stopCloses == s.stopCloses + [s.dialled - 1];
    }
  }

  lemma {:induction false} OwnChannelsPump(s: State, t: Step)
    requires Lifecycle(s) && Enabled(s, t) && PumpOf(t).Some?
    ensures OwnChannels(Do(s, t))
  {
    PumpFrame(s, t);
  }

  lemma {:induction false} ClosesPump(s: State, t: Step)
    requires Lifecycle(s) && Enabled(s, t) && PumpOf(t).Some?
    ensures Closes(Do(s, t))
  {
    PumpFrame(s, t);
    var s' := Do(s, t);
    if t.PumpExit? {
      assert s'.doneCloses == s.doneCloses + [t.pump];
    } else {
      assert s'.doneCloses == s.doneCloses && !s'.pumps[PumpOf(t).value].Dead?;
    }
  }

  lemma {:induction false} LifecycleStep(s: State, t: Step)
    requires Lifecycle(s) && Enabled(s, t)
    ensures Lifecycle(Do(s, t))
  {
    if PumpOf(t).Some? {
      PumpFrame(s, t);
      OwnChannelsPump(s, t);
      ClosesPump(s, t);
    } else if OfSender(t) {
      SenderFrame(s, t);
    } else {
      FieldsRun(s, t);
      PumpsKnownRun(s, t);
      OwnChannelsRun(s, t);
      AliveRun(s, t);
      ClosesRun(s, t);
    }
  }

  // ------------------------------------------------------------- the ledger

  /** What the machine does to messages, without its program counters: a message is
      accepted into the queue, taken from it into a hand, and there written or lost;
      or it is drained from the queue. */
  datatype Ledger = Ledger(accepted: seq<Item>, queue: seq<Item>, held: seq<Item>,
                           wire: seq<OnConn>, lost: seq<OnConn>, drained: seq<Item>)

  datatype Move = Stay | Accept(message: Message) | Take | Write(conn: nat) | Lose(conn: nat) | Discard

  predicate CanMove(l: Ledger, m: Move) {
    match m
    case Stay => true
    case Accept(_) => |l.queue| < CAPACITY
    case Take => l.queue != [] && l.held == []
    case Write(_) => |l.held| == 1
    case Lose(_) => |l.held| == 1
    case Discard => l.queue != [] && l.held == []
  }

  function Moved(l: Ledger, m: Move): Ledger
    requires CanMove(l, m)
  {
    match m
    case Stay => l
    case Accept(message) =>
      var item := Item(|l.accepted|, message);
      l.(accepted := l.accepted + [item], queue := l.queue + [item])
    case Take => l.(queue := l.queue[1..], held := [l.queue[0]])
    case Write(c) => l.(held := [], wire := l.wire + [OnConn(c, l.held[0])])
    case Lose(c) => l.(held := [], lost := l.lost + [OnConn(c, l.held[0])])
    case Discard => l.(queue := l.queue[1..], drained := l.drained + [l.queue[0]])
  }

  function Held(s: State): seq<Item> {
    if 0 < s.dialled && s.dialled - 1 in s.pumps then
      var pc := s.pumps[s.dialled - 1];
      if pc.Took? || pc.Writing? then [pc.item] else []
    else []
  }

  function LedgerOf(s: State): Ledger {
    Ledger(s.accepted, s.queue, Held(s), s.wire, s.lost, s.drained)
  }

  function MoveOf(s: State, t: Step): Move
    requires Enabled(s, t)
  {
    match t
    case SendFinish(id) => if |s.queue| < CAPACITY then Accept(s.senders[id]) else Stay
    case PongFinish => if |s.queue| < CAPACITY then Accept(Message(Pong, "")) else Stay
    case DrainOne => Discard
    case PumpTake(_) => Take
    case PumpReadConn(p) => if s.pumps[p].Took? && s.conn.None? then Lose(p) else Stay
    case PumpWritten(p, ok) =>
      if s.pumps[p].Ping? then Stay else if ok then Write(s.pumps[p].conn) else Lose(s.pumps[p].conn)
    case _ => Stay
  }

  lemma {:induction false} RunKeepsHeld(s: State, t: Step)
    requires Lifecycle(s) && Enabled(s, t) && OfRun(t)
    ensures Held(Do(s, t)) == Held(s)
    ensures t.DrainOne? ==> Held(s) == []
  {
  }

  lemma {:induction false} RunMovesLedger(s: State, t: Step)
    requires Lifecycle(s) && Enabled(s, t) && OfRun(t)
    ensures CanMove(LedgerOf(s), MoveOf(s, t))
    ensures LedgerOf(Do(s, t)) == Moved(LedgerOf(s), MoveOf(s, t))
  {
    RunKeepsHeld(s, t);
  }

  lemma {:induction false} SenderMovesLedger(s: State, t: Step)
    requires Enabled(s, t) && OfSender(t)
    ensures CanMove(LedgerOf(s), MoveOf(s, t))
    ensures LedgerOf(Do(s, t)) == Moved(LedgerOf(s), MoveOf(s, t))
  {
  }

  lemma {:induction false} PumpMovesLedger(s: State, t: Step)
    requires Lifecycle(s) && Enabled(s, t) && PumpOf(t).Some?
    ensures CanMove(LedgerOf(s), MoveOf(s, t))
    ensures LedgerOf(Do(s, t)) == Moved(LedgerOf(s), MoveOf(s, t))
  {
    PumpFrame(s, t);
  }

  /** The protocol refines the ledger: every step is the move named by `MoveOf`. */
  lemma {:induction false} StepMovesLedger(s: State, t: Step)
    requires Lifecycle(s) && Enabled(s, t)
    ensures CanMove(LedgerOf(s), MoveOf(s, t))
    ensures LedgerOf(Do(s, t)) == Moved(LedgerOf(s), MoveOf(s, t))
  {
    if PumpOf(t).Some? {
      PumpMovesLedger(s, t);
    } else if OfSender(t) {
      SenderMovesLedger(s, t);
    } else {
      RunMovesLedger(s, t);
    }
  }

  /** How many accepted messages have left the queue. */
  function Gone(l: Ledger): int {
    |l.accepted| - |l.queue|
  }

  ghost predicate Numbered(l: Ledger) {
    && |l.queue| <= |l.accepted| && |l.queue| <= CAPACITY
    && (forall i :: 0 <= i < |l.accepted| ==> l.accepted[i].number == i)
    && l.queue == l.accepted[Gone(l)..]
  }

  function Items(log: seq<OnConn>): (items: seq<Item>)
    ensures |items| == |log|
    ensures forall i :: 0 <= i < |log| ==> items[i] == log[i].item
  {
    seq(|log|, i requires 0 <= i < |log| => log[i].item)
  }

  function Everywhere(l: Ledger): multiset<Item> {
    multiset(Items(l.wire)) + multiset(Items(l.lost)) + multiset(l.drained) + multiset(l.held) + multiset(l.queue)
  }

  /** In order of acceptance and entirely before message `bound`. */
  ghost predicate InOrder(log: seq<Item>, bound: int) {
    && (forall i, j :: 0 <= i < j < |log| ==> log[i].number < log[j].number)
    && (forall i :: 0 <= i < |log| ==> log[i].number < bound)
  }

  /** What is held is the latest message taken; everything decided came before it. */
  ghost predicate Ordered(l: Ledger) {
    && |l.held| <= 1
    && (l.held != [] ==> l.held[0].number == Gone(l) - 1)
    && InOrder(Items(l.wire), Gone(l) - |l.held|)
    && InOrder(Items(l.lost), Gone(l) - |l.held|)
    && InOrder(l.drained, Gone(l) - |l.held|)
  }

  ghost predicate Balanced(l: Ledger) {
    Numbered(l) && Ordered(l) && multiset(l.accepted) == Everywhere(l)
  }

  lemma {:induction false} ItemsSnoc(log: seq<OnConn>, c: nat, item: Item)
    ensures Items(log + [OnConn(c, item)]) == Items(log) + [item]
  {
  }

  lemma {:induction false} MoveKeepsNumbers(l: Ledger, m: Move)
    requires Numbered(l) && CanMove(l, m)
    ensures Numbered(Moved(l, m))
  {
    var l' := Moved(l, m);
    if m.Accept? {
      assert l'.queue == l'.accepted[Gone(l')..];
    } else if m.Take? || m.Discard? {
      assert l'.queue == l'.accepted[Gone(l')..];
    }
  }

  lemma {:induction false} MoveKeepsOrder(l: Ledger, m: Move)
    requires Numbered(l) && Ordered(l) && CanMove(l, m)
    ensures Ordered(Moved(l, m))
  {
    if m.Take? || m.Discard? {
      assert l.queue[0] == l.accepted[Gone(l)];
    } else if m.Write? {
      ItemsSnoc(l.wire, m.conn, l.held[0]);
    } else if m.Lose? {
      ItemsSnoc(l.lost, m.conn, l.held[0]);
    }
  }

  lemma {:induction false} FirstAndRest(q: seq<Item>)
    requires q != []
    ensures multiset(q) == multiset([q[0]]) + multiset(q[1..])
  {
    assert q == [q[0]] + q[1..];
  }

  lemma {:induction false} LeavingQueueConserves(l: Ledger, m: Move)
    requires (m.Take? || m.Discard?) && CanMove(l, m)
    ensures Everywhere(Moved(l, m)) == Everywhere(l)
  {
    FirstAndRest(l.queue);
    if m.Discard? {
      assert multiset(l.drained + [l.queue[0]]) == multiset(l.drained) + multiset([l.queue[0]]);
    } else {
      assert multiset(l.held) == multiset{};
    }
  }

  lemma {:induction false} LeavingHandConserves(l: Ledger, m: Move)
    requires (m.Write? || m.Lose?) && CanMove(l, m)
    ensures Everywhere(Moved(l, m)) == Everywhere(l)
  {
    var log := if m.Write? then l.wire else l.lost;
    ItemsSnoc(log, m.conn, l.held[0]);
    assert l.held == [l.held[0]];
    assert multiset(Items(log) + l.held) == multiset(Items(log)) + multiset(l.held);
  }

  lemma {:induction false} MoveConserves(l: Ledger, m: Move)
    requires multiset(l.accepted) == Everywhere(l) && CanMove(l, m)
    ensures multiset(Moved(l, m).accepted) == Everywhere(Moved(l, m))
  {
    if m.Take? || m.Discard? {
      LeavingQueueConserves(l, m);
    } else if m.Write? || m.Lose? {
      LeavingHandConserves(l, m);
    }
  }

  // ----------------------------------------------------- losses and refusals

  ghost predicate OneLossEach(s: State) {
    && (forall i, j :: 0 <= i < j < |s.lost| ==> s.lost[i].conn != s.lost[j].conn)
    && (forall i :: 0 <= i < |s.lost| ==>
          s.lost[i].conn in s.pumps && (s.pumps[s.lost[i].conn].Exit? || s.pumps[s.lost[i].conn].Dead?))
  }

  /** A connection that has lost a message has no pump left to lose another. */
  lemma {:induction false} OneLossStep(s: State, t: Step)
    requires Lifecycle(s) && OneLossEach(s) && Enabled(s, t)
    ensures OneLossEach(Do(s, t))
  {
    if PumpOf(t).Some? {
      OneLossPump(s, t);
    } else if OfSender(t) {
      SenderFrame(s, t);
    } else {
      OneLossRun(s, t);
    }
  }

  lemma {:induction false} OneLossPump(s: State, t: Step)
    requires Lifecycle(s) && OneLossEach(s) && Enabled(s, t) && PumpOf(t).Some?
    ensures OneLossEach(Do(s, t))
  {
    PumpFrame(s, t);
  }

  lemma {:induction false} OneLossRun(s: State, t: Step)
    requires Lifecycle(s) && OneLossEach(s) && Enabled(s, t) && OfRun(t)
    ensures OneLossEach(Do(s, t))
  {
  }

  /** A full channel refuses any message but a critical one; a busy one only those
      that may be dropped when busy. */
  predicate MayRefuse(r: Refusal) {
    && !Critical(r.message.kind)
    && (r.queued < CAPACITY ==> BUSY <= r.queued && DropWhenBusy(r.message.kind))
  }

  ghost predicate RefusalsAllowed(s: State) {
    forall i :: 0 <= i < |s.refused| ==> MayRefuse(s.refused[i])
  }

  // ------------------------------------------------------------- whole runs

  ghost predicate Inv(s: State) {
    Lifecycle(s) && Balanced(LedgerOf(s)) && OneLossEach(s) && RefusalsAllowed(s)
  }

  lemma {:induction false} RefusalsStep(s: State, t: Step)
    requires RefusalsAllowed(s) && Enabled(s, t)
    ensures RefusalsAllowed(Do(s, t))
  {
  }

  lemma {:induction false} MoveKeepsBalance(l: Ledger, m: Move)
    requires Balanced(l) && CanMove(l, m)
    ensures Balanced(Moved(l, m))
  {
    MoveKeepsNumbers(l, m);
    MoveKeepsOrder(l, m);
    MoveConserves(l, m);
  }

  lemma {:induction false} InvInit()
    ensures Inv(INIT)
  {
    var l := LedgerOf(INIT);
    assert l == Ledger([], [], [], [], [], []);
    assert Items(l.wire) == [];
  }

  lemma {:induction false} InvStep(s: State, t: Step)
    requires Inv(s) && Enabled(s, t)
    ensures Inv(Do(s, t))
  {
    LifecycleStep(s, t);
    StepMovesLedger(s, t);
    MoveKeepsBalance(LedgerOf(s), MoveOf(s, t));
    OneLossStep(s, t);
    RefusalsStep(s, t);
  }

  lemma {:induction false} Reachable(trace: seq<State>, steps: seq<Step>, i: nat)
    requires IsRun(trace, steps) && i < |trace|
    ensures Inv(trace[i])
  {
    if i == 0 {
      InvInit();
    } else {
      Reachable(trace, steps, i - 1);
      InvStep(trace[i - 1], steps[i - 1]);
    }
  }

  // ------------------------------------------------------------ main results

  lemma {:induction false} NumberedOnce(items: seq<Item>, n: nat)
    requires n < |items| && forall i :: 0 <= i < |items| ==> items[i].number == i
    ensures multiset(items)[items[n]] == 1
  {
    assert items == items[..n] + [items[n]] + items[n + 1..];
    assert items[n] !in items[..n] && items[n] !in items[n + 1..];
  }

  /** Conservation: at any time of any run, each accepted message is in exactly one
      of written, lost in flight, drained, held by the pump, or queued. */
  lemma {:induction false} EachMessageInOnePlace(trace: seq<State>, steps: seq<Step>, i: nat, n: nat)
    requires IsRun(trace, steps) && i < |trace| && n < |trace[i].accepted|
    ensures var s, m := trace[i], trace[i].accepted[n];
            multiset(Items(s.wire))[m] + multiset(Items(s.lost))[m] + multiset(s.drained)[m]
            + multiset(Held(s))[m] + multiset(s.queue)[m] == 1
  {
    Reachable(trace, steps, i);
    NumberedOnce(trace[i].accepted, n);
    assert multiset(trace[i].accepted) == Everywhere(LedgerOf(trace[i]));
  }

  /** What reaches the wire is a subsequence of what was accepted, in order. */
  lemma {:induction false} WireIsSubsequence(trace: seq<State>, steps: seq<Step>, i: nat)
    requires IsRun(trace, steps) && i < |trace|
    ensures forall k :: 0 <= k < |trace[i].wire| ==>
              var item := trace[i].wire[k].item;
              item.number < |trace[i].accepted| && trace[i].accepted[item.number] == item
    ensures forall j, k :: 0 <= j < k < |trace[i].wire| ==>
              trace[i].wire[j].item.number < trace[i].wire[k].item.number
  {
    Reachable(trace, steps, i);
    var s := trace[i];
    var written := Items(s.wire);
    forall k | 0 <= k < |s.wire|
      ensures var item := s.wire[k].item; item.number < |s.accepted| && s.accepted[item.number] == item
    {
      assert written[k] in multiset(written);
      assert written[k] in Everywhere(LedgerOf(s));
      assert written[k] in multiset(s.accepted);
      assert written[k] in s.accepted;
    }
    forall j, k | 0 <= j < k < |s.wire|
      ensures s.wire[j].item.number < s.wire[k].item.number
    {
      assert written[j].number < written[k].number;
    }
  }

  /** Each connection loses at most one message in flight, `Send` never gives up on a
      critical message, and the channel stays within its capacity. */
  lemma {:induction false} LossesAreBounded(trace: seq<State>, steps: seq<Step>, i: nat)
    requires IsRun(trace, steps) && i < |trace|
    ensures forall j, k :: 0 <= j < k < |trace[i].lost| ==> trace[i].lost[j].conn != trace[i].lost[k].conn
    ensures |trace[i].lost| <= trace[i].dialled
    ensures forall k :: 0 <= k < |trace[i].refused| ==> MayRefuse(trace[i].refused[k])
    ensures |trace[i].queue| <= CAPACITY
  {
    Reachable(trace, steps, i);
    var s := trace[i];
    forall k | 0 <= k < |s.lost| ensures s.lost[k].conn < s.dialled {}
    Pigeonhole(seq(|s.lost|, k requires 0 <= k < |s.lost| => s.lost[k].conn), s.dialled);
  }

  lemma {:induction false} Pigeonhole(xs: seq<nat>, n: nat)
    requires NoDup(xs) && forall i :: 0 <= i < |xs| ==> xs[i] < n
    ensures |xs| <= n
  {
    if xs != [] {
      assert xs[0] < n;
      if k :| 0 <= k < |xs| && xs[k] == n - 1 {
        Pigeonhole(xs[..k] + xs[k + 1..], n - 1);
      } else {
        Pigeonhole(xs, n - 1);
      }
    }
  }

  /** At most one pump is alive; a done channel is closed exactly once, when its pump
      dies; no channel is closed twice; draining and dialling happen with no pump alive. */
  lemma {:induction false} PumpLifecycle(trace: seq<State>, steps: seq<Step>, i: nat)
    requires IsRun(trace, steps) && i < |trace|
    ensures var s := trace[i];
            && (forall p, q :: p in s.pumps && q in s.pumps && !s.pumps[p].Dead? && !s.pumps[q].Dead? ==> p == q)
            && (forall p: nat :: p in s.pumps ==> (s.pumps[p].Dead? <==> p in s.doneCloses))
            && NoDup(s.doneCloses) && NoDup(s.stopCloses)
            && (s.run.Drain? || s.run.Top? || s.run.Spawn? ==> forall p :: p in s.pumps ==> s.pumps[p].Dead?)
  {
    Reachable(trace, steps, i);
  }

  /** Every written message was written on the connection of the pump that took it. */
  lemma {:induction false} PumpWritesItsOwnConnection(trace: seq<State>, steps: seq<Step>, i: nat)
    requires IsRun(trace, steps) && i < |steps| && steps[i].PumpWritten?
    ensures trace[i].pumps[steps[i].pump].conn == steps[i].pump == trace[i].dialled - 1
  {
    Reachable(trace, steps, i);
  }
}
