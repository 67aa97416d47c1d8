/** The server's registry of device sockets under asyncio. A task is a program
    counter at an await point; a step runs one task from one await point to the next.
    `connect` keeps the lock while it closes the old socket; `disconnect` removes by
    device, closes after releasing the lock; `send_to_device` reads without the lock
    and disconnects when sending fails. */
module Registry {
  import opened Common

  datatype Metadata = Metadata(since: int, ip: string)

  datatype Pc =
    | ConnectWait(device: nat, socket: nat, ip: string)               // waiting for the lock
    | ConnectClose(device: nat, socket: nat, ip: string, previous: nat)    // lock held, closing the old socket
    | Serving(device: nat, socket: nat)
    | DisconnectWait(device: nat, served: Option<nat>)                // waiting for the lock, on account of a socket
    | CloseWait(socket: nat)                                          // closing the removed socket
    | SendWait(device: nat, socket: nat)
    | Done

  /** The steps that changed the maps, oldest first. */
  datatype Change = Connected(device: nat, socket: nat) | Disconnected(device: nat)

  datatype State = State(
    connections: map<nat, nat>, metadata: map<nat, Metadata>, lock: Option<nat>,
    tasks: map<nat, Pc>, closed: set<nat>, history: seq<Change>)

  const INIT := State(map[], map[], None, map[], {}, [])

  datatype Step =
    | Accept(task: nat, device: nat, socket: nat, ip: string)         // a handler starts
    | LockForConnect(task: nat, now: int)
    | OldSocketClosed(task: nat, now: int)
    | ServingEnds(task: nat)                                          // the handler's `finally`
    | AskDisconnect(task: nat, device: nat)                           // an administrator disconnects
    | LockForDisconnect(task: nat)
    | SocketClosed(task: nat)
    | AskSend(task: nat, device: nat)
    | SendEnds(task: nat, ok: bool)

  predicate Enabled(s: State, t: Step) {
    match t
    case Accept(k, _, _, _) => k !in s.tasks
    case LockForConnect(k, _) => k in s.tasks && s.tasks[k].ConnectWait? && s.lock.None?
    case OldSocketClosed(k, _) => k in s.tasks && s.tasks[k].ConnectClose?
    case ServingEnds(k) => k in s.tasks && s.tasks[k].Serving?
    case AskDisconnect(k, _) => k !in s.tasks
    case LockForDisconnect(k) => k in s.tasks && s.tasks[k].DisconnectWait? && s.lock.None?
    case SocketClosed(k) => k in s.tasks && s.tasks[k].CloseWait?
    case AskSend(k, _) => k !in s.tasks
    case SendEnds(k, _) => k in s.tasks && s.tasks[k].SendWait?
  }

  function Goto(s: State, k: nat, pc: Pc): State {
    s.(tasks := s.tasks[k := pc])
  }

  function Register(s: State, d: nat, w: nat, ip: string, now: int): State {
    s.(connections := s.connections[d := w], metadata := s.metadata[d := Metadata(now, ip)],
       history := s.history + [Connected(d, w)])
  }

  function Do(s: State, t: Step): State
    requires Enabled(s, t)
  {
    match t
    case Accept(k, d, w, ip) => Goto(s, k, ConnectWait(d, w, ip))
    case LockForConnect(k, now) =>
      var ConnectWait(d, w, ip) := s.tasks[k];
      if d in s.connections then
        Goto(s, k, ConnectClose(d, w, ip, s.connections[d])).(lock := Some(k), closed := s.closed + {s.connections[d]})
      else Goto(Register(s, d, w, ip, now), k, Serving(d, w))
    case OldSocketClosed(k, now) =>
      var ConnectClose(d, w, ip, _) := s.tasks[k];
      Goto(Register(s, d, w, ip, now), k, Serving(d, w)).(lock := None)
    case ServingEnds(k) => Goto(s, k, DisconnectWait(s.tasks[k].device, Some(s.tasks[k].socket)))
    case AskDisconnect(k, d) => Goto(s, k, DisconnectWait(d, None))
    case LockForDisconnect(k) =>
      var d := s.tasks[k].device;
      if d in s.connections then
        Goto(s, k, CloseWait(s.connections[d])).(
          connections := s.connections - {d}, metadata := s.metadata - {d},
          closed := s.closed + {s.connections[d]}, history := s.history + [Disconnected(d)])
      else Goto(s, k, Done).(metadata := s.metadata - {d})
    case SocketClosed(k) => Goto(s, k, Done)
    case AskSend(k, d) =>
      if d in s.connections then Goto(s, k, SendWait(d, s.connections[d])) else Goto(s, k, Done)
    case SendEnds(k, ok) => Goto(s, k, if ok then Done else DisconnectWait(s.tasks[k].device, Some(s.tasks[k].socket)))
  }

  ghost predicate IsRun(trace: seq<State>, steps: seq<Step>) {
    && |trace| == |steps| + 1
    && trace[0] == INIT
    && forall i :: 0 <= i < |steps| ==> Enabled(trace[i], steps[i]) && trace[i + 1] == Do(trace[i], steps[i])
  }

  // -------------------------------------------------------------- invariant

  /** The latest change that concerned a device. */
  function Latest(history: seq<Change>, d: nat): Option<Change> {
    if history == [] then None
    else if history[|history| - 1].device == d then Some(history[|history| - 1])
    else Latest(history[..|history| - 1], d)
  }

  /** Only the lock's holder is between closing an old socket and replacing it, and
      that socket is still the registered one. */
  ghost predicate LockOk(s: State) {
    forall k :: k in s.tasks && s.tasks[k].ConnectClose? ==>
      && s.lock == Some(k)
      && s.tasks[k].device in s.connections && s.connections[s.tasks[k].device] == s.tasks[k].previous
      && s.tasks[k].previous in s.closed
  }

  ghost predicate HistoryOk(s: State) {
    forall d: nat :: Registered(s, d) == LastSocket(s.history, d)
  }

  function Registered(s: State, d: nat): Option<nat> {
    if d in s.connections then Some(s.connections[d]) else None
  }

  /** The socket of the latest change, if that was a connect. */
  function LastSocket(history: seq<Change>, d: nat): Option<nat> {
    match Latest(history, d)
    case Some(Connected(_, w)) => Some(w)
    case _ => None
  }

  ghost predicate NoLeak(s: State) {
    forall i :: 0 <= i < |s.history| && s.history[i].Connected? ==>
      s.history[i].socket in s.closed || Registered(s, s.history[i].device) == Some(s.history[i].socket)
  }

  /** The socket on whose account a task serves, sends or disconnects. */
  function ServedBy(pc: Pc): Option<nat> {
    match pc
    case Serving(_, w) => Some(w)
    case SendWait(_, w) => Some(w)
    case DisconnectWait(_, served) => served
    case _ => None
  }

  /** That socket was once registered for the task's device. */
  ghost predicate ServedOk(s: State) {
    forall k :: k in s.tasks && ServedBy(s.tasks[k]).Some? ==>
      Connected(s.tasks[k].device, ServedBy(s.tasks[k]).value) in s.history
  }

  ghost predicate Inv(s: State) {
    s.connections.Keys == s.metadata.Keys && LockOk(s) && HistoryOk(s) && NoLeak(s) && ServedOk(s)
  }

  lemma {:induction false} LatestIsInHistory(history: seq<Change>, d: nat)
    ensures Latest(history, d).Some? ==> Latest(history, d).value in history && Latest(history, d).value.device == d
  {
    if history != [] {
      LatestIsInHistory(history[..|history| - 1], d);
    }
  }

  lemma {:induction false} ServedStep(s: State, t: Step)
    requires Inv(s) && Enabled(s, t)
    ensures ServedOk(Do(s, t))
  {
    var s' := Do(s, t);
    assert forall c :: c in s.history ==> c in s'.history;
    if t.AskSend? {
      assert Registered(s, t.device) == LastSocket(s.history, t.device);
      LatestIsInHistory(s.history, t.device);
    }
  }

  lemma {:induction false} LatestSnoc(history: seq<Change>, c: Change, d: nat)
    ensures Latest(history + [c], d) == if c.device == d then Some(c) else Latest(history, d)
  {
    assert (history + [c])[..|history|] == history;
  }

  lemma {:induction false} HistoryAfter(s: State, s': State, c: Change)
    requires HistoryOk(s) && s'.history == s.history + [c]
    requires forall d: nat :: Registered(s', d) ==
               if d != c.device then Registered(s, d) else if c.Connected? then Some(c.socket) else None
    ensures HistoryOk(s')
  {
    forall d: nat ensures Registered(s', d) == LastSocket(s'.history, d) {
      assert Registered(s, d) == LastSocket(s.history, d);
      LatestSnoc(s.history, c, d);
    }
  }

  lemma {:induction false} HistoryStep(s: State, t: Step)
    requires Inv(s) && Enabled(s, t)
    ensures HistoryOk(Do(s, t))
  {
    var s' := Do(s, t);
    if |s'.history| > |s.history| {
      HistoryAfter(s, s', s'.history[|s.history|]);
    } else {
      forall d: nat ensures Registered(s', d) == LastSocket(s'.history, d) {
        assert Registered(s, d) == LastSocket(s.history, d);
      }
    }
  }

  lemma {:induction false} LeakStep(s: State, t: Step)
    requires Inv(s) && Enabled(s, t)
    ensures NoLeak(Do(s, t))
  {
  }

  lemma {:induction false} StepKeepsInv(s: State, t: Step)
    requires Inv(s) && Enabled(s, t)
    ensures Inv(Do(s, t))
  {
    HistoryStep(s, t);
    LeakStep(s, t);
    ServedStep(s, t);
  }

  lemma {:induction false} Reachable(trace: seq<State>, steps: seq<Step>, i: nat)
    requires IsRun(trace, steps) && i < |trace|
    ensures Inv(trace[i])
  {
    if i > 0 {
      Reachable(trace, steps, i - 1);
      StepKeepsInv(trace[i - 1], steps[i - 1]);
    }
  }

  // ------------------------------------------------------------ main results

  /** At every await point of every interleaving: the two maps have the same keys; a
      device is registered, with that socket, iff the latest change for it was a
      connect of that socket; and every socket ever registered is still registered or
      has been handed to close. */
  lemma {:induction false} RegistryIsConsistent(trace: seq<State>, steps: seq<Step>, i: nat, d: nat, w: nat)
    requires IsRun(trace, steps) && i < |trace|
    ensures trace[i].connections.Keys == trace[i].metadata.Keys
    ensures (d in trace[i].connections && trace[i].connections[d] == w) <==>
            Latest(trace[i].history, d) == Some(Connected(d, w))
    ensures Connected(d, w) in trace[i].history ==>
              w in trace[i].closed || (d in trace[i].connections && trace[i].connections[d] == w)
  {
    Reachable(trace, steps, i);
    LatestIsInHistory(trace[i].history, d);
    var s := trace[i];
    assert Registered(s, d) == LastSocket(s.history, d);
  }

  /** A step never takes a socket out of the maps without having it closed. */
  lemma {:induction false} RemovalCloses(trace: seq<State>, steps: seq<Step>, i: nat, d: nat)
    requires IsRun(trace, steps) && i < |steps| && d in trace[i].connections
    requires Registered(trace[i + 1], d) != Registered(trace[i], d)
    ensures trace[i].connections[d] in trace[i + 1].closed
  {
    Reachable(trace, steps, i);
  }

  /** While a connect closes the old socket nobody else can change that entry. */
  lemma {:induction false} ReplacementIsAtomic(trace: seq<State>, steps: seq<Step>, i: nat, k: nat)
    requires IsRun(trace, steps) && i < |steps| && k in trace[i].tasks && trace[i].tasks[k].ConnectClose?
    requires steps[i].task != k
    ensures trace[i + 1].connections == trace[i].connections && trace[i + 1].tasks[k] == trace[i].tasks[k]
  {
    Reachable(trace, steps, i);
  }

  /** The handler of a superseded socket disconnects by device, so it can remove the
      socket that replaced its own: here the device ends up unregistered while the
      handler of the newer socket is still serving. */
  lemma {:induction false} SupersededHandlerRemovesNewerSocket(d: nat, older: nat, newer: nat, ip: string)
    returns (trace: seq<State>, steps: seq<Step>)
    requires older != newer
    ensures IsRun(trace, steps)
    ensures var s := trace[|steps|];
            d !in s.connections && newer in s.closed && 1 in s.tasks && s.tasks[1] == Serving(d, newer)
  {
    trace, steps := [INIT], [];
    trace, steps := Extend(trace, steps, Accept(0, d, older, ip));
    trace, steps := Extend(trace, steps, LockForConnect(0, 0));
    trace, steps := Extend(trace, steps, Accept(1, d, newer, ip));
    trace, steps := Supersede(trace, steps, d, older, newer, ip);
  }

  lemma {:induction false} Supersede(trace: seq<State>, steps: seq<Step>, d: nat, older: nat, newer: nat, ip: string)
    returns (trace': seq<State>, steps': seq<Step>)
    requires IsRun(trace, steps)
    requires var s := trace[|steps|];
             && s.lock.None? && d in s.connections && s.connections[d] == older
             && 0 in s.tasks && s.tasks[0] == Serving(d, older) && 1 in s.tasks && s.tasks[1] == ConnectWait(d, newer, ip)
    ensures IsRun(trace', steps')
    ensures var s := trace'[|steps'|];
            d !in s.connections && newer in s.closed && 1 in s.tasks && s.tasks[1] == Serving(d, newer)
  {
    trace', steps' := Extend(trace, steps, LockForConnect(1, 1));
    trace', steps' := Extend(trace', steps', OldSocketClosed(1, 2));
    trace', steps' := Extend(trace', steps', ServingEnds(0));
    trace', steps' := Extend(trace', steps', LockForDisconnect(0));
  }

  lemma {:induction false} Extend(trace: seq<State>, steps: seq<Step>, t: Step) returns (trace': seq<State>, steps': seq<Step>)
    requires IsRun(trace, steps) && Enabled(trace[|steps|], t)
    ensures IsRun(trace', steps') && |steps'| == |steps| + 1
    ensures trace'[|steps'|] == Do(trace[|steps|], t)
  {
    trace', steps' := trace + [Do(trace[|steps|], t)], steps + [t];
  }

  /** Position `b` holds the latest change of the device. */
  ghost predicate IsLatest(history: seq<Change>, d: nat, b: nat) {
    b < |history| && history[b].device == d && forall c :: b < c < |history| ==> history[c].device != d
  }

  lemma {:induction false} LatestAt(history: seq<Change>, d: nat, b: nat)
    requires IsLatest(history, d, b)
    ensures Latest(history, d) == Some(history[b])
  {
    if b < |history| - 1 {
      LatestAt(history[..|history| - 1], d, b);
    }
  }

  lemma {:induction false} SomeIsLatest(history: seq<Change>, d: nat, a: nat) returns (b: nat)
    requires a < |history| && history[a].device == d
    ensures a <= b && IsLatest(history, d, b)
  {
    var last := |history| - 1;
    if history[last].device == d {
      b := last;
    } else {
      b := SomeIsLatest(history[..last], d, a);
    }
  }

  /** After socket `w` was registered the device was connected through another socket,
      and nothing has changed for the device since. */
  ghost predicate Superseded(history: seq<Change>, d: nat, w: nat) {
    exists a: nat, b: nat :: a < b && IsLatest(history, d, b) && history[a] == Connected(d, w)
                             && history[b].Connected? && history[b].socket != w
  }

  /** Which socket a teardown hits. When the handler of `w`, or a failed send through
      `w`, comes to disconnect its device, `w` was registered before. The call removes
      `w` iff the latest change of the device is the connect of `w`; it removes a socket
      that is not its own iff a newer connect superseded `w`; and it removes nothing iff
      the device is disconnected already. The three cases are told apart by comparing
      the registered socket with `w` before the call. */
  lemma {:induction false} TeardownHits(trace: seq<State>, steps: seq<Step>, i: nat, d: nat, w: nat)
    requires IsRun(trace, steps) && i < |steps| && steps[i].LockForDisconnect?
    requires trace[i].tasks[steps[i].task] == DisconnectWait(d, Some(w))
    ensures Registered(trace[i + 1], d) == None
    ensures var h, hit := trace[i].history, Registered(trace[i], d);
            && (hit == Some(w) <==> exists b: nat :: IsLatest(h, d, b) && h[b] == Connected(d, w))
            && (hit.Some? && hit.value != w <==> Superseded(h, d, w))
            && (hit.None? <==> exists b: nat :: IsLatest(h, d, b) && h[b] == Disconnected(d))
    ensures Registered(trace[i], d).Some? ==>
              trace[i + 1].tasks[steps[i].task] == CloseWait(Registered(trace[i], d).value)
  {
    Reachable(trace, steps, i);
    HitIsLatest(trace[i], d, w);
  }

  lemma {:induction false} HitIsLatest(s: State, d: nat, w: nat)
    requires HistoryOk(s) && Connected(d, w) in s.history
    ensures var h, hit := s.history, Registered(s, d);
            && (hit == Some(w) <==> exists b: nat :: IsLatest(h, d, b) && h[b] == Connected(d, w))
            && (hit.Some? && hit.value != w <==> Superseded(h, d, w))
            && (hit.None? <==> exists b: nat :: IsLatest(h, d, b) && h[b] == Disconnected(d))
  {
    var h := s.history;
    var a: nat :| a < |h| && h[a] == Connected(d, w);
    var b := SomeIsLatest(h, d, a);
    LatestAt(h, d, b);
    assert Registered(s, d) == LastSocket(h, d);
    forall c: nat | IsLatest(h, d, c) ensures c == b { }
  }

  /** A registration ends at a step iff a newer connect of its device replaces the
      socket or some task disconnects the device. A task that does so on account of
      another socket served one that this registration had superseded. */
  lemma {:induction false} RegistrationEndsIff(trace: seq<State>, steps: seq<Step>, i: nat, d: nat, w: nat)
    requires IsRun(trace, steps) && i < |steps| && Registered(trace[i], d) == Some(w)
    ensures Registered(trace[i + 1], d) != Some(w) <==>
            || (steps[i].LockForDisconnect? && trace[i].tasks[steps[i].task].device == d)
            || (steps[i].OldSocketClosed? && trace[i].tasks[steps[i].task].device == d
                && trace[i].tasks[steps[i].task].socket != w)
    ensures steps[i].LockForDisconnect? && trace[i].tasks[steps[i].task].device == d ==>
              var served := trace[i].tasks[steps[i].task].served;
              served == None || served == Some(w) || Superseded(trace[i].history, d, served.value)
  {
    Reachable(trace, steps, i);
    if steps[i].LockForDisconnect? && trace[i].tasks[steps[i].task].device == d {
      var served := trace[i].tasks[steps[i].task].served;
      if served.Some? {
        HitIsLatest(trace[i], d, served.value);
      }
    }
  }

  /** A send goes through socket `w` iff the latest change of the device is the connect
      of `w`, and is given up at once iff there is none; if it fails it goes on to
      disconnect the device on account of `w`, as the handler of `w` does when it ends. */
  lemma {:induction false} SendFinds(trace: seq<State>, steps: seq<Step>, i: nat, d: nat, w: nat)
    requires IsRun(trace, steps) && i < |steps|
    ensures var s, s', t := trace[i], trace[i + 1], steps[i];
            && (t.AskSend? && t.device == d ==>
                  && (s'.tasks[t.task] == SendWait(d, w) <==> exists b: nat :: IsLatest(s.history, d, b) && s.history[b] == Connected(d, w))
                  && (s'.tasks[t.task] == Done <==> forall b: nat :: IsLatest(s.history, d, b) ==> s.history[b] == Disconnected(d)))
            && (t.SendEnds? && s.tasks[t.task] == SendWait(d, w) ==>
                  s'.tasks[t.task] == if t.ok then Done else DisconnectWait(d, Some(w)))
            && (t.ServingEnds? && s.tasks[t.task] == Serving(d, w) ==> s'.tasks[t.task] == DisconnectWait(d, Some(w)))
  {
    Reachable(trace, steps, i);
    var s := trace[i];
    assert trace[i + 1] == Do(s, steps[i]);
    if steps[i].AskSend? && steps[i].device == d {
      assert Registered(s, d) == LastSocket(s.history, d);
      LatestIsInHistory(s.history, d);
      forall b: nat | IsLatest(s.history, d, b) ensures Latest(s.history, d) == Some(s.history[b]) {
        LatestAt(s.history, d, b);
      }
      if Latest(s.history, d).Some? {
        var a: nat :| a < |s.history| && s.history[a] == Latest(s.history, d).value;
        var b := SomeIsLatest(s.history, d, a);
        assert IsLatest(s.history, d, b);
      }
    }
  }

  /** Connects and disconnects, in every run: a connect closes the registered socket first,
      if there is one, and then serves its own; a disconnect closes the registered socket
      if there is one; and a task is moved by its own steps only. */
  lemma {:induction false} TaskGoesThroughPhases(trace: seq<State>, steps: seq<Step>, i: nat)
    requires IsRun(trace, steps) && i < |steps|
    ensures forall k :: k in trace[i].tasks && k != steps[i].task ==> k in trace[i + 1].tasks && trace[i + 1].tasks[k] == trace[i].tasks[k]
    ensures var s, k, pc' := trace[i], steps[i].task, trace[i + 1].tasks[steps[i].task];
            match steps[i]
            case Accept(_, d, w, ip) => pc' == ConnectWait(d, w, ip)
            case LockForConnect(_, _) =>
              var ConnectWait(d, w, ip) := s.tasks[k];
              pc' == if Registered(s, d).Some? then ConnectClose(d, w, ip, Registered(s, d).value) else Serving(d, w)
            case OldSocketClosed(_, _) => pc' == Serving(s.tasks[k].device, s.tasks[k].socket)
            case AskDisconnect(_, d) => pc' == DisconnectWait(d, None)
            case LockForDisconnect(_) =>
              var prev := Registered(s, s.tasks[k].device); pc' == if prev.Some? then CloseWait(prev.value) else Done
            case SocketClosed(_) => pc' == Done
            case _ => true
  {
    assert trace[i + 1] == Do(trace[i], steps[i]);
  }

  /** Time and address of the device's connection, told by the steps: set by the step
      that completes a connect, forgotten when the device is disconnected. */
  ghost function MetadataTold(trace: seq<State>, steps: seq<Step>, i: nat, d: nat): Option<Metadata>
    requires IsRun(trace, steps) && i < |trace|
  {
    if i == 0 then None
    else
      var s, t := trace[i - 1], steps[i - 1];
      if (t.OldSocketClosed? || (t.LockForConnect? && d !in s.connections)) && s.tasks[t.task].device == d
      then Some(Metadata(t.now, s.tasks[t.task].ip))
      else if t.LockForDisconnect? && s.tasks[t.task].device == d then None
      else MetadataTold(trace, steps, i - 1, d)
  }

  lemma {:induction false} MetadataIsTold(trace: seq<State>, steps: seq<Step>, i: nat, d: nat)
    requires IsRun(trace, steps) && i < |trace|
    ensures MetadataTold(trace, steps, i, d) == if d in trace[i].metadata then Some(trace[i].metadata[d]) else None
  {
    if i > 0 {
      MetadataIsTold(trace, steps, i - 1, d);
      assert trace[i] == Do(trace[i - 1], steps[i - 1]);
    }
  }

  // -------------------------------------------------------------- the manager

  /** `ConnectionManager`: its two dicts and its lock, and the stretches of its
      coroutines between await points. The ghost field is the state of the whole
      system; each stretch is proved to be the step of that name, taken by task `k`. */
  class ConnectionManager {
    var connections: map<nat, nat>
    var metadata: map<nat, Metadata>
    var locked: bool
    ghost var system: State

    ghost predicate Valid()
      reads this
    {
      && connections == system.connections && metadata == system.metadata && locked == system.lock.Some?
      && Inv(system)
    }

    constructor ()
      ensures Valid() && system == INIT
    {
      connections, metadata, locked := map[], map[], false;
      system := INIT;
    }

    /** `connect` with the lock taken: up to closing the old socket, which the caller
        awaits with the lock held, or to the end if there is none. */
    method BeginConnect(ghost k: nat, d: nat, w: nat, ip: string, now: int) returns (previous: Option<nat>)
      requires Valid() && !locked && k in system.tasks && system.tasks[k] == ConnectWait(d, w, ip)
      modifies this
      ensures Valid() && system == Do(old(system), LockForConnect(k, now))
      ensures system.tasks[k] == if previous.Some? then ConnectClose(d, w, ip, previous.value) else Serving(d, w)
    {
      StepKeepsInv(system, LockForConnect(k, now));
      system := Do(system, LockForConnect(k, now));
      if d in connections {
        locked := true;
        return Some(connections[d]);
      }
      connections := connections[d := w];
      metadata := metadata[d := Metadata(now, ip)];
      return None;
    }

    /** The rest of `connect`, after the old socket was closed. The lock has kept that
        socket registered meanwhile. */
    method FinishConnect(ghost k: nat, d: nat, w: nat, ip: string, previous: nat, now: int)
      requires Valid() && k in system.tasks && system.tasks[k] == ConnectClose(d, w, ip, previous)
      modifies this
      ensures Valid() && system == Do(old(system), OldSocketClosed(k, now))
      ensures old(locked) && !locked && d in old(connections) && old(connections)[d] == previous
      ensures previous in system.closed
    {
      StepKeepsInv(system, OldSocketClosed(k, now));
      system := Do(system, OldSocketClosed(k, now));
      connections := connections[d := w];
      metadata := metadata[d := Metadata(now, ip)];
      locked := false;
    }

    /** `disconnect` with the lock taken and released again: the removed socket, which
        the caller closes. */
    method Remove(ghost k: nat, d: nat) returns (removed: Option<nat>)
      requires Valid() && !locked && k in system.tasks && system.tasks[k].DisconnectWait? && system.tasks[k].device == d
      modifies this
      ensures Valid() && system == Do(old(system), LockForDisconnect(k))
      ensures system.tasks[k] == if removed.Some? then CloseWait(removed.value) else Done
      ensures removed.Some? ==> Latest(old(system).history, d) == Some(Connected(d, removed.value))
    {
      StepKeepsInv(system, LockForDisconnect(k));
      assert Registered(system, d) == LastSocket(system.history, d);
      LatestIsInHistory(system.history, d);
      system := Do(system, LockForDisconnect(k));
      removed := None;
      if d in connections {
        removed := Some(connections[d]);
      }
      connections := connections - {d};
      metadata := metadata - {d};
    }

    /** `send_to_device` up to its await: the socket to send through, without the lock. */
    method BeginSend(ghost k: nat, d: nat) returns (socket: Option<nat>)
      requires Valid() && k !in system.tasks
      modifies this`system
      ensures Valid() && system == Do(old(system), AskSend(k, d))
      ensures system.tasks[k] == if socket.Some? then SendWait(d, socket.value) else Done
    {
      StepKeepsInv(system, AskSend(k, d));
      system := Do(system, AskSend(k, d));
      socket := if d in connections then Some(connections[d]) else None;
    }
  }
}
