/** The phases that a connection goes through, and how its pump winds down. */
module Teardown {
  import opened Common
  import opened Transport

  // ------------------------------------------------------------------- phases

  /** `Run`, in every run: it dials, starts the pump, reads until the connection fails,
      clears the fields, closes the stop channel of that connection, waits, drains, and
      starts over unless it is shut down. Nobody else moves it. */
  lemma {:induction false} RunGoesThroughPhases(trace: seq<State>, steps: seq<Step>, i: nat)
    requires IsRun(trace, steps) && i < |steps|
    ensures var s, pc := trace[i], trace[i + 1].run;
            match steps[i]
            case Dial => s.run == Top && pc == Spawn(s.dialled)
            case GoPump => 0 < s.dialled && s.run == Spawn(s.dialled - 1) && pc == Enter
            case EnterRead => s.run == Enter && pc == Reading
            case GotPing => s.run == Reading && pc == SendPong
            case PongFinish => s.run == SendPong && pc == Reading
            case ReadEnds => s.run == Reading && pc == Clear
            case ClearFields => s.run == Clear && 0 < s.dialled && pc == CloseStop(Some(s.dialled - 1))
            case CloseStopCh => 0 < s.dialled && s.run == CloseStop(Some(s.dialled - 1)) && pc == Await
            case AwaitDone => s.run == Await && pc == Drain
            case DrainOne => s.run == Drain && pc == Drain
            case DrainEnds(shutdown) => s.run == Drain && pc == if shutdown then Stopped else Top
            case Shutdown => s.run == Top && pc == Stopped
            case _ => pc == s.run
  {
    Reachable(trace, steps, i);
    assert trace[i + 1] == Do(trace[i], steps[i]);
  }

  /** Between any two dials the old connection was torn down and the channel drained:
      no message that was queued for one connection is left for the next. */
  lemma {:induction false} DrainedBetweenDials(trace: seq<State>, steps: seq<Step>, i: nat, j: nat) returns (k: nat)
    requires IsRun(trace, steps) && i < j < |steps| && steps[i].Dial? && steps[j].Dial?
    ensures i < k < j && steps[k] == DrainEnds(false) && trace[k].queue == []
  {
    RunGoesThroughPhases(trace, steps, i);
    RunGoesThroughPhases(trace, steps, j);
    k := LastDrain(trace, steps, i + 1, j);
  }

  lemma {:induction false} LastDrain(trace: seq<State>, steps: seq<Step>, i: nat, j: nat) returns (k: nat)
    requires IsRun(trace, steps) && i <= j < |trace| && trace[i].run != Top && trace[j].run == Top
    ensures i <= k < j && steps[k] == DrainEnds(false) && trace[k].queue == []
  {
    RunGoesThroughPhases(trace, steps, j - 1);
    if trace[j - 1].run == Top {
      k := LastDrain(trace, steps, i, j - 1);
    } else {
      k := j - 1;
    }
  }

  /** A pump, in every run: it selects on the stop channel of its own connection, or on
      none once the fields are cleared; on a tick it pings and on a message it writes, to
      its own connection; and it goes on unless it is stopped, finds the connection
      cleared, or fails to write. */
  lemma {:induction false} PumpGoesThroughPhases(trace: seq<State>, steps: seq<Step>, i: nat, p: nat)
    requires IsRun(trace, steps) && i < |steps| && PumpOf(steps[i]) == Some(p)
    ensures p in trace[i].pumps && p in trace[i + 1].pumps
    ensures var s, pc, pc' := trace[i], trace[i].pumps[p], trace[i + 1].pumps[p];
            match steps[i]
            case PumpSelect(_) => pc == LoopTop && pc' == Select(if Connected(s.run) then Some(p) else None)
            case PumpStopped(_) => pc == Select(Some(p)) && p in s.stopCloses && pc' == Exit
            case PumpTick(_) => pc.Select? && pc' == Ticked
            case PumpTake(_) => pc.Select? && s.queue != [] && pc' == Took(s.queue[0])
            case PumpReadConn(_) =>
              (pc.Ticked? || pc.Took?)
              && pc' == if !Connected(s.run) then Exit else if pc.Ticked? then Ping(p) else Writing(p, pc.item)
            case PumpWritten(_, ok) => (pc.Ping? || pc.Writing?) && pc.conn == p && pc' == if ok then LoopTop else Exit
            case PumpExit(_) => pc == Exit && pc' == Dead
            case _ => true
  {
    Reachable(trace, steps, i);
    assert trace[i + 1] == Do(trace[i], steps[i]);
  }

  /** A new pump starts at its select loop. */
  lemma {:induction false} PumpStartsFresh(trace: seq<State>, steps: seq<Step>, i: nat)
    requires IsRun(trace, steps) && i < |steps| && steps[i].GoPump?
    ensures var p := trace[i].dialled - 1;
            p !in trace[i].pumps && p in trace[i + 1].pumps && trace[i + 1].pumps[p] == LoopTop
  {
    Reachable(trace, steps, i);
    assert trace[i + 1] == Do(trace[i], steps[i]);
  }

  // ------------------------------------------------------------- winding down

  /** An upper bound on the steps a pump still takes once `conn` is cleared. */
  function StepsLeft(pc: PumpPc): nat {
    match pc
    case Dead => 0
    case Exit => 1
    case Ticked => 2
    case Took(_) => 2
    case Select(_) => 3
    case LoopTop => 4
    case Ping(_) => 5
    case Writing(_, _) => 5
  }

  /** How often it can still wake up by a tick or a message. */
  function WakeUpsLeft(pc: PumpPc): nat {
    if pc.Select? || pc.LoopTop? || pc.Ping? || pc.Writing? then 1 else 0
  }

  /** How many of the steps from `i` on and before `j` pump `p` takes. */
  function StepsOf(steps: seq<Step>, i: nat, j: nat, p: nat): nat
    requires j <= |steps|
  {
    if j <= i then 0 else StepsOf(steps, i, j - 1, p) + if PumpOf(steps[j - 1]) == Some(p) then 1 else 0
  }

  predicate WakesUp(t: Step, p: nat) {
    t == PumpTick(p) || t == PumpTake(p)
  }

  /** How many of those are wake-ups. */
  function WakeUpsOf(steps: seq<Step>, i: nat, j: nat, p: nat): nat
    requires j <= |steps|
  {
    if j <= i then 0 else WakeUpsOf(steps, i, j - 1, p) + if WakesUp(steps[j - 1], p) then 1 else 0
  }

  /** With `conn` cleared, every step of a pump brings it closer to its exit, a
      wake-up leads straight to it, and the only message it can still write is one
      whose write had begun. */
  lemma {:induction false} PumpWindsDown(s: State, t: Step)
    requires Enabled(s, t) && PumpOf(t).Some? && s.conn.None?
    ensures var p := PumpOf(t).value;
            && p in s.pumps && StepsLeft(Do(s, t).pumps[p]) < StepsLeft(s.pumps[p])
            && WakeUpsLeft(Do(s, t).pumps[p]) + (if WakesUp(t, p) then 1 else 0) <= WakeUpsLeft(s.pumps[p])
            && (s.pumps[p].Ticked? || s.pumps[p].Took? ==> Do(s, t).pumps[p].Exit?)
            && (!s.pumps[p].Writing? ==> Do(s, t).wire == s.wire && !Do(s, t).pumps[p].Writing?)
  {
  }

  /** Other steps leave it where it is. */
  lemma {:induction false} OthersLeavePump(s: State, t: Step, p: nat)
    requires Lifecycle(s) && Enabled(s, t) && s.conn.None? && p in s.pumps && PumpOf(t) != Some(p)
    ensures p in Do(s, t).pumps && Do(s, t).pumps[p] == s.pumps[p]
  {
    if PumpOf(t).Some? {
      PumpFrame(s, t);
    }
  }

  lemma {:induction false} StepWindsDown(trace: seq<State>, steps: seq<Step>, i: nat, p: nat)
    requires IsRun(trace, steps) && i < |steps| && trace[i].conn.None? && p in trace[i].pumps
    ensures p in trace[i + 1].pumps
    ensures var pc, pc', t := trace[i].pumps[p], trace[i + 1].pumps[p], steps[i];
            && StepsLeft(pc') + (if PumpOf(t) == Some(p) then 1 else 0) <= StepsLeft(pc)
            && WakeUpsLeft(pc') + (if WakesUp(t, p) then 1 else 0) <= WakeUpsLeft(pc)
  {
    var s, t := trace[i], steps[i];
    assert trace[i + 1] == Do(s, t);
    if PumpOf(t) == Some(p) {
      PumpWindsDown(s, t);
    } else {
      Reachable(trace, steps, i);
      OthersLeavePump(s, t, p);
    }
  }

  lemma {:induction false} PumpStays(trace: seq<State>, steps: seq<Step>, i: nat, j: nat, p: nat)
    requires IsRun(trace, steps) && i <= j < |trace| && p in trace[i].pumps
    requires forall k :: i <= k < j ==> trace[k].conn.None?
    ensures p in trace[j].pumps
  {
    if i < j {
      PumpStays(trace, steps, i, j - 1, p);
      StepWindsDown(trace, steps, j - 1, p);
    }
  }

  /** Budgets that go down with each counted step bound their number. */
  lemma {:induction false} CountsDown(steps: seq<Step>, i: nat, j: nat, p: nat, left: seq<nat>, wakes: seq<nat>)
    requires i <= j <= |steps| && |left| == |wakes| == |steps| + 1
    requires forall k {:trigger left[k]} :: i <= k < j ==> left[k + 1] + (if PumpOf(steps[k]) == Some(p) then 1 else 0) <= left[k]
    requires forall k {:trigger wakes[k]} :: i <= k < j ==> wakes[k + 1] + (if WakesUp(steps[k], p) then 1 else 0) <= wakes[k]
    ensures StepsOf(steps, i, j, p) + left[j] <= left[i]
    ensures WakeUpsOf(steps, i, j, p) + wakes[j] <= wakes[i]
  {
    if i < j {
      CountsDown(steps, i, j - 1, p, left, wakes);
      assert left[j] + (if PumpOf(steps[j - 1]) == Some(p) then 1 else 0) <= left[j - 1];
      assert wakes[j] + (if WakesUp(steps[j - 1], p) then 1 else 0) <= wakes[j - 1];
    }
  }

  function Budget(s: State, p: nat): nat {
    if p in s.pumps then StepsLeft(s.pumps[p]) else 0
  }

  function WakeBudget(s: State, p: nat): nat {
    if p in s.pumps then WakeUpsLeft(s.pumps[p]) else 0
  }

  lemma {:induction false} BudgetStep(trace: seq<State>, steps: seq<Step>, i: nat, j: nat, k: nat, p: nat)
    requires IsRun(trace, steps) && i <= k < j < |trace| && p in trace[i].pumps
    requires forall k :: i <= k < j ==> trace[k].conn.None?
    ensures Budget(trace[k + 1], p) + (if PumpOf(steps[k]) == Some(p) then 1 else 0) <= Budget(trace[k], p)
    ensures WakeBudget(trace[k + 1], p) + (if WakesUp(steps[k], p) then 1 else 0) <= WakeBudget(trace[k], p)
  {
    PumpStays(trace, steps, i, k, p);
    StepWindsDown(trace, steps, k, p);
  }

  lemma {:induction false} Budgets(trace: seq<State>, steps: seq<Step>, i: nat, j: nat, p: nat)
    returns (left: seq<nat>, wakes: seq<nat>)
    requires IsRun(trace, steps) && i <= j < |trace| && p in trace[i].pumps
    requires forall k :: i <= k < j ==> trace[k].conn.None?
    ensures |left| == |wakes| == |trace|
    ensures left[i] == Budget(trace[i], p) && left[j] == Budget(trace[j], p)
    ensures wakes[i] == WakeBudget(trace[i], p) && wakes[j] == WakeBudget(trace[j], p)
    ensures forall k {:trigger left[k]} :: i <= k < j ==> left[k + 1] + (if PumpOf(steps[k]) == Some(p) then 1 else 0) <= left[k]
    ensures forall k {:trigger wakes[k]} :: i <= k < j ==> wakes[k + 1] + (if WakesUp(steps[k], p) then 1 else 0) <= wakes[k]
  {
    left := seq(|trace|, k requires 0 <= k < |trace| => Budget(trace[k], p));
    wakes := seq(|trace|, k requires 0 <= k < |trace| => WakeBudget(trace[k], p));
    forall k | i <= k < j
      ensures left[k + 1] + (if PumpOf(steps[k]) == Some(p) then 1 else 0) <= left[k]
      ensures wakes[k + 1] + (if WakesUp(steps[k], p) then 1 else 0) <= wakes[k]
    {
      BudgetStep(trace, steps, i, j, k, p);
    }
  }

  /** While `conn` stays cleared, a pump takes at most five more steps, and wakes up at
      most once more. */
  lemma {:induction false} PumpExitsSoon(trace: seq<State>, steps: seq<Step>, i: nat, j: nat, p: nat)
    requires IsRun(trace, steps) && i <= j < |trace| && p in trace[i].pumps
    requires forall k :: i <= k < j ==> trace[k].conn.None?
    ensures p in trace[j].pumps
    ensures StepsOf(steps, i, j, p) + Budget(trace[j], p) <= Budget(trace[i], p) <= 5
    ensures WakeUpsOf(steps, i, j, p) + WakeBudget(trace[j], p) <= WakeBudget(trace[i], p) <= 1
  {
    var left, wakes := Budgets(trace, steps, i, j, p);
    CountsDown(steps, i, j, p, left, wakes);
    PumpStays(trace, steps, i, j, p);
  }

  /** The message that a pump has begun to write, on its own connection. */
  function Begun(s: State): seq<OnConn> {
    if s.dialled > 0 && s.dialled - 1 in s.pumps && s.pumps[s.dialled - 1].Writing?
    then [OnConn(s.dialled - 1, s.pumps[s.dialled - 1].item)] else []
  }

  /** Nothing is written, or exactly that message. */
  predicate FinishesBegun(s: State, s': State) {
    || (s'.wire == s.wire && (Begun(s') == Begun(s) || Begun(s') == []))
    || (s'.wire == s.wire + Begun(s) && Begun(s') == [])
  }

  lemma {:induction false} BegunStep(s: State, t: Step)
    requires Lifecycle(s) && Enabled(s, t) && s.conn.None? && Do(s, t).conn.None?
    ensures FinishesBegun(s, Do(s, t))
  {
    if PumpOf(t).Some? {
      PumpFrame(s, t);
    } else if OfSender(t) {
      SenderFrame(s, t);
    }
  }

  lemma {:induction false} RunBegunStep(trace: seq<State>, steps: seq<Step>, i: nat)
    requires IsRun(trace, steps) && i < |steps| && trace[i].conn.None? && trace[i + 1].conn.None?
    ensures FinishesBegun(trace[i], trace[i + 1])
  {
    Reachable(trace, steps, i);
    assert trace[i + 1] == Do(trace[i], steps[i]);
    BegunStep(trace[i], steps[i]);
  }

  /** While `conn` stays cleared nothing is written but a message whose write had begun,
      on its own connection and once. */
  lemma {:induction false} OnlyBegunIsWritten(trace: seq<State>, steps: seq<Step>, i: nat, j: nat)
    requires IsRun(trace, steps) && i <= j < |trace|
    requires forall k :: i <= k <= j ==> trace[k].conn.None?
    ensures FinishesBegun(trace[i], trace[j])
  {
    if i < j {
      OnlyBegunIsWritten(trace, steps, i, j - 1);
      RunBegunStep(trace, steps, j - 1);
    }
  }

  /** Teardown cannot hang on `writeDone`: it is closed, or the pump can move. */
  lemma {:induction false} TeardownIsNeverStuck(trace: seq<State>, steps: seq<Step>, i: nat)
    requires IsRun(trace, steps) && i < |trace| && trace[i].run.Await?
    ensures 0 < trace[i].dialled
    ensures Enabled(trace[i], AwaitDone) || exists t :: PumpOf(t) == Some(trace[i].dialled - 1) && Enabled(trace[i], t)
  {
    Reachable(trace, steps, i);
    var s := trace[i];
    var p: nat := s.dialled - 1;
    match s.pumps[p]
    case LoopTop => assert Enabled(s, PumpSelect(p)) && PumpOf(PumpSelect(p)) == Some(p);
    case Select(_) => assert Enabled(s, PumpTick(p)) && PumpOf(PumpTick(p)) == Some(p);
    case Ticked => assert Enabled(s, PumpReadConn(p)) && PumpOf(PumpReadConn(p)) == Some(p);
    case Took(_) => assert Enabled(s, PumpReadConn(p)) && PumpOf(PumpReadConn(p)) == Some(p);
    case Ping(_) => assert Enabled(s, PumpWritten(p, true)) && PumpOf(PumpWritten(p, true)) == Some(p);
    case Writing(_, _) => assert Enabled(s, PumpWritten(p, true)) && PumpOf(PumpWritten(p, true)) == Some(p);
    case Exit => assert Enabled(s, PumpExit(p)) && PumpOf(PumpExit(p)) == Some(p);
    case Dead =>
  }

  /** A teardown that waits, waits for the pump of the newest connection to die. */
  lemma {:induction false} WaitsForPump(trace: seq<State>, steps: seq<Step>, i: nat)
    requires IsRun(trace, steps) && i < |trace| && trace[i].run.Await?
    ensures trace[i].conn.None? && 0 < trace[i].dialled && trace[i].dialled - 1 in trace[i].pumps
    ensures Enabled(trace[i], AwaitDone) <==> Budget(trace[i], trace[i].dialled - 1) == 0
  {
    Reachable(trace, steps, i);
  }

  lemma {:induction false} AwaitKeepsDialled(trace: seq<State>, steps: seq<Step>, i: nat, j: nat)
    requires IsRun(trace, steps) && i <= j < |trace| && forall k :: i <= k <= j ==> trace[k].run.Await?
    ensures trace[i].dialled == trace[j].dialled
  {
    if i < j {
      AwaitKeepsDialled(trace, steps, i, j - 1);
      assert trace[j] == Do(trace[j - 1], steps[j - 1]);
    }
  }

  lemma {:induction false} AwaitKeepsConnCleared(trace: seq<State>, steps: seq<Step>, i: nat, j: nat)
    requires IsRun(trace, steps) && i <= j < |trace| && forall k :: i <= k <= j ==> trace[k].run.Await?
    ensures forall k :: i <= k <= j ==> trace[k].conn.None?
  {
    forall k | i <= k <= j ensures trace[k].conn.None? {
      WaitsForPump(trace, steps, k);
    }
  }

  /** The wait of a teardown for `writeDone` is short: while it lasts, the pump it waits
      for takes at most five steps, and after the fifth at the latest the wait is over.
      By `TeardownIsNeverStuck` that pump can move until then. */
  lemma {:induction false} TeardownWaitIsShort(trace: seq<State>, steps: seq<Step>, i: nat, j: nat, p: nat)
    requires IsRun(trace, steps) && i <= j < |trace| && forall k :: i <= k <= j ==> trace[k].run.Await?
    requires p == trace[i].dialled - 1
    ensures StepsOf(steps, i, j, p) <= 5
    ensures StepsOf(steps, i, j, p) == 5 ==> Enabled(trace[j], AwaitDone)
  {
    AwaitKeepsDialled(trace, steps, i, j);
    AwaitKeepsConnCleared(trace, steps, i, j);
    WaitsForPump(trace, steps, i);
    WaitsForPump(trace, steps, j);
    PumpExitsSoon(trace, steps, i, j, p);
  }
}
