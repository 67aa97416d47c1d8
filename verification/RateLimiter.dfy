/** The agent's fixed-window event rate limiter. Time is an integer; a window closes
    when more than `window` has passed since it was opened. */
module RateLimiter {
  import opened Common

  /** An event: reported by a collector, or the limiter's own summary. */
  datatype Event = Reported(body: string) | Summary(dropped: nat)

  datatype Limiter = Limiter(windowStart: Option<int>, count: nat, dropped: nat, summarySent: bool)

  const FRESH := Limiter(None, 0, 0, false)

  datatype Settings = Settings(maxEvents: nat, window: nat)

  function Min(a: nat, b: nat): nat {
    if a < b then a else b
  }

  // ---------------------------------------------------------------- one call

  predicate Expired(l: Limiter, now: int, s: Settings) {
    l.windowStart.None? || now - l.windowStart.value > s.window
  }

  function Opened(l: Limiter, now: int, s: Settings): Limiter {
    if Expired(l, now, s) then Limiter(Some(now), 0, 0, false) else l
  }

  /** How many of `offered` events still fit into the window. */
  function Room(l: Limiter, offered: nat, s: Settings): nat {
    if s.maxEvents <= l.count then 0 else Min(s.maxEvents - l.count, offered)
  }

  function After(l: Limiter, events: seq<Event>, now: int, s: Settings): Limiter {
    if events == [] then l
    else
      var o := Opened(l, now, s);
      var kept := Room(o, |events|, s);
      var dropped := o.dropped + |events| - kept;
      Limiter(o.windowStart, o.count + kept, dropped, o.summarySent || dropped > 0)
  }

  function Kept(l: Limiter, events: seq<Event>, now: int, s: Settings): seq<Event> {
    events[..Room(Opened(l, now, s), |events|, s)]
  }

  function Notice(l: Limiter, events: seq<Event>, now: int, s: Settings): seq<Event> {
    var l' := After(l, events, now, s);
    if events != [] && l'.dropped > 0 && !Opened(l, now, s).summarySent then [Summary(l'.dropped)] else []
  }

  function Output(l: Limiter, events: seq<Event>, now: int, s: Settings): seq<Event> {
    Kept(l, events, now, s) + Notice(l, events, now, s)
  }

  /** The process-wide limiter. */
  class EventRateLimiter {
    var settings: Settings
    var windowStart: Option<int>
    var count: nat
    var dropped: nat
    var summarySent: bool

    ghost function Value(): Limiter
      reads this
    {
      Limiter(windowStart, count, dropped, summarySent)
    }

    constructor ()
      ensures Value() == FRESH && settings == Settings(20, 30_000_000_000)
    {
      settings := Settings(20, 30_000_000_000);
      windowStart, count, dropped, summarySent := None, 0, 0, false;
    }

    method Configure(maxEvents: int, windowSeconds: int)
      modifies this
      ensures Value() == FRESH
      ensures settings.maxEvents == if maxEvents > 0 then maxEvents else old(settings.maxEvents)
      ensures settings.window == if windowSeconds > 0 then windowSeconds * 1_000_000_000 else old(settings.window)
    {
      if maxEvents > 0 {
        settings := settings.(maxEvents := maxEvents);
      }
      if windowSeconds > 0 {
        settings := settings.(window := windowSeconds * 1_000_000_000);
      }
      windowStart, count, dropped, summarySent := None, 0, 0, false;
    }

    method Apply(events: seq<Event>, now: int) returns (kept: seq<Event>)
      modifies this
      ensures settings == old(settings)
      ensures kept == Output(old(Value()), events, now, settings)
      ensures Value() == After(old(Value()), events, now, settings)
    {
      if |events| == 0 {
        return events;
      }
      ghost var open := Opened(Value(), now, settings);
      if windowStart.None? || now - windowStart.value > settings.window {
        windowStart, count, dropped, summarySent := Some(now), 0, 0, false;
      }
      var allowed := settings.maxEvents - count;
      if allowed < 0 {
        allowed := 0;
      }
      ghost var budget := allowed;
      kept := [];
      for i := 0 to |events|
        invariant settings == old(settings) && windowStart == open.windowStart && summarySent == open.summarySent
        invariant kept == events[..Min(budget, i)] && allowed == budget - |kept|
        invariant count == open.count + |kept| && dropped == open.dropped + i - |kept|
      {
        if allowed > 0 {
          kept := kept + [events[i]];
          count := count + 1;
          allowed := allowed - 1;
        } else {
          dropped := dropped + 1;
        }
      }
      if dropped > 0 && !summarySent {
        kept := kept + [Summary(dropped)];
        summarySent := true;
      }
    }
  }

  // ------------------------------------------------------------------- runs

  datatype Call = Call(events: seq<Event>, now: int)

  function AfterAll(l: Limiter, calls: seq<Call>, s: Settings): Limiter
    decreases |calls|
  {
    if calls == [] then l else AfterAll(After(l, calls[0].events, calls[0].now, s), calls[1..], s)
  }

  /** The number of events emitted by a run, summaries included. */
  function Emitted(l: Limiter, calls: seq<Call>, s: Settings): nat
    decreases |calls|
  {
    if calls == [] then 0
    else |Output(l, calls[0].events, calls[0].now, s)|
         + Emitted(After(l, calls[0].events, calls[0].now, s), calls[1..], s)
  }

  /** What the current window has emitted so far. */
  function Used(l: Limiter): nat {
    l.count + if l.summarySent then 1 else 0
  }

  /** Events are dropped only when the window is full, and a summary says so. */
  ghost predicate Counted(l: Limiter, s: Settings) {
    && l.count <= s.maxEvents
    && (l.dropped > 0 ==> l.summarySent && l.count == s.maxEvents)
    && (l.summarySent ==> l.dropped > 0)
  }

  /** Moreover a window is opened only by an event. */
  ghost predicate Sound(l: Limiter, s: Settings) {
    Counted(l, s) && (l.windowStart.Some? ==> Used(l) > 0)
  }

  lemma {:induction false} CallKeepsCounted(l: Limiter, events: seq<Event>, now: int, s: Settings)
    requires Counted(l, s)
    ensures Counted(After(l, events, now, s), s)
  {
  }

  lemma {:induction false} CallKeepsSound(l: Limiter, events: seq<Event>, now: int, s: Settings)
    requires Sound(l, s) && s.maxEvents > 0
    ensures Sound(After(l, events, now, s), s)
    ensures |Output(l, events, now, s)| ==
            if events == [] then 0 else Used(After(l, events, now, s)) - Used(Opened(l, now, s))
  {
  }

  lemma {:induction false} RunKeepsSound(l: Limiter, calls: seq<Call>, s: Settings)
    requires Sound(l, s) && s.maxEvents > 0
    ensures Sound(AfterAll(l, calls, s), s)
    decreases |calls|
  {
    if calls != [] {
      CallKeepsSound(l, calls[0].events, calls[0].now, s);
      RunKeepsSound(After(l, calls[0].events, calls[0].now, s), calls[1..], s);
    }
  }

  ghost predicate Within(calls: seq<Call>, from: int, to: int) {
    forall i :: 0 <= i < |calls| ==> from <= calls[i].now <= to
  }

  /** No second window opens within one window length of the first. */
  lemma {:induction false} RestOfWindow(l: Limiter, calls: seq<Call>, from: int, s: Settings)
    requires Sound(l, s) && s.maxEvents > 0
    requires l.windowStart.Some? && from <= l.windowStart.value && Within(calls, from, from + s.window)
    ensures Emitted(l, calls, s) <= s.maxEvents + 1 - Used(l)
    decreases |calls|
  {
    if calls != [] {
      assert calls[0].now <= from + s.window;
      CallKeepsSound(l, calls[0].events, calls[0].now, s);
      RestOfWindow(After(l, calls[0].events, calls[0].now, s), calls[1..], from, s);
    }
  }

  lemma {:induction false} IntervalBound(l: Limiter, calls: seq<Call>, from: int, s: Settings)
    requires Sound(l, s) && s.maxEvents > 0 && Within(calls, from, from + s.window)
    ensures Emitted(l, calls, s) <= s.maxEvents + 1 + if l.windowStart.None? then 0 else s.maxEvents + 1 - Used(l)
    decreases |calls|
  {
    if calls != [] {
      var l' := After(l, calls[0].events, calls[0].now, s);
      CallKeepsSound(l, calls[0].events, calls[0].now, s);
      if calls[0].events != [] && Expired(l, calls[0].now, s) {
        RestOfWindow(l', calls[1..], from, s);
      } else {
        IntervalBound(l', calls[1..], from, s);
      }
    }
  }

  /** In any run, the calls of any interval one window long emit at most
      `2 * maxEvents + 1` events: what is left of the window that was open, and one
      more window. */
  lemma {:induction false} SlidingBound(calls: seq<Call>, i: nat, j: nat, s: Settings)
    requires s.maxEvents > 0 && i <= j <= |calls|
    requires forall k :: i <= k < j ==> calls[i].now <= calls[k].now <= calls[i].now + s.window
    ensures Emitted(AfterAll(FRESH, calls[..i], s), calls[i..j], s) <= 2 * s.maxEvents + 1
  {
    var l := AfterAll(FRESH, calls[..i], s);
    RunKeepsSound(FRESH, calls[..i], s);
    if i < j {
      IntervalBound(l, calls[i..j], calls[i].now, s);
    }
  }

  function Batch(n: nat): (events: seq<Event>)
    ensures |events| == n
  {
    seq(n, _ => Reported(""))
  }

  /** The bound is reached, for all settings. */
  lemma {:induction false} SlidingBoundIsReached(s: Settings)
    requires s.maxEvents > 0 && s.window > 0
    ensures var calls := [Call(Batch(1), 0), Call(Batch(s.maxEvents), s.window), Call(Batch(s.maxEvents + 1), s.window + 1)];
            Emitted(AfterAll(FRESH, calls[..1], s), calls[1..3], s) == 2 * s.maxEvents + 1
  {
    var a, b, c := Call(Batch(1), 0), Call(Batch(s.maxEvents), s.window), Call(Batch(s.maxEvents + 1), s.window + 1);
    var calls := [a, b, c];
    assert calls[..1] == [a] && calls[1..3] == [b, c];
    var l1 := After(FRESH, a.events, a.now, s);
    assert [a][1..] == [] && AfterAll(l1, [], s) == l1;
    var l2 := After(l1, b.events, b.now, s);
    assert l1 == Limiter(Some(0), 1, 0, false);
    assert |Output(l1, b.events, b.now, s)| == s.maxEvents;
    assert |Output(l2, c.events, c.now, s)| == s.maxEvents + 1;
    assert [b, c][1..] == [c] && [c][1..] == [];
    assert Emitted(l2, [c], s) == s.maxEvents + 1;
  }

  // ------------------------------------------------------------ one window

  function Offered(calls: seq<Call>): seq<Event> {
    if calls == [] then [] else calls[0].events + Offered(calls[1..])
  }

  function AllKept(l: Limiter, calls: seq<Call>, s: Settings): seq<Event>
    decreases |calls|
  {
    if calls == [] then []
    else Kept(l, calls[0].events, calls[0].now, s)
         + AllKept(After(l, calls[0].events, calls[0].now, s), calls[1..], s)
  }

  function AllNotices(l: Limiter, calls: seq<Call>, s: Settings): seq<Event>
    decreases |calls|
  {
    if calls == [] then []
    else Notice(l, calls[0].events, calls[0].now, s)
         + AllNotices(After(l, calls[0].events, calls[0].now, s), calls[1..], s)
  }

  ghost predicate Open(l: Limiter, calls: seq<Call>, s: Settings) {
    l.windowStart.Some? && forall i :: 0 <= i < |calls| ==> calls[i].now - l.windowStart.value <= s.window
  }

  lemma {:induction false} WindowContinues(l: Limiter, calls: seq<Call>, s: Settings)
    requires Counted(l, s) && Open(l, calls, s)
    ensures var offered := Offered(calls);
            var room := Min(s.maxEvents - l.count, |offered|);
            && AllKept(l, calls, s) == offered[..room]
            && AfterAll(l, calls, s).count == l.count + room
            && AfterAll(l, calls, s).dropped == l.dropped + |offered| - room
            && |AllNotices(l, calls, s)| == if !l.summarySent && room < |offered| then 1 else 0
    decreases |calls|
  {
    if calls != [] {
      var c := calls[0];
      assert !Expired(l, c.now, s);
      var l' := After(l, c.events, c.now, s);
      CallKeepsCounted(l, c.events, c.now, s);
      WindowContinues(l', calls[1..], s);
      var rest := Offered(calls[1..]);
      var budget := s.maxEvents - l.count;
      assert Room(l, |c.events|, s) == Min(budget, |c.events|);
      TakeAcross(c.events, rest, budget);
    }
  }

  /** Taking from two batches in turn is taking from both together. */
  lemma {:induction false} TakeAcross(a: seq<Event>, b: seq<Event>, budget: nat)
    ensures var here := Min(budget, |a|);
            var there := Min(budget - here, |b|);
            Min(budget, |a + b|) == here + there && (a + b)[..here + there] == a[..here] + b[..there]
  {
  }

  /** A whole window, from the call that opens it: the first `maxEvents` offered
      events are kept, in order; kept and dropped add up; and a summary goes out
      once if anything was dropped, never otherwise. */
  lemma {:induction false} WindowLaw(l: Limiter, calls: seq<Call>, s: Settings)
    requires calls != [] && calls[0].events != []
    requires l.windowStart.Some? ==> calls[0].now - l.windowStart.value > s.window
    requires forall i :: 0 <= i < |calls| ==> calls[i].now - calls[0].now <= s.window
    ensures var offered := Offered(calls);
            && AllKept(l, calls, s) == offered[..Min(s.maxEvents, |offered|)]
            && AfterAll(l, calls, s).count + AfterAll(l, calls, s).dropped == |offered|
            && |AllNotices(l, calls, s)| == if |offered| > s.maxEvents then 1 else 0
  {
    var c := calls[0];
    var o := Opened(l, c.now, s);
    WindowContinues(o, calls, s);
    assert After(o, c.events, c.now, s) == After(l, c.events, c.now, s);
    assert Kept(o, c.events, c.now, s) == Kept(l, c.events, c.now, s);
    assert Notice(o, c.events, c.now, s) == Notice(l, c.events, c.now, s);
  }

  // ------------------------------------------- whole runs, told by the call times

  /** The call that opened the window in force after the first `n` calls: the first
      call with events, and then each one more than a window length after that. */
  function Opening(calls: seq<Call>, n: nat, window: nat): (i: Option<nat>)
    requires n <= |calls|
    ensures i.Some? ==> i.value < n
  {
    if n == 0 then None
    else
      var before := Opening(calls, n - 1, window);
      if calls[n - 1].events != [] && (before.Some? ==> calls[n - 1].now - calls[before.value].now > window)
      then Some(n - 1) else before
  }

  /** How many events the calls from `i` on and before `n` offer. */
  function OfferedFrom(calls: seq<Call>, i: nat, n: nat): nat
    requires n <= |calls|
  {
    if n <= i then 0 else OfferedFrom(calls, i, n - 1) + |calls[n - 1].events|
  }

  /** The state after the first `n` calls, told by the calls alone. */
  function StateTold(calls: seq<Call>, n: nat, s: Settings): Limiter
    requires n <= |calls|
  {
    match Opening(calls, n, s.window)
    case None => Limiter(None, 0, 0, false)
    case Some(i) =>
      var offered := OfferedFrom(calls, i, n);
      Limiter(Some(calls[i].now), Min(s.maxEvents, offered), offered - Min(s.maxEvents, offered), offered > s.maxEvents)
  }

  /** What a call gets through when its window was offered `before` events already: the
      events up to the limit, and the summary if it is the first to exceed the limit. */
  function Through(events: seq<Event>, before: nat, max: nat): seq<Event> {
    events[..if before < max then Min(max - before, |events|) else 0]
    + if before <= max < before + |events| then [Summary(before + |events| - max)] else []
  }

  lemma {:induction false} AfterAllSnoc(l: Limiter, calls: seq<Call>, c: Call, s: Settings)
    ensures AfterAll(l, calls + [c], s) == After(AfterAll(l, calls, s), c.events, c.now, s)
    decreases |calls|
  {
    if calls == [] {
      assert calls + [c] == [c];
      assert AfterAll(After(l, c.events, c.now, s), [c][1..], s) == After(l, c.events, c.now, s);
    } else {
      assert (calls + [c])[1..] == calls[1..] + [c];
      AfterAllSnoc(After(l, calls[0].events, calls[0].now, s), calls[1..], c, s);
    }
  }

  lemma {:induction false} TellOneMore(calls: seq<Call>, n: nat, s: Settings)
    requires n < |calls|
    ensures StateTold(calls, n + 1, s) == After(StateTold(calls, n, s), calls[n].events, calls[n].now, s)
  {
    var i := Opening(calls, n, s.window);
    if calls[n].events != [] && (i.Some? ==> calls[n].now - calls[i.value].now > s.window) {
      assert Opening(calls, n + 1, s.window) == Some(n);
      assert OfferedFrom(calls, n, n + 1) == |calls[n].events|;
    } else {
      assert Opening(calls, n + 1, s.window) == i;
    }
  }

  /** In every run, however the clock moves, the state is the one told by the calls. */
  lemma {:induction false} StateIsTold(calls: seq<Call>, n: nat, s: Settings)
    requires n <= |calls|
    ensures AfterAll(FRESH, calls[..n], s) == StateTold(calls, n, s)
  {
    if n > 0 {
      StateIsTold(calls, n - 1, s);
      assert calls[..n] == calls[..n - 1] + [calls[n - 1]];
      AfterAllSnoc(FRESH, calls[..n - 1], calls[n - 1], s);
      TellOneMore(calls, n - 1, s);
    }
  }

  /** In every run each call with events falls into a window that the call times alone
      determine, and gets through exactly what that window leaves for it. */
  lemma {:induction false} EveryCallIsTold(calls: seq<Call>, n: nat, s: Settings)
    requires n < |calls| && calls[n].events != []
    ensures Opening(calls, n + 1, s.window).Some?
    ensures Output(AfterAll(FRESH, calls[..n], s), calls[n].events, calls[n].now, s) ==
            Through(calls[n].events, OfferedFrom(calls, Opening(calls, n + 1, s.window).value, n), s.maxEvents)
  {
    StateIsTold(calls, n, s);
    OutputOfTold(calls, n, s);
  }

  lemma {:induction false} OutputOfTold(calls: seq<Call>, n: nat, s: Settings)
    requires n < |calls| && calls[n].events != []
    ensures Opening(calls, n + 1, s.window).Some?
    ensures Output(StateTold(calls, n, s), calls[n].events, calls[n].now, s) ==
            Through(calls[n].events, OfferedFrom(calls, Opening(calls, n + 1, s.window).value, n), s.maxEvents)
  {
    var i := Opening(calls, n, s.window);
    if i.Some? ==> calls[n].now - calls[i.value].now > s.window {
      assert Opening(calls, n + 1, s.window) == Some(n);
      assert OfferedFrom(calls, n, n) == 0;
    } else {
      assert Opening(calls, n + 1, s.window) == i;
    }
  }

  /** In particular a call made more than a window length after all earlier ones is
      treated as the first. */
  lemma {:induction false} LateCallStartsOver(calls: seq<Call>, n: nat, s: Settings)
    requires n < |calls| && calls[n].events != []
    requires forall k :: 0 <= k < n ==> calls[n].now - calls[k].now > s.window
    ensures Output(AfterAll(FRESH, calls[..n], s), calls[n].events, calls[n].now, s) ==
            calls[n].events[..Min(s.maxEvents, |calls[n].events|)]
            + if |calls[n].events| > s.maxEvents then [Summary(|calls[n].events| - s.maxEvents)] else []
  {
    EveryCallIsTold(calls, n, s);
    assert Opening(calls, n + 1, s.window) == Some(n);
    assert OfferedFrom(calls, n, n) == 0;
  }

  /** On Windows the collector and the event loop both apply the limiter to the same
      batch. In one fresh window the batch survives only if it fits twice; between
      once and twice it is cut to what is left, plus a summary; above that nothing
      at all gets through. */
  lemma {:induction false} AppliedTwice(l: Limiter, events: seq<Event>, now1: int, now2: int, s: Settings)
    requires s.maxEvents > 0 && now2 - now1 <= s.window
    requires l.windowStart.Some? ==> now1 - l.windowStart.value > s.window
    ensures var n, max := |events|, s.maxEvents;
            var once := Output(l, events, now1, s);
            var twice := Output(After(l, events, now1, s), once, now2, s);
            twice == if 2 * n <= max then events
                     else if n <= max then events[..max - n] + [Summary(2 * n - max)]
                     else []
  {
    if events != [] && |events| <= s.maxEvents {
      assert Output(l, events, now1, s) == events;
    }
  }
}
