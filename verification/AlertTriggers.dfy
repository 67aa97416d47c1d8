/** When an alert is open, told by the messages alone: a Schmitt trigger for every kind
    of alert, which the table of the server is proved to follow in every run. */
module AlertTriggers {
  import opened Common
  import opened Alerts

  // -------------------------------------------------------------- hysteresis

  /** The reading that an alert kind watches, if it watches one. */
  function Watched(r: Reading, k: AlertKind): Option<real> {
    match k
    case HighCpu => r.cpu
    case HighRam => r.ram
    case DiskFull => r.disk
    case HighDisk => r.disk
    case HighTemp => r.temp
    case _ => None
  }

  /** The reading above which telemetry raises the alert. */
  function Ceiling(k: AlertKind, s: Settings): Option<real> {
    match k
    case HighCpu => Some(s.cpu)
    case HighRam => Some(s.ram)
    case DiskFull => Some(s.disk)
    case HighTemp => Some(s.temp)
    case _ => None
  }

  /** The reading below which telemetry resolves the alert. */
  function Floor(k: AlertKind): Option<real> {
    match k
    case HighCpu => Some(80.0)
    case HighRam => Some(85.0)
    case HighDisk => Some(90.0)
    case _ => None
  }

  predicate TooHigh(r: Reading, k: AlertKind, s: Settings) {
    Ceiling(k, s).Some? && Above(Watched(r, k), Ceiling(k, s).value)
  }

  predicate LowAgain(r: Reading, k: AlertKind) {
    Floor(k).Some? && Below(Watched(r, k), Floor(k).value)
  }

  /** A Schmitt trigger for one kind of alert on one device. `muted` is the device's
      maintenance flag, `edges` counts how often the trigger was set with notice. */
  datatype Trigger = Trigger(on: bool, muted: bool, edges: nat)

  function Raise(g: Trigger, above: bool): Trigger {
    if above && !g.on && !g.muted then Trigger(true, g.muted, g.edges + 1) else g
  }

  function Lower(g: Trigger, below: bool): Trigger {
    g.(on := g.on && !below)
  }

  /** What a step means for the trigger: the whole alert logic, without a table, given
      whether the step resolves the alert by hand. */
  function Advance(g: Trigger, t: Step, d: nat, k: AlertKind, s: Settings, byHand: bool): Trigger {
    match t
    case OfflineSweep(rows, _) => if k.Offline? && d in rows then g.(on := true) else g
    case Resolve(_, _) => Lower(g, byHand)
    case Retention(_) => g
    case _ =>
      if t.device != d then g else
      match t
      case Telemetry(_, r, _) => Lower(Raise(g, TooHigh(r, k, s)), LowAgain(r, k))
      case CrashReport(_, _) => Raise(g, k.Crash?)
      case NtpStatus(_, offset, usable, _) =>
        Lower(Raise(g, (k.TimeDrift? && Abs(offset) > s.ntpOffset) || (k.ClockSkew? && !usable)), k.ClockSkew? && usable)
      case TimeSynced(_, _) => Lower(g, k.TimeDrift?)
      case Administer(_, row) => g.(muted := row.maintenance)
  }

  /** A manual resolution of an unresolved alert of the given device and kind. */
  predicate ByHand(w: World, t: Step, d: nat, k: AlertKind) {
    t.Resolve? && t.id in w.alerts && Hit(w.alerts[t.id], d, k)
  }

  /** The trigger after the first `i` steps of a run. */
  ghost function Followed(trace: seq<World>, steps: seq<Step>, i: nat, d: nat, k: AlertKind, s: Settings): Trigger
    requires IsRun(trace, steps, s) && i < |trace| && d in trace[0].devices
  {
    if i == 0 then Trigger(false, trace[0].devices[d].maintenance, 0)
    else Advance(Followed(trace, steps, i - 1, d, k, s), steps[i - 1], d, k, s, ByHand(trace[i - 1], steps[i - 1], d, k))
  }

  function Notices(log: seq<Notice>, d: nat, k: AlertKind): nat {
    if log == [] then 0
    else Notices(log[..|log| - 1], d, k) + if log[|log| - 1] == Notice(d, k) then 1 else 0
  }

  /** The table agrees with the trigger. */
  ghost predicate Tracks(w: World, g: Trigger, d: nat, k: AlertKind) {
    && (IsOpen(w, d, k) <==> g.on)
    && Notices(w.notified, d, k) == g.edges
    && d in w.devices && w.devices[d].maintenance == g.muted
    && IdsKnown(w)
  }

  lemma {:induction false} OpenAfterInsert(w: World, d: nat, k: AlertKind, d': nat, k': AlertKind, now: int)
    requires IdsKnown(w)
    ensures IdsKnown(Insert(w, d', k', now))
    ensures IsOpen(Insert(w, d', k', now), d, k) <==> IsOpen(w, d, k) || (d' == d && k' == k)
  {
    var w' := Insert(w, d', k', now);
    if id :| id in w.alerts && Hit(w.alerts[id], d, k) {
      assert w'.alerts[id] == w.alerts[id];
    }
    if d' == d && k' == k {
      assert Hit(w'.alerts[w.next], d, k);
    }
  }

  lemma {:induction false} HitAfterSettle(a: Alert, d: nat, k: AlertKind, d': nat, k': AlertKind, now: int)
    ensures Hit(Settle(a, d', k', now), d, k) <==> Hit(a, d, k) && !(d' == d && k' == k)
  {
  }

  lemma {:induction false} OpenAfterResolve(w: World, d: nat, k: AlertKind, d': nat, k': AlertKind, now: int)
    ensures IsOpen(ResolveAll(w, d', k', now), d, k) <==> IsOpen(w, d, k) && !(d' == d && k' == k)
  {
    var w' := ResolveAll(w, d', k', now);
    forall id | id in w.alerts
      ensures Hit(w'.alerts[id], d, k) <==> Hit(w.alerts[id], d, k) && !(d' == d && k' == k)
    {
      HitAfterSettle(w.alerts[id], d, k, d', k', now);
    }
    assert w'.alerts.Keys == w.alerts.Keys;
  }

  /** Steps that keep the alerts keep what is open. */
  lemma {:induction false} OpenIfSame(w: World, w': World, d: nat, k: AlertKind)
    requires w'.alerts == w.alerts
    ensures IsOpen(w', d, k) <==> IsOpen(w, d, k)
  {
  }

  predicate Fires(w: World, d: nat, k: AlertKind)
    requires d in w.devices
  {
    !w.devices[d].maintenance && !IsOpen(w, d, k)
  }

  ghost predicate IdsKnown(w: World) {
    forall id :: id in w.alerts ==> id < w.next
  }

  lemma {:induction false} OpenAfterCreate(w: World, d: nat, k: AlertKind, d': nat, k': AlertKind, now: int)
    requires d' in w.devices && IdsKnown(w)
    ensures IdsKnown(Create(w, d', k', now))
    ensures IsOpen(Create(w, d', k', now), d, k) <==> IsOpen(w, d, k) || (Fires(w, d', k') && d' == d && k' == k)
  {
    if Fires(w, d', k') {
      OpenAfterInsert(w, d, k, d', k', now);
      OpenIfSame(Insert(w, d', k', now), Create(w, d', k', now), d, k);
    }
  }

  lemma {:induction false} MaintenanceAfterCreate(w: World, d: nat, d': nat, k': AlertKind, now: int)
    requires d in w.devices && d' in w.devices
    ensures d in Create(w, d', k', now).devices
    ensures Create(w, d', k', now).devices[d].maintenance == w.devices[d].maintenance
  {
  }

  lemma {:induction false} NoticesAfterCreate(w: World, d: nat, k: AlertKind, d': nat, k': AlertKind, now: int)
    requires d' in w.devices
    ensures Notices(Create(w, d', k', now).notified, d, k) ==
            Notices(w.notified, d, k) + if Fires(w, d', k') && d' == d && k' == k then 1 else 0
  {
    if Fires(w, d', k') {
      var log := w.notified + [Notice(d', k')];
      assert log[..|log| - 1] == w.notified;
    }
  }

  lemma {:induction false} CreateTracks(w: World, g: Trigger, d: nat, k: AlertKind, d': nat, k': AlertKind, now: int, cond: bool)
    requires Tracks(w, g, d, k) && d' in w.devices
    ensures Tracks(CreateIf(w, d', k', now, cond), if d' == d && k' == k then Raise(g, cond) else g, d, k)
  {
    if cond {
      OpenAfterCreate(w, d, k, d', k', now);
      MaintenanceAfterCreate(w, d, d', k', now);
      NoticesAfterCreate(w, d, k, d', k', now);
    }
  }

  lemma {:induction false} ResolveTracks(w: World, g: Trigger, d: nat, k: AlertKind, d': nat, k': AlertKind, now: int, cond: bool)
    requires Tracks(w, g, d, k)
    ensures Tracks(ResolveIf(w, d', k', now, cond), if d' == d && k' == k then Lower(g, cond) else g, d, k)
  {
    OpenAfterResolve(w, d, k, d', k', now);
  }

  function RaiseEach(g: Trigger, checks: seq<Check>, k: AlertKind): Trigger
    decreases |checks|
  {
    if checks == [] then g else RaiseEach(Raise(g, checks[0].kind == k && checks[0].fires), checks[1..], k)
  }

  lemma {:induction false} CreateEachTracks(w: World, g: Trigger, d: nat, k: AlertKind, d': nat, checks: seq<Check>, now: int)
    requires d' in w.devices && Tracks(w, g, d, k)
    ensures Tracks(CreateEach(w, d', checks, now), if d' == d then RaiseEach(g, checks, k) else g, d, k)
    decreases |checks|
  {
    if checks != [] {
      var c := checks[0];
      CreateTracks(w, g, d, k, d', c.kind, now, c.fires);
      var g1 := if d' == d then Raise(g, c.kind == k && c.fires) else g;
      CreateEachTracks(CreateIf(w, d', c.kind, now, c.fires), g1, d, k, d', checks[1..], now);
    }
  }

  lemma {:induction false} ChecksRaise(g: Trigger, r: Reading, k: AlertKind, s: Settings)
    ensures RaiseEach(g, Checks(r, s), k) == Raise(g, TooHigh(r, k, s))
  {
    var c := Checks(r, s);
    assert c[1..] == [c[1], c[2], c[3]] && c[1..][1..] == [c[2], c[3]] && c[1..][1..][1..] == [c[3]];
    var g1 := Raise(g, c[0].kind == k && c[0].fires);
    var g2 := Raise(g1, c[1].kind == k && c[1].fires);
    var g3 := Raise(g2, c[2].kind == k && c[2].fires);
    assert RaiseEach(g, c, k) == RaiseEach(g1, c[1..], k) == RaiseEach(g2, [c[2], c[3]], k);
    assert RaiseEach(g2, [c[2], c[3]], k) == RaiseEach(g3, [c[3]], k);
    var g4 := Raise(g3, c[3].kind == k && c[3].fires);
    assert [c[3]][1..] == [];
    assert RaiseEach(g3, [c[3]], k) == RaiseEach(g4, [], k) == g4;
  }

  lemma {:induction false} EvaluateTracks(w: World, g: Trigger, d: nat, k: AlertKind, d': nat, r: Reading, now: int, s: Settings)
    requires d' in w.devices && Tracks(w, g, d, k)
    ensures Tracks(Evaluate(w, d', r, now, s), if d' == d then Raise(g, TooHigh(r, k, s)) else g, d, k)
  {
    EvaluateIsEach(w, d', r, now, s);
    CreateEachTracks(w, g, d, k, d', Checks(r, s), now);
    ChecksRaise(g, r, k, s);
  }

  lemma {:induction false} AutoResolveTracks(w: World, g: Trigger, d: nat, k: AlertKind, d': nat, r: Reading, now: int)
    requires Tracks(w, g, d, k)
    ensures Tracks(AutoResolve(w, d', r, now), if d' == d then Lower(g, LowAgain(r, k)) else g, d, k)
  {
    var w1 := ResolveIf(w, d', HighCpu, now, Below(r.cpu, 80.0));
    var w2 := ResolveIf(w1, d', HighRam, now, Below(r.ram, 85.0));
    var g' := if d' == d then Lower(g, LowAgain(r, k)) else g;
    ResolveTracks(w, g, d, k, d', HighCpu, now, Below(r.cpu, 80.0));
    ResolveTracks(w1, if k.HighCpu? then g' else g, d, k, d', HighRam, now, Below(r.ram, 85.0));
    ResolveTracks(w2, if k.HighDisk? then g else g', d, k, d', HighDisk, now, Below(r.disk, 90.0));
  }

  lemma {:induction false} TelemetryTracks(w: World, g: Trigger, d: nat, k: AlertKind, t: Step, s: Settings)
    requires t.Telemetry? && Enabled(w, t, s) && Tracks(w, g, d, k)
    ensures Tracks(Do(w, t, s), Advance(g, t, d, k, s, ByHand(w, t, d, k)), d, k)
  {
    var d', r, now := t.device, t.reading, t.now;
    var w0 := Seen(w, d', now);
    OpenIfSame(w, w0, d, k);
    EvaluateTracks(w0, g, d, k, d', r, now, s);
    var g1 := if d' == d then Raise(g, TooHigh(r, k, s)) else g;
    AutoResolveTracks(Evaluate(w0, d', r, now, s), g1, d, k, d', r, now);
  }

  lemma {:induction false} SkewTracks(w: World, g: Trigger, d: nat, k: AlertKind, d': nat, usable: bool, now: int)
    requires d' in w.devices && Tracks(w, g, d, k)
    ensures Tracks(CheckSkew(w, d', usable, now),
                   if d' == d && k.ClockSkew? then Lower(Raise(g, !usable), usable) else g, d, k)
  {
    if usable {
      ResolveTracks(w, g, d, k, d', ClockSkew, now, true);
    } else {
      CreateTracks(w, g, d, k, d', ClockSkew, now, true);
    }
  }

  lemma {:induction false} NtpAdvances(g: Trigger, d: nat, k: AlertKind, t: Step, s: Settings)
    requires t.NtpStatus? && t.device == d
    ensures var g1 := if k == TimeDrift then Raise(g, Abs(t.offset) > s.ntpOffset) else g;
            Advance(g, t, d, k, s, false) == if k.ClockSkew? then Lower(Raise(g1, !t.usable), t.usable) else g1
  {
  }

  lemma {:induction false} NtpTracks(w: World, g: Trigger, d: nat, k: AlertKind, t: Step, s: Settings)
    requires t.NtpStatus? && Enabled(w, t, s) && Tracks(w, g, d, k)
    ensures Tracks(Do(w, t, s), Advance(g, t, d, k, s, ByHand(w, t, d, k)), d, k)
  {
    var d', drifts := t.device, Abs(t.offset) > s.ntpOffset;
    CreateTracks(w, g, d, k, d', TimeDrift, t.now, drifts);
    var g1 := if d' == d && k == TimeDrift then Raise(g, drifts) else g;
    SkewTracks(CreateIf(w, d', TimeDrift, t.now, drifts), g1, d, k, d', t.usable, t.now);
    if d' == d {
      NtpAdvances(g, d, k, t, s);
    }
  }

  /** The sweep opens the offline alert of each stale device, without a notice. */
  lemma {:induction false} SweepOneTracks(w: World, g: Trigger, d: nat, k: AlertKind, d': nat, now: int)
    requires Tracks(w, g, d, k) && d' in w.devices
    ensures Tracks(SweepOne(w, d', now), if d' == d && k == Offline then g.(on := true) else g, d, k)
  {
    var w1 := SetStatus(w, d', OfflineStatus);
    OpenIfSame(w, w1, d, k);
    OpenAfterInsert(w1, d, k, d', Offline, now);
  }

  lemma {:induction false} SweepTracks(w: World, g: Trigger, d: nat, k: AlertKind, rows: seq<nat>, now: int)
    requires Tracks(w, g, d, k) && forall i :: 0 <= i < |rows| ==> rows[i] in w.devices
    ensures Tracks(Sweep(w, rows, now), if k.Offline? && d in rows then g.(on := true) else g, d, k)
    decreases |rows|
  {
    if rows != [] {
      SweepOneTracks(w, g, d, k, rows[0], now);
      var g1 := if rows[0] == d && k == Offline then g.(on := true) else g;
      SweepTracks(SweepOne(w, rows[0], now), g1, d, k, rows[1..], now);
      assert rows == [rows[0]] + rows[1..];
    }
  }

  lemma {:induction false} OpenAfterHousekeeping(w: World, d: nat, k: AlertKind, t: Step, s: Settings)
    requires (t.Resolve? || t.Retention?) && Unique(w)
    ensures IsOpen(Do(w, t, s), d, k) <==> IsOpen(w, d, k) && !ByHand(w, t, d, k)
  {
    var w' := Do(w, t, s);
    if !ByHand(w, t, d, k) {
      if id :| id in w.alerts && Hit(w.alerts[id], d, k) {
        assert Hit(w'.alerts[id], d, k);
      }
    }
  }

  lemma {:induction false} StepTracks(w: World, g: Trigger, d: nat, k: AlertKind, t: Step, s: Settings)
    requires Enabled(w, t, s) && Tracks(w, g, d, k) && Unique(w)
    ensures Tracks(Do(w, t, s), Advance(g, t, d, k, s, ByHand(w, t, d, k)), d, k)
  {
    match t
    case Telemetry(_, _, _) => TelemetryTracks(w, g, d, k, t, s);
    case CrashReport(d', now) => CreateTracks(w, g, d, k, d', Crash, now, true);
    case NtpStatus(_, _, _, _) => NtpTracks(w, g, d, k, t, s);
    case TimeSynced(d', now) => ResolveTracks(w, g, d, k, d', TimeDrift, now, true);
    case OfflineSweep(rows, now) => SweepTracks(w, g, d, k, rows, now);
    case Resolve(_, _) => OpenAfterHousekeeping(w, d, k, t, s);
    case Retention(_) => OpenAfterHousekeeping(w, d, k, t, s);
    case Administer(d', row) => OpenIfSame(w, Do(w, t, s), d, k);
  }

  /** Refinement, for every kind of alert and over any run: the alert is unresolved iff
      the trigger that follows the run is on, and one notification went out for each
      time the trigger was set by a message. */
  lemma {:induction false} AlertsFollowTrigger(trace: seq<World>, steps: seq<Step>, s: Settings, i: nat, d: nat, k: AlertKind)
    requires IsRun(trace, steps, s) && i < |trace| && d in trace[0].devices
    ensures Tracks(trace[i], Followed(trace, steps, i, d, k, s), d, k)
  {
    if i > 0 {
      AlertsFollowTrigger(trace, steps, s, i - 1, d, k);
      AtMostOneUnresolved(trace, steps, s, i - 1, d, k);
      StepTracks(trace[i - 1], Followed(trace, steps, i - 1, d, k, s), d, k, steps[i - 1], s);
    }
  }

  predicate Raises(t: Step, d: nat, k: AlertKind, s: Settings) {
    t.Telemetry? && t.device == d && TooHigh(t.reading, k, s)
  }

  predicate Lowers(t: Step, d: nat, k: AlertKind) {
    t.Telemetry? && t.device == d && LowAgain(t.reading, k)
  }

  /** One of the first `i` steps brought a reading that was too high, and since then no
      reading was low enough to resolve the alert and nobody resolved it by hand. */
  ghost predicate HighSince(trace: seq<World>, steps: seq<Step>, i: nat, d: nat, k: AlertKind, s: Settings)
    requires IsRun(trace, steps, s) && i < |trace|
  {
    exists j :: 0 <= j < i && Raises(steps[j], d, k, s)
                && forall m :: j <= m < i ==> !Lowers(steps[m], d, k) && !ByHand(trace[m], steps[m], d, k)
  }

  predicate InService(t: Step, d: nat) {
    t.Administer? && t.device == d ==> !t.row.maintenance
  }

  lemma {:induction false} HighSinceNext(trace: seq<World>, steps: seq<Step>, i: nat, d: nat, k: AlertKind, s: Settings)
    requires IsRun(trace, steps, s) && i < |steps|
    ensures HighSince(trace, steps, i + 1, d, k, s) <==>
            && !Lowers(steps[i], d, k) && !ByHand(trace[i], steps[i], d, k)
            && (Raises(steps[i], d, k, s) || HighSince(trace, steps, i, d, k, s))
  {
  }

  /** One step of a sensor's trigger outside maintenance. */
  lemma {:induction false} SensorAdvances(g: Trigger, t: Step, d: nat, k: AlertKind, s: Settings, byHand: bool)
    requires Ceiling(k, s).Some? && !g.muted && InService(t, d) && (byHand ==> t.Resolve?)
    ensures var g' := Advance(g, t, d, k, s, byHand);
            !g'.muted && (g'.on <==> !Lowers(t, d, k) && !byHand && (Raises(t, d, k, s) || g.on))
  {
  }

  lemma {:induction false} TriggerIsHighSince(trace: seq<World>, steps: seq<Step>, i: nat, d: nat, k: AlertKind, s: Settings)
    requires IsRun(trace, steps, s) && i < |trace| && Ceiling(k, s).Some?
    requires d in trace[0].devices && !trace[0].devices[d].maintenance
    requires forall j :: 0 <= j < i ==> InService(steps[j], d)
    ensures var g := Followed(trace, steps, i, d, k, s);
            !g.muted && (g.on <==> HighSince(trace, steps, i, d, k, s))
  {
    if i > 0 {
      TriggerIsHighSince(trace, steps, i - 1, d, k, s);
      HighSinceNext(trace, steps, i - 1, d, k, s);
      SensorAdvances(Followed(trace, steps, i - 1, d, k, s), steps[i - 1], d, k, s, ByHand(trace[i - 1], steps[i - 1], d, k));
    }
  }

  /** Hysteresis without the trigger: in every run outside maintenance a sensor's alert
      is unresolved iff a reading exceeded its threshold, and since then none fell below
      the lower one and nobody resolved the alert by hand. */
  lemma {:induction false} HysteresisLaw(trace: seq<World>, steps: seq<Step>, s: Settings, i: nat, d: nat, k: AlertKind)
    requires IsRun(trace, steps, s) && i < |trace| && Ceiling(k, s).Some?
    requires d in trace[0].devices && !trace[0].devices[d].maintenance
    requires forall j :: 0 <= j < i ==> InService(steps[j], d)
    ensures IsOpen(trace[i], d, k) <==> HighSince(trace, steps, i, d, k, s)
  {
    AlertsFollowTrigger(trace, steps, s, i, d, k);
    TriggerIsHighSince(trace, steps, i, d, k, s);
  }

  // ---------------------------------------------------------------- latching

  /** The kinds that no message and no task resolves. */
  predicate Latching(k: AlertKind) {
    k.DiskFull? || k.HighTemp? || k.Crash? || k.Offline?
  }

  /** With nothing to lower it the trigger latches: once set it stays set, and is set
      with notice at most once; an offline alert is never notified. */
  lemma {:induction false} LatchingAdvances(g: Trigger, t: Step, d: nat, k: AlertKind, s: Settings)
    requires Latching(k)
    ensures var g' := Advance(g, t, d, k, s, false);
            (g.on ==> g'.on) && g'.edges == g.edges + if g'.on && !g.on && !k.Offline? then 1 else 0
  {
  }

  lemma {:induction false} LatchingTrigger(trace: seq<World>, steps: seq<Step>, i: nat, d: nat, k: AlertKind, s: Settings)
    requires Latching(k) && IsRun(trace, steps, s) && i < |trace| && d in trace[0].devices
    requires forall m :: 0 <= m < i ==> !ByHand(trace[m], steps[m], d, k)
    ensures var g := Followed(trace, steps, i, d, k, s);
            g.edges == (if g.on && !k.Offline? then 1 else 0)
    ensures i > 0 && Followed(trace, steps, i - 1, d, k, s).on ==> Followed(trace, steps, i, d, k, s).on
  {
    if i > 0 {
      LatchingTrigger(trace, steps, i - 1, d, k, s);
      LatchingAdvances(Followed(trace, steps, i - 1, d, k, s), steps[i - 1], d, k, s);
    }
  }

  /** All rows of the device and kind, resolved or not. */
  function Records(w: World, d: nat, k: AlertKind): set<nat> {
    set id | id in w.alerts && w.alerts[id].device == d && w.alerts[id].kind == k
  }

  ghost predicate AllOpen(w: World, d: nat, k: AlertKind) {
    forall id :: id in Records(w, d, k) ==> !w.alerts[id].resolved
  }

  /** Later tables keep the rows of the device and kind as they are, and those that
      are added are unresolved. */
  ghost predicate Keeps(w: World, w': World, d: nat, k: AlertKind) {
    && (forall id :: id in Records(w, d, k) ==> id in w'.alerts && w'.alerts[id] == w.alerts[id])
    && (forall id :: id in Records(w', d, k) && id !in Records(w, d, k) ==> !w'.alerts[id].resolved)
    && (IdsKnown(w) ==> IdsKnown(w'))
  }

  lemma {:induction false} KeepsTransitive(w: World, w1: World, w2: World, d: nat, k: AlertKind)
    requires Keeps(w, w1, d, k) && Keeps(w1, w2, d, k)
    ensures Keeps(w, w2, d, k)
  {
  }

  lemma {:induction false} CreateKeeps(w: World, d: nat, k: AlertKind, d': nat, k': AlertKind, now: int, cond: bool)
    requires d' in w.devices && IdsKnown(w)
    ensures Keeps(w, CreateIf(w, d', k', now, cond), d, k)
  {
  }

  lemma {:induction false} CreateEachKeeps(w: World, d: nat, k: AlertKind, d': nat, checks: seq<Check>, now: int)
    requires d' in w.devices && IdsKnown(w)
    ensures Keeps(w, CreateEach(w, d', checks, now), d, k)
    decreases |checks|
  {
    if checks != [] {
      CreateKeeps(w, d, k, d', checks[0].kind, now, checks[0].fires);
      var w1 := CreateIf(w, d', checks[0].kind, now, checks[0].fires);
      CreateEachKeeps(w1, d, k, d', checks[1..], now);
      KeepsTransitive(w, w1, CreateEach(w, d', checks, now), d, k);
    }
  }

  lemma {:induction false} ResolveKeeps(w: World, d: nat, k: AlertKind, d': nat, k': AlertKind, now: int, cond: bool)
    requires k' != k
    ensures Keeps(w, ResolveIf(w, d', k', now, cond), d, k)
  {
  }

  lemma {:induction false} SweepOneKeeps(w: World, d: nat, k: AlertKind, d': nat, now: int)
    requires d' in w.devices && IdsKnown(w)
    ensures Keeps(w, SweepOne(w, d', now), d, k)
  {
  }

  lemma {:induction false} SweepKeeps(w: World, d: nat, k: AlertKind, rows: seq<nat>, now: int)
    requires IdsKnown(w) && forall i :: 0 <= i < |rows| ==> rows[i] in w.devices
    ensures Keeps(w, Sweep(w, rows, now), d, k)
    decreases |rows|
  {
    if rows != [] {
      SweepOneKeeps(w, d, k, rows[0], now);
      SweepKeeps(SweepOne(w, rows[0], now), d, k, rows[1..], now);
      KeepsTransitive(w, SweepOne(w, rows[0], now), Sweep(w, rows, now), d, k);
    }
  }

  lemma {:induction false} AutoResolveKeeps(w: World, d: nat, k: AlertKind, d': nat, r: Reading, now: int)
    requires Latching(k)
    ensures Keeps(w, AutoResolve(w, d', r, now), d, k)
  {
    var w1 := ResolveIf(w, d', HighCpu, now, Below(r.cpu, 80.0));
    var w2 := ResolveIf(w1, d', HighRam, now, Below(r.ram, 85.0));
    ResolveKeeps(w, d, k, d', HighCpu, now, Below(r.cpu, 80.0));
    ResolveKeeps(w1, d, k, d', HighRam, now, Below(r.ram, 85.0));
    KeepsTransitive(w, w1, w2, d, k);
    ResolveKeeps(w2, d, k, d', HighDisk, now, Below(r.disk, 90.0));
    KeepsTransitive(w, w2, AutoResolve(w, d', r, now), d, k);
  }

  lemma {:induction false} TelemetryKeeps(w: World, d: nat, k: AlertKind, t: Step, s: Settings)
    requires Latching(k) && IdsKnown(w) && t.Telemetry? && Enabled(w, t, s)
    ensures Keeps(w, Do(w, t, s), d, k)
  {
    var d', r, now := t.device, t.reading, t.now;
    var w0 := Seen(w, d', now);
    EvaluateIsEach(w0, d', r, now, s);
    CreateEachKeeps(w0, d, k, d', Checks(r, s), now);
    var w1 := Evaluate(w0, d', r, now, s);
    AutoResolveKeeps(w1, d, k, d', r, now);
    KeepsTransitive(w0, w1, Do(w, t, s), d, k);
  }

  lemma {:induction false} StepKeeps(w: World, d: nat, k: AlertKind, t: Step, s: Settings)
    requires Latching(k) && IdsKnown(w) && Enabled(w, t, s) && !ByHand(w, t, d, k)
    requires AllOpen(w, d, k)
    ensures Keeps(w, Do(w, t, s), d, k) && AllOpen(Do(w, t, s), d, k)
  {
    match t
    case Telemetry(_, _, _) => TelemetryKeeps(w, d, k, t, s);
    case CrashReport(d', now) => CreateKeeps(w, d, k, d', Crash, now, true);
    case NtpStatus(d', offset, usable, now) =>
      CreateKeeps(w, d, k, d', TimeDrift, now, Abs(offset) > s.ntpOffset);
      var w1 := CreateIf(w, d', TimeDrift, now, Abs(offset) > s.ntpOffset);
      CreateKeeps(w1, d, k, d', ClockSkew, now, true);
      ResolveKeeps(w1, d, k, d', ClockSkew, now, true);
      KeepsTransitive(w, w1, Do(w, t, s), d, k);
    case TimeSynced(d', now) => ResolveKeeps(w, d, k, d', TimeDrift, now, true);
    case OfflineSweep(rows, now) => SweepKeeps(w, d, k, rows, now);
    case Resolve(_, _) =>
    case Retention(_) =>
    case Administer(_, _) =>
  }

  /** While nobody resolves them by hand, the rows of a latching kind are never
      resolved, changed or deleted. */
  lemma {:induction false} RecordsStay(trace: seq<World>, steps: seq<Step>, s: Settings, i: nat, j: nat, d: nat, k: AlertKind)
    requires Latching(k) && IsRun(trace, steps, s) && i <= j < |trace|
    requires forall m :: 0 <= m < j ==> !ByHand(trace[m], steps[m], d, k)
    ensures IdsKnown(trace[j]) && AllOpen(trace[j], d, k)
    ensures Keeps(trace[i], trace[j], d, k)
    decreases j
  {
    if j > 0 {
      var i' := if i < j then i else j - 1;
      RecordsStay(trace, steps, s, i', j - 1, d, k);
      StepKeeps(trace[j - 1], d, k, steps[j - 1], s);
      KeepsTransitive(trace[i'], trace[j - 1], trace[j], d, k);
    }
  }

  /** Disk, temperature, crash and offline alerts latch: unless somebody resolves it by
      hand, a device has at most one record of each, ever. Once made, that record stays
      as it is, so a second outage raises no alert; and there is at most one notice. */
  lemma {:induction false} RaisedOnceForAll(trace: seq<World>, steps: seq<Step>, s: Settings, i: nat, j: nat, d: nat, k: AlertKind)
    requires Latching(k) && IsRun(trace, steps, s) && i <= j < |trace| && d in trace[0].devices
    requires forall m :: 0 <= m < j ==> !ByHand(trace[m], steps[m], d, k)
    ensures |Records(trace[j], d, k)| <= 1 && Records(trace[i], d, k) <= Records(trace[j], d, k)
    ensures forall id :: id in Records(trace[i], d, k) ==> trace[j].alerts[id] == trace[i].alerts[id]
    ensures IsOpen(trace[i], d, k) ==> IsOpen(trace[j], d, k)
    ensures Notices(trace[j].notified, d, k) == if IsOpen(trace[j], d, k) && !k.Offline? then 1 else 0
  {
    RecordsStay(trace, steps, s, i, j, d, k);
    AtMostOneUnresolved(trace, steps, s, j, d, k);
    assert Records(trace[j], d, k) == Unresolved(trace[j], d, k);
    if id :| id in trace[i].alerts && Hit(trace[i].alerts[id], d, k) {
      assert id in Records(trace[i], d, k);
      assert Hit(trace[j].alerts[id], d, k);
    }
    AlertsFollowTrigger(trace, steps, s, j, d, k);
    LatchingTrigger(trace, steps, j, d, k, s);
  }

  // ------------------------------------------- the kind that is looked for in vain

  ghost predicate Lacks(w: World, k: AlertKind) {
    forall id :: id in w.alerts ==> w.alerts[id].kind != k
  }

  lemma {:induction false} CreateEachLacks(w: World, d: nat, checks: seq<Check>, now: int, k: AlertKind)
    requires d in w.devices && Lacks(w, k) && forall i :: 0 <= i < |checks| ==> checks[i].kind != k
    ensures Lacks(CreateEach(w, d, checks, now), k)
    decreases |checks|
  {
    if checks != [] {
      CreateEachLacks(CreateIf(w, d, checks[0].kind, now, checks[0].fires), d, checks[1..], now, k);
    }
  }

  lemma {:induction false} SweepLacks(w: World, rows: seq<nat>, now: int, k: AlertKind)
    requires Lacks(w, k) && !k.Offline? && forall i :: 0 <= i < |rows| ==> rows[i] in w.devices
    ensures Lacks(Sweep(w, rows, now), k)
    decreases |rows|
  {
    if rows != [] {
      SweepLacks(SweepOne(w, rows[0], now), rows[1..], now, k);
    }
  }

  lemma {:induction false} ResolveLacks(w: World, d: nat, k': AlertKind, now: int, cond: bool, k: AlertKind)
    requires Lacks(w, k)
    ensures Lacks(ResolveIf(w, d, k', now, cond), k)
  {
  }

  lemma {:induction false} StepLacksHighDisk(w: World, t: Step, s: Settings)
    requires Enabled(w, t, s) && Lacks(w, HighDisk)
    ensures Lacks(Do(w, t, s), HighDisk)
  {
    match t
    case Telemetry(d, r, now) =>
      var w0 := Seen(w, d, now);
      EvaluateIsEach(w0, d, r, now, s);
      CreateEachLacks(w0, d, Checks(r, s), now, HighDisk);
      var w1 := Evaluate(w0, d, r, now, s);
      var w2 := ResolveIf(w1, d, HighCpu, now, Below(r.cpu, 80.0));
      ResolveLacks(w1, d, HighCpu, now, Below(r.cpu, 80.0), HighDisk);
      var w3 := ResolveIf(w2, d, HighRam, now, Below(r.ram, 85.0));
      ResolveLacks(w2, d, HighRam, now, Below(r.ram, 85.0), HighDisk);
      ResolveLacks(w3, d, HighDisk, now, Below(r.disk, 90.0), HighDisk);
    case OfflineSweep(rows, now) => SweepLacks(w, rows, now, HighDisk);
    case _ =>
  }

  /** In no run is there ever an alert of the kind that the automatic resolution of
      disk alerts looks for, so that resolution never does anything. */
  lemma {:induction false} HighDiskNeverRaised(trace: seq<World>, steps: seq<Step>, s: Settings, i: nat)
    requires IsRun(trace, steps, s) && i < |trace|
    ensures forall id :: id in trace[i].alerts ==> trace[i].alerts[id].kind != HighDisk
    ensures forall d: nat, now :: ResolveAll(trace[i], d, HighDisk, now) == trace[i]
  {
    if i > 0 {
      HighDiskNeverRaised(trace, steps, s, i - 1);
      StepLacksHighDisk(trace[i - 1], steps[i - 1], s);
    }
    forall d: nat, now ensures ResolveAll(trace[i], d, HighDisk, now) == trace[i] {
      assert ResolveAll(trace[i], d, HighDisk, now).alerts == trace[i].alerts;
    }
  }

  // ---------------------------------------------------------- configured bands

  /** A single reading can raise an alert and resolve it at once iff the configured
      upper threshold lies below the fixed lower one. */
  lemma {:induction false} FlickersIff(k: AlertKind, s: Settings)
    ensures (exists r: Reading :: TooHigh(r, k, s) && LowAgain(r, k)) <==>
            Ceiling(k, s).Some? && Floor(k).Some? && Ceiling(k, s).value < Floor(k).value
  {
    if Ceiling(k, s).Some? && Floor(k).Some? && Ceiling(k, s).value < Floor(k).value {
      var mid := Some((Ceiling(k, s).value + Floor(k).value) / 2.0);
      var r := Reading(mid, mid, mid, mid);
      assert TooHigh(r, k, s) && LowAgain(r, k);
    }
  }

  /** The default thresholds leave a gap, so no reading does both. Such a reading, under
      other settings, sends a notice for an alert that is closed before anyone sees it. */
  lemma {:induction false} FlickerNotifies(trace: seq<World>, steps: seq<Step>, s: Settings, i: nat, d: nat, k: AlertKind)
    requires IsRun(trace, steps, s) && i < |steps| && d in trace[0].devices
    requires steps[i].Telemetry? && steps[i].device == d && TooHigh(steps[i].reading, k, s) && LowAgain(steps[i].reading, k)
    ensures s != DEFAULTS && !IsOpen(trace[i + 1], d, k)
    ensures !IsOpen(trace[i], d, k) && !trace[i].devices[d].maintenance ==>
              Notices(trace[i + 1].notified, d, k) == Notices(trace[i].notified, d, k) + 1
  {
    AlertsFollowTrigger(trace, steps, s, i, d, k);
    AlertsFollowTrigger(trace, steps, s, i + 1, d, k);
    FlickersIff(k, s);
  }
}
