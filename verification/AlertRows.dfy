/** What the rows of the alert and device tables hold, told by the steps of a run. */
module AlertRows {
  import opened Common
  import opened Alerts
  import opened AlertTriggers

  // ------------------------------------------------------- rows, told by the steps

  /** What a step makes of an existing row: the first low reading, usable clock, time
      synchronisation or manual resolution resolves it, with the time of that step; a
      manual resolution also stamps a resolved row anew. */
  function RowAfter(a: Alert, id: nat, t: Step): Alert {
    var resolves :=
      match t
      case Telemetry(d, r, _) => a.device == d && LowAgain(r, a.kind) && !a.resolved
      case NtpStatus(d, _, usable, _) => a.device == d && a.kind == ClockSkew && usable && !a.resolved
      case TimeSynced(d, _) => a.device == d && a.kind == TimeDrift && !a.resolved
      case Resolve(id', _) => id' == id
      case _ => false;
    if resolves then Alert(a.device, a.kind, a.created, true, Some(t.now)) else a
  }

  /** Retention deletes the resolved rows that are old, and only those. */
  predicate Deleted(a: Alert, t: Step, s: Settings) {
    t.Retention? && a.resolved && t.now - a.created > s.retention
  }

  /** The step is a reason to raise an alert. */
  predicate Reason(t: Step, d: nat, k: AlertKind, s: Settings) {
    match t
    case Telemetry(d', r, _) => d' == d && TooHigh(r, k, s)
    case CrashReport(d', _) => d' == d && k == Crash
    case NtpStatus(d', offset, usable, _) =>
      d' == d && ((k == TimeDrift && Abs(offset) > s.ntpOffset) || (k == ClockSkew && !usable))
    case OfflineSweep(rows, _) => d in rows && k == Offline
    case _ => false
  }

  datatype Subject = Subject(device: nat, kind: AlertKind)

  /** Rows were only added: unresolved ones with new numbers, made at `now`, for some of
      the subjects in `why`. */
  ghost predicate Grows(w: World, w': World, why: set<Subject>, now: int) {
    && IdsKnown(w') && w.next <= w'.next
    && (forall id :: id in w.alerts ==> id in w'.alerts && w'.alerts[id] == w.alerts[id])
    && (forall id :: id in w'.alerts && id !in w.alerts ==>
          var a := w'.alerts[id];
          w.next <= id && Subject(a.device, a.kind) in why && a == Alert(a.device, a.kind, now, false, None))
  }

  lemma {:induction false} GrowsTransitive(w: World, w1: World, w2: World, why1: set<Subject>, why2: set<Subject>, now: int)
    requires Grows(w, w1, why1, now) && Grows(w1, w2, why2, now)
    ensures Grows(w, w2, why1 + why2, now)
  {
  }

  ghost predicate HasNew(w: World, w': World, d: nat, k: AlertKind) {
    exists id :: id in w'.alerts && id !in w.alerts && w'.alerts[id].device == d && w'.alerts[id].kind == k
  }

  lemma {:induction false} NewIsEither(w: World, w1: World, w2: World, d: nat, k: AlertKind, why1: set<Subject>, why2: set<Subject>, now: int)
    requires Grows(w, w1, why1, now) && Grows(w1, w2, why2, now)
    ensures HasNew(w, w2, d, k) <==> HasNew(w, w1, d, k) || HasNew(w1, w2, d, k)
  {
  }

  function Why(d: nat, k: AlertKind, cond: bool): set<Subject> {
    if cond then {Subject(d, k)} else {}
  }

  lemma {:induction false} CreateGrows(w: World, d: nat, k: AlertKind, now: int, cond: bool)
    requires IdsKnown(w) && d in w.devices
    ensures Grows(w, CreateIf(w, d, k, now, cond), Why(d, k, cond), now)
  {
  }

  lemma {:induction false} CreateIsNew(w: World, d: nat, k: AlertKind, d': nat, k': AlertKind, now: int, cond: bool)
    requires IdsKnown(w) && d in w.devices
    ensures HasNew(w, CreateIf(w, d, k, now, cond), d', k') <==> cond && Fires(w, d, k) && d' == d && k' == k
  {
    if cond && Fires(w, d, k) {
      assert w.next in CreateIf(w, d, k, now, cond).alerts;
    }
  }

  function Fired(checks: seq<Check>, d: nat): set<Subject> {
    set c | c in checks && c.fires :: Subject(d, c.kind)
  }

  lemma {:induction false} FiredSplit(checks: seq<Check>, d: nat)
    requires checks != []
    ensures Fired(checks, d) == Why(d, checks[0].kind, checks[0].fires) + Fired(checks[1..], d)
  {
    assert checks == [checks[0]] + checks[1..];
  }

  lemma {:induction false} CreateEachGrows(w: World, d: nat, checks: seq<Check>, now: int)
    requires IdsKnown(w) && d in w.devices
    ensures Grows(w, CreateEach(w, d, checks, now), Fired(checks, d), now)
    decreases |checks|
  {
    if checks != [] {
      var c := checks[0];
      var w1 := CreateIf(w, d, c.kind, now, c.fires);
      CreateGrows(w, d, c.kind, now, c.fires);
      CreateEachGrows(w1, d, checks[1..], now);
      GrowsTransitive(w, w1, CreateEach(w, d, checks, now), Why(d, c.kind, c.fires), Fired(checks[1..], d), now);
      FiredSplit(checks, d);
    }
  }

  lemma {:induction false} CreateEachIsNew(w: World, d: nat, checks: seq<Check>, now: int, d': nat, k': AlertKind)
    requires IdsKnown(w) && d in w.devices && d' in w.devices
    ensures HasNew(w, CreateEach(w, d, checks, now), d', k') <==> Subject(d', k') in Fired(checks, d) && Fires(w, d', k')
    decreases |checks|
  {
    if checks != [] {
      var c := checks[0];
      var w1, w2 := CreateIf(w, d, c.kind, now, c.fires), CreateEach(w, d, checks, now);
      CreateGrows(w, d, c.kind, now, c.fires);
      CreateIsNew(w, d, c.kind, d', k', now, c.fires);
      FiresAfterCreate(w, d, c.kind, d', k', now, c.fires);
      CreateEachGrows(w1, d, checks[1..], now);
      CreateEachIsNew(w1, d, checks[1..], now, d', k');
      NewIsEither(w, w1, w2, d', k', Why(d, c.kind, c.fires), Fired(checks[1..], d), now);
      FiredSplit(checks, d);
    }
  }

  lemma {:induction false} FiresAfterCreate(w: World, d: nat, k: AlertKind, d': nat, k': AlertKind, now: int, cond: bool)
    requires IdsKnown(w) && d in w.devices && d' in w.devices
    ensures d' in CreateIf(w, d, k, now, cond).devices
    ensures Fires(CreateIf(w, d, k, now, cond), d', k') <==> Fires(w, d', k') && !(cond && d' == d && k' == k)
  {
    if cond {
      OpenAfterCreate(w, d', k', d, k, now);
      MaintenanceAfterCreate(w, d', d, k, now);
    }
  }

  lemma {:induction false} FiredIsReason(r: Reading, s: Settings, d: nat, d': nat, k: AlertKind)
    ensures Subject(d', k) in Fired(Checks(r, s), d) <==> d' == d && TooHigh(r, k, s)
  {
    var c := Checks(r, s);
    assert c[0] in c && c[1] in c && c[2] in c && c[3] in c;
  }

  lemma {:induction false} ResolveRows(w: World, d: nat, k: AlertKind, now: int, cond: bool)
    ensures var w' := ResolveIf(w, d, k, now, cond);
            && w'.alerts.Keys == w.alerts.Keys && w' == w.(alerts := w'.alerts)
            && forall id :: id in w.alerts ==> w'.alerts[id] == if cond then Settle(w.alerts[id], d, k, now) else w.alerts[id]
  {
  }

  lemma {:induction false} AutoResolveRow(a: Alert, id: nat, d: nat, r: Reading, now: int)
    ensures var a1 := if Below(r.cpu, 80.0) then Settle(a, d, HighCpu, now) else a;
            var a2 := if Below(r.ram, 85.0) then Settle(a1, d, HighRam, now) else a1;
            var a3 := if Below(r.disk, 90.0) then Settle(a2, d, HighDisk, now) else a2;
            a3 == RowAfter(a, id, Telemetry(d, r, now))
  {
  }

  /** The automatic resolution, row by row. */
  lemma {:induction false} AutoResolveRows(w: World, d: nat, r: Reading, now: int)
    ensures var w' := AutoResolve(w, d, r, now);
            && w'.alerts.Keys == w.alerts.Keys && w' == w.(alerts := w'.alerts)
            && forall id :: id in w.alerts ==> w'.alerts[id] == RowAfter(w.alerts[id], id, Telemetry(d, r, now))
  {
    var w1 := ResolveIf(w, d, HighCpu, now, Below(r.cpu, 80.0));
    var w2 := ResolveIf(w1, d, HighRam, now, Below(r.ram, 85.0));
    ResolveRows(w, d, HighCpu, now, Below(r.cpu, 80.0));
    ResolveRows(w1, d, HighRam, now, Below(r.ram, 85.0));
    ResolveRows(w2, d, HighDisk, now, Below(r.disk, 90.0));
    forall id | id in w.alerts ensures AutoResolve(w, d, r, now).alerts[id] == RowAfter(w.alerts[id], id, Telemetry(d, r, now)) {
      AutoResolveRow(w.alerts[id], id, d, r, now);
    }
  }

  /** Every row of the later table is told by the step: an existing row by `RowAfter` and
      `Deleted`, a new one by the step's reason for it, its time, and `RowAfter`. */
  ghost predicate RowsTold(w: World, w': World, t: Step, s: Settings) {
    && IdsKnown(w') && w.next <= w'.next
    && (forall id :: id in w.alerts ==> (id in w'.alerts <==> !Deleted(w.alerts[id], t, s)))
    && (forall id :: id in w.alerts && id in w'.alerts ==> w'.alerts[id] == RowAfter(w.alerts[id], id, t))
    && (forall id :: id in w'.alerts && id !in w.alerts ==>
          var a := w'.alerts[id];
          && w.next <= id && Reason(t, a.device, a.kind, s)
          && a == RowAfter(Alert(a.device, a.kind, t.now, false, None), id, t))
  }

  lemma {:induction false} TelemetryRows(w: World, t: Step, s: Settings)
    requires IdsKnown(w) && t.Telemetry? && Enabled(w, t, s)
    ensures RowsTold(w, Do(w, t, s), t, s)
  {
    var w0 := Seen(w, t.device, t.now);
    EvaluateIsEach(w0, t.device, t.reading, t.now, s);
    CreateEachGrows(w0, t.device, Checks(t.reading, s), t.now);
    var w1 := Evaluate(w0, t.device, t.reading, t.now, s);
    AutoResolveRows(w1, t.device, t.reading, t.now);
    forall id | id in w1.alerts && id !in w.alerts ensures Reason(t, w1.alerts[id].device, w1.alerts[id].kind, s) {
      FiredIsReason(t.reading, s, t.device, w1.alerts[id].device, w1.alerts[id].kind);
    }
  }

  lemma {:induction false} NtpRows(w: World, t: Step, s: Settings)
    requires IdsKnown(w) && t.NtpStatus? && Enabled(w, t, s)
    ensures RowsTold(w, Do(w, t, s), t, s)
  {
    var drifts := Abs(t.offset) > s.ntpOffset;
    CreateGrows(w, t.device, TimeDrift, t.now, drifts);
    var w1 := CreateIf(w, t.device, TimeDrift, t.now, drifts);
    if t.usable {
      ResolveRows(w1, t.device, ClockSkew, t.now, true);
      SettledIsTold(w, w1, t, s);
    } else {
      CreateGrows(w1, t.device, ClockSkew, t.now, true);
      GrowsTransitive(w, w1, Do(w, t, s), Why(t.device, TimeDrift, drifts), Why(t.device, ClockSkew, true), t.now);
    }
  }

  lemma {:induction false} SettledIsTold(w: World, w1: World, t: Step, s: Settings)
    requires t.NtpStatus? && t.usable && IdsKnown(w)
    requires Grows(w, w1, Why(t.device, TimeDrift, Abs(t.offset) > s.ntpOffset), t.now)
    ensures RowsTold(w, ResolveAll(w1, t.device, ClockSkew, t.now), t, s)
  {
    var w' := ResolveAll(w1, t.device, ClockSkew, t.now);
    forall id | id in w1.alerts ensures w'.alerts[id] == RowAfter(w1.alerts[id], id, t) {
    }
  }

  function Outages(rows: seq<nat>): set<Subject> {
    set d | d in rows :: Subject(d, Offline)
  }

  lemma {:induction false} SweepGrows(w: World, rows: seq<nat>, now: int)
    requires IdsKnown(w) && forall i :: 0 <= i < |rows| ==> rows[i] in w.devices
    ensures Grows(w, Sweep(w, rows, now), Outages(rows), now)
    decreases |rows|
  {
    if rows != [] {
      var w1 := SweepOne(w, rows[0], now);
      assert Grows(w, w1, {Subject(rows[0], Offline)}, now);
      SweepGrows(w1, rows[1..], now);
      GrowsTransitive(w, w1, Sweep(w, rows, now), {Subject(rows[0], Offline)}, Outages(rows[1..]), now);
      assert rows == [rows[0]] + rows[1..];
      assert Outages(rows) == {Subject(rows[0], Offline)} + Outages(rows[1..]);
    }
  }

  lemma {:induction false} StepRows(w: World, t: Step, s: Settings)
    requires IdsKnown(w) && Enabled(w, t, s)
    ensures RowsTold(w, Do(w, t, s), t, s)
  {
    match t
    case Telemetry(_, _, _) => TelemetryRows(w, t, s);
    case CrashReport(d, now) => CreateGrows(w, d, Crash, now, true);
    case NtpStatus(_, _, _, _) => NtpRows(w, t, s);
    case OfflineSweep(rows, now) => SweepGrows(w, rows, now);
    case _ =>
  }

  /** The row after the steps from `i` on and before `j`. */
  function Evolved(a: Alert, id: nat, steps: seq<Step>, i: nat, j: nat): Alert
    requires j <= |steps|
  {
    if j <= i then a else RowAfter(Evolved(a, id, steps, i, j - 1), id, steps[j - 1])
  }

  lemma {:induction false} IdsStayKnown(trace: seq<World>, steps: seq<Step>, s: Settings, i: nat, j: nat)
    requires IsRun(trace, steps, s) && i <= j < |trace|
    ensures IdsKnown(trace[j]) && trace[i].next <= trace[j].next
    decreases j
  {
    if j > 0 {
      var i' := if i < j then i else j - 1;
      IdsStayKnown(trace, steps, s, i', j - 1);
      StepRows(trace[j - 1], steps[j - 1], s);
    }
  }

  /** A row, if it is there. */
  function RowOf(w: World, id: nat): Option<Alert> {
    if id in w.alerts then Some(w.alerts[id]) else None
  }

  function NextRow(row: Option<Alert>, id: nat, t: Step, s: Settings): Option<Alert> {
    if row.None? || Deleted(row.value, t, s) then None else Some(RowAfter(row.value, id, t))
  }

  lemma {:induction false} RunRowTold(trace: seq<World>, steps: seq<Step>, s: Settings, i: nat, j: nat, id: nat)
    requires IsRun(trace, steps, s) && i <= j < |steps| && id in trace[i].alerts
    ensures RowOf(trace[j + 1], id) == NextRow(RowOf(trace[j], id), id, steps[j], s)
  {
    IdsStayKnown(trace, steps, s, i, i);
    IdsStayKnown(trace, steps, s, i, j);
    StepRows(trace[j], steps[j], s);
  }

  ghost predicate FollowsSteps(rows: seq<Option<Alert>>, id: nat, steps: seq<Step>, s: Settings, i: nat, j: nat) {
    && i <= j <= |steps| && |rows| == |steps| + 1 && rows[i].Some?
    && forall m {:trigger rows[m]} :: i <= m < j ==> rows[m + 1] == NextRow(rows[m], id, steps[m], s)
  }

  lemma {:induction false} RowEvolves(rows: seq<Option<Alert>>, id: nat, steps: seq<Step>, s: Settings, i: nat, j: nat)
    requires FollowsSteps(rows, id, steps, s, i, j)
    ensures rows[j].Some? ==> rows[j].value == Evolved(rows[i].value, id, steps, i, j)
  {
    if i < j {
      RowEvolves(rows, id, steps, s, i, j - 1);
      assert rows[j] == NextRow(rows[j - 1], id, steps[j - 1], s);
    }
  }

  /** Step `m` finds the row that was `a` before step `i` resolved and too old. */
  predicate DeletedAt(a: Alert, id: nat, steps: seq<Step>, s: Settings, i: nat, m: nat) {
    m < |steps| && Deleted(Evolved(a, id, steps, i, m), steps[m], s)
  }

  lemma {:induction false} RowStaysIff(rows: seq<Option<Alert>>, id: nat, steps: seq<Step>, s: Settings, i: nat, j: nat)
    requires FollowsSteps(rows, id, steps, s, i, j) && i < j
    ensures rows[j].Some? <==> rows[j - 1].Some? && !DeletedAt(rows[i].value, id, steps, s, i, j - 1)
  {
    RowEvolves(rows, id, steps, s, i, j - 1);
    assert rows[j] == NextRow(rows[j - 1], id, steps[j - 1], s);
  }

  lemma {:induction false} RowStaysUntilDeleted(rows: seq<Option<Alert>>, id: nat, steps: seq<Step>, s: Settings, i: nat, j: nat)
    requires FollowsSteps(rows, id, steps, s, i, j)
    ensures rows[j].Some? <==> forall m :: i <= m < j ==> !DeletedAt(rows[i].value, id, steps, s, i, m)
  {
    if i < j {
      RowStaysUntilDeleted(rows, id, steps, s, i, j - 1);
      RowStaysIff(rows, id, steps, s, i, j);
    }
  }

  /** In every run, from any point on, an alert is in the table until a retention step
      finds it resolved and too old; and until then its row is told by the steps. */
  lemma {:induction false} AlertIsTold(trace: seq<World>, steps: seq<Step>, s: Settings, i: nat, j: nat, id: nat)
    requires IsRun(trace, steps, s) && i <= j < |trace| && id in trace[i].alerts
    ensures id in trace[j].alerts <==>
            forall m :: i <= m < j ==> !DeletedAt(trace[i].alerts[id], id, steps, s, i, m)
    ensures id in trace[j].alerts ==> trace[j].alerts[id] == Evolved(trace[i].alerts[id], id, steps, i, j)
  {
    var rows := seq(|trace|, m requires 0 <= m < |trace| => RowOf(trace[m], id));
    forall m | i <= m < j ensures rows[m + 1] == NextRow(rows[m], id, steps[m], s) {
      RunRowTold(trace, steps, s, i, m, id);
    }
    RowEvolves(rows, id, steps, s, i, j);
    RowStaysUntilDeleted(rows, id, steps, s, i, j);
  }

  /** In every run, every alert in the table was made by a step that was a reason for it,
      with the time of that step, and was told by the steps from then on. */
  lemma {:induction false} AlertHasReason(trace: seq<World>, steps: seq<Step>, s: Settings, j: nat, id: nat) returns (i: nat)
    requires IsRun(trace, steps, s) && j < |trace| && id in trace[j].alerts
    ensures i < j && id !in trace[i].alerts
    ensures var a := trace[j].alerts[id];
            Reason(steps[i], a.device, a.kind, s)
            && a == Evolved(Alert(a.device, a.kind, steps[i].now, false, None), id, steps, i, j)
  {
    IdsStayKnown(trace, steps, s, j - 1, j - 1);
    StepRows(trace[j - 1], steps[j - 1], s);
    if id in trace[j - 1].alerts {
      i := AlertHasReason(trace, steps, s, j - 1, id);
      EvolvedKeepsSubject(Alert(trace[j].alerts[id].device, trace[j].alerts[id].kind, steps[i].now, false, None), id, steps, i, j);
    } else {
      i := j - 1;
      var a := trace[j].alerts[id];
      assert Evolved(Alert(a.device, a.kind, steps[i].now, false, None), id, steps, i, i) == Alert(a.device, a.kind, steps[i].now, false, None);
    }
  }

  lemma {:induction false} EvolvedKeepsSubject(a: Alert, id: nat, steps: seq<Step>, i: nat, j: nat)
    requires j <= |steps|
    ensures var e := Evolved(a, id, steps, i, j); e.device == a.device && e.kind == a.kind && e.created == a.created
    decreases j
  {
    if i < j {
      EvolvedKeepsSubject(a, id, steps, i, j - 1);
    }
  }

  /** A reason makes a new row iff none is open and the device is not in maintenance. */
  lemma {:induction false} RaisedIff(w: World, t: Step, s: Settings, d: nat, k: AlertKind)
    requires IdsKnown(w) && Enabled(w, t, s) && d in w.devices
    ensures HasNew(w, Do(w, t, s), d, k) <==> Reason(t, d, k, s) && !w.devices[d].maintenance && !IsOpen(w, d, k)
  {
    match t
    case Telemetry(d', r, now) =>
      var w0 := Seen(w, d', now);
      EvaluateIsEach(w0, d', r, now, s);
      CreateEachIsNew(w0, d', Checks(r, s), now, d, k);
      FiredIsReason(r, s, d', d, k);
      OpenIfSame(w, w0, d, k);
      NewAfterAutoResolve(w, Evaluate(w0, d', r, now, s), d', r, now, d, k);
    case CrashReport(d', now) => CreateIsNew(w, d', Crash, d, k, now, true);
    case NtpStatus(d', offset, usable, now) => NtpIsNew(w, t, s, d, k);
    case OfflineSweep(rows, now) => SweepIsNew(w, rows, now, d, k);
    case _ =>
  }

  lemma {:induction false} SweepOneIsNew(w: World, d': nat, now: int, d: nat, k: AlertKind)
    requires IdsKnown(w) && d' in w.devices
    ensures Grows(w, SweepOne(w, d', now), {Subject(d', Offline)}, now)
    ensures HasNew(w, SweepOne(w, d', now), d, k) <==> d == d' && k == Offline && !IsOpen(w, d, k)
    ensures IsOpen(SweepOne(w, d', now), d, k) <==> IsOpen(w, d, k) || (d == d' && k == Offline)
  {
    var w1 := SetStatus(w, d', OfflineStatus);
    OpenIfSame(w, w1, d, k);
    OpenIfSame(w, w1, d', Offline);
    OpenAfterInsert(w1, d, k, d', Offline, now);
    assert w.next in Insert(w1, d', Offline, now).alerts;
  }

  lemma {:induction false} SweepIsNew(w: World, rows: seq<nat>, now: int, d: nat, k: AlertKind)
    requires IdsKnown(w) && forall i :: 0 <= i < |rows| ==> rows[i] in w.devices
    ensures HasNew(w, Sweep(w, rows, now), d, k) <==> d in rows && k == Offline && !IsOpen(w, d, k)
    decreases |rows|
  {
    if rows != [] {
      var w1 := SweepOne(w, rows[0], now);
      SweepOneIsNew(w, rows[0], now, d, k);
      SweepGrows(w1, rows[1..], now);
      SweepIsNew(w1, rows[1..], now, d, k);
      NewIsEither(w, w1, Sweep(w, rows, now), d, k, {Subject(rows[0], Offline)}, Outages(rows[1..]), now);
      assert rows == [rows[0]] + rows[1..];
    }
  }

  lemma {:induction false} NewAfterAutoResolve(w: World, w1: World, d': nat, r: Reading, now: int, d: nat, k: AlertKind)
    ensures HasNew(w, AutoResolve(w1, d', r, now), d, k) <==> HasNew(w, w1, d, k)
  {
    AutoResolveRows(w1, d', r, now);
  }

  lemma {:induction false} NtpIsNew(w: World, t: Step, s: Settings, d: nat, k: AlertKind)
    requires IdsKnown(w) && t.NtpStatus? && Enabled(w, t, s) && d in w.devices
    ensures HasNew(w, Do(w, t, s), d, k) <==> Reason(t, d, k, s) && Fires(w, d, k)
  {
    var d', drifts := t.device, Abs(t.offset) > s.ntpOffset;
    var w1 := CreateIf(w, d', TimeDrift, t.now, drifts);
    CreateGrows(w, d', TimeDrift, t.now, drifts);
    CreateIsNew(w, d', TimeDrift, d, k, t.now, drifts);
    FiresAfterCreate(w, d', TimeDrift, d, k, t.now, drifts);
    SkewIsNew(w, w1, d', t.usable, t.now, d, k, Why(d', TimeDrift, drifts));
  }

  lemma {:induction false} SkewIsNew(w: World, w1: World, d': nat, usable: bool, now: int, d: nat, k: AlertKind, why: set<Subject>)
    requires d' in w1.devices && d in w1.devices && IdsKnown(w1) && Grows(w, w1, why, now)
    ensures HasNew(w, CheckSkew(w1, d', usable, now), d, k) <==>
            HasNew(w, w1, d, k) || (!usable && d == d' && k == ClockSkew && Fires(w1, d, k))
  {
    if usable {
      ResolveRows(w1, d', ClockSkew, now, true);
    } else {
      CreateGrows(w1, d', ClockSkew, now, true);
      CreateIsNew(w1, d', ClockSkew, d, k, now, true);
      NewIsEither(w, w1, CheckSkew(w1, d', usable, now), d, k, why, Why(d', ClockSkew, true), now);
    }
  }

  // ---------------------------------------------------- devices, told by the steps

  lemma {:induction false} CreateEachDevice(w: World, d: nat, checks: seq<Check>, now: int)
    requires d in w.devices
    ensures var w' := CreateEach(w, d, checks, now);
            && |w.notified| <= |w'.notified|
            && w'.devices == w.devices[d := if |w.notified| < |w'.notified| then w.devices[d].(status := AlertStatus) else w.devices[d]]
    decreases |checks|
  {
    if checks != [] {
      CreateEachDevice(CreateIf(w, d, checks[0].kind, now, checks[0].fires), d, checks[1..], now);
    }
  }

  lemma {:induction false} SweepDevices(w: World, rows: seq<nat>, now: int, d: nat)
    requires d in w.devices && forall i :: 0 <= i < |rows| ==> rows[i] in w.devices
    ensures var w' := Sweep(w, rows, now);
            d in w'.devices && w'.devices[d] == if d in rows then w.devices[d].(status := OfflineStatus) else w.devices[d]
    decreases |rows|
  {
    if rows != [] {
      SweepDevices(SweepOne(w, rows[0], now), rows[1..], now, d);
      assert rows == [rows[0]] + rows[1..];
    }
  }

  /** What a step makes of a device row: telemetry sets it online and seen now, a sweep
      sets it offline iff it is online, in service and has not been seen for too long,
      and whatever sends a notice for it sets it to alert. */
  lemma {:induction false} DeviceIsTold(w: World, t: Step, s: Settings, d: nat)
    requires Enabled(w, t, s) && d in w.devices
    ensures var w' := Do(w, t, s); var v, noticed := w.devices[d], |w'.notified| > |w.notified|;
            && d in w'.devices
            && w'.devices[d] ==
               match t
               case Telemetry(d', _, now) =>
                 if d' != d then v
                 else Device(if noticed then AlertStatus else Online, Some(now), v.revoked, v.maintenance)
               case OfflineSweep(_, now) =>
                 if v.status == Online && v.lastSeen.Some? && now - v.lastSeen.value > s.offlineAfter && !v.revoked && !v.maintenance
                 then Device(OfflineStatus, v.lastSeen, v.revoked, v.maintenance) else v
               case Administer(d', row) => if d' == d then row else v
               case Resolve(_, _) => v
               case Retention(_) => v
               case _ =>
                 if t.device == d && noticed then Device(AlertStatus, v.lastSeen, v.revoked, v.maintenance) else v
  {
    match t
    case Telemetry(d', r, now) =>
      var w0 := Seen(w, d', now);
      EvaluateIsEach(w0, d', r, now, s);
      CreateEachDevice(w0, d', Checks(r, s), now);
      AutoResolveRows(Evaluate(w0, d', r, now, s), d', r, now);
    case OfflineSweep(rows, now) => SweepDevices(w, rows, now, d);
    case _ =>
  }
}
