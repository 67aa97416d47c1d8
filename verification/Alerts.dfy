/** The server's alert table and everything that writes to it: telemetry, crash, NTP
    and command-result messages, the offline sweep, manual resolution and retention.
    Each database transaction is one atomic step. Row ids are drawn from a counter,
    standing for UUIDs that never repeat. */
module Alerts {
  import opened Common

  datatype AlertKind =
    | Crash | TimeDrift | ClockSkew | Offline | HighCpu | HighRam | DiskFull | HighTemp | HighDisk

  datatype Alert = Alert(device: nat, kind: AlertKind, created: int, resolved: bool, resolvedAt: Option<int>)

  datatype Status = Online | OfflineStatus | AlertStatus

  datatype Device = Device(status: Status, lastSeen: Option<int>, revoked: bool, maintenance: bool)

  /** Thresholds that an installation can configure. */
  datatype Settings = Settings(cpu: real, ram: real, disk: real, temp: real, ntpOffset: real, offlineAfter: int, retention: int)

  const DEFAULTS := Settings(90.0, 90.0, 90.0, 85.0, 500.0, 120, 31_536_000)

  datatype Reading = Reading(cpu: Option<real>, ram: Option<real>, disk: Option<real>, temp: Option<real>)

  datatype Notice = Notice(device: nat, kind: AlertKind)

  /** The tables, and the notifications sent for new alerts. */
  datatype World = World(alerts: map<nat, Alert>, devices: map<nat, Device>, next: nat, notified: seq<Notice>)

  // -------------------------------------------------------------- operations

  /** An unresolved alert of the given device and kind. */
  predicate Hit(a: Alert, d: nat, k: AlertKind) {
    a.device == d && a.kind == k && !a.resolved
  }

  predicate IsOpen(w: World, d: nat, k: AlertKind) {
    exists id :: id in w.alerts && Hit(w.alerts[id], d, k)
  }

  /** The rows that a lookup for an unresolved alert sees. */
  function Unresolved(w: World, d: nat, k: AlertKind): set<nat> {
    set id | id in w.alerts && Hit(w.alerts[id], d, k)
  }

  function Insert(w: World, d: nat, k: AlertKind, now: int): World {
    w.(alerts := w.alerts[w.next := Alert(d, k, now, false, None)], next := w.next + 1)
  }

  function SetStatus(w: World, d: nat, s: Status): World
    requires d in w.devices
  {
    w.(devices := w.devices[d := w.devices[d].(status := s)])
  }

  /** `create_alert`: nothing in maintenance, nothing while one is unresolved. */
  function Create(w: World, d: nat, k: AlertKind, now: int): (w': World)
    requires d in w.devices
    ensures w'.devices.Keys == w.devices.Keys && w'.devices[d].maintenance == w.devices[d].maintenance
  {
    if w.devices[d].maintenance || IsOpen(w, d, k) then w
    else SetStatus(Insert(w, d, k, now), d, AlertStatus).(notified := w.notified + [Notice(d, k)])
  }

  function CreateIf(w: World, d: nat, k: AlertKind, now: int, cond: bool): (w': World)
    requires d in w.devices
    ensures w'.devices.Keys == w.devices.Keys && w'.devices[d].maintenance == w.devices[d].maintenance
  {
    if cond then Create(w, d, k, now) else w
  }

  function Close(a: Alert, now: int): Alert {
    a.(resolved := true, resolvedAt := Some(now))
  }

  function Settle(a: Alert, d: nat, k: AlertKind, now: int): Alert {
    if Hit(a, d, k) then Close(a, now) else a
  }

  /** The bulk update that resolves all unresolved alerts of a kind. */
  function ResolveAll(w: World, d: nat, k: AlertKind, now: int): World {
    w.(alerts := map id | id in w.alerts :: Settle(w.alerts[id], d, k, now))
  }

  function ResolveIf(w: World, d: nat, k: AlertKind, now: int, cond: bool): World {
    if cond then ResolveAll(w, d, k, now) else w
  }

  predicate Above(v: Option<real>, bound: real) { v.Some? && v.value > bound }
  predicate Below(v: Option<real>, bound: real) { v.Some? && v.value < bound }

  function Evaluate(w: World, d: nat, r: Reading, now: int, s: Settings): World
    requires d in w.devices
  {
    var w1 := CreateIf(w, d, HighCpu, now, Above(r.cpu, s.cpu));
    var w2 := CreateIf(w1, d, HighRam, now, Above(r.ram, s.ram));
    var w3 := CreateIf(w2, d, DiskFull, now, Above(r.disk, s.disk));
    CreateIf(w3, d, HighTemp, now, Above(r.temp, s.temp))
  }

  /** A threshold check: the kind of alert to create if it fires. */
  datatype Check = Check(kind: AlertKind, fires: bool)

  function Checks(r: Reading, s: Settings): seq<Check> {
    [Check(HighCpu, Above(r.cpu, s.cpu)), Check(HighRam, Above(r.ram, s.ram)),
     Check(DiskFull, Above(r.disk, s.disk)), Check(HighTemp, Above(r.temp, s.temp))]
  }

  function CreateEach(w: World, d: nat, checks: seq<Check>, now: int): (w': World)
    requires d in w.devices
    decreases |checks|
  {
    if checks == [] then w else CreateEach(CreateIf(w, d, checks[0].kind, now, checks[0].fires), d, checks[1..], now)
  }

  lemma {:induction false} EvaluateIsEach(w: World, d: nat, r: Reading, now: int, s: Settings)
    requires d in w.devices
    ensures Evaluate(w, d, r, now, s) == CreateEach(w, d, Checks(r, s), now)
  {
    var c := Checks(r, s);
    assert c[1..] == [c[1], c[2], c[3]] && c[1..][1..] == [c[2], c[3]] && c[1..][1..][1..] == [c[3]];
    var w1 := CreateIf(w, d, c[0].kind, now, c[0].fires);
    var w2 := CreateIf(w1, d, c[1].kind, now, c[1].fires);
    var w3 := CreateIf(w2, d, c[2].kind, now, c[2].fires);
    assert CreateEach(w, d, c, now) == CreateEach(w1, d, c[1..], now);
    assert CreateEach(w1, d, c[1..], now) == CreateEach(w2, d, [c[2], c[3]], now);
    assert CreateEach(w2, d, [c[2], c[3]], now) == CreateEach(w3, d, [c[3]], now);
    var w4 := CreateIf(w3, d, c[3].kind, now, c[3].fires);
    assert [c[3]][1..] == [];
    assert CreateEach(w3, d, [c[3]], now) == CreateEach(w4, d, [], now) == w4;
  }

  function AutoResolve(w: World, d: nat, r: Reading, now: int): World {
    var w1 := ResolveIf(w, d, HighCpu, now, Below(r.cpu, 80.0));
    var w2 := ResolveIf(w1, d, HighRam, now, Below(r.ram, 85.0));
    ResolveIf(w2, d, HighDisk, now, Below(r.disk, 90.0))
  }

  function Seen(w: World, d: nat, now: int): World
    requires d in w.devices
  {
    w.(devices := w.devices[d := w.devices[d].(status := Online, lastSeen := Some(now))])
  }

  function Abs(x: real): real { if x < 0.0 then -x else x }

  function CheckSkew(w: World, d: nat, usable: bool, now: int): World
    requires d in w.devices
  {
    if usable then ResolveAll(w, d, ClockSkew, now) else Create(w, d, ClockSkew, now)
  }

  function HandleNtp(w: World, d: nat, offset: real, usable: bool, now: int, s: Settings): World
    requires d in w.devices
  {
    CheckSkew(CreateIf(w, d, TimeDrift, now, Abs(offset) > s.ntpOffset), d, usable, now)
  }

  predicate Stale(v: Device, now: int, s: Settings) {
    v.status.Online? && v.lastSeen.Some? && v.lastSeen.value < now - s.offlineAfter && !v.revoked && !v.maintenance
  }

  function SweepOne(w: World, d: nat, now: int): (w': World)
    requires d in w.devices
    ensures w'.devices.Keys == w.devices.Keys
  {
    var w1 := SetStatus(w, d, OfflineStatus);
    if IsOpen(w1, d, Offline) then w1 else Insert(w1, d, Offline, now)
  }

  function Sweep(w: World, rows: seq<nat>, now: int): World
    requires forall i :: 0 <= i < |rows| ==> rows[i] in w.devices
    decreases |rows|
  {
    if rows == [] then w else Sweep(SweepOne(w, rows[0], now), rows[1..], now)
  }

  function Retain(w: World, cutoff: int): World {
    w.(alerts := map id | id in w.alerts && !(w.alerts[id].created < cutoff && w.alerts[id].resolved) :: w.alerts[id])
  }

  datatype Step =
    | Telemetry(device: nat, reading: Reading, now: int)
    | CrashReport(device: nat, now: int)
    | NtpStatus(device: nat, offset: real, usable: bool, now: int)
    | TimeSynced(device: nat, now: int)                    // sync_time finished with exit code 0
    | OfflineSweep(rows: seq<nat>, now: int)               // over the stale devices, in query order
    | Resolve(id: nat, now: int)
    | Retention(now: int)
    | Administer(device: nat, row: Device)                 // any other change of a device row

  predicate Enabled(w: World, t: Step, s: Settings) {
    match t
    case Telemetry(d, _, _) => d in w.devices
    case CrashReport(d, _) => d in w.devices
    case NtpStatus(d, _, _, _) => d in w.devices
    case OfflineSweep(rows, now) =>
      && (forall i :: 0 <= i < |rows| ==> rows[i] in w.devices && Stale(w.devices[rows[i]], now, s))
      && (forall d :: d in w.devices && Stale(w.devices[d], now, s) ==> d in rows)
    case _ => true
  }

  function Do(w: World, t: Step, s: Settings): World
    requires Enabled(w, t, s)
  {
    match t
    case Telemetry(d, r, now) => AutoResolve(Evaluate(Seen(w, d, now), d, r, now, s), d, r, now)
    case CrashReport(d, now) => Create(w, d, Crash, now)
    case NtpStatus(d, offset, usable, now) => HandleNtp(w, d, offset, usable, now, s)
    case TimeSynced(d, now) => ResolveAll(w, d, TimeDrift, now)
    case OfflineSweep(rows, now) => Sweep(w, rows, now)
    case Resolve(id, now) => if id in w.alerts then w.(alerts := w.alerts[id := Close(w.alerts[id], now)]) else w
    case Retention(now) => Retain(w, now - s.retention)
    case Administer(d, row) => w.(devices := w.devices[d := row])
  }

  ghost predicate IsRun(trace: seq<World>, steps: seq<Step>, s: Settings) {
    && |trace| == |steps| + 1
    && trace[0].alerts == map[] && trace[0].notified == []
    && forall i :: 0 <= i < |steps| ==> Enabled(trace[i], steps[i], s) && trace[i + 1] == Do(trace[i], steps[i], s)
  }

  // -------------------------------------------------------------- uniqueness

  ghost predicate Unique(w: World) {
    && (forall id :: id in w.alerts ==> id < w.next)
    && (forall i, j :: i in w.alerts && j in w.alerts && i != j
                       && w.alerts[i].device == w.alerts[j].device && w.alerts[i].kind == w.alerts[j].kind
                       ==> w.alerts[i].resolved || w.alerts[j].resolved)
  }

  lemma {:induction false} InsertUnique(w: World, d: nat, k: AlertKind, now: int)
    requires Unique(w) && !IsOpen(w, d, k)
    ensures Unique(Insert(w, d, k, now))
  {
    forall i | i in w.alerts && w.alerts[i].device == d && w.alerts[i].kind == k ensures w.alerts[i].resolved {
      assert !Hit(w.alerts[i], d, k);
    }
  }

  lemma {:induction false} CreateUnique(w: World, d: nat, k: AlertKind, now: int)
    requires d in w.devices && Unique(w)
    ensures Unique(Create(w, d, k, now))
  {
    if !IsOpen(w, d, k) {
      InsertUnique(w, d, k, now);
    }
  }

  lemma {:induction false} CreateEachUnique(w: World, d: nat, checks: seq<Check>, now: int)
    requires d in w.devices && Unique(w)
    ensures Unique(CreateEach(w, d, checks, now))
    decreases |checks|
  {
    if checks != [] {
      CreateUnique(w, d, checks[0].kind, now);
      CreateEachUnique(CreateIf(w, d, checks[0].kind, now, checks[0].fires), d, checks[1..], now);
    }
  }

  lemma {:induction false} ResolveAllUnique(w: World, d: nat, k: AlertKind, now: int)
    requires Unique(w)
    ensures Unique(ResolveAll(w, d, k, now))
  {
  }

  lemma {:induction false} SweepOneUnique(w: World, d: nat, now: int)
    requires Unique(w) && d in w.devices
    ensures Unique(SweepOne(w, d, now))
  {
    var w1 := SetStatus(w, d, OfflineStatus);
    if !IsOpen(w1, d, Offline) {
      InsertUnique(w1, d, Offline, now);
    }
  }

  lemma {:induction false} SweepUnique(w: World, rows: seq<nat>, now: int)
    requires Unique(w) && forall i :: 0 <= i < |rows| ==> rows[i] in w.devices
    ensures Unique(Sweep(w, rows, now))
    decreases |rows|
  {
    if rows != [] {
      SweepOneUnique(w, rows[0], now);
      SweepUnique(SweepOne(w, rows[0], now), rows[1..], now);
    }
  }

  lemma {:induction false} StepUnique(w: World, t: Step, s: Settings)
    requires Unique(w) && Enabled(w, t, s)
    ensures Unique(Do(w, t, s))
  {
    match t
    case Telemetry(d, r, now) =>
      var w0 := Seen(w, d, now);
      EvaluateIsEach(w0, d, r, now, s);
      CreateEachUnique(w0, d, Checks(r, s), now);
      var w1 := Evaluate(w0, d, r, now, s);
      var w2 := ResolveIf(w1, d, HighCpu, now, Below(r.cpu, 80.0));
      ResolveAllUnique(w1, d, HighCpu, now);
      var w3 := ResolveIf(w2, d, HighRam, now, Below(r.ram, 85.0));
      ResolveAllUnique(w2, d, HighRam, now);
      ResolveAllUnique(w3, d, HighDisk, now);
    case CrashReport(d, now) => CreateUnique(w, d, Crash, now);
    case NtpStatus(d, offset, usable, now) =>
      CreateUnique(w, d, TimeDrift, now);
      var w1 := CreateIf(w, d, TimeDrift, now, Abs(offset) > s.ntpOffset);
      CreateUnique(w1, d, ClockSkew, now);
      ResolveAllUnique(w1, d, ClockSkew, now);
    case TimeSynced(d, now) => ResolveAllUnique(w, d, TimeDrift, now);
    case OfflineSweep(rows, now) => SweepUnique(w, rows, now);
    case Resolve(_, _) =>
    case Retention(_) =>
    case Administer(_, _) =>
  }

  /** In every run each device has at most one unresolved alert of each kind, so the
      single-row lookups never find two. */
  lemma {:induction false} AtMostOneUnresolved(trace: seq<World>, steps: seq<Step>, s: Settings, i: nat, d: nat, k: AlertKind)
    requires IsRun(trace, steps, s) && i < |trace|
    ensures Unique(trace[i]) && |Unresolved(trace[i], d, k)| <= 1
  {
    if i > 0 {
      AtMostOneUnresolved(trace, steps, s, i - 1, d, k);
      StepUnique(trace[i - 1], steps[i - 1], s);
    }
    var ids := Unresolved(trace[i], d, k);
    if ids != {} {
      var id :| id in ids;
      assert ids == {id};
    }
  }

  // ------------------------------------------------------------ the services

  lemma {:induction false} SweepSnoc(w: World, rows: seq<nat>, d: nat, now: int)
    requires d in w.devices && forall i :: 0 <= i < |rows| ==> rows[i] in w.devices
    ensures Sweep(w, rows + [d], now).devices.Keys == w.devices.Keys == Sweep(w, rows, now).devices.Keys
    ensures Sweep(w, rows + [d], now) == SweepOne(Sweep(w, rows, now), d, now)
    decreases |rows|
  {
    if rows == [] {
      assert rows + [d] == [d];
    } else {
      var w1 := SweepOne(w, rows[0], now);
      assert (rows + [d])[1..] == rows[1..] + [d];
      SweepSnoc(w1, rows[1..], d, now);
    }
  }

  /** The database session, with the service methods that write through it. `Valid`
      is what the single-row lookups rely on. */
  class AlertSession {
    const settings: Settings
    var alerts: map<nat, Alert>
    var devices: map<nat, Device>
    var next: nat
    var notified: seq<Notice>

    ghost function Tables(): World
      reads this
    {
      World(alerts, devices, next, notified)
    }

    ghost predicate Valid()
      reads this
    {
      Unique(Tables())
    }

    constructor (settings: Settings, devices: map<nat, Device>)
      ensures Valid() && Tables() == World(map[], devices, 0, []) && this.settings == settings
    {
      this.settings, this.devices := settings, devices;
      alerts, next, notified := map[], 0, [];
    }

    /** A `select` for one unresolved alert; two rows would be an error. */
    method FindUnresolved(d: nat, k: AlertKind) returns (found: Option<nat>)
      requires Valid()
      ensures found.Some? <==> IsOpen(Tables(), d, k)
      ensures Unresolved(Tables(), d, k) == if found.Some? then {found.value} else {}
    {
      var ids := set id | id in alerts && Hit(alerts[id], d, k);
      assert ids == Unresolved(Tables(), d, k);
      assert forall id :: id in alerts && Hit(alerts[id], d, k) ==> id in ids;
      if ids == {} {
        return None;
      }
      var id :| id in ids;
      assert ids == {id};
      return Some(id);
    }

    method CreateAlert(d: nat, k: AlertKind, now: int)
      requires Valid() && d in devices
      modifies this
      ensures Valid() && Tables() == Create(old(Tables()), d, k, now)
    {
      CreateUnique(Tables(), d, k, now);
      if devices[d].maintenance {
        return;
      }
      var existing := FindUnresolved(d, k);
      if existing.Some? {
        return;
      }
      alerts := alerts[next := Alert(d, k, now, false, None)];
      next := next + 1;
      devices := devices[d := devices[d].(status := AlertStatus)];
      notified := notified + [Notice(d, k)];
    }

    method EvaluateMetrics(d: nat, r: Reading, now: int)
      requires Valid() && d in devices
      modifies this
      ensures Valid() && Tables() == Evaluate(old(Tables()), d, r, now, settings)
    {
      ghost var w := Tables();
      if r.cpu.Some? && r.cpu.value > settings.cpu {
        CreateAlert(d, HighCpu, now);
      }
      if r.ram.Some? && r.ram.value > settings.ram {
        CreateAlert(d, HighRam, now);
      }
      assert Tables() == CreateIf(CreateIf(w, d, HighCpu, now, Above(r.cpu, settings.cpu)), d, HighRam, now, Above(r.ram, settings.ram));
      if r.disk.Some? && r.disk.value > settings.disk {
        CreateAlert(d, DiskFull, now);
      }
      if r.temp.Some? && r.temp.value > settings.temp {
        CreateAlert(d, HighTemp, now);
      }
    }

    /** The bulk `update` statements that resolve alerts. */
    method UpdateResolved(d: nat, k: AlertKind, now: int)
      requires Valid()
      modifies this
      ensures Valid() && Tables() == ResolveAll(old(Tables()), d, k, now)
    {
      ResolveAllUnique(Tables(), d, k, now);
      ghost var w := Tables();
      alerts := map id | id in alerts :: Settle(alerts[id], d, k, now);
      assert alerts == ResolveAll(w, d, k, now).alerts;
    }

    method AutoResolveAlerts(d: nat, r: Reading, now: int)
      requires Valid()
      modifies this
      ensures Valid() && Tables() == AutoResolve(old(Tables()), d, r, now)
    {
      if r.cpu.Some? && r.cpu.value < 80.0 {
        UpdateResolved(d, HighCpu, now);
      }
      if r.ram.Some? && r.ram.value < 85.0 {
        UpdateResolved(d, HighRam, now);
      }
      if r.disk.Some? && r.disk.value < 90.0 {
        UpdateResolved(d, HighDisk, now);
      }
    }

    method HandleTelemetry(d: nat, r: Reading, now: int)
      requires Valid() && d in devices
      modifies this
      ensures Valid() && Tables() == Do(old(Tables()), Telemetry(d, r, now), settings)
    {
      devices := devices[d := devices[d].(status := Online, lastSeen := Some(now))];
      EvaluateMetrics(d, r, now);
      AutoResolveAlerts(d, r, now);
    }

    method HandleNtpStatus(d: nat, offset: real, usable: bool, now: int)
      requires Valid() && d in devices
      modifies this
      ensures Valid() && Tables() == Do(old(Tables()), NtpStatus(d, offset, usable, now), settings)
    {
      if Abs(offset) > settings.ntpOffset {
        CreateAlert(d, TimeDrift, now);
      }
      if !usable {
        CreateAlert(d, ClockSkew, now);
      } else {
        UpdateResolved(d, ClockSkew, now);
      }
    }

    method ResolveAlert(id: nat, now: int)
      requires Valid()
      modifies this
      ensures Valid() && Tables() == Do(old(Tables()), Resolve(id, now), settings)
    {
      if id in alerts {
        alerts := alerts[id := Close(alerts[id], now)];
      }
    }

    /** The body of the sweep for one stale device. */
    method MarkOffline(d: nat, now: int)
      requires Valid() && d in devices
      modifies this
      ensures Valid() && Tables() == SweepOne(old(Tables()), d, now)
    {
      SweepOneUnique(Tables(), d, now);
      devices := devices[d := devices[d].(status := OfflineStatus)];
      assert Tables() == SetStatus(old(Tables()), d, OfflineStatus);
      var existing := FindUnresolved(d, Offline);
      if existing.None? {
        alerts := alerts[next := Alert(d, Offline, now, false, None)];
        next := next + 1;
      }
    }

    /** The sweep over the stale devices, in the order in which the query returns them. */
    method CheckOfflineDevices(now: int) returns (rows: seq<nat>)
      requires Valid()
      modifies this
      ensures Enabled(old(Tables()), OfflineSweep(rows, now), settings)
      ensures Valid() && Tables() == Do(old(Tables()), OfflineSweep(rows, now), settings)
    {
      ghost var w := Tables();
      var todo := set d | d in devices && Stale(devices[d], now, settings);
      ghost var stale := todo;
      rows := [];
      while todo != {}
        invariant todo <= stale && (forall i :: 0 <= i < |rows| ==> rows[i] in stale)
        invariant forall d :: d in stale ==> d in todo || d in rows
        invariant devices.Keys == w.devices.Keys
        invariant Valid() && Tables() == Sweep(w, rows, now)
        decreases todo
      {
        var d :| d in todo;
        todo := todo - {d};
        SweepSnoc(w, rows, d, now);
        MarkOffline(d, now);
        rows := rows + [d];
      }
    }

    method DeleteOldAlerts(now: int)
      requires Valid()
      modifies this
      ensures Valid() && Tables() == Do(old(Tables()), Retention(now), settings)
    {
      var cutoff := now - settings.retention;
      alerts := map id | id in alerts && !(alerts[id].created < cutoff && alerts[id].resolved) :: alerts[id];
    }
  }
}
