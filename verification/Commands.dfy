/** The server's command table: dispatch, streamed output, results, the stale sweep,
    retention, and the replay on reconnect. Each database transaction is one atomic
    step; ids come from a counter, standing for UUIDs that never repeat; times are
    in seconds. */
module Commands {
  import opened Common

  datatype Status = Pending | Sent | Running | Completed | Failed

  datatype Command = Command(device: nat, kind: string, status: Status, created: int,
                             completedAt: Option<int>, exitCode: Option<int>, output: string)

  /** `devices` maps a device to whether it is revoked. */
  datatype Db = Db(commands: map<nat, Command>, devices: map<nat, bool>, next: nat)

  datatype Outcome = BadRequest | TooManyRequests | NotFound | Dispatched(id: nat, sent: bool)

  const ALLOWED: set<string> :=
    {"shell", "script", "update_check", "reboot", "sync_time", "request_process_list", "diagnostics", "update"}

  const MAX_ACTIVE: nat := 100
  const STALE_AFTER: int := 600
  const REPLAY_WINDOW: int := 3600

  // -------------------------------------------------------------- operations

  predicate Active(c: Command) {
    c.status.Pending? || c.status.Sent?
  }

  function ActiveOf(db: Db, d: nat): set<nat> {
    set id | id in db.commands && db.commands[id].device == d && Active(db.commands[id])
  }

  /** `dispatch_command`; `sent` says whether the device took the message. */
  function Dispatch(db: Db, d: nat, kind: string, failIfOffline: bool, sent: bool, now: int): (Db, Outcome) {
    if kind !in ALLOWED then (db, BadRequest)
    else if |ActiveOf(db, d)| >= MAX_ACTIVE then (db, TooManyRequests)
    else if d !in db.devices || db.devices[d] then (db, NotFound)
    else
      var c := Command(d, kind, Pending, now, None, None, "");
      var c' := if sent then c.(status := Sent)
                else if failIfOffline then c.(status := Failed, output := "Device not connected", completedAt := Some(now))
                else c;
      (db.(commands := db.commands[db.next := c'], next := db.next + 1), Dispatched(db.next, sent))
  }

  function WithOutput(db: Db, id: nat, text: string): Db {
    if id !in db.commands then db
    else db.(commands := db.commands[id := db.commands[id].(status := Running, output := text)])
  }

  function WithResult(db: Db, id: nat, exit: Option<int>, text: string, now: int): Db {
    if id !in db.commands then db
    else db.(commands := db.commands[id := db.commands[id].(
               status := if exit == Some(0) then Completed else Failed,
               exitCode := exit, output := text, completedAt := Some(now))])
  }

  predicate IsStale(c: Command, now: int) {
    c.status.Sent? && c.created < now - STALE_AFTER
  }

  function Expire(c: Command, now: int): Command {
    c.(status := Failed, output := "Connection lost before result received", completedAt := Some(now))
  }

  function FailStale(db: Db, now: int): Db {
    db.(commands := map id | id in db.commands ::
                      if IsStale(db.commands[id], now) then Expire(db.commands[id], now) else db.commands[id])
  }

  function DeleteOld(db: Db, cutoff: int): Db {
    db.(commands := map id | id in db.commands && !(db.commands[id].created < cutoff) :: db.commands[id])
  }

  /** What a reconnecting device is sent again. */
  function Replay(db: Db, d: nat, now: int): set<nat> {
    set id | id in db.commands && db.commands[id].device == d && db.commands[id].status.Sent?
             && db.commands[id].created >= now - REPLAY_WINDOW
  }

  datatype Step =
    | DispatchStep(device: nat, kind: string, failIfOffline: bool, sent: bool, now: int)
    | OutputStep(id: nat, text: string)
    | ResultStep(id: nat, exit: Option<int>, text: string, now: int)
    | StaleStep(now: int)
    | RetentionStep(cutoff: int)
    | DeviceStep(device: nat, revoked: bool)

  function Do(db: Db, t: Step): Db {
    match t
    case DispatchStep(d, kind, failIfOffline, sent, now) => Dispatch(db, d, kind, failIfOffline, sent, now).0
    case OutputStep(id, text) => WithOutput(db, id, text)
    case ResultStep(id, exit, text, now) => WithResult(db, id, exit, text, now)
    case StaleStep(now) => FailStale(db, now)
    case RetentionStep(cutoff) => DeleteOld(db, cutoff)
    case DeviceStep(d, revoked) => db.(devices := db.devices[d := revoked])
  }

  ghost predicate IsRun(trace: seq<Db>, steps: seq<Step>) {
    && |trace| == |steps| + 1
    && trace[0].commands == map[]
    && forall i :: 0 <= i < |steps| ==> trace[i + 1] == Do(trace[i], steps[i])
  }

  // -------------------------------------------------------------- invariants

  /** What each status says about the other columns. */
  predicate RowOk(c: Command) {
    && (Active(c) ==> c.exitCode.None? && c.completedAt.None?)
    && (c.status.Completed? ==> c.exitCode == Some(0) && c.completedAt.Some?)
    && (c.status.Failed? ==> c.exitCode != Some(0) && c.completedAt.Some?)
  }

  ghost predicate RowsOk(db: Db) {
    forall id :: id in db.commands ==> id < db.next && RowOk(db.commands[id])
  }

  ghost predicate Capped(db: Db) {
    forall d: nat :: |ActiveOf(db, d)| <= MAX_ACTIVE
  }

  /** Only a dispatch adds to the active commands, and only its own. */
  lemma {:induction false} ActiveAfter(db: Db, t: Step, d: nat)
    requires RowsOk(db)
    ensures ActiveOf(Do(db, t), d) <= ActiveOf(db, d) + {db.next}
    ensures !(t.DispatchStep? && t.device == d && |ActiveOf(db, d)| < MAX_ACTIVE) ==>
              ActiveOf(Do(db, t), d) <= ActiveOf(db, d)
  {
  }

  lemma {:induction false} StepKeepsCap(db: Db, t: Step)
    requires RowsOk(db) && Capped(db)
    ensures Capped(Do(db, t))
  {
    forall d: nat ensures |ActiveOf(Do(db, t), d)| <= MAX_ACTIVE {
      ActiveAfter(db, t, d);
      var before, after := ActiveOf(db, d), ActiveOf(Do(db, t), d);
      if after <= before {
        SubsetCardinality(after, before);
      } else {
        SubsetCardinality(after, before + {db.next});
      }
    }
  }

  lemma {:induction false} StepKeepsRows(db: Db, t: Step)
    requires RowsOk(db)
    ensures RowsOk(Do(db, t)) && db.next <= Do(db, t).next
  {
  }

  /** In every run each device has at most 100 queued commands, and the status of
      every command agrees with its exit code and completion time. */
  lemma {:induction false} CommandInvariant(trace: seq<Db>, steps: seq<Step>, i: nat)
    requires IsRun(trace, steps) && i < |trace|
    ensures RowsOk(trace[i]) && Capped(trace[i])
  {
    if i == 0 {
      forall d: nat ensures |ActiveOf(trace[0], d)| <= MAX_ACTIVE { assert ActiveOf(trace[0], d) == {}; }
    } else {
      CommandInvariant(trace, steps, i - 1);
      StepKeepsRows(trace[i - 1], steps[i - 1]);
      StepKeepsCap(trace[i - 1], steps[i - 1]);
    }
  }

  // ---------------------------------------------------------------- lifecycle

  predicate IsActive(db: Db, id: nat) {
    id in db.commands && Active(db.commands[id])
  }

  predicate IsSent(db: Db, id: nat) {
    id in db.commands && db.commands[id].status.Sent?
  }

  /** A command issued earlier neither becomes active nor becomes sent again. */
  lemma {:induction false} NothingReturns(db: Db, t: Step, id: nat)
    requires RowsOk(db) && id < db.next
    ensures IsActive(Do(db, t), id) ==> IsActive(db, id)
    ensures IsSent(Do(db, t), id) ==> IsSent(db, id)
    ensures id in Do(db, t).commands ==>
              id in db.commands && Do(db, t).commands[id].device == db.commands[id].device
              && Do(db, t).commands[id].created == db.commands[id].created
  {
  }

  /** A command that has left the queue (or was deleted) never returns to it. */
  lemma {:induction false} LeavingIsFinal(trace: seq<Db>, steps: seq<Step>, i: nat, j: nat, id: nat)
    requires IsRun(trace, steps) && i <= j < |trace| && id < trace[i].next
    ensures id < trace[j].next
    ensures !IsActive(trace[i], id) ==> !IsActive(trace[j], id)
    ensures !IsSent(trace[i], id) ==> !IsSent(trace[j], id)
  {
    if i < j {
      LeavingIsFinal(trace, steps, i, j - 1, id);
      CommandInvariant(trace, steps, j - 1);
      StepKeepsRows(trace[j - 1], steps[j - 1]);
      NothingReturns(trace[j - 1], steps[j - 1], id);
    }
  }

  /** A command left pending because its device was away is never replayed to it,
      nor is one that has finished, however often the device reconnects later. */
  lemma {:induction false} UnsentIsNeverReplayed(trace: seq<Db>, steps: seq<Step>, i: nat, j: nat, id: nat, d: nat, now: int)
    requires IsRun(trace, steps) && i <= j < |trace|
    requires id in trace[i].commands && !trace[i].commands[id].status.Sent?
    ensures id !in Replay(trace[j], d, now)
  {
    CommandInvariant(trace, steps, i);
    LeavingIsFinal(trace, steps, i, j, id);
  }

  /** Once a sweep has run, no command sent more than ten minutes before it is replayed. */
  lemma {:induction false} StaleIsNeverReplayed(trace: seq<Db>, steps: seq<Step>, i: nat, j: nat, id: nat, d: nat, now: int)
    requires IsRun(trace, steps) && i < j < |trace| && steps[i].StaleStep?
    requires id in trace[i].commands && steps[i].now - trace[i].commands[id].created > 10 * 60
    ensures id !in Replay(trace[j], d, now)
  {
    CommandInvariant(trace, steps, i);
    assert !IsSent(trace[i + 1], id);
    LeavingIsFinal(trace, steps, i + 1, j, id);
  }

  // ------------------------------------------------ replay, told by the history

  /** Step `i` issued the command `id`. */
  ghost predicate Issued(trace: seq<Db>, steps: seq<Step>, i: nat, id: nat)
    requires IsRun(trace, steps) && i < |steps|
  {
    steps[i].DispatchStep? && trace[i].next == id && trace[i + 1].next == id + 1
  }

  /** The step takes a command issued at `created` out of the sent ones. */
  predicate Ends(t: Step, id: nat, created: int) {
    match t
    case OutputStep(id', _) => id' == id
    case ResultStep(id', _, _, _) => id' == id
    case StaleStep(now) => now - created > 10 * 60
    case RetentionStep(cutoff) => created < cutoff
    case _ => false
  }

  /** Issued by step `i`, taken by the device at once, and nothing heard or swept since. */
  ghost predicate Outstanding(trace: seq<Db>, steps: seq<Step>, i: nat, j: nat, id: nat)
    requires IsRun(trace, steps) && i < j < |trace|
  {
    && Issued(trace, steps, i, id) && steps[i].sent
    && forall k :: i < k < j ==> !Ends(steps[k], id, steps[i].now)
  }

  lemma {:induction false} IdsGrow(trace: seq<Db>, steps: seq<Step>, i: nat, j: nat)
    requires IsRun(trace, steps) && i <= j < |trace|
    ensures trace[i].next <= trace[j].next
  {
    if i < j {
      IdsGrow(trace, steps, i, j - 1);
      CommandInvariant(trace, steps, j - 1);
      StepKeepsRows(trace[j - 1], steps[j - 1]);
    }
  }

  /** From its issue on, the row of a command is sent iff the history says so. */
  lemma {:induction false} SentIffOutstanding(trace: seq<Db>, steps: seq<Step>, i: nat, j: nat, id: nat)
    requires IsRun(trace, steps) && i < j < |trace| && Issued(trace, steps, i, id)
    ensures IsSent(trace[j], id) <==> Outstanding(trace, steps, i, j, id)
    ensures id in trace[j].commands ==>
              trace[j].commands[id].device == steps[i].device && trace[j].commands[id].created == steps[i].now
  {
    CommandInvariant(trace, steps, j - 1);
    assert trace[j] == Do(trace[j - 1], steps[j - 1]);
    if i + 1 < j {
      SentIffOutstanding(trace, steps, i, j - 1, id);
      IdsGrow(trace, steps, i + 1, j - 1);
      SentStep(trace[j - 1], steps[j - 1], id);
    }
  }

  /** One step on a command issued earlier. */
  lemma {:induction false} SentStep(db: Db, t: Step, id: nat)
    requires RowsOk(db) && id < db.next
    ensures IsSent(Do(db, t), id) <==> IsSent(db, id) && !Ends(t, id, db.commands[id].created)
    ensures id in Do(db, t).commands ==>
              id in db.commands && Do(db, t).commands[id].device == db.commands[id].device
              && Do(db, t).commands[id].created == db.commands[id].created
  {
  }

  /** A reconnecting device is sent again exactly the commands that were delivered to
      it within the last hour and that neither it nor a sweep has ended since. */
  lemma {:induction false} ReplayIsTheOutstanding(trace: seq<Db>, steps: seq<Step>, i: nat, j: nat, id: nat, d: nat, now: int)
    requires IsRun(trace, steps) && i < j < |trace| && Issued(trace, steps, i, id)
    ensures id in Replay(trace[j], d, now) <==>
            Outstanding(trace, steps, i, j, id) && steps[i].device == d && now - steps[i].now <= 60 * 60
  {
    SentIffOutstanding(trace, steps, i, j, id);
  }

  // ------------------------------------------------ status, told by the history

  /** What the device says about a command: streamed output, or the result. */
  predicate Reports(t: Step, id: nat) {
    (t.OutputStep? || t.ResultStep?) && t.id == id
  }

  function LastReport(steps: seq<Step>, id: nat): Option<Step> {
    if steps == [] then None
    else if Reports(steps[|steps| - 1], id) then Some(steps[|steps| - 1])
    else LastReport(steps[..|steps| - 1], id)
  }

  predicate Sweeps(t: Step, created: int) {
    t.StaleStep? && t.now - created > 10 * 60
  }

  predicate Deletes(t: Step, created: int) {
    t.RetentionStep? && created < t.cutoff
  }

  /** The status of a command that had status `first`, after more steps: the last report
      decides, whatever came before it; without one only a sweep of a sent command counts. */
  ghost function Told(first: Status, created: int, steps: seq<Step>, id: nat): Status {
    match LastReport(steps, id)
    case Some(ResultStep(_, exit, _, _)) => if exit == Some(0) then Completed else Failed
    case Some(_) => Running
    case None => if first.Sent? && (exists m :: 0 <= m < |steps| && Sweeps(steps[m], created)) then Failed else first
  }

  /** What one step does to the status of a command. */
  function Next(status: Status, created: int, t: Step, id: nat): Status {
    if Reports(t, id) then (if t.OutputStep? then Running else if t.exit == Some(0) then Completed else Failed)
    else if Sweeps(t, created) && status.Sent? then Failed
    else status
  }

  /** What one step does to the other columns. */
  function NextRow(c: Command, t: Step, id: nat): Command {
    var status := Next(c.status, c.created, t, id);
    if t.OutputStep? && t.id == id then Command(c.device, c.kind, status, c.created, c.completedAt, c.exitCode, t.text)
    else if t.ResultStep? && t.id == id then Command(c.device, c.kind, status, c.created, Some(t.now), t.exit, t.text)
    else if Sweeps(t, c.created) && c.status.Sent?
    then Command(c.device, c.kind, status, c.created, Some(t.now), c.exitCode, "Connection lost before result received")
    else c
  }

  lemma {:induction false} StepTells(db: Db, t: Step, id: nat)
    requires RowsOk(db) && id < db.next
    ensures id in Do(db, t).commands <==> id in db.commands && !Deletes(t, db.commands[id].created)
    ensures id in Do(db, t).commands ==> Do(db, t).commands[id] == NextRow(db.commands[id], t, id)
  {
  }

  /** The exit code that the last result reported, or the one that was there before. */
  function ExitTold(first: Option<int>, steps: seq<Step>, id: nat): Option<int> {
    if steps == [] then first
    else
      var t := steps[|steps| - 1];
      if t.ResultStep? && t.id == id then t.exit else ExitTold(first, steps[..|steps| - 1], id)
  }

  /** The row after more steps. */
  function RowTold(c: Command, steps: seq<Step>, id: nat): Command {
    if steps == [] then c else NextRow(RowTold(c, steps[..|steps| - 1], id), steps[|steps| - 1], id)
  }

  lemma {:induction false} RowToldSnoc(c: Command, steps: seq<Step>, t: Step, id: nat)
    ensures RowTold(c, steps + [t], id) == NextRow(RowTold(c, steps, id), t, id)
  {
    assert (steps + [t])[..|steps|] == steps;
  }

  lemma {:induction false} RowToldColumns(c: Command, steps: seq<Step>, id: nat)
    ensures var r := RowTold(c, steps, id);
            && r.device == c.device && r.kind == c.kind && r.created == c.created
            && r.status == Told(c.status, c.created, steps, id)
            && r.exitCode == ExitTold(c.exitCode, steps, id)
  {
    if steps != [] {
      var before := steps[..|steps| - 1];
      RowToldColumns(c, before, id);
      assert steps == before + [steps[|steps| - 1]];
      ToldSnoc(c.status, c.created, before, steps[|steps| - 1], id);
    }
  }

  lemma {:induction false} ToldSnoc(first: Status, created: int, steps: seq<Step>, t: Step, id: nat)
    ensures Told(first, created, steps + [t], id) == Next(Told(first, created, steps, id), created, t, id)
  {
    var all := steps + [t];
    assert all[..|all| - 1] == steps && all[|all| - 1] == t;
    if m :| 0 <= m < |steps| && Sweeps(steps[m], created) {
      assert all[m] == steps[m];
    }
    if m :| 0 <= m < |all| && Sweeps(all[m], created) {
      assert m < |steps| ==> Sweeps(steps[m], created);
    }
  }

  lemma {:induction false} RunStepTells(trace: seq<Db>, steps: seq<Step>, i: nat, j: nat, id: nat)
    requires IsRun(trace, steps) && i <= j < |steps| && id in trace[i].commands
    ensures id in trace[j + 1].commands <==> id in trace[j].commands && !Deletes(steps[j], trace[j].commands[id].created)
    ensures id in trace[j + 1].commands ==> trace[j + 1].commands[id] == NextRow(trace[j].commands[id], steps[j], id)
  {
    CommandInvariant(trace, steps, i);
    CommandInvariant(trace, steps, j);
    IdsGrow(trace, steps, i, j);
    StepTells(trace[j], steps[j], id);
  }

  /** In every run a command is in the table until a retention step deletes it. */
  lemma {:induction false} PresentUntilDeleted(trace: seq<Db>, steps: seq<Step>, i: nat, j: nat, id: nat)
    requires IsRun(trace, steps) && i <= j < |trace| && id in trace[i].commands
    ensures id in trace[j].commands ==> trace[j].commands[id].created == trace[i].commands[id].created
    ensures id in trace[j].commands <==> forall m :: i <= m < j ==> !Deletes(steps[m], trace[i].commands[id].created)
  {
    if i < j {
      PresentUntilDeleted(trace, steps, i, j - 1, id);
      RunStepTells(trace, steps, i, j - 1, id);
    }
  }

  /** In every run, from any point on, the row of a command is the one that the steps
      since then tell. */
  lemma {:induction false} RowIsTold(trace: seq<Db>, steps: seq<Step>, i: nat, j: nat, id: nat)
    requires IsRun(trace, steps) && i <= j < |trace| && id in trace[i].commands && id in trace[j].commands
    ensures trace[j].commands[id] == RowTold(trace[i].commands[id], steps[i..j], id)
  {
    if i < j {
      RunStepTells(trace, steps, i, j - 1, id);
      RowIsTold(trace, steps, i, j - 1, id);
      RowToldSnoc(trace[i].commands[id], steps[i..j - 1], steps[j - 1], id);
      assert steps[i..j - 1] + [steps[j - 1]] == steps[i..j];
    }
  }

  /** The same for the columns that matter: the status is decided by the last report, the
      exit code by the last result, and what the command is never changes. */
  lemma {:induction false} StatusIsTold(trace: seq<Db>, steps: seq<Step>, i: nat, j: nat, id: nat)
    requires IsRun(trace, steps) && i <= j < |trace| && id in trace[i].commands && id in trace[j].commands
    ensures var row, row' := trace[i].commands[id], trace[j].commands[id];
            && row'.device == row.device && row'.kind == row.kind && row'.created == row.created
            && row'.status == Told(row.status, row.created, steps[i..j], id)
            && row'.exitCode == ExitTold(row.exitCode, steps[i..j], id)
  {
    RowIsTold(trace, steps, i, j, id);
    RowToldColumns(trace[i].commands[id], steps[i..j], id);
  }

  /** When a dispatch is turned away, and with what answer. The device must be known and
      not revoked, and have fewer than a hundred commands pending or sent. */
  lemma {:induction false} DispatchAnswers(db: Db, d: nat, kind: string, failIfOffline: bool, sent: bool, now: int)
    ensures var allowed := kind in {"shell", "script", "update_check", "reboot", "sync_time", "request_process_list", "diagnostics", "update"};
            var full := |set id | id in db.commands && db.commands[id].device == d
                                  && (db.commands[id].status == Pending || db.commands[id].status == Sent)| >= 100;
            var known := d in db.devices && !db.devices[d];
            var (db', outcome) := Dispatch(db, d, kind, failIfOffline, sent, now);
            && (outcome == BadRequest <==> !allowed)
            && (outcome == TooManyRequests <==> allowed && full)
            && (outcome == NotFound <==> allowed && !full && !known)
            && (outcome == Dispatched(db.next, sent) <==> allowed && !full && known)
            && (!outcome.Dispatched? ==> db' == db)
  {
    assert ActiveOf(db, d) == set id | id in db.commands && db.commands[id].device == d
                                       && (db.commands[id].status == Pending || db.commands[id].status == Sent);
  }

  /** A dispatch issues a command in a run iff it is answered so. */
  lemma {:induction false} IssuedIff(trace: seq<Db>, steps: seq<Step>, i: nat)
    requires IsRun(trace, steps) && i < |steps| && steps[i].DispatchStep?
    ensures var t := steps[i];
            Issued(trace, steps, i, trace[i].next) <==>
            Dispatch(trace[i], t.device, t.kind, t.failIfOffline, t.sent, t.now).1 == Dispatched(trace[i].next, t.sent)
  {
  }

  /** The row that a dispatch makes: sent if the device took the message, failed at once
      if it did not and the caller wants that, and pending otherwise. */
  function FirstRow(t: Step): Command
    requires t.DispatchStep?
  {
    if t.sent then Command(t.device, t.kind, Sent, t.now, None, None, "")
    else if t.failIfOffline then Command(t.device, t.kind, Failed, t.now, Some(t.now), None, "Device not connected")
    else Command(t.device, t.kind, Pending, t.now, None, None, "")
  }

  /** A command from its issue on: it is in the table until a retention step deletes it;
      device, kind and creation time are those of the dispatch; and status and exit code
      follow from the flags of the dispatch and the steps since. */
  lemma {:induction false} SinceIssue(trace: seq<Db>, steps: seq<Step>, i: nat, j: nat, id: nat)
    requires IsRun(trace, steps) && i < j < |trace| && Issued(trace, steps, i, id)
    ensures id in trace[j].commands <==> forall m :: i < m < j ==> !Deletes(steps[m], steps[i].now)
    ensures id in trace[j].commands ==>
              var t, row := steps[i], trace[j].commands[id];
              && row == RowTold(FirstRow(t), steps[i + 1..j], id)
              && row.device == t.device && row.kind == t.kind && row.created == t.now
              && row.status == Told(if t.sent then Sent else if t.failIfOffline then Failed else Pending, t.now, steps[i + 1..j], id)
              && row.exitCode == ExitTold(None, steps[i + 1..j], id)
  {
    assert trace[i + 1] == Do(trace[i], steps[i]);
    assert id in trace[i + 1].commands && trace[i + 1].commands[id] == FirstRow(steps[i]);
    PresentUntilDeleted(trace, steps, i + 1, j, id);
    if id in trace[j].commands {
      RowIsTold(trace, steps, i + 1, j, id);
      RowToldColumns(FirstRow(steps[i]), steps[i + 1..j], id);
    }
  }

  predicate Finished(c: Command) {
    c.status.Completed? || c.status.Failed?
  }

  /** A finished command is finished at any later time iff the last report since, if
      there is one, is a result: a late output sets it running again, and then it
      stays running, out of reach of the sweep and of replay, until another result. */
  lemma {:induction false} FinishedStaysFinishedIff(trace: seq<Db>, steps: seq<Step>, i: nat, j: nat, id: nat)
    requires IsRun(trace, steps) && i <= j < |trace| && id in trace[i].commands && Finished(trace[i].commands[id])
    requires id in trace[j].commands
    ensures var last := LastReport(steps[i..j], id);
            && (Finished(trace[j].commands[id]) <==> last.None? || last.value.ResultStep?)
            && (!Finished(trace[j].commands[id]) ==> trace[j].commands[id].status == Running)
  {
    StatusIsTold(trace, steps, i, j, id);
    LastReportReports(steps[i..j], id);
  }

  lemma {:induction false} LastReportReports(steps: seq<Step>, id: nat)
    ensures LastReport(steps, id).Some? ==> Reports(LastReport(steps, id).value, id)
  {
    if steps != [] {
      LastReportReports(steps[..|steps| - 1], id);
    }
  }

  /** A run in which a completed command is running again, with its exit code and
      completion time still in place. */
  lemma {:induction false} LateOutputReopens(d: nat) returns (trace: seq<Db>, steps: seq<Step>)
    ensures IsRun(trace, steps) && |steps| == 3
    ensures 0 in trace[2].commands && trace[2].commands[0].status == Completed
    ensures 0 in trace[3].commands && trace[3].commands[0].status == Running && trace[3].commands[0].exitCode == Some(0)
  {
    steps := [DispatchStep(d, "reboot", false, true, 0), ResultStep(0, Some(0), "", 1), OutputStep(0, "late")];
    var db := Db(map[], map[d := false], 0);
    assert ActiveOf(db, d) == {};
    var db1 := Do(db, steps[0]);
    var db2 := Do(db1, steps[1]);
    trace := [db, db1, db2, Do(db2, steps[2])];
  }

  // --------------------------------------------------------------- the service

  class CommandSession {
    var commands: map<nat, Command>
    var devices: map<nat, bool>
    var next: nat

    ghost function Tables(): Db
      reads this
    {
      Db(commands, devices, next)
    }

    ghost predicate Valid()
      reads this
    {
      RowsOk(Tables()) && Capped(Tables())
    }

    constructor (devices: map<nat, bool>)
      ensures Valid() && Tables() == Db(map[], devices, 0)
    {
      this.devices := devices;
      commands, next := map[], 0;
      new;
      forall d: nat ensures |ActiveOf(Tables(), d)| <= MAX_ACTIVE { assert ActiveOf(Tables(), d) == {}; }
    }

    /** Inserts the row as pending, then records what became of the message. */
    method DispatchCommand(d: nat, kind: string, failIfOffline: bool, delivered: bool, now: int) returns (outcome: Outcome)
      requires Valid()
      modifies this
      ensures Valid() && (Tables(), outcome) == Dispatch(old(Tables()), d, kind, failIfOffline, delivered, now)
    {
      ghost var t := DispatchStep(d, kind, failIfOffline, delivered, now);
      StepKeepsRows(Tables(), t);
      StepKeepsCap(Tables(), t);
      if kind !in ALLOWED {
        return BadRequest;
      }
      var queued := set id | id in commands && commands[id].device == d && Active(commands[id]);
      assert queued == ActiveOf(Tables(), d);
      if |queued| >= MAX_ACTIVE {
        return TooManyRequests;
      }
      if d !in devices || devices[d] {
        return NotFound;
      }
      var id := next;
      next := next + 1;
      commands := commands[id := Command(d, kind, Pending, now, None, None, "")];
      if delivered {
        commands := commands[id := commands[id].(status := Sent)];
      } else if failIfOffline {
        commands := commands[id := commands[id].(status := Failed, output := "Device not connected", completedAt := Some(now))];
      }
      assert commands == Dispatch(old(Tables()), d, kind, failIfOffline, delivered, now).0.commands;
      return Dispatched(id, delivered);
    }

    method HandleCommandOutput(id: nat, text: string)
      requires Valid()
      modifies this
      ensures Valid() && Tables() == Do(old(Tables()), OutputStep(id, text))
    {
      StepKeepsRows(Tables(), OutputStep(id, text));
      StepKeepsCap(Tables(), OutputStep(id, text));
      if id in commands {
        commands := commands[id := commands[id].(status := Running, output := text)];
      }
    }

    method HandleCommandResult(id: nat, exit: Option<int>, text: string, now: int)
      requires Valid()
      modifies this
      ensures Valid() && Tables() == Do(old(Tables()), ResultStep(id, exit, text, now))
    {
      StepKeepsRows(Tables(), ResultStep(id, exit, text, now));
      StepKeepsCap(Tables(), ResultStep(id, exit, text, now));
      if id !in commands {
        return;
      }
      var status := if exit == Some(0) then Completed else Failed;
      commands := commands[id := commands[id].(status := status, exitCode := exit, output := text, completedAt := Some(now))];
    }

    method CleanupStaleCommands(now: int) returns (failed: nat)
      requires Valid()
      modifies this
      ensures Valid() && Tables() == Do(old(Tables()), StaleStep(now))
      ensures failed == |set id | id in old(commands) && IsStale(old(commands)[id], now)|
    {
      StepKeepsRows(Tables(), StaleStep(now));
      StepKeepsCap(Tables(), StaleStep(now));
      var hits := set id | id in commands && IsStale(commands[id], now);
      commands := map id | id in commands :: if IsStale(commands[id], now) then Expire(commands[id], now) else commands[id];
      failed := |hits|;
    }

    method DeleteOldCommands(cutoff: int)
      requires Valid()
      modifies this
      ensures Valid() && Tables() == Do(old(Tables()), RetentionStep(cutoff))
    {
      StepKeepsRows(Tables(), RetentionStep(cutoff));
      StepKeepsCap(Tables(), RetentionStep(cutoff));
      commands := map id | id in commands && !(commands[id].created < cutoff) :: commands[id];
    }

    /** The commands sent again when the device reconnects, each once. */
    method ReplaySent(d: nat, now: int) returns (messages: seq<nat>)
      ensures forall id :: id in messages <==> id in Replay(Tables(), d, now)
      ensures forall i, j :: 0 <= i < j < |messages| ==> messages[i] != messages[j]
    {
      var rows := set id | id in commands && commands[id].device == d && commands[id].status.Sent?
                           && commands[id].created >= now - REPLAY_WINDOW;
      ghost var all := rows;
      assert all == Replay(Tables(), d, now);
      messages := [];
      while rows != {}
        invariant rows <= all && forall id :: id in messages <==> id in all - rows
        invariant forall i, j :: 0 <= i < j < |messages| ==> messages[i] != messages[j]
        decreases rows
      {
        var id :| id in rows;
        assert id !in messages;
        rows := rows - {id};
        messages := messages + [id];
      }
    }
  }
}
