/**
  Where everything the scheduler has on file comes from, over every run: slots from the clocks of its
  calls, frozen snapshots from exports it started and read, receipts from proofs that checked out.
 */
module ScheduleEvidence {
  import opened Schedule
  import opened ScheduleSafety
  import opened ScheduleTheorems
  import opened ScheduleOutcomes

  // ---------------------------------------------------------------- what was asked and answered

  ghost predicate Asked(actions: seq<Action>, c: Config, now: int) {
    exists pid: nat :: Launch(pid, c, now) in actions
  }

  ghost predicate Answered(actions: seq<Action>, e: Event) {
    exists pid: nat :: Step(pid, e) in actions
  }

  ghost predicate InSlot(slot: int, c: Config, now: int) {
    slot * c.intervalSeconds * 1000 <= now < (slot + 1) * c.intervalSeconds * 1000
  }

  /** Some call under the configuration was made in the slot. */
  ghost predicate Dated(actions: seq<Action>, slot: int, c: Config) {
    exists now: int :: Asked(actions, c, now) && InSlot(slot, c, now)
  }

  ghost predicate DatedId(actions: seq<Action>, id: BackupId) {
    exists c: Config :: Dated(actions, id.slot, c) && id.startSeconds == id.slot * c.intervalSeconds && id.taskId == c.taskId
  }

  ghost predicate DatedJob(actions: seq<Action>, j: Job) {
    j.config.Some? && Dated(actions, j.slot, j.config.value)
  }

  /** The snapshot of a job is what an export started for its slot was answered with. */
  ghost predicate Exported(actions: seq<Action>, h: History, j: Job) {
    j.snapshot.Some? && j.config.Some? ==>
      && Answered(actions, Content(j.snapshot.value.sha256))
      && ExportRun(j.slot, j.snapshot.value.attempt, j.config.value) in h.exports
  }

  ghost predicate Proven(actions: seq<Action>, r: Receipt) {
    r.Written? ==> Answered(actions, Proof(r.backupId, r.sha256, r.archive, true))
  }

  // ---------------------------------------------------------------- the invariant

  ghost predicate ProcessSourced(actions: seq<Action>, h: History, pid: nat, p: Process) {
    match p
    case Starting(c, now) => Asked(actions, c, now)
    case Loading(c, now) => Asked(actions, c, now)
    case Working(pc, c, now, _, j, _) =>
      && Asked(actions, c, now) && DatedJob(actions, j) && Exported(actions, h, j)
      && (pc.Exporting? ==> ExportRun(j.slot, j.attempts, c) in h.exports && j.config == Some(c))
      && (pc.SaveRunning? || pc.StartBackup? || pc.BackingUp? ==>
            j.snapshot.Some? && Step(pid, Content(j.snapshot.value.sha256)) in actions)
      && (pc.CreateReceipt? || pc.FillReceipt? ==> Proven(actions, pc.receipt))
    case Exited(_) => true
  }

  ghost predicate FilesSourced(actions: seq<Action>, d: Disk, h: History) {
    && (Loaded(d).job.Some? ==> DatedJob(actions, Loaded(d).job.value) && Exported(actions, h, Loaded(d).job.value))
    && (forall slot :: slot in d.receipts ==> Proven(actions, d.receipts[slot]))
    && (forall k :: 0 <= k < |h.exports| ==> Dated(actions, h.exports[k].slot, h.exports[k].config))
    && (forall k :: 0 <= k < |h.backups| ==> DatedId(actions, h.backups[k].backupId))
  }

  ghost predicate Sourced(actions: seq<Action>, w: World) {
    && FilesSourced(actions, w.disk, w.history)
    && forall pid :: pid in w.processes ==> ProcessSourced(actions, w.history, pid, w.processes[pid])
  }

  // ---------------------------------------------------------------- more of the past keeps it

  lemma AskedGrows(actions: seq<Action>, a: Action, c: Config, now: int)
    requires Asked(actions, c, now)
    ensures Asked(actions + [a], c, now)
  {
    var pid: nat :| Launch(pid, c, now) in actions;
    assert Launch(pid, c, now) in actions + [a];
  }

  lemma AnsweredGrows(actions: seq<Action>, a: Action, e: Event)
    requires Answered(actions, e)
    ensures Answered(actions + [a], e)
  {
    var pid: nat :| Step(pid, e) in actions;
    assert Step(pid, e) in actions + [a];
  }

  lemma DatedGrows(actions: seq<Action>, a: Action, slot: int, c: Config)
    requires Dated(actions, slot, c)
    ensures Dated(actions + [a], slot, c)
  {
    var now: int :| Asked(actions, c, now) && InSlot(slot, c, now);
    AskedGrows(actions, a, c, now);
  }

  lemma DatedIdGrows(actions: seq<Action>, a: Action, id: BackupId)
    requires DatedId(actions, id)
    ensures DatedId(actions + [a], id)
  {
    var c: Config :| Dated(actions, id.slot, c) && id.startSeconds == id.slot * c.intervalSeconds && id.taskId == c.taskId;
    DatedGrows(actions, a, id.slot, c);
  }

  lemma JobGrows(actions: seq<Action>, a: Action, h: History, k: History, j: Job)
    requires DatedJob(actions, j) && Exported(actions, h, j) && h.exports <= k.exports
    ensures DatedJob(actions + [a], j) && Exported(actions + [a], k, j)
  {
    DatedGrows(actions, a, j.slot, j.config.value);
    if j.snapshot.Some? {
      AnsweredGrows(actions, a, Content(j.snapshot.value.sha256));
      StillIn(h.exports, k.exports, ExportRun(j.slot, j.snapshot.value.attempt, j.config.value));
    }
  }

  lemma StillIn<T>(a: seq<T>, b: seq<T>, x: T)
    requires a <= b && x in a
    ensures x in b
  {
    var i :| 0 <= i < |a| && a[i] == x;
    assert b[i] == x;
  }

  lemma ReceiptGrows(actions: seq<Action>, a: Action, r: Receipt)
    requires Proven(actions, r)
    ensures Proven(actions + [a], r)
  {
    if r.Written? { AnsweredGrows(actions, a, Proof(r.backupId, r.sha256, r.archive, true)); }
  }

  lemma ProcessGrows(actions: seq<Action>, a: Action, h: History, k: History, pid: nat, p: Process)
    requires ProcessSourced(actions, h, pid, p) && h.exports <= k.exports
    ensures ProcessSourced(actions + [a], k, pid, p)
  {
    match p
    case Starting(c, now) => AskedGrows(actions, a, c, now);
    case Loading(c, now) => AskedGrows(actions, a, c, now);
    case Working(pc, c, now, _, j, _) =>
      AskedGrows(actions, a, c, now);
      JobGrows(actions, a, h, k, j);
      if pc.CreateReceipt? || pc.FillReceipt? { ReceiptGrows(actions, a, pc.receipt); }
    case Exited(_) =>
  }

  lemma FilesGrow(actions: seq<Action>, a: Action, d: Disk, h: History)
    requires FilesSourced(actions, d, h)
    ensures FilesSourced(actions + [a], d, h)
  {
    if Loaded(d).job.Some? { JobGrows(actions, a, h, h, Loaded(d).job.value); }
    forall slot | slot in d.receipts ensures Proven(actions + [a], d.receipts[slot]) { ReceiptGrows(actions, a, d.receipts[slot]); }
    forall k | 0 <= k < |h.exports| ensures Dated(actions + [a], h.exports[k].slot, h.exports[k].config) {
      DatedGrows(actions, a, h.exports[k].slot, h.exports[k].config);
    }
    forall k | 0 <= k < |h.backups| ensures DatedId(actions + [a], h.backups[k].backupId) {
      DatedIdGrows(actions, a, h.backups[k].backupId);
    }
  }

  // ---------------------------------------------------------------- one step

  /** What a working step writes, file by file. */
  lemma Writes(w: World, pid: nat, e: Event)
    requires pid in w.processes && w.processes[pid].Working?
    ensures var p := w.processes[pid];
            var j, v := p.job, StepWorking(w, pid, p, e);
            && (v.disk.state == w.disk.state || v.disk.state == Some(Memory(p)))
            && (|| v.disk.receipts == w.disk.receipts
                || (p.pc.CreateReceipt? && v.disk.receipts == w.disk.receipts[j.slot := Torn])
                || (p.pc.FillReceipt? && v.disk.receipts == w.disk.receipts[j.slot := p.pc.receipt]))
  {}

  lemma StartsExports(w: World, pid: nat, e: Event)
    requires pid in w.processes && w.processes[pid].Working?
    ensures var p := w.processes[pid];
            var j, h := p.job, w.history;
            StepWorking(w, pid, p, e).history.exports ==
            if p.pc.StartExport? then h.exports + [ExportRun(j.slot, j.attempts, p.config)] else h.exports
  {}

  lemma StartsBackups(w: World, pid: nat, e: Event)
    requires pid in w.processes && w.processes[pid].Working?
    ensures var p := w.processes[pid];
            var h := w.history;
            StepWorking(w, pid, p, e).history.backups ==
            if p.pc.StartBackup? then h.backups + [BackupRun(p.job.backupId, p.pc.resume)] else h.backups
  {}

  lemma MovesOne(w: World, pid: nat, e: Event)
    requires pid in w.processes && w.processes[pid].Working?
    ensures var v := StepWorking(w, pid, w.processes[pid], e);
            pid in v.processes && v.processes == w.processes[pid := v.processes[pid]]
  {}

  lemma Starts(w: World, pid: nat, e: Event)
    requires pid in w.processes && w.processes[pid].Working?
    ensures var p := w.processes[pid];
            var j, h, v := p.job, w.history, StepWorking(w, pid, p, e);
            && pid in v.processes && v.processes == w.processes[pid := v.processes[pid]]
            && v.history.exports == (if p.pc.StartExport? then h.exports + [ExportRun(j.slot, j.attempts, p.config)] else h.exports)
            && v.history.backups == (if p.pc.StartBackup? then h.backups + [BackupRun(j.backupId, p.pc.resume)] else h.backups)
  {
    StartsExports(w, pid, e);
    StartsBackups(w, pid, e);
    MovesOne(w, pid, e);
  }

  /** Inside an attempt, the job is the configuration's own. */
  lemma OwnJob(w: World, pid: nat)
    requires ScheduleSafety.Holding(w, pid)
    requires !w.processes[pid].pc.SaveNewJob? && !w.processes[pid].pc.CheckJob?
    ensures var p := w.processes[pid];
            p.job.config == Some(p.config) && p.job.backupId == IdOf(p.config, p.job.slot)
  {}

  lemma StartIsDated(actions: seq<Action>, w: World, pid: nat)
    requires ScheduleSafety.Holding(w, pid) && ProcessSourced(actions, w.history, pid, w.processes[pid])
    requires w.processes[pid].pc.StartExport? || w.processes[pid].pc.StartBackup?
    ensures var p := w.processes[pid];
            Dated(actions, p.job.slot, p.config) && DatedId(actions, p.job.backupId)
  {
    OwnJob(w, pid);
  }

  lemma FilesStay(actions: seq<Action>, w: World, pid: nat, e: Event)
    requires ScheduleSafety.Holding(w, pid)
    requires FilesSourced(actions, w.disk, w.history) && ProcessSourced(actions, w.history, pid, w.processes[pid])
    ensures var v := StepWorking(w, pid, w.processes[pid], e);
            FilesSourced(actions, v.disk, v.history)
  {
    var p := w.processes[pid];
    var v := StepWorking(w, pid, p, e);
    Writes(w, pid, e);
    Starts(w, pid, e);
    if p.pc.StartExport? || p.pc.StartBackup? { StartIsDated(actions, w, pid); }
    FilesHold(actions, w.disk, w.history, v.disk, v.history, p.job);
  }

  lemma FilesHold(actions: seq<Action>, d: Disk, h: History, e: Disk, k: History, j: Job)
    requires FilesSourced(actions, d, h) && DatedJob(actions, j) && Exported(actions, h, j)
    requires Loaded(e).job.Some? ==> Loaded(e).job == Loaded(d).job || Loaded(e).job == Some(j)
    requires forall slot :: slot in e.receipts ==>
                              (slot in d.receipts && e.receipts[slot] == d.receipts[slot]) || Proven(actions, e.receipts[slot])
    requires k.exports == h.exports
             || exists x: ExportRun :: k.exports == h.exports + [x] && Dated(actions, x.slot, x.config)
    requires k.backups == h.backups || exists x: BackupRun :: k.backups == h.backups + [x] && DatedId(actions, x.backupId)
    ensures FilesSourced(actions, e, k)
  {
    assert h.exports <= k.exports;
    if Loaded(e).job.Some? { ExportedHolds(actions, h, k, Loaded(e).job.value); }
  }

  lemma ExportedHolds(actions: seq<Action>, h: History, k: History, j: Job)
    requires Exported(actions, h, j) && h.exports <= k.exports
    ensures Exported(actions, k, j)
  {
    if j.snapshot.Some? && j.config.Some? { StillIn(h.exports, k.exports, ExportRun(j.slot, j.snapshot.value.attempt, j.config.value)); }
  }

  /** What a working step keeps of the program's own variables. */
  ghost predicate KeepsVariables(p: Process, e: Event, q: Process)
    requires p.Working? && q.Working?
  {
    && q.config == p.config && q.now == p.now && q.job.slot == p.job.slot && q.job.config == p.job.config
    && (|| q.job.snapshot == p.job.snapshot
        || (p.pc.Exporting? && e.Content? && q.job.snapshot == Some(Snapshot(p.job.attempts, e.sha256))))
  }

  /** How it comes to run a program or to file a receipt. */
  ghost predicate Reaches(p: Process, e: Event, q: Process)
    requires p.Working? && q.Working?
  {
    && (q.pc.Exporting? ==> p.pc.StartExport? && q.job == p.job)
    && (q.pc.SaveRunning? ==> q.job.snapshot.Some? && e == Content(q.job.snapshot.value.sha256))
    && (q.pc.StartBackup? ==> p.pc.SaveRunning? && q.job == p.job)
    && (q.pc.BackingUp? ==> p.pc.StartBackup? && q.job == p.job)
    && (q.pc.CreateReceipt? ==> q.pc.receipt.Written? &&
                                var r := q.pc.receipt; e == Proof(r.backupId, r.sha256, r.archive, true))
    && (q.pc.FillReceipt? ==> p.pc.CreateReceipt? && q.pc.receipt == p.pc.receipt)
  }

  ghost predicate Moves(p: Process, e: Event, q: Process)
    requires p.Working? && q.Working?
  {
    KeepsVariables(p, e, q) && Reaches(p, e, q)
  }

  lemma CheckMoves(w: World, pid: nat)
    requires pid in w.processes && w.processes[pid].Working? && w.processes[pid].pc.CheckJob?
    ensures var p, q := w.processes[pid], StepCheckJob(w, pid, w.processes[pid]).processes[pid];
            q.Exited? || (q.Working? && Moves(p, Proceed, q))
  {}

  lemma RecoverMoves(p: Process, prepared: bool)
    requires p.Working?
    ensures var q := Failed(p, prepared); q.Working? && Moves(p, Proceed, q)
  {}

  /** Up to the frozen snapshot, and from its inspection on. */
  ghost predicate Exports(pc: Pc) {
    || pc.SaveNewJob? || pc.SaveReconciled? || pc.MakeAttempt? || pc.StartExport? || pc.Exporting? || pc.SaveFrozen?
  }

  ghost predicate Inspects(pc: Pc) {
    pc.Inspect? || pc.SaveChanged? || pc.SaveRunning? || pc.StartBackup? || pc.BackingUp?
  }

  ghost predicate Concludes(pc: Pc) {
    pc.CreateReceipt? || pc.FillReceipt? || pc.SaveComplete? || pc.SaveFailed?
  }

  lemma ExportMoves(w: World, pid: nat, e: Event)
    requires pid in w.processes && w.processes[pid].Working? && Exports(w.processes[pid].pc)
    ensures var p, q := w.processes[pid], StepWorking(w, pid, w.processes[pid], e).processes[pid];
            q.Exited? || (q.Working? && Moves(p, e, q))
  {}

  lemma InspectMoves(w: World, pid: nat, e: Event)
    requires pid in w.processes && w.processes[pid].Working? && Inspects(w.processes[pid].pc)
    ensures var p, q := w.processes[pid], StepWorking(w, pid, w.processes[pid], e).processes[pid];
            q.Exited? || (q.Working? && Moves(p, e, q))
  {}

  lemma ConcludeMoves(w: World, pid: nat, e: Event)
    requires pid in w.processes && w.processes[pid].Working? && Concludes(w.processes[pid].pc)
    ensures var p, q := w.processes[pid], StepWorking(w, pid, w.processes[pid], e).processes[pid];
            q.Exited? || (q.Working? && Moves(p, e, q))
  {}

  lemma StepMoves(w: World, pid: nat, e: Event)
    requires pid in w.processes && w.processes[pid].Working?
    ensures var p, q := w.processes[pid], StepWorking(w, pid, w.processes[pid], e).processes[pid];
            q.Exited? || (q.Working? && Moves(p, e, q))
  {
    var p := w.processes[pid];
    if p.pc.CheckJob? { CheckMoves(w, pid); }
    else if p.pc.Recover? { RecoverMoves(p, e == Prepared(true)); }
    else if Exports(p.pc) { ExportMoves(w, pid, e); }
    else if Inspects(p.pc) { InspectMoves(w, pid, e); }
    else { ConcludeMoves(w, pid, e); }
  }

  lemma MoveSourced(actions: seq<Action>, h: History, k: History, pid: nat, p: Process, e: Event, q: Process)
    requires p.Working? && q.Working? && Moves(p, e, q) && ProcessSourced(actions, h, pid, p) && Step(pid, e) in actions
    requires h.exports <= k.exports
    requires p.pc.StartExport? ==> p.job.config == Some(p.config) && ExportRun(p.job.slot, p.job.attempts, p.config) in k.exports
    ensures ProcessSourced(actions, k, pid, q)
  {
    ExportedHolds(actions, h, k, p.job);
    assert Answered(actions, e);
    if p.pc.Exporting? { StillIn(h.exports, k.exports, ExportRun(p.job.slot, p.job.attempts, p.config)); }
  }

  lemma WorkingSourced(actions: seq<Action>, w: World, pid: nat, e: Event)
    requires ScheduleSafety.Holding(w, pid) && Sourced(actions, w) && Step(pid, e) in actions
    ensures Sourced(actions, StepWorking(w, pid, w.processes[pid], e))
  {
    var p := w.processes[pid];
    var v := StepWorking(w, pid, p, e);
    FilesStay(actions, w, pid, e);
    StepMoves(w, pid, e);
    Starts(w, pid, e);
    if p.pc.StartExport? { OwnJob(w, pid); }
    if v.processes[pid].Working? { MoveSourced(actions, w.history, v.history, pid, p, e, v.processes[pid]); }
    OthersSourced(actions, w, v, pid);
  }

  lemma OthersSourced(actions: seq<Action>, w: World, v: World, pid: nat)
    requires Sourced(actions, w) && FilesSourced(actions, v.disk, v.history) && w.history.exports <= v.history.exports
    requires pid in v.processes && v.processes == w.processes[pid := v.processes[pid]]
    requires ProcessSourced(actions, v.history, pid, v.processes[pid])
    ensures Sourced(actions, v)
  {
    forall q | q in v.processes ensures ProcessSourced(actions, v.history, q, v.processes[q]) {
      if q != pid && v.processes[q].Working? { ProcessHolds(actions, w.history, v.history, q, v.processes[q]); }
    }
  }

  lemma ProcessHolds(actions: seq<Action>, h: History, k: History, pid: nat, p: Process)
    requires ProcessSourced(actions, h, pid, p) && h.exports <= k.exports && p.Working?
    ensures ProcessSourced(actions, k, pid, p)
  {
    ExportedHolds(actions, h, k, p.job);
    if p.pc.Exporting? { StillIn(h.exports, k.exports, ExportRun(p.job.slot, p.job.attempts, p.config)); }
  }

  lemma NewJobIsDated(actions: seq<Action>, c: Config, now: int)
    requires c.Valid() && Asked(actions, c, now)
    ensures DatedJob(actions, NewJob(c, now))
  {
    NewJobIsForNow(c, now, 0);
    assert InSlot(NewJob(c, now).slot, c, now);
  }

  /** The steps outside an attempt write nothing. */
  lemma OutsideStep(w: World, a: Action)
    requires Inv(w) && !(a.Step? && a.pid in w.processes && w.processes[a.pid].Working?)
    ensures var v := Next(w, a);
            && v.disk == w.disk && v.history == w.history
            && (v.processes == w.processes
                || (a.pid in v.processes && v.processes == w.processes[a.pid := v.processes[a.pid]] &&
                    var q := v.processes[a.pid];
                    || q.Exited?
                    || (a.Launch? && q == Starting(a.config, a.now))
                    || (a.pid in w.processes && w.processes[a.pid].Starting?
                        && q == Loading(w.processes[a.pid].config, w.processes[a.pid].now))
                    || (a.pid in w.processes && w.processes[a.pid].Loading? && q.Working?
                        && q.config == w.processes[a.pid].config && q.now == w.processes[a.pid].now && q.config.Valid()
                        && (q.pc.CheckJob? || q.pc.SaveNewJob?)
                        && (Loaded(w.disk).job == Some(q.job) || q.job == NewJob(q.config, q.now)))))
  {}

  lemma OutsideSourced(actions: seq<Action>, w: World, a: Action)
    requires Inv(w) && Sourced(actions, w) && a in actions
    requires !(a.Step? && a.pid in w.processes && w.processes[a.pid].Working?)
    ensures Sourced(actions, Next(w, a))
  {
    var v := Next(w, a);
    OutsideStep(w, a);
    if v.processes != w.processes {
      var q := v.processes[a.pid];
      if a.Launch? && q == Starting(a.config, a.now) { assert Launch(a.pid, a.config, a.now) in actions; }
      if q.Working? && q.job == NewJob(q.config, q.now) && q.config.Valid() && w.processes[a.pid].Loading? {
        NewJobIsDated(actions, q.config, q.now);
      }
      assert ProcessSourced(actions, v.history, a.pid, q);
      OthersSourced(actions, w, v, a.pid);
    }
  }

  lemma NextSourced(actions: seq<Action>, w: World, a: Action)
    requires Inv(w) && Sourced(actions, w)
    ensures Sourced(actions + [a], Next(w, a))
  {
    FilesGrow(actions, a, w.disk, w.history);
    forall pid | pid in w.processes ensures ProcessSourced(actions + [a], w.history, pid, w.processes[pid]) {
      ProcessGrows(actions, a, w.history, w.history, pid, w.processes[pid]);
    }
    assert (actions + [a])[|actions|] == a;
    if a.Step? && a.pid in w.processes && w.processes[a.pid].Working? {
      WorkingSourced(actions + [a], w, a.pid, a.event);
    } else {
      OutsideSourced(actions + [a], w, a);
    }
  }

  lemma {:induction false} AlwaysSourced(actions: seq<Action>)
    ensures Sourced(actions, Run(INITIAL, actions))
  {
    if actions != [] {
      var n := |actions| - 1;
      Reachable(actions[..n]);
      AlwaysSourced(actions[..n]);
      NextSourced(actions[..n], Run(INITIAL, actions[..n]), actions[n]);
      assert actions[..n] + [actions[n]] == actions;
    }
  }

  // ---------------------------------------------------------------- theorems

  /** The pending job is for the slot that the clock of some call lay in, under the same configuration. */
  lemma JobFollowsTheClock(actions: seq<Action>) returns (pid: nat, c: Config, now: int)
    requires var s := Run(INITIAL, actions).disk.state; s.Some? && s.value.job.Some?
    ensures Launch(pid, c, now) in actions && MadeAt(Run(INITIAL, actions).disk.state.value.job.value, c, now)
  {
    AlwaysSourced(actions);
    Reachable(actions);
    var j := Loaded(Run(INITIAL, actions).disk).job.value;
    c := j.config.value;
    now :| Asked(actions, c, now) && InSlot(j.slot, c, now);
    pid :| Launch(pid, c, now) in actions;
  }

  /** So is every slot ever exported. */
  lemma ExportFollowsTheClock(actions: seq<Action>, k: nat) returns (pid: nat, now: int)
    requires k < |Run(INITIAL, actions).history.exports|
    ensures var run := Run(INITIAL, actions).history.exports[k];
            && Launch(pid, run.config, now) in actions
            && run.slot * run.config.intervalSeconds * 1000 <= now < (run.slot + 1) * run.config.intervalSeconds * 1000
  {
    AlwaysSourced(actions);
    var run := Run(INITIAL, actions).history.exports[k];
    now :| Asked(actions, run.config, now) && InSlot(run.slot, run.config, now);
    pid :| Launch(pid, run.config, now) in actions;
  }

  /** And every backup ever started is for such a slot, with an ID that starts where the slot does. */
  lemma BackupFollowsTheClock(actions: seq<Action>, k: nat) returns (pid: nat, c: Config, now: int)
    requires k < |Run(INITIAL, actions).history.backups|
    ensures var id := Run(INITIAL, actions).history.backups[k].backupId;
            && Launch(pid, c, now) in actions
            && id.startSeconds == id.slot * c.intervalSeconds && id.taskId == c.taskId
            && id.startSeconds * 1000 <= now < (id.startSeconds + c.intervalSeconds) * 1000
  {
    AlwaysSourced(actions);
    var id := Run(INITIAL, actions).history.backups[k].backupId;
    c :| Dated(actions, id.slot, c) && id.startSeconds == id.slot * c.intervalSeconds && id.taskId == c.taskId;
    now :| Asked(actions, c, now) && InSlot(id.slot, c, now);
    pid :| Launch(pid, c, now) in actions;
    assert (id.slot + 1) * c.intervalSeconds == id.slot * c.intervalSeconds + c.intervalSeconds;
  }

  /**
    A slot is never completed on the scheduler's word alone: some step of the run was answered with a
    proof for the receipt's backup, snapshot and archive whose signatures and pins checked out.
   */
  lemma ReceiptsAreProven(actions: seq<Action>, slot: int)
    requires slot in Run(INITIAL, actions).disk.receipts && Run(INITIAL, actions).disk.receipts[slot].Written?
    ensures var r := Run(INITIAL, actions).disk.receipts[slot];
            exists pid: nat :: Step(pid, Proof(r.backupId, r.sha256, r.archive, true)) in actions
  {
    AlwaysSourced(actions);
  }

  /**
    A frozen snapshot is what was read after an export started for its slot and attempt, and whenever
    the backup program is started the same call has read it with that digest again.
   */
  lemma BackupsAreOfTheExport(actions: seq<Action>, pid: nat)
    requires var w := Run(INITIAL, actions); pid in w.processes && w.processes[pid].Working? && w.processes[pid].pc.StartBackup?
    ensures var w := Run(INITIAL, actions);
            var j := w.processes[pid].job;
            && j.snapshot.Some? && j.config.Some?
            && ExportRun(j.slot, j.snapshot.value.attempt, j.config.value) in w.history.exports
            && Step(pid, Content(j.snapshot.value.sha256)) in actions
            && w.disk.state.Some? && w.disk.state.value.job == Some(j) && j.phase == BackupRunning
  {
    AlwaysSourced(actions);
    Reachable(actions);
  }
}
