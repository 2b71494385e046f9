/**
  What every reachable state of the scheduler satisfies, whatever crashes, clocks, concurrent
  launches and environment answers it has seen.
 */
module ScheduleSafety {
  import opened Schedule

  // ---------------------------------------------------------------- the invariant

  function Rank(p: Phase): nat {
    match p case Export => 0 case BackupReady => 1 case BackupRunning => 2 case ReconciliationRequired => 3
  }

  /** `k` is `j` at the same or a later point of its life. */
  ghost predicate Continues(j: Job, k: Job) {
    && k.slot == j.slot && k.backupId == j.backupId && k.config == j.config
    && j.attempts <= k.attempts
    && Rank(j.phase) <= Rank(k.phase)
    && (j.snapshot.Some? ==> k.snapshot == j.snapshot)
  }

  ghost predicate Past(s: State, slot: int) { s.lastCompletedSlot.Some? && slot <= s.lastCompletedSlot.value }
  ghost predicate Current(s: State, slot: int) { s.job.Some? && slot == s.job.value.slot }

  ghost predicate JobOk(j: Job) {
    && j.config.Some? && j.config.value.Valid() && j.backupId == IdOf(j.config.value, j.slot)
    && (j.phase.Export? ==> j.attempts <= |j.config.value.retryDelaysSeconds| && j.snapshot.None?)
    && (j.phase.BackupReady? || j.phase.BackupRunning? ==> j.snapshot.Some?)
  }

  ghost predicate StateOk(s: State) {
    s.job.Some? ==> JobOk(s.job.value) && !Past(s, s.job.value.slot)
  }

  ghost predicate ExportsOk(d: Disk, es: seq<ExportRun>) {
    && (forall i :: 0 <= i < |es| ==>
                      && es[i].config.Valid()
                      && 1 <= es[i].attempt <= |es[i].config.retryDelaysSeconds| + 1
                      && (es[i].slot, es[i].attempt) in d.attempts
                      && (Past(Loaded(d), es[i].slot) || (Current(Loaded(d), es[i].slot) && Loaded(d).job.value.config == Some(es[i].config))))
    && (forall i, k :: 0 <= i < k < |es| && es[i].slot == es[k].slot ==>
                         es[i].config == es[k].config && es[i].attempt != es[k].attempt)
  }

  /** No backup program has been started for the slot. */
  ghost predicate NoBackup(bs: seq<BackupRun>, slot: int) {
    forall i :: 0 <= i < |bs| ==> bs[i].backupId.slot != slot
  }

  ghost predicate OnlyFirstIsFresh(bs: seq<BackupRun>) {
    forall i, k :: 0 <= i < k < |bs| && bs[i].backupId == bs[k].backupId ==> bs[k].resume
  }

  ghost predicate BackupsOk(s: State, bs: seq<BackupRun>) {
    && OnlyFirstIsFresh(bs)
    && (forall i :: 0 <= i < |bs| ==> Past(s, bs[i].backupId.slot) || Current(s, bs[i].backupId.slot))
    && (s.job.Some? && Rank(s.job.value.phase) < Rank(BackupRunning) ==> NoBackup(bs, s.job.value.slot))
  }

  ghost predicate Increasing(xs: seq<int>) { forall i, k :: 0 <= i < k < |xs| ==> xs[i] < xs[k] }

  ghost predicate ReceiptsOk(d: Disk, completed: seq<int>) {
    var s := Loaded(d);
    && Increasing(completed)
    && (forall i :: 0 <= i < |completed| ==> completed[i] in d.receipts && d.receipts[completed[i]].Written?)
    && s.lastCompletedSlot == (if completed == [] then None else Some(completed[|completed| - 1]))
    && (forall slot :: slot in d.receipts ==> Past(s, slot) || Current(s, slot))
    && (s.job.Some? && s.job.value.slot in d.receipts ==>
          Rank(s.job.value.phase) >= Rank(BackupRunning) && Matches(d.receipts[s.job.value.slot], s.job.value))
  }

  /** A filled receipt names the job's backup and its frozen snapshot. */
  ghost predicate Matches(r: Receipt, j: Job) {
    r.Written? ==> r.backupId == j.backupId && j.snapshot.Some? && r.sha256 == j.snapshot.value.sha256
  }

  ghost predicate Active(p: Process) { p.Loading? || p.Working? }

  ghost predicate LockOk(w: World) {
    && (forall q :: q in w.processes && Active(w.processes[q]) ==> w.lock == Some(q))
    && (w.lock.Some? ==> w.lock.value in w.processes && Active(w.processes[w.lock.value]))
  }

  /** What the lock holder knows at each point of the program, against the job `dj` on disk. */
  ghost predicate PcOk(d: Disk, h: History, p: Process, dj: Job)
    requires p.Working?
  {
    var j := p.job;
    var unfiled := !p.cleared && j.slot !in d.receipts;
    match p.pc
    case SaveNewJob => false
    case CheckJob => !p.cleared && j == dj
    case SaveReconciled => p.cleared && j == dj
    case MakeAttempt => unfiled && j == dj.(attempts := dj.attempts + 1) && j.phase.Export?
    case StartExport =>
      && unfiled && j == dj.(attempts := dj.attempts + 1) && j.phase.Export? && (j.slot, j.attempts) in d.attempts
      && forall i :: 0 <= i < |h.exports| && h.exports[i].slot == j.slot ==> h.exports[i].attempt != j.attempts
    case Exporting => unfiled && j == dj.(attempts := dj.attempts + 1) && j.phase.Export?
    case SaveFrozen => unfiled && j.phase.BackupReady? && j.snapshot.Some? && dj.phase.Export?
    case Inspect => unfiled && j.phase == dj.phase && (j.phase.BackupReady? || j.phase.BackupRunning?)
    case SaveChanged => unfiled && j.phase.ReconciliationRequired?
    case SaveRunning(resume) =>
      unfiled && j.phase.BackupRunning? && j.snapshot.Some? && resume == dj.phase.BackupRunning?
    case StartBackup(resume) => unfiled && j == dj && j.phase.BackupRunning? && (!resume ==> NoBackup(h.backups, j.slot))
    case BackingUp => unfiled && j == dj && j.phase.BackupRunning?
    case CreateReceipt(r) => unfiled && j == dj && j.phase.BackupRunning? && r.Written? && Matches(r, j)
    case FillReceipt(r) =>
      && !p.cleared && j == dj && j.phase.BackupRunning? && r.Written? && Matches(r, j)
      && j.slot in d.receipts && d.receipts[j.slot].Torn?
    case SaveComplete => p.cleared && j == dj && j.phase.BackupRunning?
    case Recover => j.phase.Export? ==> j.snapshot.None?
    case SaveFailed => JobOk(j)
  }

  ghost predicate HolderOk(d: Disk, h: History, p: Process)
    requires p.Working?
  {
    var s := Loaded(d);
    && p.config.Valid()
    && if p.pc.SaveNewJob? then
         !p.cleared && s.job.None? && p.last == s.lastCompletedSlot && p.job == NewJob(p.config, p.now) && !Past(s, p.job.slot)
       else
         && s.job.Some? && (p.pc.CheckJob? || s.job.value.config == Some(p.config))
         && Continues(s.job.value, p.job)
         && (p.job.phase.BackupReady? || p.job.phase.BackupRunning? ==> p.job.snapshot.Some?)
         && (!p.pc.CheckJob? && !p.pc.SaveReconciled? ==>
               p.job.attempts >= 1 && (p.job.phase.Export? ==> p.job.attempts <= |p.config.retryDelaysSeconds| + 1))
         && (if p.cleared then
               && p.last == Some(p.job.slot) && p.job.slot in d.receipts && d.receipts[p.job.slot].Written?
             else p.last == s.lastCompletedSlot)
         && PcOk(d, h, p, s.job.value)
  }

  ghost predicate DiskOk(d: Disk, h: History) {
    && StateOk(Loaded(d))
    && ExportsOk(d, h.exports)
    && BackupsOk(Loaded(d), h.backups)
    && ReceiptsOk(d, h.completed)
  }

  ghost predicate Inv(w: World) {
    && LockOk(w)
    && DiskOk(w.disk, w.history)
    && forall q :: q in w.processes ==> ProcessOk(w.disk, w.history, w.processes[q])
  }

  ghost predicate ProcessOk(d: Disk, h: History, p: Process) {
    match p
    case Starting(c, _) => c.Valid()
    case Loading(c, _) => c.Valid()
    case Working(_, _, _, _, _, _) => HolderOk(d, h, p)
    case Exited(_) => true
  }

  // ---------------------------------------------------------------- what each write keeps

  lemma SaveNewKeeps(d: Disk, h: History, j: Job)
    requires DiskOk(d, h) && Loaded(d).job.None? && JobOk(j) && !Past(Loaded(d), j.slot)
    ensures DiskOk(d.(state := Some(State(Loaded(d).lastCompletedSlot, Some(j)))), h)
  {
    var s := Loaded(d);
    forall i | 0 <= i < |h.backups| ensures h.backups[i].backupId.slot != j.slot { assert Past(s, h.backups[i].backupId.slot); }
    forall slot | slot in d.receipts ensures slot != j.slot { assert Past(s, slot); }
  }

  lemma SaveLaterKeeps(d: Disk, h: History, j: Job)
    requires DiskOk(d, h) && Loaded(d).job.Some? && Continues(Loaded(d).job.value, j) && JobOk(j)
    ensures DiskOk(d.(state := Some(State(Loaded(d).lastCompletedSlot, Some(j)))), h)
  {
    var s := Loaded(d);
    var t := State(s.lastCompletedSlot, Some(j));
    assert forall slot :: Past(t, slot) <==> Past(s, slot);
    assert forall slot :: Current(t, slot) <==> Current(s, slot);
    if Rank(j.phase) < Rank(BackupRunning) { assert NoBackup(h.backups, s.job.value.slot); }
  }

  lemma SaveCompletedKeeps(d: Disk, h: History, slot: int)
    requires DiskOk(d, h) && Current(Loaded(d), slot) && slot in d.receipts && d.receipts[slot].Written?
    ensures DiskOk(d.(state := Some(State(Some(slot), None))), h.(completed := h.completed + [slot]))
    ensures Loaded(d).lastCompletedSlot != Some(slot)
  {
    var s := Loaded(d);
    var t := State(Some(slot), None);
    assert forall k :: Past(s, k) || Current(s, k) ==> Past(t, k);
    assert Increasing(h.completed + [slot]);
  }

  // ---------------------------------------------------------------- preservation

  lemma InvInitially()
    ensures Inv(INITIAL)
  {}

  /** Only the lock holder moves: everyone else is outside the critical section. */
  lemma Restore(w: World, v: World, pid: nat, p: Process)
    requires Inv(w) && pid in w.processes && Active(w.processes[pid])
    requires v.processes == w.processes[pid := p] && v.lock == (if Active(p) then Some(pid) else None)
    requires DiskOk(v.disk, v.history) && ProcessOk(v.disk, v.history, p)
    ensures Inv(v)
  {
    forall q | q in v.processes ensures ProcessOk(v.disk, v.history, v.processes[q]) {
      if q != pid { assert !Active(w.processes[q]); }
    }
  }

  ghost predicate Holding(w: World, pid: nat) {
    pid in w.processes && w.processes[pid].Working? && Inv(w)
  }

  lemma LoadingKeeps(w: World, pid: nat)
    requires Inv(w) && pid in w.processes && w.processes[pid].Loading?
    ensures Inv(StepLoading(w, pid, w.processes[pid]))
  {
    var v := StepLoading(w, pid, w.processes[pid]);
    Restore(w, v, pid, v.processes[pid]);
  }

  /** What the check leaves of the job, for any disk that holds it. */
  lemma CheckedHolder(d: Disk, h: History, p: Process, q: Process)
    requires DiskOk(d, h) && p.Working? && HolderOk(d, h, p) && p.pc.CheckJob?
    requires p.job.config.Some? ==> p.job.config.value == p.config
    requires || (p.job.slot in d.receipts && d.receipts[p.job.slot].Written?
                 && q == p.(pc := SaveReconciled, last := Some(p.job.slot), cleared := true))
             || (p.job.slot !in d.receipts && !p.job.phase.ReconciliationRequired?
                 && q == p.(job := p.job.(attempts := p.job.attempts + 1),
                         pc := if p.job.phase.Export? then MakeAttempt else Inspect))
    ensures HolderOk(d, h, q)
  {}

  lemma CheckKeeps(w: World, pid: nat)
    requires Holding(w, pid) && w.processes[pid].pc.CheckJob?
    ensures Inv(StepCheckJob(w, pid, w.processes[pid]))
  {
    var p, v := w.processes[pid], StepCheckJob(w, pid, w.processes[pid]);
    var q := v.processes[pid];
    CheckedOutcome(w, pid);
    if q.Working? { CheckedHolder(w.disk, w.history, p, q); }
    SameHolder(w.disk, w.history, v.history, q);
    Restore(w, v, pid, q);
  }

  lemma CheckedOutcome(w: World, pid: nat)
    requires Holding(w, pid) && w.processes[pid].pc.CheckJob?
    ensures var p, v := w.processes[pid], StepCheckJob(w, pid, w.processes[pid]);
            && pid in v.processes && v.processes == w.processes[pid := v.processes[pid]] && v.disk == w.disk
            && v.history == w.history.(attempted := v.history.attempted)
            && v.lock == (if Active(v.processes[pid]) then Some(pid) else None)
            && var q := v.processes[pid];
            || q.Exited?
            || (p.job.slot in w.disk.receipts && w.disk.receipts[p.job.slot].Written?
                && (p.job.config.Some? ==> p.job.config.value == p.config)
                && q == p.(pc := SaveReconciled, last := Some(p.job.slot), cleared := true))
            || (p.job.slot !in w.disk.receipts && !p.job.phase.ReconciliationRequired?
                && (p.job.config.Some? ==> p.job.config.value == p.config)
                && q == p.(job := p.job.(attempts := p.job.attempts + 1),
                        pc := if p.job.phase.Export? then MakeAttempt else Inspect))
  {}

  /** Tallying an attempt disturbs nothing. */
  lemma SameHolder(d: Disk, h: History, k: History, p: Process)
    requires k == h.(attempted := k.attempted)
    ensures DiskOk(d, h) ==> DiskOk(d, k)
    ensures ProcessOk(d, h, p) ==> ProcessOk(d, k, p)
  {}

  lemma SaveKeeps(w: World, pid: nat, e: Event)
    requires Holding(w, pid)
    requires var pc := w.processes[pid].pc;
             pc.SaveFrozen? || pc.SaveChanged? || pc.SaveRunning?
    ensures Inv(StepWorking(w, pid, w.processes[pid], e))
  {
    var p := w.processes[pid];
    var v := StepWorking(w, pid, p, e);
    if !e.Fails? { SaveLaterKeeps(w.disk, w.history, p.job); }
    Restore(w, v, pid, v.processes[pid]);
  }

  lemma SaveNewJobKeeps(w: World, pid: nat, e: Event)
    requires Holding(w, pid) && w.processes[pid].pc.SaveNewJob?
    ensures Inv(StepWorking(w, pid, w.processes[pid], e))
  {
    var p := w.processes[pid];
    if !e.Fails? { SaveNewKeeps(w.disk, w.history, p.job); }
    var v := StepWorking(w, pid, p, e);
    Restore(w, v, pid, v.processes[pid]);
  }

  lemma SaveCompleteKeeps(w: World, pid: nat, e: Event)
    requires Holding(w, pid) && (w.processes[pid].pc.SaveReconciled? || w.processes[pid].pc.SaveComplete?)
    ensures Inv(StepWorking(w, pid, w.processes[pid], e))
  {
    var p := w.processes[pid];
    if !e.Fails? { SaveCompletedKeeps(w.disk, w.history, p.job.slot); }
    var v := StepWorking(w, pid, p, e);
    Restore(w, v, pid, v.processes[pid]);
  }

  lemma SaveFailedKeeps(w: World, pid: nat, e: Event)
    requires Holding(w, pid) && w.processes[pid].pc.SaveFailed?
    ensures Inv(StepWorking(w, pid, w.processes[pid], e))
  {
    var p := w.processes[pid];
    if !e.Fails? {
      if p.cleared { SaveCompletedKeeps(w.disk, w.history, p.job.slot); } else { SaveLaterKeeps(w.disk, w.history, p.job); }
    }
    var v := StepWorking(w, pid, p, e);
    Restore(w, v, pid, v.processes[pid]);
  }

  lemma RecoverKeeps(w: World, pid: nat, e: Event)
    requires Holding(w, pid) && w.processes[pid].pc.Recover?
    ensures Inv(StepWorking(w, pid, w.processes[pid], e))
  {
    var v := StepWorking(w, pid, w.processes[pid], e);
    Restore(w, v, pid, v.processes[pid]);
  }

  lemma MakeAttemptKeeps(w: World, pid: nat, e: Event)
    requires Holding(w, pid) && w.processes[pid].pc.MakeAttempt?
    ensures Inv(StepWorking(w, pid, w.processes[pid], e))
  {
    var p := w.processes[pid];
    var v := StepWorking(w, pid, p, e);
    assert Loaded(v.disk) == Loaded(w.disk);
    if !e.Fails? && (p.job.slot, p.job.attempts) !in w.disk.attempts {
      forall i | 0 <= i < |w.history.exports| && w.history.exports[i].slot == p.job.slot
        ensures w.history.exports[i].attempt != p.job.attempts
      {
        assert (w.history.exports[i].slot, w.history.exports[i].attempt) in w.disk.attempts;
      }
    }
    Restore(w, v, pid, v.processes[pid]);
  }

  lemma StartExportKeeps(w: World, pid: nat, e: Event)
    requires Holding(w, pid) && w.processes[pid].pc.StartExport?
    ensures Inv(StepWorking(w, pid, w.processes[pid], e))
  {
    var p := w.processes[pid];
    var v := StepWorking(w, pid, p, e);
    assert ExportsOk(v.disk, v.history.exports) by {
      forall i | 0 <= i < |w.history.exports| && w.history.exports[i].slot == p.job.slot
        ensures w.history.exports[i].config == p.config
      {
        assert !Past(Loaded(w.disk), p.job.slot);
      }
    }
    Restore(w, v, pid, v.processes[pid]);
  }

  lemma ExportingKeeps(w: World, pid: nat, e: Event)
    requires Holding(w, pid) && w.processes[pid].pc.Exporting?
    ensures Inv(StepWorking(w, pid, w.processes[pid], e))
  {
    var v := StepWorking(w, pid, w.processes[pid], e);
    Restore(w, v, pid, v.processes[pid]);
  }

  lemma InspectedHolder(d: Disk, h: History, p: Process, q: Process)
    requires p.Working? && HolderOk(d, h, p) && p.pc.Inspect?
    requires || q == p.(pc := Recover)
             || q == p.(pc := SaveChanged, job := p.job.(phase := ReconciliationRequired))
             || q == p.(pc := SaveRunning(p.job.phase.BackupRunning?), job := p.job.(phase := BackupRunning))
    ensures HolderOk(d, h, q)
  {}

  lemma InspectKeeps(w: World, pid: nat, e: Event)
    requires Holding(w, pid) && w.processes[pid].pc.Inspect?
    ensures Inv(StepWorking(w, pid, w.processes[pid], e))
  {
    var v := StepWorking(w, pid, w.processes[pid], e);
    InspectedHolder(w.disk, w.history, w.processes[pid], v.processes[pid]);
    Restore(w, v, pid, v.processes[pid]);
  }

  lemma StartBackupKeeps(w: World, pid: nat, e: Event)
    requires Holding(w, pid) && w.processes[pid].pc.StartBackup?
    ensures Inv(StepWorking(w, pid, w.processes[pid], e))
  {
    var p := w.processes[pid];
    var v := StepWorking(w, pid, p, e);
    assert BackupsOk(Loaded(v.disk), v.history.backups) by {
      forall i | 0 <= i < |w.history.backups| && w.history.backups[i].backupId == p.job.backupId
        ensures p.pc.resume
      {
        assert w.history.backups[i].backupId.slot == p.job.slot;
      }
    }
    Restore(w, v, pid, v.processes[pid]);
  }

  /** A receipt may change while no completed slot relies on it. */
  lemma UnfiledReceiptKeeps(d: Disk, h: History, j: Job, r: Receipt)
    requires DiskOk(d, h) && Loaded(d).job == Some(j) && Rank(j.phase) >= Rank(BackupRunning) && Matches(r, j)
    ensures DiskOk(d.(receipts := d.receipts[j.slot := r]), h)
  {
    var v := d.(receipts := d.receipts[j.slot := r]);
    assert Loaded(v) == Loaded(d);
    forall i | 0 <= i < |h.completed| ensures h.completed[i] != j.slot {
      assert !Past(Loaded(d), j.slot);
      assert h.completed[i] <= h.completed[|h.completed| - 1];
    }
    assert ReceiptsOk(v, h.completed);
  }

  lemma CreateReceiptKeeps(w: World, pid: nat, e: Event)
    requires Holding(w, pid) && w.processes[pid].pc.CreateReceipt?
    ensures Inv(StepWorking(w, pid, w.processes[pid], e))
  {
    var p := w.processes[pid];
    var v := StepWorking(w, pid, p, e);
    UnfiledReceiptKeeps(w.disk, w.history, p.job, Torn);
    Restore(w, v, pid, v.processes[pid]);
  }

  lemma FillReceiptKeeps(w: World, pid: nat, e: Event)
    requires Holding(w, pid) && w.processes[pid].pc.FillReceipt?
    ensures Inv(StepWorking(w, pid, w.processes[pid], e))
  {
    var p := w.processes[pid];
    var v := StepWorking(w, pid, p, e);
    UnfiledReceiptKeeps(w.disk, w.history, p.job, p.pc.receipt);
    Restore(w, v, pid, v.processes[pid]);
  }

  lemma BackingUpKeeps(w: World, pid: nat, e: Event)
    requires Holding(w, pid) && w.processes[pid].pc.BackingUp?
    ensures Inv(StepWorking(w, pid, w.processes[pid], e))
  {
    var v := StepWorking(w, pid, w.processes[pid], e);
    Restore(w, v, pid, v.processes[pid]);
  }

  lemma WorkingKeeps(w: World, pid: nat, e: Event)
    requires Holding(w, pid)
    ensures Inv(StepWorking(w, pid, w.processes[pid], e))
  {
    match w.processes[pid].pc
    case SaveNewJob => SaveNewJobKeeps(w, pid, e);
    case CheckJob => CheckKeeps(w, pid);
    case SaveReconciled => SaveCompleteKeeps(w, pid, e);
    case MakeAttempt => MakeAttemptKeeps(w, pid, e);
    case StartExport => StartExportKeeps(w, pid, e);
    case Exporting => ExportingKeeps(w, pid, e);
    case SaveFrozen => SaveKeeps(w, pid, e);
    case Inspect => InspectKeeps(w, pid, e);
    case SaveChanged => SaveKeeps(w, pid, e);
    case SaveRunning(_) => SaveKeeps(w, pid, e);
    case StartBackup(_) => StartBackupKeeps(w, pid, e);
    case BackingUp => BackingUpKeeps(w, pid, e);
    case CreateReceipt(_) => CreateReceiptKeeps(w, pid, e);
    case FillReceipt(_) => FillReceiptKeeps(w, pid, e);
    case SaveComplete => SaveCompleteKeeps(w, pid, e);
    case Recover => RecoverKeeps(w, pid, e);
    case SaveFailed => SaveFailedKeeps(w, pid, e);
  }

  /** A crash can strike at any point and keeps everything. */
  lemma CrashKeeps(w: World, pid: nat)
    requires Inv(w)
    ensures Inv(Next(w, Crash(pid)))
  {
    if pid in w.processes && Active(w.processes[pid]) { Restore(w, Next(w, Crash(pid)), pid, Exited(Crashed)); }
  }

  /** A process outside the critical section replaces one outside it. */
  lemma Outside(w: World, v: World, pid: nat, p: Process)
    requires Inv(w) && (pid in w.processes ==> !Active(w.processes[pid]))
    requires v == w.(processes := w.processes[pid := p]) && !Active(p) && ProcessOk(v.disk, v.history, p)
    ensures Inv(v)
  {
    forall q | q in v.processes ensures ProcessOk(v.disk, v.history, v.processes[q]) {
      if q != pid { assert q in w.processes; }
    }
  }

  lemma LaunchKeeps(w: World, a: Action)
    requires Inv(w) && a.Launch?
    ensures Inv(Next(w, a))
  {
    var v := Next(w, a);
    if a.pid !in w.processes { Outside(w, v, a.pid, v.processes[a.pid]); }
  }

  lemma LockingKeeps(w: World, pid: nat, e: Event)
    requires Inv(w) && pid in w.processes && w.processes[pid].Starting?
    ensures Inv(Next(w, Step(pid, e)))
  {
    var v := Next(w, Step(pid, e));
    if w.lock.Some? {
      Outside(w, v, pid, v.processes[pid]);
    } else {
      forall q | q in v.processes ensures ProcessOk(v.disk, v.history, v.processes[q]) {
        if q != pid { assert q in w.processes; }
      }
    }
  }

  lemma NextKeeps(w: World, a: Action)
    requires Inv(w)
    ensures Inv(Next(w, a))
  {
    match a
    case Launch(_, _, _) => LaunchKeeps(w, a);
    case Crash(pid) => CrashKeeps(w, pid);
    case Step(pid, e) =>
      if pid in w.processes {
        if w.processes[pid].Loading? { LoadingKeeps(w, pid); }
        else if w.processes[pid].Working? { WorkingKeeps(w, pid, e); }
        else if w.processes[pid].Starting? { LockingKeeps(w, pid, e); }
      }
  }

  /** Every state the scheduler can reach satisfies the invariant. */
  lemma {:induction false} Reachable(actions: seq<Action>)
    ensures Inv(Run(INITIAL, actions))
  {
    if actions == [] {
      InvInitially();
    } else {
      Reachable(actions[..|actions| - 1]);
      NextKeeps(Run(INITIAL, actions[..|actions| - 1]), actions[|actions| - 1]);
    }
  }
}
