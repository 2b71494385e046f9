/**
  What one invocation comes to, said of the clock, the files and the environment's answers alone: when
  it begins, which slot a new job is for, when a pending job is attempted, when the attempt completes
  its slot, and what is left for the next invocation when it does not.
 */
module ScheduleOutcomes {
  import opened Schedule
  import opened ScheduleSafety
  import opened ScheduleTheorems
  import opened ScheduleProgress
  import opened ScheduleRuns

  // ---------------------------------------------------------------- beginning

  /** An invocation begins exactly when its configuration is acceptable and enabled and its clock is not negative. */
  lemma BeginsExactlyWhen(w: World, pid: nat, c: Config, now: int)
    requires pid !in w.processes
    ensures var v := Next(w, Launch(pid, c, now));
            var acceptable :=
              && c.version == 1 && c.intervalSeconds > 0 && c.exportTimeoutSeconds > 0 && c.backupTimeoutSeconds > 0
              && c.archiveRetentionDays > 0 && c.minimumVerifiedArchives > 0
              && 1 <= |c.retryDelaysSeconds| <= 10
              && (forall k :: 0 <= k < |c.retryDelaysSeconds| ==> c.retryDelaysSeconds[k] > 0)
              && now >= 0;
            && v.disk == w.disk && v.history == w.history && v.lock == w.lock
            && v.processes == w.processes[pid := if !acceptable then Exited(Raised)
                              else if !c.enabled then Exited(Disabled) else Starting(c, now)]
  {}

  /** Nothing is touched while another invocation holds the lock. */
  lemma BusyWhileLocked(w: World, pid: nat, e: Event)
    requires pid in w.processes && w.processes[pid].Starting?
    ensures var v := Next(w, Step(pid, e));
            && v.disk == w.disk && v.history == w.history
            && (v.processes[pid] == Exited(AlreadyRunning) <==> w.lock.Some?)
            && (w.lock.Some? && w.lock != Some(pid) ==> v.lock == w.lock)
            && (w.lock.None? ==> v.lock == Some(pid))
  {}

  // ---------------------------------------------------------------- a new job

  lemma WholeIntervals(now: int, interval: int)
    requires interval > 0
    ensures var n := now / interval; n * interval <= now < (n + 1) * interval
  {}

  lemma TimesGrows(a: int, b: int, m: int)
    requires a <= b && m > 0
    ensures a * m <= b * m
  {}

  lemma Orders(n: int, last: int, now: int, interval: int)
    requires interval > 0 && n * interval <= now < (n + 1) * interval
    ensures n <= last <==> now < (last + 1) * interval
  {
    if n <= last { TimesGrows(n + 1, last + 1, interval); } else { TimesGrows(last + 1, n, interval); }
  }

  lemma Milliseconds(n: int, seconds: int)
    ensures n * (seconds * 1000) == n * seconds * 1000
  {}

  /** The job of a call made at `now`: for the interval of the clock, and due at once. */
  ghost predicate MadeAt(j: Job, c: Config, now: int) {
    && j.slot * c.intervalSeconds * 1000 <= now < (j.slot + 1) * c.intervalSeconds * 1000
    && j.backupId.startSeconds == j.slot * c.intervalSeconds
    && j.backupId.taskId == c.taskId && j.backupId.slot == j.slot
    && j.config == Some(c)
  }

  lemma NewJobIsForNow(c: Config, now: int, last: int)
    requires c.Valid()
    ensures MadeAt(NewJob(c, now), c, now)
    ensures SlotOf(c, now) <= last <==> now < (last + 1) * c.intervalSeconds * 1000
  {
    var n := SlotOf(c, now);
    WholeIntervals(now, c.intervalSeconds * 1000);
    Milliseconds(n, c.intervalSeconds);
    Milliseconds(n + 1, c.intervalSeconds);
    Orders(n, last, now, c.intervalSeconds * 1000);
    Milliseconds(last + 1, c.intervalSeconds);
  }

  /** Where a call without a pending job goes once it holds the lock. */
  lemma EntersIdle(w: World, pid: nat, c: Config, now: int)
    requires c.Valid() && c.enabled && now >= 0
    requires w.lock.None? && pid !in w.processes && Loaded(w.disk).job.None?
    ensures var last := Loaded(w.disk).lastCompletedSlot;
            var v := Run(w, [] + [Launch(pid, c, now)] + [Step(pid, Proceed)] + [Step(pid, Proceed)]);
            && pid in v.processes && v.disk == w.disk && v.history == w.history
            && if last.Some? && SlotOf(c, now) <= last.value then v.processes[pid] == Exited(AlreadyComplete) && v.lock.None?
               else v.processes[pid] == Working(SaveNewJob, c, now, last, NewJob(c, now), false)
  {
    var step := [Step(pid, Proceed)];
    OneMore(w, [], Launch(pid, c, now));
    OneMore(w, [] + [Launch(pid, c, now)], Step(pid, Proceed));
    OneMore(w, [] + [Launch(pid, c, now)] + step, Step(pid, Proceed));
  }

  /**
    With the lock free and no job pending, a call makes a job exactly when no slot has been completed
    or the clock has reached the end of the last completed one; the job is for the interval the clock
    is in. Otherwise nothing changes.
   */
  lemma JobIsMadeExactlyWhenDue(actions: seq<Action>, pid: nat, c: Config, now: int)
    requires var w := Run(INITIAL, actions);
             w.lock.None? && pid !in w.processes && Loaded(w.disk).job.None?
    requires c.Valid() && c.enabled && now >= 0
    ensures var w := Run(INITIAL, actions);
            var v := Run(w, [Launch(pid, c, now)] + Steps(pid, 3));
            var last := if w.disk.state.None? then None else w.disk.state.value.lastCompletedSlot;
            && v.history == w.history && v.disk.receipts == w.disk.receipts && v.disk.attempts == w.disk.attempts
            && if last.None? || now >= (last.value + 1) * c.intervalSeconds * 1000 then
                 && v.disk.state.Some? && v.disk.state.value.lastCompletedSlot == last && v.disk.state.value.job.Some?
                 && var j := v.disk.state.value.job.value;
                 && MadeAt(j, c, now)
                 && j.phase == Export && j.attempts == 0 && j.nextAttemptMs == now && j.snapshot.None?
               else
                 v.disk == w.disk && v.lock.None? && pid in v.processes && v.processes[pid] == Exited(AlreadyComplete)
  {
    var w := Run(INITIAL, actions);
    var last := Loaded(w.disk).lastCompletedSlot;
    NewJobIsForNow(c, now, if last.Some? then last.value else 0);
    IdleThreeSteps(w, pid, c, now);
  }

  /** A call without a pending job, once it has saved one or declined to. */
  lemma IdleThreeSteps(w: World, pid: nat, c: Config, now: int)
    requires c.Valid() && c.enabled && now >= 0
    requires w.lock.None? && pid !in w.processes && Loaded(w.disk).job.None?
    ensures var last := Loaded(w.disk).lastCompletedSlot;
            var v := Run(w, [Launch(pid, c, now)] + Steps(pid, 3));
            && v.history == w.history
            && if last.Some? && SlotOf(c, now) <= last.value then
                 v.disk == w.disk && v.lock.None? && pid in v.processes && v.processes[pid] == Exited(AlreadyComplete)
               else v.disk == w.disk.(state := Some(State(last, Some(NewJob(c, now)))))
  {
    var entered, step := [] + [Launch(pid, c, now)] + [Step(pid, Proceed)] + [Step(pid, Proceed)], [Step(pid, Proceed)];
    EntersIdle(w, pid, c, now);
    OneMore(w, entered, Step(pid, Proceed));
    assert entered + step == [Launch(pid, c, now)] + Steps(pid, 3);
    ThirdStep(Run(w, entered), pid);
  }

  lemma ThirdStep(w: World, pid: nat)
    requires pid in w.processes
    ensures var p, v := w.processes[pid], Next(w, Step(pid, Proceed));
            && (p.Exited? ==> v == w)
            && (p.Working? && p.pc.SaveNewJob? && p.last == Loaded(w.disk).lastCompletedSlot && !p.cleared ==>
                  v.disk == w.disk.(state := Some(State(p.last, Some(p.job)))) && v.history == w.history)
  {}

  // ---------------------------------------------------------------- a pending job

  /** The lock is taken and the pending job read. */
  lemma EntersPending(w: World, pid: nat, c: Config, now: int, j: Job)
    requires c.Valid() && c.enabled && now >= 0
    requires w.lock.None? && pid !in w.processes && Loaded(w.disk).job == Some(j)
    ensures var p := Working(CheckJob, c, now, Loaded(w.disk).lastCompletedSlot, j, false);
            var v := Run(w, [] + [Launch(pid, c, now)] + [Step(pid, Proceed)] + [Step(pid, Proceed)]);
            && Holds(v, pid, p, w.disk, Traced(w.history)) && v.history == w.history
  {
    var step := [Step(pid, Proceed)];
    OneMore(w, [], Launch(pid, c, now));
    OneMore(w, [] + [Launch(pid, c, now)], Step(pid, Proceed));
    OneMore(w, [] + [Launch(pid, c, now)] + step, Step(pid, Proceed));
  }

  /** What the check of a pending job comes to, with nothing written. */
  ghost predicate CheckedAs(w: World, v: World, pid: nat, c: Config, now: int, j: Job) {
    && v.disk == w.disk && pid in v.processes
    && v.history == w.history.(attempted := v.history.attempted)
    && if j.config != Some(c) then v.processes[pid] == Exited(Raised) && v.history == w.history
       else if j.slot in w.disk.receipts && w.disk.receipts[j.slot].Torn? then
         v.processes[pid] == Exited(Raised) && v.history == w.history
       else if j.slot in w.disk.receipts then
         v.processes[pid] == Working(SaveReconciled, c, now, Some(j.slot), j, true) && v.history == w.history
       else if j.phase == ReconciliationRequired then
         v.processes[pid] == Exited(NeedsReconciliation) && v.history == w.history
       else if now < j.nextAttemptMs then v.processes[pid] == Exited(RetryWait) && v.history == w.history
       else
         && v.history.attempted == w.history.attempted + [j.slot]
         && v.processes[pid].Working? && v.processes[pid].job == j.(attempts := j.attempts + 1)
         && v.processes[pid].pc == if j.phase == Export then MakeAttempt else Inspect
  }

  lemma Checks(w: World, v: World, pid: nat, p: Process)
    requires p.Working? && p.pc.CheckJob? && !p.cleared && p.job.config.Some?
    requires pid in w.processes && w.processes[pid] == p
    requires p.job.slot in w.disk.receipts ==> Matches(w.disk.receipts[p.job.slot], p.job)
    requires v == Next(w, Step(pid, Proceed))
    ensures CheckedAs(w, v, pid, p.config, p.now, p.job)
  {}

  /**
    With the lock free and a job pending, what a call under any configuration does is settled by that
    configuration, the receipt of the job's slot, its phase and its time: only under its own
    configuration, without a receipt, before reconciliation is called for and not before its time is
    an attempt made.
   */
  lemma PendingJobIsChecked(actions: seq<Action>, pid: nat, c: Config, now: int)
    requires var w := Run(INITIAL, actions);
             w.lock.None? && pid !in w.processes && Loaded(w.disk).job.Some?
    requires c.Valid() && c.enabled && now >= 0
    ensures var w := Run(INITIAL, actions);
            CheckedAs(w, Run(w, [Launch(pid, c, now)] + Steps(pid, 3)), pid, c, now, w.disk.state.value.job.value)
  {
    Reachable(actions);
    var w := Run(INITIAL, actions);
    var j := Loaded(w.disk).job.value;
    var entered, step := [] + [Launch(pid, c, now)] + [Step(pid, Proceed)] + [Step(pid, Proceed)], [Step(pid, Proceed)];
    EntersPending(w, pid, c, now, j);
    OneMore(w, entered, Step(pid, Proceed));
    assert entered + step == [Launch(pid, c, now)] + Steps(pid, 3);
    var v := Run(w, entered);
    Checks(v, Next(v, Step(pid, Proceed)), pid, v.processes[pid]);
  }

  /** An attempt is counted exactly when the pending job is due. */
  lemma AttemptedExactlyWhenDue(actions: seq<Action>, pid: nat, c: Config, now: int)
    requires var w := Run(INITIAL, actions);
             w.lock.None? && pid !in w.processes && Loaded(w.disk).job.Some?
    requires c.Valid() && c.enabled && now >= 0
    ensures var w := Run(INITIAL, actions);
            var v := Run(w, [Launch(pid, c, now)] + Steps(pid, 3));
            var j := w.disk.state.value.job.value;
            v.history.attempted != w.history.attempted <==>
            && j.config == Some(c) && j.slot !in w.disk.receipts && j.phase != ReconciliationRequired && j.nextAttemptMs <= now
  {
    PendingJobIsChecked(actions, pid, c, now);
  }

  // ---------------------------------------------------------------- the handler

  /** The job that comes of a failed attempt. */
  ghost predicate Rescheduled(j: Job, k: Job, c: Config, now: int, prepared: bool) {
    var over := j.phase == ReconciliationRequired || (j.phase == BackupRunning && !prepared) || j.attempts > |c.retryDelaysSeconds|;
    && k == j.(phase := k.phase, nextAttemptMs := k.nextAttemptMs)
    && (over ==> k.phase == ReconciliationRequired && k.nextAttemptMs == j.nextAttemptMs)
    && (!over ==> && k.phase == j.phase && 1 <= j.attempts <= |c.retryDelaysSeconds|
                  && k.nextAttemptMs == now + c.retryDelaysSeconds[j.attempts - 1] * 1000)
  }

  /**
    In every reachable state, the handler calls for reconciliation exactly when the snapshot had
    changed, a running backup left no archive and pins to resume, or the delays are used up; otherwise
    the next attempt is the delay of this one away, in milliseconds of the invocation's clock.
   */
  lemma HandlerReschedules(actions: seq<Action>, pid: nat, e: Event)
    requires var w := Run(INITIAL, actions);
             pid in w.processes && w.processes[pid].Working? && w.processes[pid].pc.Recover?
    ensures var w := Run(INITIAL, actions);
            var p, v := w.processes[pid], Next(w, Step(pid, e));
            && v.disk == w.disk && v.history == w.history && v.lock == w.lock
            && v.processes[pid].Working? && v.processes[pid] == p.(pc := SaveFailed, job := v.processes[pid].job)
            && Rescheduled(p.job, v.processes[pid].job, p.config, p.now, e == Prepared(true))
  {
    Reachable(actions);
  }

  /** The handler has set the time of the next attempt, or called for reconciliation. */
  ghost predicate Timed(p: Process) {
    p.Working? && p.pc.SaveFailed? ==>
      && p.job.attempts >= 1
      && (p.job.phase != ReconciliationRequired ==>
            && p.job.attempts <= |p.config.retryDelaysSeconds|
            && p.job.nextAttemptMs == p.now + p.config.retryDelaysSeconds[p.job.attempts - 1] * 1000)
  }

  /** No process but the one that steps is changed, and none comes to work but by a step. */
  lemma OthersUntimed(w: World, a: Action, pid: nat)
    requires pid in Next(w, a).processes
    requires !(a.Step? && a.pid == pid && pid in w.processes && w.processes[pid].Working?)
    ensures var p := Next(w, a).processes[pid];
            (pid in w.processes && p == w.processes[pid]) || !p.Working? || !p.pc.SaveFailed?
  {}

  lemma StepTimes(w: World, a: Action, pid: nat)
    requires Inv(w) && pid in Next(w, a).processes && (pid in w.processes ==> Timed(w.processes[pid]))
    ensures Timed(Next(w, a).processes[pid])
  {
    if a.Step? && a.pid == pid && pid in w.processes && w.processes[pid].Working? {
      WorkingTimes(w, pid, a.event);
    } else {
      OthersUntimed(w, a, pid);
    }
  }

  lemma WorkingTimes(w: World, pid: nat, e: Event)
    requires ScheduleSafety.Holding(w, pid) && Timed(w.processes[pid])
    ensures var v := StepWorking(w, pid, w.processes[pid], e); pid in v.processes && Timed(v.processes[pid])
  {
    if !w.processes[pid].pc.Recover? { OnlyRecoverSchedules(w, pid, w.processes[pid], e); }
  }

  lemma OnlyRecoverSchedules(w: World, pid: nat, p: Process, e: Event)
    requires pid in w.processes && p.Working? && !p.pc.Recover?
    ensures var v := StepWorking(w, pid, p, e);
            pid in v.processes && (v.processes[pid].Working? ==> !v.processes[pid].pc.SaveFailed?)
  {}

  lemma {:induction false} AlwaysTimed(actions: seq<Action>, pid: nat)
    requires pid in Run(INITIAL, actions).processes
    ensures Timed(Run(INITIAL, actions).processes[pid])
  {
    if actions != [] {
      var before := actions[..|actions| - 1];
      Reachable(before);
      if pid in Run(INITIAL, before).processes { AlwaysTimed(before, pid); }
      StepTimes(Run(INITIAL, before), actions[|actions| - 1], pid);
    }
  }

  // ---------------------------------------------------------------- the answer

  /** The files say that the slot of the job is complete, for its backup and its frozen snapshot. */
  ghost predicate IsComplete(d: Disk, j: Job) {
    && d.state == Some(State(Some(j.slot), None))
    && j.slot in d.receipts && d.receipts[j.slot].Written? && d.receipts[j.slot].backupId == j.backupId
    && (j.snapshot.Some? ==> d.receipts[j.slot].sha256 == j.snapshot.value.sha256)
  }

  ghost predicate IsPending(d: Disk, j: Job) { d.state.Some? && d.state.value.job == Some(j) }

  /** What the answer says of the files left behind by a call that came to the check of a job. */
  ghost predicate TellsTheTruth(status: Status, before: Disk, after: Disk, p: Process)
    requires p.Working?
  {
    match status
    case Complete => IsComplete(after, p.job) && after != before
    case Reconciled => IsComplete(after, p.job) && after != before
    case RetryWait => after == before && IsPending(after, p.job) && p.now < p.job.nextAttemptMs
    case NeedsReconciliation =>
      IsComplete(after, p.job) || (IsPending(after, p.job) && p.job.phase == ReconciliationRequired)
    case RetryScheduled =>
      || IsComplete(after, p.job)
      || (&& IsPending(after, p.job) && p.job.phase != ReconciliationRequired
          && 1 <= p.job.attempts <= |p.config.retryDelaysSeconds|
          && p.job.nextAttemptMs == p.now + p.config.retryDelaysSeconds[p.job.attempts - 1] * 1000)
    case Raised => after == before
    case _ => false
  }

  /** The ways out that write: the two that clear the job, and the handler's. */
  lemma ClearsTheJob(w: World, pid: nat, e: Event)
    requires ScheduleSafety.Holding(w, pid) && !e.Fails?
    requires w.processes[pid].pc.SaveReconciled? || w.processes[pid].pc.SaveComplete?
    ensures var p, v := w.processes[pid], Next(w, Step(pid, e));
            && pid in v.processes && v.lock.None? && IsComplete(v.disk, p.job) && v.disk != w.disk
            && v.processes[pid] == Exited(if p.pc.SaveReconciled? then Reconciled else Complete)
  {
    SavedReceipt(w, pid);
  }

  lemma HandlerClears(w: World, pid: nat, e: Event)
    requires ScheduleSafety.Holding(w, pid) && !e.Fails? && w.processes[pid].pc.SaveFailed? && w.processes[pid].cleared
    ensures var p, v := w.processes[pid], Next(w, Step(pid, e));
            && pid in v.processes && v.lock.None? && IsComplete(v.disk, p.job)
            && (v.processes[pid] == Exited(NeedsReconciliation) || v.processes[pid] == Exited(RetryScheduled))
  {
    SavedReceipt(w, pid);
  }

  lemma HandlerKeeps(w: World, pid: nat, e: Event)
    requires w.lock == Some(pid) && pid in w.processes && w.processes[pid].Working? && Timed(w.processes[pid])
    requires !e.Fails? && w.processes[pid].pc.SaveFailed? && !w.processes[pid].cleared
    ensures var p, v := w.processes[pid], Next(w, Step(pid, e));
            && pid in v.processes && v.processes[pid].Exited? && v.lock.None?
            && TellsTheTruth(v.processes[pid].status, w.disk, v.disk, p)
  {}

  lemma ReadsTheAnswer(w: World, pid: nat, e: Event)
    requires ScheduleSafety.Holding(w, pid) && w.processes[pid].pc.CheckJob?
    ensures var v := Next(w, Step(pid, e));
            pid in v.processes &&
            (v.processes[pid].Exited? ==>
               v.lock.None? && TellsTheTruth(v.processes[pid].status, w.disk, v.disk, w.processes[pid]))
  {}

  /** Elsewhere only a write that fails ends the call. */
  lemma EndsOtherwise(w: World, pid: nat, e: Event)
    requires w.lock == Some(pid) && pid in w.processes && w.processes[pid].Working?
    requires var pc := w.processes[pid].pc;
             !pc.CheckJob? && (e.Fails? || !(pc.SaveReconciled? || pc.SaveComplete? || pc.SaveFailed?))
    ensures var v := Next(w, Step(pid, e));
            pid in v.processes &&
            (v.processes[pid].Exited? ==> v.lock.None? && v.disk == w.disk && v.processes[pid].status == Raised)
  {}

  /**
    However the runs before it went, an answer given after the check of a job says what the files say:
    complete or reconciled, with the receipt there and the job gone; to be retried, with the time of
    the next attempt on file; for an operator to reconcile; or an exception that wrote nothing. Only
    when the last write of a completed backup failed and the handler's own then succeeded may a
    completed slot be reported as still to be retried or reconciled.
   */
  lemma AnswersTellTheTruth(actions: seq<Action>, pid: nat, e: Event)
    requires var w := Run(INITIAL, actions);
             && pid in w.processes && w.processes[pid].Working?
             && pid in Next(w, Step(pid, e)).processes && Next(w, Step(pid, e)).processes[pid].Exited?
    ensures var w := Run(INITIAL, actions);
            var v := Next(w, Step(pid, e));
            v.lock.None? && TellsTheTruth(v.processes[pid].status, w.disk, v.disk, w.processes[pid])
  {
    Reachable(actions);
    AlwaysTimed(actions, pid);
    var w := Run(INITIAL, actions);
    var pc := w.processes[pid].pc;
    if !e.Fails? && (pc.SaveReconciled? || pc.SaveComplete?) {
      ClearsTheJob(w, pid, e);
    } else if !e.Fails? && pc.SaveFailed? {
      if w.processes[pid].cleared { HandlerClears(w, pid, e); } else { HandlerKeeps(w, pid, e); }
    } else if pc.CheckJob? {
      ReadsTheAnswer(w, pid, e);
    } else {
      EndsOtherwise(w, pid, e);
    }
  }

  // ---------------------------------------------------------------- nothing goes wrong

  lemma FillsReceipt(w: World, actions: seq<Action>, pid: nat, p: Process, d: Disk, past: Trace)
    requires Holds(Run(w, actions), pid, p, d, past) && p.Working? && p.pc.FillReceipt?
    ensures Holds(Run(w, actions + [Step(pid, Proceed)]), pid,
                  p.(pc := SaveComplete, last := Some(p.job.slot), cleared := true),
                  d.(receipts := d.receipts[p.job.slot := p.pc.receipt]), past)
  {
    OneMore(w, actions, Step(pid, Proceed));
  }

  lemma SavesComplete(w: World, actions: seq<Action>, pid: nat, p: Process, d: Disk, past: Trace)
    requires Holds(Run(w, actions), pid, p, d, past) && p.Working? && p.pc.SaveComplete? && p.cleared
    ensures Ended(Run(w, actions + [Step(pid, Proceed)]), pid, Complete, d.(state := Some(State(p.last, None))), past)
  {
    OneMore(w, actions, Step(pid, Proceed));
  }

  /** An invocation is over, after some run. */
  ghost predicate Ended(w: World, pid: nat, status: Status, d: Disk, past: Trace) {
    w.lock.None? && pid in w.processes && w.processes[pid] == Exited(status) && w.disk == d && past == Traced(w.history)
  }

  /** From the inspection of the frozen snapshot to the end. */
  function Finishing(pid: nat, id: BackupId, sha256: Digest, archive: Digest): seq<Action> {
    [Step(pid, Content(sha256))] + [Step(pid, Proceed)] + [Step(pid, Proceed)] + [Step(pid, Proof(id, sha256, archive, true))]
    + [Step(pid, Proceed)] + [Step(pid, Proceed)] + [Step(pid, Proceed)]
  }

  lemma FinishesProven(w: World, actions: seq<Action>, pid: nat, p: Process, d: Disk, past: Trace, archive: Digest)
    requires Holds(Run(w, actions), pid, p, d, past)
    requires p.Working? && p.pc.BackingUp? && p.job.snapshot.Some? && p.job.slot !in d.receipts
    ensures var j, step := p.job, [Step(pid, Proceed)];
            var proof := [Step(pid, Proof(j.backupId, j.snapshot.value.sha256, archive, true))];
            Ended(Run(w, actions + proof + step + step + step), pid, Complete,
                  d.(state := Some(State(Some(j.slot), None)),
                  receipts := d.receipts[j.slot := Written(j.backupId, j.snapshot.value.sha256, archive)]), past)
  {
    var j, step := p.job, [Step(pid, Proceed)];
    var proof := Proof(j.backupId, j.snapshot.value.sha256, archive, true);
    var r := Written(j.backupId, j.snapshot.value.sha256, archive);
    var e := d.(receipts := d.receipts[j.slot := Torn]);
    BacksUp(w, actions, pid, p, d, past, proof);
    CreatesReceipt(w, actions + [Step(pid, proof)], pid, p.(pc := CreateReceipt(r)), d, past);
    FillsReceipt(w, actions + [Step(pid, proof)] + step, pid, p.(pc := FillReceipt(r)), e, past);
    assert e.receipts[j.slot := r] == d.receipts[j.slot := r];
    SavesComplete(w, actions + [Step(pid, proof)] + step + step, pid,
                  p.(pc := SaveComplete, last := Some(j.slot), cleared := true), e.(receipts := d.receipts[j.slot := r]), past);
  }

  lemma Finishes(w: World, actions: seq<Action>, pid: nat, p: Process, d: Disk, past: Trace, archive: Digest)
    requires Holds(Run(w, actions), pid, p, d, past)
    requires p.Working? && p.pc.Inspect? && !p.cleared && p.job.snapshot.Some? && p.job.slot !in d.receipts
    ensures var j := p.job;
            var sha256 := j.snapshot.value.sha256;
            Ended(Run(w, actions + Finishing(pid, j.backupId, sha256, archive)), pid, Complete,
                  d.(state := Some(State(Some(j.slot), None)),
                  receipts := d.receipts[j.slot := Written(j.backupId, sha256, archive)]),
                  past.(backups := past.backups + [BackupRun(j.backupId, j.phase == BackupRunning)]))
  {
    var j, step := p.job, [Step(pid, Proceed)];
    var sha256, resume := j.snapshot.value.sha256, j.phase.BackupRunning?;
    var content := actions + [Step(pid, Content(sha256))];
    var q := p.(pc := SaveRunning(resume), job := j.(phase := BackupRunning));
    var e := d.(state := Some(Memory(q)));
    var more := past.(backups := past.backups + [BackupRun(j.backupId, resume)]);
    Inspects(w, actions, pid, p, d, past);
    SavesRunning(w, content, pid, q, d, past);
    StartsBackup(w, content + step, pid, q.(pc := StartBackup(resume)), e, past);
    FinishesProven(w, content + step + step, pid, q.(pc := BackingUp), e, more, archive);
    assert content + step + step + [Step(pid, Proof(j.backupId, sha256, archive, true))] + step + step + step
        == actions + Finishing(pid, j.backupId, sha256, archive);
  }

  /** The export half, from the check. */
  function Exported(pid: nat, sha256: Digest): seq<Action> {
    [Step(pid, Proceed)] + [Step(pid, Proceed)] + [Step(pid, Content(sha256))] + [Step(pid, Proceed)]
  }

  lemma ExportsWell(w: World, actions: seq<Action>, pid: nat, p: Process, d: Disk, past: Trace, sha256: Digest)
    requires Holds(Run(w, actions), pid, p, d, past)
    requires p.Working? && p.pc.MakeAttempt? && !p.cleared && (p.job.slot, p.job.attempts) !in d.attempts
    ensures var k := p.job.(phase := BackupReady, snapshot := Some(Snapshot(p.job.attempts, sha256)));
            Holds(Run(w, actions + Exported(pid, sha256)), pid, p.(pc := Inspect, job := k),
                  d.(state := Some(State(p.last, Some(k))), attempts := d.attempts + {(p.job.slot, p.job.attempts)}),
                  past.(exports := past.exports + [ExportRun(p.job.slot, p.job.attempts, p.config)]))
  {
    var step, content := [Step(pid, Proceed)], [Step(pid, Content(sha256))];
    var k := p.job.(phase := BackupReady, snapshot := Some(Snapshot(p.job.attempts, sha256)));
    var e := d.(attempts := d.attempts + {(p.job.slot, p.job.attempts)});
    var more := past.(exports := past.exports + [ExportRun(p.job.slot, p.job.attempts, p.config)]);
    MakesAttempt(w, actions, pid, p, d, past);
    StartsExport(w, actions + step, pid, p.(pc := StartExport), e, past);
    Exports(w, actions + step + step, pid, p.(pc := Exporting), e, more, sha256);
    SavesFrozen(w, actions + step + step + content, pid, p.(pc := SaveFrozen, job := k), e, more);
    assert actions + step + step + content + step == actions + Exported(pid, sha256);
  }

  /** What a completed call leaves: the slot completed, its receipt filed, one backup started. */
  ghost predicate Completed(d: Disk, past: Trace, v: World, pid: nat, c: Config, j: Job, sha256: Digest, archive: Digest) {
    && v.lock.None? && pid in v.processes && v.processes[pid] == Exited(Complete)
    && v.disk.state == Some(State(Some(j.slot), None))
    && v.disk.receipts == d.receipts[j.slot := Written(j.backupId, sha256, archive)]
    && v.history.attempted == past.attempted + [j.slot]
    && v.history.backups == past.backups + [BackupRun(j.backupId, j.phase == BackupRunning)]
    && if j.phase == Export then
         && v.disk.attempts == d.attempts + {(j.slot, j.attempts + 1)}
         && v.history.exports == past.exports + [ExportRun(j.slot, j.attempts + 1, c)]
       else v.disk.attempts == d.attempts && v.history.exports == past.exports
  }

  function Rest(pid: nat, j: Job, sha256: Digest, archive: Digest): seq<Action> {
    [Step(pid, Proceed)] + (if j.phase == Export then Exported(pid, sha256) else []) + Finishing(pid, j.backupId, sha256, archive)
  }

  /** A due job, at the check. */
  ghost predicate Ready(p: Process, d: Disk, sha256: Digest) {
    && p.Working? && p.pc.CheckJob? && !p.cleared && p.job.config == Some(p.config)
    && p.job.slot !in d.receipts && p.job.phase != ReconciliationRequired && p.job.nextAttemptMs <= p.now
    && if p.job.phase == Export then (p.job.slot, p.job.attempts + 1) !in d.attempts
       else p.job.snapshot.Some? && p.job.snapshot.value.sha256 == sha256
  }

  /** The slot completed, and a backup started. */
  function Filed(d: Disk, j: Job, sha256: Digest, archive: Digest): Disk {
    d.(state := Some(State(Some(j.slot), None)), receipts := d.receipts[j.slot := Written(j.backupId, sha256, archive)])
  }

  lemma ExportAttempt(w: World, actions: seq<Action>, pid: nat, q: Process, d: Disk, past: Trace, sha256: Digest, archive: Digest)
    requires Holds(Run(w, actions), pid, q, d, past) && q.Working? && q.pc.MakeAttempt? && !q.cleared
    requires q.job.slot !in d.receipts && (q.job.slot, q.job.attempts) !in d.attempts
    ensures var j := q.job;
            Ended(Run(w, actions + Exported(pid, sha256) + Finishing(pid, j.backupId, sha256, archive)), pid, Complete,
                  Filed(d, j, sha256, archive).(attempts := d.attempts + {(j.slot, j.attempts)}),
                  Trace(past.attempted, past.exports + [ExportRun(j.slot, j.attempts, q.config)],
                        past.backups + [BackupRun(j.backupId, false)]))
  {
    var j := q.job;
    var k := j.(phase := BackupReady, snapshot := Some(Snapshot(j.attempts, sha256)));
    ExportsWell(w, actions, pid, q, d, past, sha256);
    Finishes(w, actions + Exported(pid, sha256), pid, q.(pc := Inspect, job := k),
             d.(state := Some(State(q.last, Some(k))), attempts := d.attempts + {(j.slot, j.attempts)}),
             past.(exports := past.exports + [ExportRun(j.slot, j.attempts, q.config)]), archive);
  }

  lemma ExportCompletes(w: World, actions: seq<Action>, pid: nat, p: Process, d: Disk, past: Trace, sha256: Digest, archive: Digest)
    requires Holds(Run(w, actions), pid, p, d, past) && Ready(p, d, sha256) && p.job.phase == Export
    ensures var j := p.job;
            Ended(Run(w, actions + Rest(pid, j, sha256, archive)), pid, Complete,
                  Filed(d, j, sha256, archive).(attempts := d.attempts + {(j.slot, j.attempts + 1)}),
                  Trace(past.attempted + [j.slot], past.exports + [ExportRun(j.slot, j.attempts + 1, p.config)],
                        past.backups + [BackupRun(j.backupId, false)]))
  {
    var j, step := p.job, [Step(pid, Proceed)];
    BeginsAttempt(w, actions, pid, p, d, past);
    ExportAttempt(w, actions + step, pid, p.(job := j.(attempts := j.attempts + 1), pc := MakeAttempt), d,
                  past.(attempted := past.attempted + [j.slot]), sha256, archive);
    assert actions + step + Exported(pid, sha256) + Finishing(pid, j.backupId, sha256, archive)
        == actions + Rest(pid, j, sha256, archive);
  }

  lemma FrozenCompletes(w: World, actions: seq<Action>, pid: nat, p: Process, d: Disk, past: Trace, sha256: Digest, archive: Digest)
    requires Holds(Run(w, actions), pid, p, d, past) && Ready(p, d, sha256) && p.job.phase != Export
    ensures var j := p.job;
            Ended(Run(w, actions + Rest(pid, j, sha256, archive)), pid, Complete, Filed(d, j, sha256, archive),
                  past.(attempted := past.attempted + [j.slot],
                  backups := past.backups + [BackupRun(j.backupId, j.phase == BackupRunning)]))
  {
    var j, step := p.job, [Step(pid, Proceed)];
    BeginsAttempt(w, actions, pid, p, d, past);
    Finishes(w, actions + step, pid, p.(job := j.(attempts := j.attempts + 1), pc := Inspect), d,
             past.(attempted := past.attempted + [j.slot]), archive);
    assert actions + step + Finishing(pid, j.backupId, sha256, archive) == actions + Rest(pid, j, sha256, archive);
  }

  lemma AttemptCompletes(w: World, actions: seq<Action>, pid: nat, p: Process, d: Disk, past: Trace, sha256: Digest, archive: Digest)
    requires Holds(Run(w, actions), pid, p, d, past) && Ready(p, d, sha256)
    ensures var v := Run(w, actions + Rest(pid, p.job, sha256, archive));
            Completed(d, past, v, pid, p.config, p.job, sha256, archive)
  {
    if p.job.phase == Export {
      ExportCompletes(w, actions, pid, p, d, past, sha256, archive);
    } else {
      FrozenCompletes(w, actions, pid, p, d, past, sha256, archive);
    }
  }

  lemma PendingCompletes(w: World, pid: nat, c: Config, now: int, j: Job, sha256: Digest, archive: Digest)
    requires w.lock.None? && pid !in w.processes && Loaded(w.disk).job == Some(j)
    requires c.Valid() && c.enabled && now >= 0
    requires Ready(Working(CheckJob, c, now, Loaded(w.disk).lastCompletedSlot, j, false), w.disk, sha256)
    ensures Completed(w.disk, Traced(w.history), Run(w, [Launch(pid, c, now)] + Steps(pid, 2) + Rest(pid, j, sha256, archive)),
                      pid, c, j, sha256, archive)
  {
    var entered := [] + [Launch(pid, c, now)] + [Step(pid, Proceed)] + [Step(pid, Proceed)];
    EntersPending(w, pid, c, now, j);
    assert entered == [Launch(pid, c, now)] + Steps(pid, 2);
    AttemptCompletes(w, entered, pid, Working(CheckJob, c, now, Loaded(w.disk).lastCompletedSlot, j, false), w.disk,
                     Traced(w.history), sha256, archive);
  }

  /**
    A due call in which nothing goes wrong completes its slot: it exports once if the snapshot is not
    frozen yet, starts the backup once, resumed exactly when it had been running, files the receipt
    for that snapshot and archive, and clears the job.
   */
  lemma DueCallCompletes(actions: seq<Action>, pid: nat, c: Config, now: int, sha256: Digest, archive: Digest)
    requires var w := Run(INITIAL, actions);
             w.lock.None? && pid !in w.processes && Loaded(w.disk).job.Some?
    requires c.Valid() && c.enabled && now >= 0
    requires var d := Run(INITIAL, actions).disk;
             var j := d.state.value.job.value;
             && j.config == Some(c) && j.slot !in d.receipts && j.phase != ReconciliationRequired && j.nextAttemptMs <= now
             && (j.phase == Export ==> (j.slot, j.attempts + 1) !in d.attempts)
             && (j.snapshot.Some? ==> j.snapshot.value.sha256 == sha256)
    ensures var w := Run(INITIAL, actions);
            var j := w.disk.state.value.job.value;
            Completed(w.disk, Traced(w.history), Run(w, [Launch(pid, c, now)] + Steps(pid, 2) + Rest(pid, j, sha256, archive)),
                      pid, c, j, sha256, archive)
  {
    Reachable(actions);
    var w := Run(INITIAL, actions);
    PendingCompletes(w, pid, c, now, Loaded(w.disk).job.value, sha256, archive);
  }

  /** Attempt directories are for completed slots and the pending one. */
  ghost predicate DirectoriesOk(d: Disk) {
    forall slot: int, attempt: nat :: (slot, attempt) in d.attempts ==> Past(Loaded(d), slot) || Current(Loaded(d), slot)
  }

  lemma StepMakesDirectory(w: World, a: Action)
    requires Inv(w)
    ensures Next(w, a).disk.attempts == w.disk.attempts
            || (Loaded(w.disk).job.Some? && exists n: nat ::
                  Next(w, a).disk.attempts == w.disk.attempts + {(Loaded(w.disk).job.value.slot, n)})
  {
    if a.Step? && a.pid in w.processes && w.processes[a.pid].Working? && w.processes[a.pid].pc.MakeAttempt? {
      assert w.processes[a.pid].job.slot == Loaded(w.disk).job.value.slot;
      if Next(w, a).disk.attempts != w.disk.attempts {
        assert Next(w, a).disk.attempts == w.disk.attempts + {(Loaded(w.disk).job.value.slot, w.processes[a.pid].job.attempts)};
      }
    }
  }

  lemma {:induction false} DirectoriesAreKnown(actions: seq<Action>)
    ensures DirectoriesOk(Run(INITIAL, actions).disk)
  {
    if actions != [] {
      var before, a := Run(INITIAL, actions[..|actions| - 1]), actions[|actions| - 1];
      Reachable(actions[..|actions| - 1]);
      DirectoriesAreKnown(actions[..|actions| - 1]);
      StepMakesDirectory(before, a);
      StepMovesForward(before, a);
    }
  }

  lemma IdleCompletes(w: World, pid: nat, c: Config, now: int, sha256: Digest, archive: Digest)
    requires Inv(w) && DirectoriesOk(w.disk) && w.lock.None? && pid !in w.processes && Loaded(w.disk).job.None?
    requires c.Valid() && c.enabled && now >= 0 && !Past(Loaded(w.disk), SlotOf(c, now))
    ensures var j := NewJob(c, now);
            Completed(w.disk, Traced(w.history), Run(w, [Launch(pid, c, now)] + Steps(pid, 3) + Rest(pid, j, sha256, archive)),
                      pid, c, j, sha256, archive)
  {
    var j := NewJob(c, now);
    var entered, step := [] + [Launch(pid, c, now)] + [Step(pid, Proceed)] + [Step(pid, Proceed)], [Step(pid, Proceed)];
    var p := Working(SaveNewJob, c, now, Loaded(w.disk).lastCompletedSlot, j, false);
    EntersIdle(w, pid, c, now);
    OnlyHolder(w, pid, c, now);
    SavesNewJob(w, entered, pid, p, w.disk, Traced(w.history));
    assert entered + step == [Launch(pid, c, now)] + Steps(pid, 3);
    AttemptCompletes(w, entered + step, pid, p.(pc := CheckJob), w.disk.(state := Some(Memory(p))), Traced(w.history), sha256, archive);
  }

  /** The first two steps of a call that finds the lock free take it and keep it. */
  lemma OnlyHolder(w: World, pid: nat, c: Config, now: int)
    requires c.Valid() && c.enabled && now >= 0 && w.lock.None? && pid !in w.processes
    ensures var v := Run(w, [] + [Launch(pid, c, now)] + [Step(pid, Proceed)] + [Step(pid, Proceed)]);
            pid in v.processes && (v.processes[pid].Working? ==> v.lock == Some(pid))
  {
    var step := [Step(pid, Proceed)];
    OneMore(w, [], Launch(pid, c, now));
    OneMore(w, [] + [Launch(pid, c, now)], Step(pid, Proceed));
    OneMore(w, [] + [Launch(pid, c, now)] + step, Step(pid, Proceed));
  }

  /**
    With no job pending and an interval begun since the last completed slot, a call in which nothing
    goes wrong makes the job of that interval and completes it: one export, one fresh backup.
   */
  lemma IdleCallCompletes(actions: seq<Action>, pid: nat, c: Config, now: int, sha256: Digest, archive: Digest) returns (j: Job)
    requires var w := Run(INITIAL, actions);
             w.lock.None? && pid !in w.processes && Loaded(w.disk).job.None?
    requires c.Valid() && c.enabled && now >= 0
    requires var s := Run(INITIAL, actions).disk.state;
             s.Some? && s.value.lastCompletedSlot.Some? ==> now >= (s.value.lastCompletedSlot.value + 1) * c.intervalSeconds * 1000
    ensures MadeAt(j, c, now) && j.phase == Export && j.attempts == 0
    ensures var w := Run(INITIAL, actions);
            Completed(w.disk, Traced(w.history), Run(w, [Launch(pid, c, now)] + Steps(pid, 3) + Rest(pid, j, sha256, archive)),
                      pid, c, j, sha256, archive)
  {
    Reachable(actions);
    DirectoriesAreKnown(actions);
    var w := Run(INITIAL, actions);
    var last := Loaded(w.disk).lastCompletedSlot;
    j := NewJob(c, now);
    NewJobIsForNow(c, now, if last.Some? then last.value else 0);
    IdleCompletes(w, pid, c, now, sha256, archive);
  }

  // ---------------------------------------------------------------- reconciliation

  /** A job that is an operator's to reconcile. */
  ghost predicate Surrendered(d: Disk, j: Job) {
    d.state.Some? && d.state.value.job == Some(j) && j.phase == ReconciliationRequired && j.slot !in d.receipts
  }

  lemma SurrenderedStep(w: World, a: Action, j: Job)
    requires Inv(w) && Surrendered(w.disk, j) && Unchecked(w)
    ensures Next(w, a).disk == w.disk && Next(w, a).history == w.history && Unchecked(Next(w, a))
  {}

  /**
    Once reconciliation has been called for, no run starts anything or changes anything on disk,
    whatever its calls are given.
   */
  lemma {:induction false} ReconciliationIsFinal(w: World, actions: seq<Action>, j: Job)
    requires Inv(w) && Surrendered(w.disk, j) && w.lock.None?
    ensures Run(w, actions).disk == w.disk && Run(w, actions).history == w.history
    ensures Unchecked(Run(w, actions))
  {
    if actions != [] {
      ReconciliationIsFinal(w, actions[..|actions| - 1], j);
      RunsMoveForward(w, actions[..|actions| - 1]);
      SurrenderedStep(Run(w, actions[..|actions| - 1]), actions[|actions| - 1], j);
    }
  }

  // ---------------------------------------------------------------- any files whatever

  /**
    Whatever receipt is found for the job's slot, reachable or not, the job is cleared against it
    exactly when it is whole and names this backup and this frozen snapshot.
   */
  lemma ReceiptMustMatch(w: World, pid: nat, e: Event)
    requires pid in w.processes && w.processes[pid].Working? && w.processes[pid].pc.CheckJob?
    requires var p := w.processes[pid];
             p.job.slot in w.disk.receipts && (p.job.config.Some? ==> p.job.config.value == p.config)
    ensures var p, v := w.processes[pid], Next(w, Step(pid, e));
            var j, r := p.job, w.disk.receipts[p.job.slot];
            && v.disk == w.disk && v.history == w.history
            && v.processes[pid] ==
               if r.Written? && r.backupId == j.backupId && j.snapshot.Some? && r.sha256 == j.snapshot.value.sha256
               then Working(SaveReconciled, p.config, p.now, Some(j.slot), j, true) else Exited(Raised)
  {}

  ghost predicate Writes(pc: Pc) { Saves(pc) || Files(pc) || pc.MakeAttempt? }

  /** A write that fails leaves the files as they were; outside the attempt the call is over, inside it the handler takes over. */
  lemma FailedWriteLeavesNothing(w: World, pid: nat)
    requires pid in w.processes && w.processes[pid].Working? && Writes(w.processes[pid].pc)
    ensures var p, v := w.processes[pid], Next(w, Step(pid, Fails));
            && v.disk == w.disk && v.history == w.history
            && v.processes[pid] == if p.pc.SaveNewJob? || p.pc.SaveReconciled? || p.pc.SaveFailed? then Exited(Raised)
                                   else p.(pc := Recover)
  {}

  /** A directory or a receipt that is there already is not written over, whatever it holds. */
  lemma NothingIsOverwritten(w: World, pid: nat, e: Event)
    requires pid in w.processes && w.processes[pid].Working?
    requires var p := w.processes[pid];
             || (p.pc.MakeAttempt? && (p.job.slot, p.job.attempts) in w.disk.attempts)
             || (p.pc.CreateReceipt? && p.job.slot in w.disk.receipts)
    ensures var v := Next(w, Step(pid, e));
            v.disk == w.disk && v.history == w.history && v.processes[pid] == w.processes[pid].(pc := Recover)
  {}

  /** A crash ends the process it strikes, releases its lock and touches no file; there is no second end. */
  lemma CrashIsTheEnd(w: World, pid: nat)
    ensures var v := Next(w, Crash(pid));
            if pid in w.processes && !w.processes[pid].Exited? then
              v == w.(processes := w.processes[pid := Exited(Crashed)], lock := if w.lock == Some(pid) then None else w.lock)
            else v == w
  {}
}
