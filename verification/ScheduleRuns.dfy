/**
  Particular runs of the scheduler, step by step: how a first invocation comes to leave a torn
  receipt, exactly when a pending job can go on, and how crashes repeat a backup without bound.
 */
module ScheduleRuns {
  import opened Schedule
  import opened ScheduleSafety
  import opened ScheduleTheorems
  import opened ScheduleProgress

  lemma OneMore(w: World, actions: seq<Action>, a: Action)
    ensures Run(w, actions + [a]) == Next(Run(w, actions), a)
  {
    assert (actions + [a])[..|actions|] == actions;
  }

  /** What of the past matters here: the slots attempted, and the exports and backups started. */
  datatype Trace = Trace(attempted: seq<int>, exports: seq<ExportRun>, backups: seq<BackupRun>)

  function Traced(h: History): Trace { Trace(h.attempted, h.exports, h.backups) }

  /** A process that holds the lock, after some run. */
  ghost predicate Holds(w: World, pid: nat, p: Process, d: Disk, past: Trace) {
    && w.lock == Some(pid) && pid in w.processes && w.processes[pid] == p
    && w.disk == d && past == Traced(w.history)
  }

  // ---------------------------------------------------------------- one step each

  /** The lock is taken and a pending job is read, or one is made. */
  lemma Enters(w: World, actions: seq<Action>, pid: nat, c: Config, now: int)
    requires c.Valid() && c.enabled && now >= 0
    requires var v := Run(w, actions);
             v.lock.None? && pid !in v.processes && (Loaded(v.disk).job.None? ==> Loaded(v.disk).lastCompletedSlot.None?)
    ensures var v := Run(w, actions);
            var pending := Loaded(v.disk).job;
            var p := if pending.Some? then Working(CheckJob, c, now, Loaded(v.disk).lastCompletedSlot, pending.value, false)
                     else Working(SaveNewJob, c, now, None, NewJob(c, now), false);
            Holds(Run(w, actions + [Launch(pid, c, now)] + [Step(pid, Proceed)] + [Step(pid, Proceed)]), pid, p, v.disk,
                  Traced(v.history))
  {
    var launch, step := [Launch(pid, c, now)], [Step(pid, Proceed)];
    OneMore(w, actions, Launch(pid, c, now));
    OneMore(w, actions + launch, Step(pid, Proceed));
    OneMore(w, actions + launch + step, Step(pid, Proceed));
  }

  lemma SavesNewJob(w: World, actions: seq<Action>, pid: nat, p: Process, d: Disk, past: Trace)
    requires Holds(Run(w, actions), pid, p, d, past) && p.Working? && p.pc.SaveNewJob?
    ensures Holds(Run(w, actions + [Step(pid, Proceed)]), pid, p.(pc := CheckJob), d.(state := Some(Memory(p))), past)
  {
    OneMore(w, actions, Step(pid, Proceed));
  }

  lemma BeginsAttempt(w: World, actions: seq<Action>, pid: nat, p: Process, d: Disk, past: Trace)
    requires Holds(Run(w, actions), pid, p, d, past) && p.Working? && p.pc.CheckJob? && p.job.config == Some(p.config)
    requires p.job.slot !in d.receipts && !p.job.phase.ReconciliationRequired? && p.job.nextAttemptMs <= p.now
    ensures Holds(Run(w, actions + [Step(pid, Proceed)]), pid,
                  p.(job := p.job.(attempts := p.job.attempts + 1), pc := if p.job.phase.Export? then MakeAttempt else Inspect),
                  d, past.(attempted := past.attempted + [p.job.slot]))
  {
    OneMore(w, actions, Step(pid, Proceed));
  }

  lemma MakesAttempt(w: World, actions: seq<Action>, pid: nat, p: Process, d: Disk, past: Trace)
    requires Holds(Run(w, actions), pid, p, d, past) && p.Working? && p.pc.MakeAttempt?
    requires (p.job.slot, p.job.attempts) !in d.attempts
    ensures Holds(Run(w, actions + [Step(pid, Proceed)]), pid, p.(pc := StartExport),
                  d.(attempts := d.attempts + {(p.job.slot, p.job.attempts)}), past)
  {
    OneMore(w, actions, Step(pid, Proceed));
  }

  lemma StartsExport(w: World, actions: seq<Action>, pid: nat, p: Process, d: Disk, past: Trace)
    requires Holds(Run(w, actions), pid, p, d, past) && p.Working? && p.pc.StartExport?
    ensures Holds(Run(w, actions + [Step(pid, Proceed)]), pid, p.(pc := Exporting), d,
                  past.(exports := past.exports + [ExportRun(p.job.slot, p.job.attempts, p.config)]))
  {
    OneMore(w, actions, Step(pid, Proceed));
  }

  lemma Exports(w: World, actions: seq<Action>, pid: nat, p: Process, d: Disk, past: Trace, sha256: Digest)
    requires Holds(Run(w, actions), pid, p, d, past) && p.Working? && p.pc.Exporting?
    ensures Holds(Run(w, actions + [Step(pid, Content(sha256))]), pid,
                  p.(pc := SaveFrozen,
                  job := p.job.(phase := BackupReady, snapshot := Some(Snapshot(p.job.attempts, sha256)))), d, past)
  {
    OneMore(w, actions, Step(pid, Content(sha256)));
  }

  lemma SavesFrozen(w: World, actions: seq<Action>, pid: nat, p: Process, d: Disk, past: Trace)
    requires Holds(Run(w, actions), pid, p, d, past) && p.Working? && p.pc.SaveFrozen?
    ensures Holds(Run(w, actions + [Step(pid, Proceed)]), pid, p.(pc := Inspect), d.(state := Some(Memory(p))), past)
  {
    OneMore(w, actions, Step(pid, Proceed));
  }

  lemma Inspects(w: World, actions: seq<Action>, pid: nat, p: Process, d: Disk, past: Trace)
    requires Holds(Run(w, actions), pid, p, d, past) && p.Working? && p.pc.Inspect? && p.job.snapshot.Some?
    ensures Holds(Run(w, actions + [Step(pid, Content(p.job.snapshot.value.sha256))]), pid,
                  p.(pc := SaveRunning(p.job.phase.BackupRunning?), job := p.job.(phase := BackupRunning)), d, past)
  {
    OneMore(w, actions, Step(pid, Content(p.job.snapshot.value.sha256)));
  }

  lemma SavesRunning(w: World, actions: seq<Action>, pid: nat, p: Process, d: Disk, past: Trace)
    requires Holds(Run(w, actions), pid, p, d, past) && p.Working? && p.pc.SaveRunning?
    ensures Holds(Run(w, actions + [Step(pid, Proceed)]), pid, p.(pc := StartBackup(p.pc.resume)),
                  d.(state := Some(Memory(p))), past)
  {
    OneMore(w, actions, Step(pid, Proceed));
  }

  lemma StartsBackup(w: World, actions: seq<Action>, pid: nat, p: Process, d: Disk, past: Trace)
    requires Holds(Run(w, actions), pid, p, d, past) && p.Working? && p.pc.StartBackup?
    ensures Holds(Run(w, actions + [Step(pid, Proceed)]), pid, p.(pc := BackingUp), d,
                  past.(backups := past.backups + [BackupRun(p.job.backupId, p.pc.resume)]))
  {
    OneMore(w, actions, Step(pid, Proceed));
  }

  lemma BacksUp(w: World, actions: seq<Action>, pid: nat, p: Process, d: Disk, past: Trace, e: Event)
    requires Holds(Run(w, actions), pid, p, d, past) && p.Working? && p.pc.BackingUp? && ValidProof(p.job, e)
    ensures Holds(Run(w, actions + [Step(pid, e)]), pid,
                  p.(pc := CreateReceipt(Written(p.job.backupId, p.job.snapshot.value.sha256, e.archive))), d, past)
  {
    OneMore(w, actions, Step(pid, e));
  }

  lemma CreatesReceipt(w: World, actions: seq<Action>, pid: nat, p: Process, d: Disk, past: Trace)
    requires Holds(Run(w, actions), pid, p, d, past) && p.Working? && p.pc.CreateReceipt? && p.job.slot !in d.receipts
    ensures Holds(Run(w, actions + [Step(pid, Proceed)]), pid, p.(pc := FillReceipt(p.pc.receipt)),
                  d.(receipts := d.receipts[p.job.slot := Torn]), past)
  {
    OneMore(w, actions, Step(pid, Proceed));
  }

  /** An attempt directory that is there already, or an answer that is not the one hoped for. */
  lemma FallsBack(w: World, actions: seq<Action>, pid: nat, p: Process, d: Disk, past: Trace)
    requires Holds(Run(w, actions), pid, p, d, past) && p.Working?
    requires || (p.pc.MakeAttempt? && (p.job.slot, p.job.attempts) in d.attempts)
             || p.pc.Exporting? || p.pc.Inspect? || p.pc.BackingUp?
    ensures Holds(Run(w, actions + [Step(pid, Proceed)]), pid, p.(pc := Recover), d, past)
  {
    OneMore(w, actions, Step(pid, Proceed));
  }

  lemma Recovers(w: World, actions: seq<Action>, pid: nat, p: Process, d: Disk, past: Trace)
    requires Holds(Run(w, actions), pid, p, d, past) && p.Working? && p.pc.Recover?
    ensures Holds(Run(w, actions + [Step(pid, Proceed)]), pid, Failed(p, false), d, past)
  {
    OneMore(w, actions, Step(pid, Proceed));
  }

  lemma SavesFailed(w: World, actions: seq<Action>, pid: nat, p: Process, d: Disk, past: Trace, e: Event)
    requires Holds(Run(w, actions), pid, p, d, past) && p.Working? && p.pc.SaveFailed?
    ensures var v := Run(w, actions + [Step(pid, e)]);
            && v.lock.None? && past == Traced(v.history)
            && v.disk == if e.Fails? then d else d.(state := Some(Memory(p)))
  {
    OneMore(w, actions, Step(pid, e));
  }

  lemma Crashes(w: World, actions: seq<Action>, pid: nat, p: Process, d: Disk, past: Trace)
    requires Holds(Run(w, actions), pid, p, d, past) && p.Working?
    ensures var v := Run(w, actions + [Crash(pid)]);
            && v.lock.None? && v.disk == d && past == Traced(v.history)
            && v.processes == Run(w, actions).processes[pid := Exited(Crashed)]
  {
    OneMore(w, actions, Crash(pid));
  }

  // ---------------------------------------------------------------- a first invocation

  function ToAttempt(pid: nat, c: Config, now: int): seq<Action> {
    [] + [Launch(pid, c, now)] + [Step(pid, Proceed)] + [Step(pid, Proceed)] + [Step(pid, Proceed)] + [Step(pid, Proceed)]
  }

  function ToFrozen(pid: nat, c: Config, now: int, sha256: Digest): seq<Action> {
    ToAttempt(pid, c, now) + [Step(pid, Proceed)] + [Step(pid, Proceed)] + [Step(pid, Content(sha256))] + [Step(pid, Proceed)]
  }

  function ToBackup(pid: nat, c: Config, now: int, sha256: Digest): seq<Action> {
    ToFrozen(pid, c, now, sha256) + [Step(pid, Content(sha256))] + [Step(pid, Proceed)] + [Step(pid, Proceed)]
  }

  function ToReceipt(pid: nat, c: Config, now: int, sha256: Digest, archive: Digest): seq<Action>
    requires c.Valid()
  {
    ToBackup(pid, c, now, sha256) + [Step(pid, Proof(IdOf(c, SlotOf(c, now)), sha256, archive, true))] + [Step(pid, Proceed)]
  }

  /** The job of the first invocation, at its first attempt, frozen, and with its backup begun. */
  function FirstTry(c: Config, now: int): Job
    requires c.Valid()
  {
    NewJob(c, now).(attempts := 1)
  }

  function Frozen(c: Config, now: int, sha256: Digest): Job
    requires c.Valid()
  {
    FirstTry(c, now).(phase := BackupReady, snapshot := Some(Snapshot(1, sha256)))
  }

  function Begun(c: Config, now: int, sha256: Digest): Job
    requires c.Valid()
  {
    Frozen(c, now, sha256).(phase := BackupRunning)
  }

  function Holding(j: Job): State { State(None, Some(j)) }

  lemma ReachesAttempt(pid: nat, c: Config, now: int)
    requires c.Valid() && c.enabled && now >= 0
    ensures Holds(Run(INITIAL, ToAttempt(pid, c, now)), pid, Working(MakeAttempt, c, now, None, FirstTry(c, now), false),
                  Disk(Some(Holding(NewJob(c, now))), map[], {}), Trace([SlotOf(c, now)], [], []))
  {
    var entered := [] + [Launch(pid, c, now)] + [Step(pid, Proceed)] + [Step(pid, Proceed)];
    var p := Working(SaveNewJob, c, now, None, NewJob(c, now), false);
    var d := Disk(Some(Holding(p.job)), map[], {});
    Enters(INITIAL, [], pid, c, now);
    SavesNewJob(INITIAL, entered, pid, p, INITIAL.disk, Trace([], [], []));
    BeginsAttempt(INITIAL, entered + [Step(pid, Proceed)], pid, p.(pc := CheckJob), d, Trace([], [], []));
    assert [] + [p.job.slot] == [SlotOf(c, now)];
  }

  lemma ReachesFrozen(pid: nat, c: Config, now: int, sha256: Digest)
    requires c.Valid() && c.enabled && now >= 0
    ensures Holds(Run(INITIAL, ToFrozen(pid, c, now, sha256)), pid, Working(Inspect, c, now, None, Frozen(c, now, sha256), false),
                  Disk(Some(Holding(Frozen(c, now, sha256))), map[], {(SlotOf(c, now), 1)}), Trace([SlotOf(c, now)], [ExportRun(SlotOf(c, now), 1, c)], []))
  {
    ReachesAttempt(pid, c, now);
    var p := Working(MakeAttempt, c, now, None, FirstTry(c, now), false);
    var to, step, past := ToAttempt(pid, c, now), [Step(pid, Proceed)], Trace([SlotOf(c, now)], [], []);
    var more := past.(exports := [ExportRun(SlotOf(c, now), 1, c)]);
    var d := Disk(Some(Holding(NewJob(c, now))), map[], {});
    var e := d.(attempts := {(SlotOf(c, now), 1)});
    assert d.attempts + {(p.job.slot, p.job.attempts)} == e.attempts;
    MakesAttempt(INITIAL, to, pid, p, d, past);
    StartsExport(INITIAL, to + step, pid, p.(pc := StartExport), e, past);
    Exports(INITIAL, to + step + step, pid, p.(pc := Exporting), e, more, sha256);
    SavesFrozen(INITIAL, to + step + step + [Step(pid, Content(sha256))], pid,
                Working(SaveFrozen, c, now, None, Frozen(c, now, sha256), false), e, more);
  }

  lemma ReachesBackup(pid: nat, c: Config, now: int, sha256: Digest)
    requires c.Valid() && c.enabled && now >= 0
    ensures var j := Begun(c, now, sha256);
            Holds(Run(INITIAL, ToBackup(pid, c, now, sha256)), pid, Working(BackingUp, c, now, None, j, false),
                  Disk(Some(Holding(j)), map[], {(j.slot, 1)}), Trace([j.slot], [ExportRun(j.slot, 1, c)], [BackupRun(j.backupId, false)]))
  {
    ReachesFrozen(pid, c, now, sha256);
    var p, j := Working(Inspect, c, now, None, Frozen(c, now, sha256), false), Begun(c, now, sha256);
    var to, step, content := ToFrozen(pid, c, now, sha256), [Step(pid, Proceed)], [Step(pid, Content(sha256))];
    var d, past := Disk(Some(Holding(p.job)), map[], {(j.slot, 1)}), Trace([j.slot], [ExportRun(j.slot, 1, c)], []);
    Inspects(INITIAL, to, pid, p, d, past);
    SavesRunning(INITIAL, to + content, pid, p.(pc := SaveRunning(false), job := j), d, past);
    StartsBackup(INITIAL, to + content + step, pid, p.(pc := StartBackup(false), job := j), d.(state := Some(Holding(j))), past);
    assert past.backups + [BackupRun(j.backupId, false)] == [BackupRun(j.backupId, false)];
  }

  // ---------------------------------------------------------------- a torn receipt

  /**
    The very first invocation, cut off between creating its receipt and filling it, leaves the task
    stuck, with the lock free and its job due: the run that TornReceiptBlocks says cannot go on.
   */
  lemma TornReceiptHappens(pid: nat, c: Config, now: int, sha256: Digest, archive: Digest)
    requires c.Valid() && c.enabled && now >= 0
    ensures var w := Run(INITIAL, ToReceipt(pid, c, now, sha256, archive) + [Crash(pid)]);
            && Stuck(w.disk, Begun(c, now, sha256)) && w.lock.None?
            && Loaded(w.disk).job.value.config == Some(c) && Loaded(w.disk).job.value.nextAttemptMs <= now
  {
    ReachesBackup(pid, c, now, sha256);
    var j := Begun(c, now, sha256);
    var to, proof := ToBackup(pid, c, now, sha256), Proof(IdOf(c, SlotOf(c, now)), sha256, archive, true);
    var p := Working(BackingUp, c, now, None, j, false);
    var d, past := Disk(Some(Holding(j)), map[], {(j.slot, 1)}), Trace([j.slot], [ExportRun(j.slot, 1, c)], [BackupRun(j.backupId, false)]);
    var r := Written(j.backupId, sha256, archive);
    BacksUp(INITIAL, to, pid, p, d, past, proof);
    CreatesReceipt(INITIAL, to + [Step(pid, proof)], pid, p.(pc := CreateReceipt(r)), d, past);
    Crashes(INITIAL, ToReceipt(pid, c, now, sha256, archive), pid, p.(pc := FillReceipt(r)),
            d.(receipts := d.receipts[j.slot := Torn]), past);
  }

  /** Nothing but its receipt keeps the pending job waiting. */
  ghost predicate Due(d: Disk, j: Job, now: int) {
    j.slot in d.receipts || (!j.phase.ReconciliationRequired? && j.nextAttemptMs <= now)
  }

  /**
    What is then on disk: the slot completed against its receipt, a new attempt directory, or a job
    with one attempt more.
   */
  ghost predicate Advanced(d: Disk, e: Disk, j: Job) {
    || e.state == Some(State(Some(j.slot), None))
    || ((j.slot, j.attempts + 1) !in d.attempts && (j.slot, j.attempts + 1) in e.attempts)
    || (Loaded(e).job.Some? && Loaded(e).job.value.attempts == j.attempts + 1)
  }

  /** The handler saves the job it was left with. */
  lemma HandlerSaves(w: World, actions: seq<Action>, pid: nat, p: Process, d: Disk, past: Trace)
    requires Holds(Run(w, actions), pid, p, d, past) && p.Working? && p.pc.Recover? && !p.cleared
    ensures var v := Run(w, actions + [Step(pid, Proceed)] + [Step(pid, Proceed)]);
            Loaded(v.disk).job.Some? && Loaded(v.disk).job.value.attempts == p.job.attempts
  {
    Recovers(w, actions, pid, p, d, past);
    SavesFailed(w, actions + [Step(pid, Proceed)], pid, Failed(p, false), d, past, Proceed);
  }

  /** Without a receipt, a due invocation under the job's configuration makes or counts an attempt. */
  lemma DueJobIsAttempted(w: World, pid: nat, c: Config, now: int)
    requires w.lock.None? && pid !in w.processes && c.Valid() && c.enabled && now >= 0
    requires Loaded(w.disk).job.Some?
    requires var j := Loaded(w.disk).job.value;
             j.config == Some(c) && j.slot !in w.disk.receipts && Due(w.disk, j, now)
    ensures Advanced(w.disk, Run(w, [Launch(pid, c, now)] + Steps(pid, 6)).disk, Loaded(w.disk).job.value)
  {
    var j, d, step := Loaded(w.disk).job.value, w.disk, [Step(pid, Proceed)];
    var past := Traced(w.history);
    var entered := [] + [Launch(pid, c, now)] + step + step;
    var p := Working(CheckJob, c, now, Loaded(d).lastCompletedSlot, j, false);
    var k := j.(attempts := j.attempts + 1);
    var q := p.(job := k, pc := if j.phase.Export? then MakeAttempt else Inspect);
    var more := past.(attempted := past.attempted + [j.slot]);
    Enters(w, [], pid, c, now);
    BeginsAttempt(w, entered, pid, p, d, past);
    assert entered + step + step + step + step == [Launch(pid, c, now)] + Steps(pid, 6);
    if j.phase.Export? && (j.slot, k.attempts) !in d.attempts {
      var e := d.(attempts := d.attempts + {(j.slot, k.attempts)});
      MakesAttempt(w, entered + step, pid, q, d, more);
      StartsExport(w, entered + step + step, pid, q.(pc := StartExport), e, more);
      FallsBack(w, entered + step + step + step, pid, q.(pc := Exporting), e,
                more.(exports := more.exports + [ExportRun(k.slot, k.attempts, c)]));
    } else {
      FallsBack(w, entered + step, pid, q, d, more);
      HandlerSaves(w, entered + step + step, pid, q.(pc := Recover), d, more);
    }
  }

  /** With a filled one, it completes the slot, and is over. */
  lemma FilledReceiptCompletes(w: World, pid: nat, c: Config, now: int)
    requires Inv(w) && w.lock.None? && pid !in w.processes
    requires c.Valid() && c.enabled && now >= 0
    requires Loaded(w.disk).job.Some? && Loaded(w.disk).job.value.config == Some(c)
    requires var slot := Loaded(w.disk).job.value.slot;
             slot in w.disk.receipts && w.disk.receipts[slot].Written?
    ensures Run(w, [Launch(pid, c, now)] + Steps(pid, 6)).disk.state == Some(State(Some(Loaded(w.disk).job.value.slot), None))
  {
    var four, step := [Launch(pid, c, now)] + Steps(pid, 4), [Step(pid, Proceed)];
    CutOffCompletionReconciles(w, pid, c, now);
    OneMore(w, four, Step(pid, Proceed));
    OneMore(w, four + step, Step(pid, Proceed));
    assert four + step + step == [Launch(pid, c, now)] + Steps(pid, 6);
  }

  /**
    In every reachable state with the lock free, the next due invocation under the pending job's
    configuration, even if the programs it starts then fail, changes what is on disk exactly when the
    receipt of the job's slot is not torn; and then it completes the slot or adds one attempt to it.
   */
  lemma ProgressExactlyWhenNotTorn(actions: seq<Action>, pid: nat, c: Config, now: int)
    requires var w := Run(INITIAL, actions); w.lock.None? && pid !in w.processes && Loaded(w.disk).job.Some?
    requires c.Valid() && c.enabled && now >= 0
    requires var d := Run(INITIAL, actions).disk;
             Loaded(d).job.value.config == Some(c) && Due(d, Loaded(d).job.value, now)
    ensures var w := Run(INITIAL, actions);
            var e, j := Run(w, [Launch(pid, c, now)] + Steps(pid, 6)).disk, Loaded(w.disk).job.value;
            var torn := j.slot in w.disk.receipts && w.disk.receipts[j.slot].Torn?;
            && (e != w.disk <==> !torn)
            && (Advanced(w.disk, e, j) <==> !torn)
  {
    Reachable(actions);
    var w := Run(INITIAL, actions);
    var j := Loaded(w.disk).job.value;
    if j.slot !in w.disk.receipts {
      DueJobIsAttempted(w, pid, c, now);
    } else if w.disk.receipts[j.slot].Written? {
      FilledReceiptCompletes(w, pid, c, now);
    } else {
      TornReceiptBlocks(w, [Launch(pid, c, now)] + Steps(pid, 6), j);
    }
  }

  // ---------------------------------------------------------------- cut off without end

  /** A crash, or a backup that fails and then the loss of the handler's own write. */
  function Cut(pid: nat, lost: bool): seq<Action> {
    if lost then [Step(pid, Proceed)] + [Step(pid, Proceed)] + [Step(pid, Fails)] else [Crash(pid)]
  }

  lemma CutsOff(w: World, actions: seq<Action>, pid: nat, p: Process, d: Disk, past: Trace, lost: bool)
    requires Holds(Run(w, actions), pid, p, d, past) && p.Working? && p.pc.BackingUp?
    ensures var v := Run(w, actions + Cut(pid, lost));
            v.lock.None? && v.disk == d && past == Traced(v.history)
  {
    if lost {
      var step := [Step(pid, Proceed)];
      FallsBack(w, actions, pid, p, d, past);
      Recovers(w, actions + step, pid, p.(pc := Recover), d, past);
      SavesFailed(w, actions + step + step, pid, Failed(p.(pc := Recover), false), d, past, Fails);
      assert actions + step + step + [Step(pid, Fails)] == actions + Cut(pid, lost);
    } else {
      Crashes(w, actions, pid, p, d, past);
    }
  }

  /** One more invocation that is cut off while its backup runs. */
  function Round(pid: nat, c: Config, now: int, sha256: Digest, lost: bool): seq<Action> {
    [Launch(pid, c, now)] + [Step(pid, Proceed)] + [Step(pid, Proceed)] + [Step(pid, Proceed)]
    + [Step(pid, Content(sha256))] + [Step(pid, Proceed)] + [Step(pid, Proceed)] + Cut(pid, lost)
  }

  function CutLoop(c: Config, now: int, sha256: Digest, lost: bool, n: nat): seq<Action> {
    if n == 0 then ToBackup(0, c, now, sha256) + Cut(0, lost)
    else CutLoop(c, now, sha256, lost, n - 1) + Round(n, c, now, sha256, lost)
  }

  /** Cut off `n + 1` times, by invocations numbered up to `n`: as many attempts, and one backup each. */
  ghost predicate CutOff(w: World, c: Config, now: int, sha256: Digest, n: nat)
    requires c.Valid()
  {
    var j := Begun(c, now, sha256).(attempts := n + 1);
    && w.lock.None? && (forall q :: q in w.processes ==> q <= n)
    && w.disk == Disk(Some(Holding(j)), map[], {(j.slot, 1)})
    && Tally(w.history.attempted, j.slot) == n + 1
    && |w.history.backups| == n + 1 && forall k :: 0 <= k <= n ==> w.history.backups[k].backupId == j.backupId
  }

  lemma OneStays(w: World, a: Action)
    ensures Next(w, a).processes.Keys <= w.processes.Keys + {a.pid}
  {}

  lemma {:induction false} OthersStay(w: World, actions: seq<Action>, pid: nat)
    requires forall k :: 0 <= k < |actions| ==> actions[k].pid == pid
    ensures Run(w, actions).processes.Keys <= w.processes.Keys + {pid}
  {
    if actions != [] {
      var n := |actions| - 1;
      OthersStay(w, actions[..n], pid);
      OneStays(Run(w, actions[..n]), actions[n]);
    }
  }

  lemma RoundReaches(w: World, pid: nat, c: Config, now: int, d: Disk, past: Trace, j: Job)
    requires c.Valid() && c.enabled && now >= 0 && w.lock.None? && pid !in w.processes
    requires w.disk == d && d.state == Some(Holding(j)) && j.slot !in d.receipts
    requires past == Traced(w.history)
    requires j.config == Some(c) && j.phase.BackupRunning? && j.nextAttemptMs <= now && j.snapshot.Some?
    ensures var step, content := [Step(pid, Proceed)], [Step(pid, Content(j.snapshot.value.sha256))];
            var k := j.(attempts := j.attempts + 1);
            Holds(Run(w, [] + [Launch(pid, c, now)] + step + step + step + content + step), pid,
                  Working(StartBackup(true), c, now, None, k, false), d.(state := Some(Holding(k))),
                  past.(attempted := past.attempted + [j.slot]))
  {
    var step, content := [Step(pid, Proceed)], [Step(pid, Content(j.snapshot.value.sha256))];
    var entered := [] + [Launch(pid, c, now)] + step + step;
    var p, q := Working(CheckJob, c, now, None, j, false), Working(Inspect, c, now, None, j.(attempts := j.attempts + 1), false);
    var more := past.(attempted := past.attempted + [j.slot]);
    Enters(w, [], pid, c, now);
    BeginsAttempt(w, entered, pid, p, d, past);
    Inspects(w, entered + step, pid, q, d, more);
    SavesRunning(w, entered + step + content, pid, q.(pc := SaveRunning(true)), d, more);
  }

  /** A round over a begun backup: one more attempt, one more start, and the same job left behind. */
  lemma RoundRuns(w: World, pid: nat, c: Config, now: int, d: Disk, past: Trace, j: Job, lost: bool)
    requires c.Valid() && c.enabled && now >= 0 && w.lock.None? && pid !in w.processes
    requires w.disk == d && d.state == Some(Holding(j)) && j.slot !in d.receipts
    requires past == Traced(w.history)
    requires j.config == Some(c) && j.phase.BackupRunning? && j.nextAttemptMs <= now && j.snapshot.Some?
    ensures var v := Run(w, Round(pid, c, now, j.snapshot.value.sha256, lost));
            && v.lock.None? && v.disk == d.(state := Some(Holding(j.(attempts := j.attempts + 1))))
            && v.history.attempted == past.attempted + [j.slot]
            && v.history.backups == past.backups + [BackupRun(j.backupId, true)]
            && v.processes.Keys <= w.processes.Keys + {pid}
  {
    var step, content := [Step(pid, Proceed)], [Step(pid, Content(j.snapshot.value.sha256))];
    var entered := [] + [Launch(pid, c, now)] + step + step;
    var k, more := j.(attempts := j.attempts + 1), past.(attempted := past.attempted + [j.slot]);
    var q := Working(CheckJob, c, now, None, k, false);
    var e := d.(state := Some(Holding(k)));
    RoundReaches(w, pid, c, now, d, past, j);
    StartsBackup(w, entered + step + content + step, pid, q.(pc := StartBackup(true)), e, more);
    CutsOff(w, entered + step + content + step + step, pid, q.(pc := BackingUp), e,
            more.(backups := past.backups + [BackupRun(j.backupId, true)]), lost);
    var round := Round(pid, c, now, j.snapshot.value.sha256, lost);
    assert entered + step + content + step + step + Cut(pid, lost) == round;
    OthersStay(w, round, pid);
  }

  lemma {:induction false} RunAppends(w: World, a: seq<Action>, b: seq<Action>)
    ensures Run(w, a + b) == Run(Run(w, a), b)
    decreases |b|
  {
    if b == [] {
      assert a + b == a;
    } else {
      var n := |b| - 1;
      RunAppends(w, a, b[..n]);
      assert (a + b)[..|a + b| - 1] == a + b[..n];
    }
  }

  lemma CutOffOnce(c: Config, now: int, sha256: Digest, lost: bool)
    requires c.Valid() && c.enabled && now >= 0
    ensures CutOff(Run(INITIAL, CutLoop(c, now, sha256, lost, 0)), c, now, sha256, 0)
  {
    var j := Begun(c, now, sha256);
    ReachesBackup(0, c, now, sha256);
    CutsOff(INITIAL, ToBackup(0, c, now, sha256), 0, Working(BackingUp, c, now, None, j, false),
            Disk(Some(Holding(j)), map[], {(j.slot, 1)}), Trace([j.slot], [ExportRun(j.slot, 1, c)], [BackupRun(j.backupId, false)]), lost);
    OthersStay(INITIAL, ToBackup(0, c, now, sha256) + Cut(0, lost), 0);
    TallyOne([], j.slot, j.slot);
    assert [] + [j.slot] == [j.slot];
  }

  lemma CutOffAgain(w: World, c: Config, now: int, sha256: Digest, lost: bool, n: nat)
    requires c.Valid() && c.enabled && now >= 0 && CutOff(w, c, now, sha256, n)
    ensures CutOff(Run(w, Round(n + 1, c, now, sha256, lost)), c, now, sha256, n + 1)
  {
    var j := Begun(c, now, sha256).(attempts := n + 1);
    RoundRuns(w, n + 1, c, now, w.disk, Traced(w.history), j, lost);
    TallyOne(w.history.attempted, j.slot, j.slot);
  }

  /**
    The bound on attempts is lost with crashes, and with the loss of the handler's own write: however
    many are asked for, some run with interruptions of that kind alone makes as many attempts at one
    slot, starts the backup program in each, and does not come to reconciliation.
   */
  lemma {:induction false} InterruptionsRepeatBackups(c: Config, now: int, sha256: Digest, lost: bool, n: nat)
    requires c.Valid() && c.enabled && now >= 0
    ensures CutOff(Run(INITIAL, CutLoop(c, now, sha256, lost, n)), c, now, sha256, n)
  {
    if n == 0 {
      CutOffOnce(c, now, sha256, lost);
    } else {
      InterruptionsRepeatBackups(c, now, sha256, lost, n - 1);
      CutOffAgain(Run(INITIAL, CutLoop(c, now, sha256, lost, n - 1)), c, now, sha256, lost, n - 1);
      RunAppends(INITIAL, CutLoop(c, now, sha256, lost, n - 1), Round(n, c, now, sha256, lost));
    }
  }
}
