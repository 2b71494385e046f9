/**
  `run_once` as the program it is: one invocation over the files of its task directory, proved to be
  a run of the machine. The machine's theorems therefore hold of it, alone or beside others.
 */
module Scheduler {
  import opened Schedule
  import opened ScheduleSafety

  /** What the environment does at each point of one invocation; no point is passed twice. */
  type Answers = Pc -> Event

  ghost function Answer(w: World, pid: nat, answers: Answers): Event {
    if pid in w.processes && w.processes[pid].Working? then answers(w.processes[pid].pc) else Proceed
  }

  /** `n` steps of one process from `w`, with nothing in between. */
  ghost function Drive(w: World, pid: nat, answers: Answers, n: nat): World {
    if n == 0 then w else var v := Drive(w, pid, answers, n - 1); Next(v, Step(pid, Answer(v, pid, answers)))
  }

  ghost function Script(w: World, pid: nat, answers: Answers, n: nat): seq<Action> {
    if n == 0 then [] else Script(w, pid, answers, n - 1) + [Step(pid, Answer(Drive(w, pid, answers, n - 1), pid, answers))]
  }

  /** Driving one process is a run of the machine. */
  lemma {:induction false} DriveIsRun(w: World, pid: nat, answers: Answers, n: nat)
    ensures |Script(w, pid, answers, n)| == n
    ensures Run(w, Script(w, pid, answers, n)) == Drive(w, pid, answers, n)
  {
    if n > 0 {
      DriveIsRun(w, pid, answers, n - 1);
      var s := Script(w, pid, answers, n);
      assert s[..|s| - 1] == Script(w, pid, answers, n - 1);
    }
  }

  lemma {:induction false} DriveKeeps(w: World, pid: nat, answers: Answers, n: nat)
    requires Inv(w)
    ensures Inv(Drive(w, pid, answers, n))
  {
    if n > 0 {
      DriveKeeps(w, pid, answers, n - 1);
      var v := Drive(w, pid, answers, n - 1);
      NextKeeps(v, Step(pid, Answer(v, pid, answers)));
    }
  }

  /** A step number; naming one is what brings the step there into a proof. */
  ghost predicate Moment(k: nat) { true }

  /** Each world comes from the one before by a step of the process. */
  ghost predicate Faithful(visited: seq<World>, pid: nat, answers: Answers) {
    forall k: nat {:trigger Moment(k)} :: Moment(k) && k + 1 < |visited| ==>
                                            visited[k + 1] == Next(visited[k], Step(pid, Answer(visited[k], pid, answers)))
  }

  lemma {:induction false} FaithfulIsDrive(visited: seq<World>, pid: nat, answers: Answers, n: nat)
    requires n < |visited| && Faithful(visited, pid, answers)
    ensures visited[n] == Drive(visited[0], pid, answers, n)
  {
    if n > 0 {
      FaithfulIsDrive(visited, pid, answers, n - 1);
      assert Moment(n - 1);
    }
  }

  lemma FaithfulGrows(visited: seq<World>, pid: nat, answers: Answers)
    requires visited != [] && Faithful(visited, pid, answers)
    ensures var w := visited[|visited| - 1];
            Faithful(visited + [Next(w, Step(pid, Answer(w, pid, answers)))], pid, answers)
  {}

  class TaskDirectory {
    var state: Option<State>
    var receipts: map<int, Receipt>
    var attempts: set<(int, nat)>
    var locked: bool
    ghost var world: World
    /** Where the latest invocation began, and every world since. */
    ghost var start: World
    ghost var visited: seq<World>

    ghost predicate Valid()
      reads this
    {
      Inv(world) && Mirrors() && (locked <==> world.lock.Some?)
    }

    constructor ()
      ensures Valid() && world == INITIAL && !locked
    {
      state, receipts, attempts, locked, world := None, map[], {}, false, INITIAL;
      start, visited := INITIAL, [INITIAL];
      new;
      InvInitially();
    }

    /** The files are what the machine has on disk. */
    ghost predicate Mirrors()
      reads this
    {
      world.disk == Disk(state, receipts, attempts)
    }

    ghost predicate At(pid: nat, p: Process)
      reads this
    {
      pid in world.processes && world.processes[pid] == p
    }

    ghost predicate Recorded(pid: nat, answers: Answers)
      reads this
    {
      visited != [] && visited[0] == start && visited[|visited| - 1] == world && Faithful(visited, pid, answers)
    }

    /** In the middle of an invocation, the lock held. */
    ghost predicate Inside(pid: nat, p: Process, answers: Answers)
      reads this
    {
      Mirrors() && locked && world.lock == Some(pid) && At(pid, p) && Recorded(pid, answers)
    }

    /** The invocation is over, the lock released. */
    ghost predicate Over(pid: nat, status: Status, answers: Answers)
      reads this
    {
      Mirrors() && !locked && world.lock.None? && At(pid, Exited(status)) && Recorded(pid, answers)
    }

    /** One step of the machine, taken where the program stands. */
    ghost method Advance(pid: nat, p: Process, answers: Answers)
      requires p.Working? && At(pid, p) && Recorded(pid, answers)
      modifies `world, `visited
      ensures Recorded(pid, answers)
      ensures world == StepWorking(old(world), pid, p, answers(p.pc))
    {
      FaithfulGrows(visited, pid, answers);
      world := Next(world, Step(pid, Answer(world, pid, answers)));
      visited := visited + [world];
    }

    /** The first two steps: taking the lock, and reading the state under it. */
    ghost method Enter(pid: nat, answers: Answers)
      requires pid in world.processes && !world.processes[pid].Working? && Recorded(pid, answers)
      modifies `world, `visited
      ensures Recorded(pid, answers)
      ensures world == Next(old(world), Step(pid, Proceed))
    {
      FaithfulGrows(visited, pid, answers);
      world := Next(world, Step(pid, Proceed));
      visited := visited + [world];
    }

    /** Replaces the state file, unless the write fails. */
    method SaveState(memory: State, event: Event) returns (ok: bool)
      modifies this`state
      ensures ok == !event.Fails?
      ensures state == if ok then Some(memory) else old(state)
    {
      ok := !event.Fails?;
      if ok { state := Some(memory); }
    }

    method RunOnce(ghost pid: nat, config: Config, now: int, answers: Answers) returns (status: Status)
      requires Valid() && pid !in world.processes
      modifies this
      ensures Valid() && (locked <==> old(locked))
      ensures pid in world.processes && world.processes[pid] == Exited(status)
      ensures start == Next(old(world), Launch(pid, config, now))
      ensures exists n :: world == Drive(start, pid, answers, n)
    {
      start := Next(world, Launch(pid, config, now));
      NextKeeps(world, Launch(pid, config, now));
      world := start;
      visited := [start];
      assert world == Drive(start, pid, answers, 0);
      if !config.Valid() || now < 0 { return Raised; }
      if !config.enabled { return Disabled; }
      Enter(pid, answers);
      if locked {
        status := AlreadyRunning;
      } else {
        locked := true;
        status := Load(pid, config, now, answers);
      }
      Conclude(pid, answers);
    }

    lemma Conclude(pid: nat, answers: Answers)
      requires Recorded(pid, answers) && Inv(start)
      ensures Inv(world) && exists n :: world == Drive(start, pid, answers, n)
    {
      var n := |visited| - 1;
      FaithfulIsDrive(visited, pid, answers, n);
      DriveKeeps(start, pid, answers, n);
    }

    method Load(ghost pid: nat, config: Config, now: int, answers: Answers) returns (status: Status)
      requires config.Valid() && Inside(pid, Loading(config, now), answers)
      modifies `state, `receipts, `attempts, `locked, `world, `visited
      ensures Over(pid, status, answers)
    {
      var loaded := if state.Some? then state.value else State(None, None);
      var slot := SlotOf(config, now);
      var last := loaded.lastCompletedSlot;
      Enter(pid, answers);
      if loaded.job.None? {
        if last.Some? && slot <= last.value {
          locked := false;
          return AlreadyComplete;
        }
        var job := NewJob(config, now);
        Advance(pid, Working(SaveNewJob, config, now, last, job, false), answers);
        var ok := SaveState(State(last, Some(job)), answers(SaveNewJob));
        if !ok {
          locked := false;
          return Raised;
        }
        status := Check(pid, config, now, last, job, answers);
      } else {
        status := Check(pid, config, now, last, loaded.job.value, answers);
      }
    }

    method Check(ghost pid: nat, config: Config, now: int, last: Option<int>, pending: Job,
                 answers: Answers)
      returns (status: Status)
      requires Inside(pid, Working(CheckJob, config, now, last, pending, false), answers)
      modifies `state, `receipts, `attempts, `locked, `world, `visited
      ensures Over(pid, status, answers)
    {
      var job := pending;
      Advance(pid, Working(CheckJob, config, now, last, job, false), answers);
      if job.config.Some? && job.config.value != config {
        locked := false;
        return Raised;
      }
      if job.slot in receipts {
        var prior := receipts[job.slot];
        if prior.Torn? || prior.backupId != job.backupId
           || !(job.snapshot.Some? && prior.sha256 == job.snapshot.value.sha256)
        {
          locked := false;
          return Raised;
        }
        status := Reconcile(pid, config, now, job, answers);
        return;
      }
      if job.phase.ReconciliationRequired? {
        locked := false;
        return NeedsReconciliation;
      }
      if now < job.nextAttemptMs {
        locked := false;
        return RetryWait;
      }
      status := Attempt(pid, config, now, last, job.(attempts := job.attempts + 1), answers);
    }

    /** The slot has its receipt: the job is cleared against it. */
    method Reconcile(ghost pid: nat, config: Config, now: int, job: Job, answers: Answers) returns (status: Status)
      requires Inside(pid, Working(SaveReconciled, config, now, Some(job.slot), job, true), answers)
      modifies `state, `locked, `world, `visited
      ensures Over(pid, status, answers)
    {
      Advance(pid, Working(SaveReconciled, config, now, Some(job.slot), job, true), answers);
      var ok := SaveState(State(Some(job.slot), None), answers(SaveReconciled));
      locked := false;
      return if ok then Reconciled else Raised;
    }

    /** The `try`, and its handler. */
    method Attempt(ghost pid: nat, config: Config, now: int, last: Option<int>, started: Job, answers: Answers)
      returns (status: Status)
      requires started.attempts >= 1
      requires Inside(pid, Working(if started.phase.Export? then MakeAttempt else Inspect, config, now, last, started, false),
                      answers)
      modifies `state, `receipts, `attempts, `locked, `world, `visited
      ensures Over(pid, status, answers)
    {
      var job := started;
      var complete, failed := false, Starting(config, now);
      if job.phase.Export? {
        var frozen;
        frozen, job := Freeze(pid, config, now, last, job, answers);
        if frozen {
          complete, failed := BackUp(pid, config, now, last, job, answers);
        } else {
          failed := Working(Recover, config, now, last, job, false);
        }
      } else {
        complete, failed := BackUp(pid, config, now, last, job, answers);
      }
      if complete { return Complete; }
      status := Handle(pid, failed, answers);
    }

    /** The export half of the `try`: the job after it, frozen or failed. */
    method Freeze(ghost pid: nat, config: Config, now: int, last: Option<int>, started: Job, answers: Answers)
      returns (frozen: bool, job: Job)
      requires started.attempts >= 1
      requires Inside(pid, Working(MakeAttempt, config, now, last, started, false), answers)
      modifies `state, `attempts, `world, `visited
      ensures job.attempts >= 1
      ensures Inside(pid, Working(if frozen then Inspect else Recover, config, now, last, job, false), answers)
    {
      var exported, content := TakeSnapshot(pid, config, now, last, started, answers);
      if !exported { return false, started; }
      job := started.(phase := BackupReady, snapshot := Some(Snapshot(started.attempts, content)));
      Advance(pid, Working(SaveFrozen, config, now, last, job, false), answers);
      frozen := SaveState(State(last, Some(job)), answers(SaveFrozen));
    }

    /** A new attempt directory, and the exporter's output in it. */
    method TakeSnapshot(ghost pid: nat, config: Config, now: int, last: Option<int>, job: Job, answers: Answers)
      returns (exported: bool, content: Digest)
      requires Inside(pid, Working(MakeAttempt, config, now, last, job, false), answers)
      modifies `attempts, `world, `visited
      ensures Inside(pid,
                     if exported then
                       Working(SaveFrozen, config, now, last,
                               job.(phase := BackupReady, snapshot := Some(Snapshot(job.attempts, content))), false)
                     else Working(Recover, config, now, last, job, false), answers)
    {
      Advance(pid, Working(MakeAttempt, config, now, last, job, false), answers);
      if answers(MakeAttempt).Fails? || (job.slot, job.attempts) in attempts { return false, 0; }
      attempts := attempts + {(job.slot, job.attempts)};
      Advance(pid, Working(StartExport, config, now, last, job, false), answers);
      Advance(pid, Working(Exporting, config, now, last, job, false), answers);
      if !answers(Exporting).Content? { return false, 0; }
      return true, answers(Exporting).sha256;
    }

    /** An exception found the program here. */
    ghost predicate Raising(pid: nat, failed: Process, answers: Answers)
      reads this
    {
      failed.Working? && failed.pc == Recover && failed.job.attempts >= 1 && Inside(pid, failed, answers)
    }

    /** The backup half of the `try`; `failed` is the program where an exception found it. */
    method BackUp(ghost pid: nat, config: Config, now: int, last: Option<int>, frozen: Job,
                  answers: Answers)
      returns (complete: bool, failed: Process)
      requires frozen.attempts >= 1
      requires Inside(pid, Working(Inspect, config, now, last, frozen, false), answers)
      modifies `state, `receipts, `attempts, `locked, `world, `visited
      ensures complete ==> Over(pid, Complete, answers)
      ensures !complete ==> Raising(pid, failed, answers)
    {
      var found := answers(Inspect);
      Advance(pid, Working(Inspect, config, now, last, frozen, false), answers);
      if !found.Content? || frozen.snapshot.None? {
        return false, Working(Recover, config, now, last, frozen, false);
      }
      if found.sha256 != frozen.snapshot.value.sha256 {
        var changed := frozen.(phase := ReconciliationRequired);
        Advance(pid, Working(SaveChanged, config, now, last, changed, false), answers);
        var _ := SaveState(State(last, Some(changed)), answers(SaveChanged));
        return false, Working(Recover, config, now, last, changed, false);
      }
      complete, failed := Execute(pid, config, now, last, frozen.(phase := BackupRunning), frozen.phase.BackupRunning?, answers);
    }

    /** Saves that the backup is running, runs it, and files its proof. */
    method Execute(ghost pid: nat, config: Config, now: int, last: Option<int>, job: Job, resume: bool, answers: Answers)
      returns (complete: bool, failed: Process)
      requires job.attempts >= 1
      requires Inside(pid, Working(SaveRunning(resume), config, now, last, job, false), answers)
      modifies `state, `receipts, `attempts, `locked, `world, `visited
      ensures complete ==> Over(pid, Complete, answers)
      ensures !complete ==> Raising(pid, failed, answers)
    {
      failed := Working(Recover, config, now, last, job, false);
      Advance(pid, Working(SaveRunning(resume), config, now, last, job, false), answers);
      var ok := SaveState(State(last, Some(job)), answers(SaveRunning(resume)));
      if !ok { return false, failed; }
      var proven, report := Prove(pid, config, now, last, job, resume, answers);
      if !proven { return false, failed; }
      var filed := File(pid, config, now, last, job, report, answers);
      if !filed { return false, failed; }
      complete, failed := Clear(pid, config, now, job, answers);
    }

    /** Runs the backup program and checks its proof. */
    method Prove(ghost pid: nat, config: Config, now: int, last: Option<int>, job: Job, resume: bool, answers: Answers)
      returns (proven: bool, report: Receipt)
      requires Inside(pid, Working(StartBackup(resume), config, now, last, job, false), answers)
      modifies `world, `visited
      ensures Inside(pid, Working(if proven then CreateReceipt(report) else Recover, config, now, last, job, false), answers)
    {
      Advance(pid, Working(StartBackup(resume), config, now, last, job, false), answers);
      Advance(pid, Working(BackingUp, config, now, last, job, false), answers);
      var proof := answers(BackingUp);
      if !ValidProof(job, proof) { return false, Torn; }
      return true, Written(job.backupId, job.snapshot.value.sha256, proof.archive);
    }

    /** Writes the receipt: created exclusively, then filled. */
    method File(ghost pid: nat, config: Config, now: int, last: Option<int>, job: Job, report: Receipt, answers: Answers)
      returns (filed: bool)
      requires Inside(pid, Working(CreateReceipt(report), config, now, last, job, false), answers)
      modifies `receipts, `world, `visited
      ensures Inside(pid,
                     if filed then Working(SaveComplete, config, now, Some(job.slot), job, true)
                     else Working(Recover, config, now, last, job, false), answers)
    {
      Advance(pid, Working(CreateReceipt(report), config, now, last, job, false), answers);
      if answers(CreateReceipt(report)).Fails? || job.slot in receipts { return false; }
      receipts := receipts[job.slot := Torn];
      Advance(pid, Working(FillReceipt(report), config, now, last, job, false), answers);
      if answers(FillReceipt(report)).Fails? { return false; }
      receipts := receipts[job.slot := report];
      return true;
    }

    /** The state write that says the slot is complete. */
    method Clear(ghost pid: nat, config: Config, now: int, job: Job, answers: Answers)
      returns (complete: bool, failed: Process)
      requires job.attempts >= 1
      requires Inside(pid, Working(SaveComplete, config, now, Some(job.slot), job, true), answers)
      modifies `state, `locked, `world, `visited
      ensures complete ==> Over(pid, Complete, answers)
      ensures !complete ==> Raising(pid, failed, answers)
    {
      failed := Working(Recover, config, now, Some(job.slot), job, true);
      Advance(pid, Working(SaveComplete, config, now, Some(job.slot), job, true), answers);
      complete := SaveState(State(Some(job.slot), None), answers(SaveComplete));
      if complete { locked := false; }
    }

    /** The `except` clause: what becomes of the job. */
    method Handle(ghost pid: nat, failed: Process, answers: Answers)
      returns (status: Status)
      requires Raising(pid, failed, answers)
      modifies `state, `receipts, `attempts, `locked, `world, `visited
      ensures Over(pid, status, answers)
    {
      var job := failed.job;
      var attempt := job.attempts;
      if job.phase.BackupRunning? && answers(Recover) != Prepared(true) { job := job.(phase := ReconciliationRequired); }
      if attempt > |failed.config.retryDelaysSeconds| { job := job.(phase := ReconciliationRequired); }
      if !job.phase.ReconciliationRequired? {
        job := job.(nextAttemptMs := failed.now + failed.config.retryDelaysSeconds[attempt - 1] * 1000);
      }
      assert failed.(pc := SaveFailed, job := job) == Failed(failed, answers(Recover) == Prepared(true));
      Advance(pid, failed, answers);
      status := Settle(pid, failed.config, failed.now, failed.last, job, failed.cleared, answers);
    }

    /** The `except` clause: its write and its answer. */
    method Settle(ghost pid: nat, config: Config, now: int, last: Option<int>, job: Job, cleared: bool, answers: Answers)
      returns (status: Status)
      requires Inside(pid, Working(SaveFailed, config, now, last, job, cleared), answers)
      modifies `state, `locked, `world, `visited
      ensures Over(pid, status, answers)
    {
      Advance(pid, Working(SaveFailed, config, now, last, job, cleared), answers);
      var ok := SaveState(State(last, if cleared then None else Some(job)), answers(SaveFailed));
      locked := false;
      status := if !ok then Raised else if job.phase.ReconciliationRequired? then NeedsReconciliation else RetryScheduled;
    }
  }
}
