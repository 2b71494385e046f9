/**
  The backup scheduler as a machine: any number of concurrent invocations of `run_once` over one task
  directory, each a sequence of steps between durable writes, any of which may fail or be cut off by a
  crash. Files that the scheduler only reads are whatever the environment says they are.
 */
module Schedule {

  datatype Option<+T> = None | Some(value: T)

  /** A digest stands for the bytes it was taken from. */
  type Digest = nat

  datatype Config = Config(
    version: int,
    taskId: string,
    enabled: bool,
    intervalSeconds: int,
    exportTimeoutSeconds: int,
    backupTimeoutSeconds: int,
    retryDelaysSeconds: seq<int>,
    archiveRetentionDays: int,
    minimumVerifiedArchives: int,
    exportCommand: seq<string>)
  {
    predicate Valid() {
      && version == 1
      && intervalSeconds > 0 && exportTimeoutSeconds > 0 && backupTimeoutSeconds > 0
      && archiveRetentionDays > 0 && minimumVerifiedArchives > 0
      && 0 < |retryDelaysSeconds| <= 10
      && forall k :: 0 <= k < |retryDelaysSeconds| ==> retryDelaysSeconds[k] > 0
    }
  }

  datatype Phase = Export | BackupReady | BackupRunning | ReconciliationRequired

  /** The start of the interval, and the hash of the task and slot, which stands for both. */
  datatype BackupId = BackupId(startSeconds: int, taskId: string, slot: int)

  datatype Snapshot = Snapshot(attempt: nat, sha256: Digest)

  /** `config` is the digest of the configuration the job was created under. */
  datatype Job = Job(
    slot: int,
    backupId: BackupId,
    phase: Phase,
    attempts: nat,
    nextAttemptMs: int,
    config: Option<Config>,
    snapshot: Option<Snapshot>)

  datatype State = State(lastCompletedSlot: Option<int>, job: Option<Job>)

  /** A receipt file is created first and filled afterwards; a crash in between leaves it torn. */
  datatype Receipt = Torn | Written(backupId: BackupId, sha256: Digest, archive: Digest)

  /** What the scheduler writes: the state file, the receipts and the attempt directories. */
  datatype Disk = Disk(state: Option<State>, receipts: map<int, Receipt>, attempts: set<(int, nat)>)

  datatype ExportRun = ExportRun(slot: int, attempt: nat, config: Config)
  datatype BackupRun = BackupRun(backupId: BackupId, resume: bool)

  /** Every program ever started, every slot ever checkpointed as complete, and the slot of every attempt. */
  datatype History =
    History(exports: seq<ExportRun>, backups: seq<BackupRun>, completed: seq<int>, attempted: seq<int>)

  datatype Status =
    | Disabled | Raised | AlreadyRunning | AlreadyComplete | Reconciled | NeedsReconciliation
    | RetryWait | Complete | RetryScheduled | Crashed

  datatype Pc =
    | SaveNewJob | CheckJob | SaveReconciled
    | MakeAttempt | StartExport | Exporting | SaveFrozen
    | Inspect | SaveChanged | SaveRunning(resume: bool)
    | StartBackup(resume: bool) | BackingUp
    | CreateReceipt(receipt: Receipt) | FillReceipt(receipt: Receipt) | SaveComplete
    | Recover | SaveFailed

  /**
    `job` is the program's variable of that name; while `cleared` is false the state in memory holds
    the same object, and `last` is the state's last completed slot.
   */
  datatype Process =
    | Starting(config: Config, now: int)
    | Loading(config: Config, now: int)
    | Working(pc: Pc, config: Config, now: int, last: Option<int>, job: Job, cleared: bool)
    | Exited(status: Status)

  datatype World = World(disk: Disk, lock: Option<nat>, processes: map<nat, Process>, history: History)

  /** What the environment answers at a step. */
  datatype Event =
    | Proceed
    | Fails
    | Content(sha256: Digest)
    | Proof(backupId: BackupId, sourceSha256: Digest, archive: Digest, verified: bool)
    | Prepared(present: bool)

  datatype Action =
    | Launch(pid: nat, config: Config, now: int)
    | Step(pid: nat, event: Event)
    | Crash(pid: nat)

  // ---------------------------------------------------------------- helpers

  function Loaded(d: Disk): State { if d.state.Some? then d.state.value else State(None, None) }

  function SlotOf(c: Config, now: int): int
    requires c.Valid()
  {
    now / (c.intervalSeconds * 1000)
  }

  function IdOf(c: Config, slot: int): BackupId { BackupId(slot * c.intervalSeconds, c.taskId, slot) }

  function NewJob(c: Config, now: int): Job
    requires c.Valid()
  {
    Job(SlotOf(c, now), IdOf(c, SlotOf(c, now)), Export, 0, now, Some(c), None)
  }

  /** The state a working process would write. */
  function Memory(p: Process): State
    requires p.Working?
  {
    State(p.last, if p.cleared then None else Some(p.job))
  }

  /** `delays[attempt - 1]`; index -1 is the last element. */
  function DelayFor(c: Config, attempt: nat): int {
    if 1 <= attempt <= |c.retryDelaysSeconds| then c.retryDelaysSeconds[attempt - 1]
    else if attempt == 0 && c.retryDelaysSeconds != [] then c.retryDelaysSeconds[|c.retryDelaysSeconds| - 1]
    else 0
  }

  function Become(w: World, pid: nat, p: Process): World { w.(processes := w.processes[pid := p]) }

  /** The process ends, and the lock it holds is released. */
  function Exit(w: World, pid: nat, status: Status): World {
    Become(w, pid, Exited(status)).(lock := if w.lock == Some(pid) then None else w.lock)
  }

  function Goto(w: World, pid: nat, p: Process, pc: Pc): World
    requires p.Working?
  {
    Become(w, pid, p.(pc := pc))
  }

  /** The state file is replaced in one step. */
  function Saved(w: World, s: State): World {
    var last := s.lastCompletedSlot;
    w.(disk := w.disk.(state := Some(s)),
    history := w.history.(completed :=
    if last.Some? && last != Loaded(w.disk).lastCompletedSlot then w.history.completed + [last.value]
    else w.history.completed))
  }

  // ---------------------------------------------------------------- the program

  /** After the lock is taken: read the state, and create a job if none is pending. */
  function StepLoading(w: World, pid: nat, p: Process): World
    requires p.Loading? && p.config.Valid()
  {
    var s := Loaded(w.disk);
    if s.job.Some? then Become(w, pid, Working(CheckJob, p.config, p.now, s.lastCompletedSlot, s.job.value, false))
    else if s.lastCompletedSlot.Some? && SlotOf(p.config, p.now) <= s.lastCompletedSlot.value then Exit(w, pid, AlreadyComplete)
    else Become(w, pid, Working(SaveNewJob, p.config, p.now, s.lastCompletedSlot, NewJob(p.config, p.now), false))
  }

  function StepCheckJob(w: World, pid: nat, p: Process): World
    requires p.Working?
  {
    var j := p.job;
    if j.config.Some? && j.config.value != p.config then Exit(w, pid, Raised)
    else if j.slot in w.disk.receipts then
      var r := w.disk.receipts[j.slot];
      if r.Torn? || r.backupId != j.backupId || !(j.snapshot.Some? && r.sha256 == j.snapshot.value.sha256)
      then Exit(w, pid, Raised)
      else Become(w, pid, p.(pc := SaveReconciled, last := Some(j.slot), cleared := true))
    else if j.phase.ReconciliationRequired? then Exit(w, pid, NeedsReconciliation)
    else if p.now < j.nextAttemptMs then Exit(w, pid, RetryWait)
    else
      Become(w.(history := w.history.(attempted := w.history.attempted + [j.slot])), pid,
             p.(job := j.(attempts := j.attempts + 1), pc := if j.phase.Export? then MakeAttempt else Inspect))
  }

  /** The proof is about this backup of this frozen snapshot, and its signatures and pins check out. */
  predicate ValidProof(j: Job, e: Event) {
    e.Proof? && j.snapshot.Some? && e.backupId == j.backupId && e.sourceSha256 == j.snapshot.value.sha256 && e.verified
  }

  /** The `except` clause, up to its write. */
  function Failed(p: Process, prepared: bool): Process
    requires p.Working?
  {
    var attempt := p.job.attempts;
    var phase :=
      if (p.job.phase.BackupRunning? && !prepared) || attempt > |p.config.retryDelaysSeconds|
      then ReconciliationRequired else p.job.phase;
    var next :=
      if phase.ReconciliationRequired? then p.job.nextAttemptMs else p.now + DelayFor(p.config, attempt) * 1000;
    p.(pc := SaveFailed, job := p.job.(phase := phase, nextAttemptMs := next))
  }

  function StepWorking(w: World, pid: nat, p: Process, e: Event): World
    requires p.Working?
  {
    var j := p.job;
    match p.pc
    case SaveNewJob =>
      if e.Fails? then Exit(w, pid, Raised) else Goto(Saved(w, Memory(p)), pid, p, CheckJob)
    case CheckJob =>
      StepCheckJob(w, pid, p)
    case SaveReconciled =>
      if e.Fails? then Exit(w, pid, Raised) else Exit(Saved(w, Memory(p)), pid, Reconciled)
    case MakeAttempt =>
      if e.Fails? || (j.slot, j.attempts) in w.disk.attempts then Goto(w, pid, p, Recover)
      else Goto(w.(disk := w.disk.(attempts := w.disk.attempts + {(j.slot, j.attempts)})), pid, p, StartExport)
    case StartExport =>
      Goto(w.(history := w.history.(exports := w.history.exports + [ExportRun(j.slot, j.attempts, p.config)])),
           pid, p, Exporting)
    case Exporting =>
      if e.Content? then
        Become(w, pid, p.(pc := SaveFrozen, job := j.(phase := BackupReady, snapshot := Some(Snapshot(j.attempts, e.sha256)))))
      else Goto(w, pid, p, Recover)
    case SaveFrozen =>
      if e.Fails? then Goto(w, pid, p, Recover) else Goto(Saved(w, Memory(p)), pid, p, Inspect)
    case Inspect =>
      if !e.Content? || j.snapshot.None? then Goto(w, pid, p, Recover)
      else if e.sha256 != j.snapshot.value.sha256 then
        Become(w, pid, p.(pc := SaveChanged, job := j.(phase := ReconciliationRequired)))
      else
        Become(w, pid, p.(pc := SaveRunning(j.phase.BackupRunning?), job := j.(phase := BackupRunning)))
    case SaveChanged =>
      if e.Fails? then Goto(w, pid, p, Recover) else Goto(Saved(w, Memory(p)), pid, p, Recover)
    case SaveRunning(resume) =>
      if e.Fails? then Goto(w, pid, p, Recover) else Goto(Saved(w, Memory(p)), pid, p, StartBackup(resume))
    case StartBackup(resume) =>
      Goto(w.(history := w.history.(backups := w.history.backups + [BackupRun(j.backupId, resume)])), pid, p, BackingUp)
    case BackingUp =>
      if ValidProof(j, e) then Goto(w, pid, p, CreateReceipt(Written(j.backupId, j.snapshot.value.sha256, e.archive)))
      else Goto(w, pid, p, Recover)
    case CreateReceipt(r) =>
      if e.Fails? || j.slot in w.disk.receipts then Goto(w, pid, p, Recover)
      else Goto(w.(disk := w.disk.(receipts := w.disk.receipts[j.slot := Torn])), pid, p, FillReceipt(r))
    case FillReceipt(r) =>
      if e.Fails? then Goto(w, pid, p, Recover)
      else Become(w.(disk := w.disk.(receipts := w.disk.receipts[j.slot := r])), pid,
                  p.(pc := SaveComplete, last := Some(j.slot), cleared := true))
    case SaveComplete =>
      if e.Fails? then Goto(w, pid, p, Recover) else Exit(Saved(w, Memory(p)), pid, Complete)
    case Recover =>
      Become(w, pid, Failed(p, e == Prepared(true)))
    case SaveFailed =>
      if e.Fails? then Exit(w, pid, Raised)
      else Exit(Saved(w, Memory(p)), pid, if j.phase.ReconciliationRequired? then NeedsReconciliation else RetryScheduled)
  }

  function Next(w: World, a: Action): World {
    match a
    case Launch(pid, c, now) =>
      if pid in w.processes then w
      else if !c.Valid() || now < 0 then Become(w, pid, Exited(Raised))
      else if !c.enabled then Become(w, pid, Exited(Disabled))
      else Become(w, pid, Starting(c, now))
    case Crash(pid) =>
      if pid in w.processes && !w.processes[pid].Exited? then Exit(w, pid, Crashed) else w
    case Step(pid, e) =>
      if pid !in w.processes then w
      else
        var p := w.processes[pid];
        match p
        case Starting(c, now) =>
          if w.lock.None? then Become(w, pid, Loading(c, now)).(lock := Some(pid)) else Exit(w, pid, AlreadyRunning)
        case Loading(c, _) => if c.Valid() then StepLoading(w, pid, p) else w
        case Working(_, _, _, _, _, _) => StepWorking(w, pid, p, e)
        case Exited(_) => w
  }

  const INITIAL := World(Disk(None, map[], {}), None, map[], History([], [], [], []))

  function Run(w: World, actions: seq<Action>): World {
    if actions == [] then w else Next(Run(w, actions[..|actions| - 1]), actions[|actions| - 1])
  }
}
