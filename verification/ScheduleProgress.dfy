/**
  Runs that no crash cuts off: every job is settled, complete or handed to an operator, after a
  bounded number of attempts.
 */
module ScheduleProgress {
  import opened Schedule
  import opened ScheduleSafety

  /** How many attempts a slot has had. */
  function Tally(attempted: seq<int>, slot: int): nat {
    if attempted == [] then 0
    else Tally(attempted[..|attempted| - 1], slot) + (if attempted[|attempted| - 1] == slot then 1 else 0)
  }

  lemma TallyOne(attempted: seq<int>, x: int, slot: int)
    ensures Tally(attempted + [x], slot) == Tally(attempted, slot) + (if x == slot then 1 else 0)
  {
    assert (attempted + [x])[..|attempted|] == attempted;
  }

  /** Not a crash inside the critical section, nor the loss of the handler's own write, which ends like one. */
  ghost predicate Uninterrupting(w: World, a: Action) {
    match a
    case Launch(_, _, _) => true
    case Crash(pid) => pid in w.processes ==> !Active(w.processes[pid])
    case Step(pid, e) => e.Fails? && pid in w.processes && w.processes[pid].Working? ==> !w.processes[pid].pc.SaveFailed?
  }

  ghost predicate Uninterrupted(actions: seq<Action>) {
    forall k :: 0 <= k < |actions| ==> Uninterrupting(Run(INITIAL, actions[..k]), actions[k])
  }

  ghost predicate InAttempt(p: Process) {
    p.Working? && !p.pc.SaveNewJob? && !p.pc.CheckJob? && !p.pc.SaveReconciled?
  }

  ghost predicate Attempting(w: World) {
    w.lock.Some? && w.lock.value in w.processes && InAttempt(w.processes[w.lock.value])
  }

  /** No further attempt without a delay left for it. */
  ghost predicate Limited(j: Job, c: Config) {
    && j.attempts <= |c.retryDelaysSeconds| + 1
    && (j.attempts == |c.retryDelaysSeconds| + 1 ==> j.phase.ReconciliationRequired?)
  }

  ghost predicate Settled(j: Job, tally: nat) {
    tally == j.attempts && (j.config.Some? ==> Limited(j, j.config.value))
  }

  ghost predicate Underway(p: Process, tally: nat)
    requires p.Working?
  {
    && tally == p.job.attempts <= |p.config.retryDelaysSeconds| + 1
    && (p.pc.SaveFailed? ==> Limited(p.job, p.config))
  }

  ghost predicate Known(s: State, attempted: seq<int>) {
    forall slot :: Tally(attempted, slot) > 0 ==> Past(s, slot) || Current(s, slot)
  }

  ghost predicate Balanced(w: World) {
    var s := Loaded(w.disk);
    && Known(s, w.history.attempted)
    && (s.job.Some? ==>
          var tally := Tally(w.history.attempted, s.job.value.slot);
          if Attempting(w) then Underway(w.processes[w.lock.value], tally) else Settled(s.job.value, tally))
  }

  /** The check leaves everything, or goes on to an attempt, which is tallied. */
  lemma CheckEffect(w: World, pid: nat, e: Event)
    requires pid in w.processes && w.processes[pid].Working? && w.processes[pid].pc.CheckJob?
    ensures var p, v := w.processes[pid], Next(w, Step(pid, e));
            && v.disk == w.disk && pid in v.processes
            && (v.history.attempted == w.history.attempted ==>
                  !InAttempt(v.processes[pid]) && (v.lock == w.lock || v.lock.None?))
            && (v.history.attempted != w.history.attempted ==>
                  && v.history.attempted == w.history.attempted + [p.job.slot] && v.lock == w.lock
                  && InAttempt(v.processes[pid]) && !v.processes[pid].pc.SaveFailed?
                  && v.processes[pid].config == p.config && v.processes[pid].job.attempts == p.job.attempts + 1
                  && !p.job.phase.ReconciliationRequired? && (p.job.config.Some? ==> p.job.config.value == p.config))
  {}

  lemma StillSettled(w: World, v: World)
    requires Balanced(w) && !Attempting(w) && !Attempting(v)
    requires v.disk == w.disk && v.history.attempted == w.history.attempted
    ensures Balanced(v)
  {}

  lemma AttemptTallied(w: World, v: World, pid: nat, j: Job, c: Config)
    requires Balanced(w) && !Attempting(w) && Loaded(w.disk).job == Some(j) && j.config == Some(c)
    requires !j.phase.ReconciliationRequired? && v.disk == w.disk && v.history.attempted == w.history.attempted + [j.slot]
    requires v.lock == Some(pid) && pid in v.processes && InAttempt(v.processes[pid]) && !v.processes[pid].pc.SaveFailed?
    requires v.processes[pid].config == c && v.processes[pid].job.attempts == j.attempts + 1
    ensures Balanced(v)
  {
    forall k | Tally(v.history.attempted, k) > 0 ensures Past(Loaded(v.disk), k) || Current(Loaded(v.disk), k) {
      TallyOne(w.history.attempted, j.slot, k);
    }
    TallyOne(w.history.attempted, j.slot, j.slot);
  }

  /** The lock holder at the check has the job that is on disk. */
  lemma CheckHolds(w: World, pid: nat)
    requires Holding(w, pid) && w.processes[pid].pc.CheckJob?
    ensures w.lock == Some(pid) && Loaded(w.disk).job == Some(w.processes[pid].job) && w.processes[pid].job.config.Some?
  {}

  /** An attempt begins: the one step that is tallied. */
  lemma BeginBalances(w: World, pid: nat, e: Event)
    requires Holding(w, pid) && Balanced(w) && w.processes[pid].pc.CheckJob?
    ensures Balanced(Next(w, Step(pid, e)))
  {
    var p, v := w.processes[pid], Next(w, Step(pid, e));
    CheckHolds(w, pid);
    CheckEffect(w, pid, e);
    if v.history.attempted == w.history.attempted {
      StillSettled(w, v);
    } else {
      AttemptTallied(w, v, pid, p.job, p.config);
    }
  }

  /** The state writes that end a run. */
  lemma EndBalances(w: World, pid: nat, e: Event)
    requires Holding(w, pid) && Balanced(w) && Uninterrupting(w, Step(pid, e))
    requires var pc := w.processes[pid].pc;
             pc.SaveComplete? || pc.SaveFailed? || pc.SaveReconciled?
    ensures Balanced(Next(w, Step(pid, e)))
  {
    var v := Next(w, Step(pid, e));
    var p := w.processes[pid];
    if !e.Fails? {
      assert Loaded(v.disk) == Memory(p);
      forall k | Past(Loaded(w.disk), k) || Current(Loaded(w.disk), k)
        ensures Past(Loaded(v.disk), k) || Current(Loaded(v.disk), k)
      {
        assert p.cleared ==> !Past(Loaded(w.disk), p.job.slot);
      }
    }
  }

  lemma NewJobBalances(w: World, pid: nat, e: Event)
    requires Holding(w, pid) && Balanced(w) && w.processes[pid].pc.SaveNewJob?
    ensures Balanced(Next(w, Step(pid, e)))
  {}

  /** A state write inside an attempt goes into the file or not; either way the attempt goes on. */
  lemma SaveEffect(w: World, pid: nat, e: Event)
    requires Holding(w, pid)
    requires var pc := w.processes[pid].pc;
             pc.SaveFrozen? || pc.SaveChanged? || pc.SaveRunning?
    ensures var p, v := w.processes[pid], Next(w, Step(pid, e));
            && w.lock == v.lock == Some(pid) && v.history.attempted == w.history.attempted
            && InAttempt(p) && pid in v.processes && InAttempt(v.processes[pid]) && !v.processes[pid].pc.SaveFailed?
            && v.processes[pid].config == p.config && v.processes[pid].job.attempts == p.job.attempts
            && (v.disk == w.disk
                || (Loaded(v.disk) == State(Loaded(w.disk).lastCompletedSlot, Some(p.job))
                    && Loaded(w.disk).job.Some? && Loaded(w.disk).job.value.slot == p.job.slot))
  {}

  lemma SavedBalanced(w: World, v: World, pid: nat, j: Job)
    requires Balanced(w) && w.lock == v.lock == Some(pid) && pid in w.processes && InAttempt(w.processes[pid])
    requires pid in v.processes && InAttempt(v.processes[pid]) && !v.processes[pid].pc.SaveFailed?
    requires v.history.attempted == w.history.attempted
    requires v.processes[pid].config == w.processes[pid].config
    requires v.processes[pid].job.attempts == w.processes[pid].job.attempts
    requires Loaded(v.disk) == State(Loaded(w.disk).lastCompletedSlot, Some(j))
    requires Loaded(w.disk).job.Some? && Loaded(w.disk).job.value.slot == j.slot
    ensures Balanced(v)
  {}

  /** The state writes inside an attempt. */
  lemma SaveBalances(w: World, pid: nat, e: Event)
    requires Holding(w, pid) && Balanced(w)
    requires var pc := w.processes[pid].pc;
             pc.SaveFrozen? || pc.SaveChanged? || pc.SaveRunning?
    ensures Balanced(Next(w, Step(pid, e)))
  {
    var p, v := w.processes[pid], Next(w, Step(pid, e));
    SaveEffect(w, pid, e);
    if v.disk == w.disk { StillBalanced(w, v, pid); } else { SavedBalanced(w, v, pid, p.job); }
  }

  /** Every other step of an attempt. */
  ghost predicate Inner(pc: Pc) {
    || pc.MakeAttempt? || pc.StartExport? || pc.Exporting? || pc.Inspect? || pc.StartBackup? || pc.BackingUp?
    || pc.CreateReceipt? || pc.FillReceipt? || pc.Recover?
  }

  lemma InnerStep(w: World, pid: nat, e: Event)
    requires pid in w.processes && w.processes[pid].Working? && Inner(w.processes[pid].pc)
    ensures var v := Next(w, Step(pid, e));
            && v.disk.state == w.disk.state && v.history.attempted == w.history.attempted && v.lock == w.lock
            && InAttempt(v.processes[pid])
            && v.processes[pid].config == w.processes[pid].config
            && v.processes[pid].job.attempts == w.processes[pid].job.attempts
            && (v.processes[pid].pc.SaveFailed? && w.processes[pid].job.attempts <= |w.processes[pid].config.retryDelaysSeconds| + 1 ==>
                  Limited(v.processes[pid].job, v.processes[pid].config))
  {}

  lemma AttemptBalances(w: World, pid: nat, e: Event)
    requires Holding(w, pid) && Balanced(w) && Inner(w.processes[pid].pc)
    ensures Balanced(Next(w, Step(pid, e)))
  {
    InnerStep(w, pid, e);
    assert w.lock == Some(pid);
    StillBalanced(w, Next(w, Step(pid, e)), pid);
  }

  lemma StillBalanced(w: World, v: World, pid: nat)
    requires Balanced(w) && w.lock == Some(pid) && pid in w.processes && InAttempt(w.processes[pid])
    requires v.disk.state == w.disk.state && v.history.attempted == w.history.attempted && v.lock == w.lock
    requires pid in v.processes && InAttempt(v.processes[pid])
    requires v.processes[pid].config == w.processes[pid].config
    requires v.processes[pid].job.attempts == w.processes[pid].job.attempts
    requires v.processes[pid].pc.SaveFailed? ==> Limited(v.processes[pid].job, v.processes[pid].config)
    ensures Balanced(v)
  {}

  lemma HolderBalances(w: World, pid: nat, e: Event)
    requires Holding(w, pid) && Balanced(w) && Uninterrupting(w, Step(pid, e))
    ensures Balanced(Next(w, Step(pid, e)))
  {
    match w.processes[pid].pc
    case CheckJob => BeginBalances(w, pid, e);
    case SaveNewJob => NewJobBalances(w, pid, e);
    case SaveReconciled => EndBalances(w, pid, e);
    case SaveComplete => EndBalances(w, pid, e);
    case SaveFailed => EndBalances(w, pid, e);
    case SaveFrozen => SaveBalances(w, pid, e);
    case SaveChanged => SaveBalances(w, pid, e);
    case SaveRunning(_) => SaveBalances(w, pid, e);
    case _ => AttemptBalances(w, pid, e);
  }

  lemma OthersBalance(w: World, a: Action)
    requires Inv(w) && Balanced(w) && Uninterrupting(w, a)
    requires a.Step? && a.pid in w.processes ==> !w.processes[a.pid].Working?
    ensures Balanced(Next(w, a))
  {
    OthersEffect(w, a);
    var v := Next(w, a);
    if Attempting(w) { StillBalanced(w, v, w.lock.value); } else { StillSettled(w, v); }
  }

  /** It leaves the disk, the history, and the attempt under way, if any. */
  lemma OthersEffect(w: World, a: Action)
    requires Inv(w) && Uninterrupting(w, a)
    requires a.Step? && a.pid in w.processes ==> !w.processes[a.pid].Working?
    ensures var v := Next(w, a);
            && v.disk == w.disk && v.history == w.history
            && (Attempting(w) ==> v.lock == w.lock && w.lock.value in v.processes
                                  && v.processes[w.lock.value] == w.processes[w.lock.value])
            && (!Attempting(w) ==> !Attempting(v))
  {}

  lemma {:induction false} StaysBalanced(actions: seq<Action>)
    requires Uninterrupted(actions)
    ensures Inv(Run(INITIAL, actions)) && Balanced(Run(INITIAL, actions))
  {
    Reachable(actions);
    if actions != [] {
      var n := |actions| - 1;
      var before := actions[..n];
      forall k | 0 <= k < |before| ensures Uninterrupting(Run(INITIAL, before[..k]), before[k]) {
        assert before[..k] == actions[..k];
      }
      StaysBalanced(before);
      var w, a := Run(INITIAL, before), actions[n];
      if a.Step? && a.pid in w.processes && w.processes[a.pid].Working? {
        HolderBalances(w, a.pid, a.event);
      } else {
        OthersBalance(w, a);
      }
    }
  }

  lemma BalancedMeans(w: World)
    requires Inv(w) && Balanced(w) && Loaded(w.disk).job.Some?
    ensures var j := Loaded(w.disk).job.value;
            var tally := Tally(w.history.attempted, j.slot);
            && j.config.Some?
            && tally <= |j.config.value.retryDelaysSeconds| + 1
            && (w.lock.None? ==> tally == j.attempts && Limited(j, j.config.value))
  {
    if Attempting(w) {
      assert ProcessOk(w.disk, w.history, w.processes[w.lock.value]);
    }
  }

  /**
    Without crashes a pending job has had as many attempts as its counter says; never more than one
    beyond the retry delays; and once it has had that many and no run is under way, it is complete or
    waits for reconciliation.
   */
  lemma AttemptsSettleJobs(actions: seq<Action>)
    requires Uninterrupted(actions)
    requires Loaded(Run(INITIAL, actions).disk).job.Some?
    ensures var w := Run(INITIAL, actions);
            var j := Loaded(w.disk).job.value;
            var tally := Tally(w.history.attempted, j.slot);
            && j.config.Some?
            && tally <= |j.config.value.retryDelaysSeconds| + 1
            && (w.lock.None? ==> tally == j.attempts)
            && (w.lock.None? && tally == |j.config.value.retryDelaysSeconds| + 1 ==> j.phase.ReconciliationRequired?)
  {
    StaysBalanced(actions);
    BalancedMeans(Run(INITIAL, actions));
  }
}
