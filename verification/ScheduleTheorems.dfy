/**
  What a reader of the schedule may rely on, over every run: crashes between any two writes, clocks
  that jump, invocations that overlap, programs that answer anything.
 */
module ScheduleTheorems {
  import opened Schedule
  import opened ScheduleSafety

  // ---------------------------------------------------------------- one at a time

  lemma MutualExclusion(actions: seq<Action>, p: nat, q: nat)
    requires var w := Run(INITIAL, actions);
             && p in w.processes && Active(w.processes[p])
             && q in w.processes && Active(w.processes[q])
    ensures p == q
  {
    Reachable(actions);
  }

  // ---------------------------------------------------------------- backups

  /** Whatever ran before it, every run of a backup after the first for its ID resumes. */
  lemma LaterBackupsResume(actions: seq<Action>, i: nat, k: nat)
    requires var bs := Run(INITIAL, actions).history.backups;
             i < k < |bs| && bs[i].backupId == bs[k].backupId
    ensures Run(INITIAL, actions).history.backups[k].resume
  {
    Reachable(actions);
  }

  function FreshRuns(bs: seq<BackupRun>, id: BackupId): nat {
    if bs == [] then 0
    else FreshRuns(bs[..|bs| - 1], id) + (if bs[|bs| - 1] == BackupRun(id, false) then 1 else 0)
  }

  lemma {:induction false} FreshRunsBounded(bs: seq<BackupRun>, id: BackupId)
    requires OnlyFirstIsFresh(bs)
    ensures FreshRuns(bs, id) <= 1
    ensures FreshRuns(bs, id) == 1 ==> exists i :: 0 <= i < |bs| && bs[i] == BackupRun(id, false)
  {
    if bs != [] {
      var rest := bs[..|bs| - 1];
      FreshRunsBounded(rest, id);
      if FreshRuns(rest, id) == 1 {
        var i :| 0 <= i < |rest| && rest[i] == BackupRun(id, false);
        assert bs[i] == BackupRun(id, false);
      }
    }
  }

  /** The backup program is started afresh at most once for each backup. */
  lemma FreshAtMostOnce(actions: seq<Action>, id: BackupId)
    ensures FreshRuns(Run(INITIAL, actions).history.backups, id) <= 1
  {
    Reachable(actions);
    FreshRunsBounded(Run(INITIAL, actions).history.backups, id);
  }

  // ---------------------------------------------------------------- exports

  /** The attempts made to export a slot. */
  function AttemptsOf(es: seq<ExportRun>, slot: int): set<nat> {
    if es == [] then {}
    else AttemptsOf(es[..|es| - 1], slot) + (if es[|es| - 1].slot == slot then {es[|es| - 1].attempt} else {})
  }

  function RunsOf(es: seq<ExportRun>, slot: int): nat {
    if es == [] then 0 else RunsOf(es[..|es| - 1], slot) + (if es[|es| - 1].slot == slot then 1 else 0)
  }

  ghost predicate DirectoriesDiffer(es: seq<ExportRun>) {
    forall i, k :: 0 <= i < k < |es| && es[i].slot == es[k].slot ==> es[i].attempt != es[k].attempt
  }

  lemma {:induction false} AttemptsAreRuns(es: seq<ExportRun>, slot: int, a: nat)
    ensures a in AttemptsOf(es, slot) <==> exists i :: 0 <= i < |es| && es[i].slot == slot && es[i].attempt == a
  {
    if es != [] {
      var rest := es[..|es| - 1];
      AttemptsAreRuns(rest, slot, a);
      if i :| 0 <= i < |es| && es[i].slot == slot && es[i].attempt == a {
        if i < |rest| { assert rest[i] == es[i]; }
      }
    }
  }

  lemma {:induction false} AttemptsCountRuns(es: seq<ExportRun>, slot: int)
    requires DirectoriesDiffer(es)
    ensures |AttemptsOf(es, slot)| == RunsOf(es, slot)
  {
    if es != [] {
      var rest := es[..|es| - 1];
      AttemptsCountRuns(rest, slot);
      AttemptsAreRuns(rest, slot, es[|es| - 1].attempt);
    }
  }

  lemma {:induction false} BoundedSet(s: set<nat>, n: nat)
    requires forall a :: a in s ==> 1 <= a <= n
    ensures |s| <= n
  {
    if n > 0 { BoundedSet(s - {n}, n - 1); } else { assert s == {}; }
  }

  lemma DistinctAttemptsBounded(es: seq<ExportRun>, slot: int, n: nat)
    requires DirectoriesDiffer(es)
    requires forall k :: 0 <= k < |es| && es[k].slot == slot ==> 1 <= es[k].attempt <= n
    ensures RunsOf(es, slot) <= n
  {
    AttemptsCountRuns(es, slot);
    forall a | a in AttemptsOf(es, slot) ensures 1 <= a <= n { AttemptsAreRuns(es, slot, a); }
    BoundedSet(AttemptsOf(es, slot), n);
  }

  /**
    The exporter never sees an attempt directory twice, and runs for a slot at most once more than
    there are retry delays, even when crashes lose the attempt counter.
   */
  lemma ExportsAreBounded(actions: seq<Action>, i: nat)
    requires i < |Run(INITIAL, actions).history.exports|
    ensures var es := Run(INITIAL, actions).history.exports;
            && DirectoriesDiffer(es)
            && RunsOf(es, es[i].slot) <= |es[i].config.retryDelaysSeconds| + 1
  {
    Reachable(actions);
    var es := Run(INITIAL, actions).history.exports;
    forall k | 0 <= k < |es| && es[k].slot == es[i].slot ensures es[k].config == es[i].config {
      assert k < i || k == i || i < k;
    }
    DistinctAttemptsBounded(es, es[i].slot, |es[i].config.retryDelaysSeconds| + 1);
  }

  // ---------------------------------------------------------------- retries

  /** Whenever the handler reads a retry delay, the index it uses is one of the list. */
  lemma RetryIndexInRange(actions: seq<Action>, pid: nat, prepared: bool)
    requires var w := Run(INITIAL, actions);
             pid in w.processes && w.processes[pid].Working? && w.processes[pid].pc.Recover?
    ensures var p := Run(INITIAL, actions).processes[pid];
            && p.job.attempts >= 1
            && (!Failed(p, prepared).job.phase.ReconciliationRequired? ==>
                  0 <= p.job.attempts - 1 < |p.config.retryDelaysSeconds|)
  {
    Reachable(actions);
  }

  // ---------------------------------------------------------------- progress never goes backward

  /** The slot of a job has a filled receipt for that job's backup and, once frozen, its snapshot. */
  ghost predicate Receipted(d: Disk, j: Job) {
    && j.slot in d.receipts && d.receipts[j.slot].Written?
    && d.receipts[j.slot].backupId == j.backupId
    && (j.snapshot.Some? ==> d.receipts[j.slot].sha256 == j.snapshot.value.sha256)
  }

  ghost predicate KeepsReceipts(d: Disk, e: Disk) {
    forall slot :: slot in d.receipts && d.receipts[slot].Written? ==>
                     slot in e.receipts && e.receipts[slot] == d.receipts[slot]
  }

  ghost predicate KeepsJob(d: Disk, e: Disk) {
    Loaded(d).job.Some? ==>
      var j := Loaded(d).job.value;
      || (Loaded(e).job.Some? && Continues(j, Loaded(e).job.value))
      || (Past(Loaded(e), j.slot) && Receipted(e, j))
  }

  ghost predicate KeepsLast(d: Disk, e: Disk) {
    Loaded(d).lastCompletedSlot.Some? ==> Past(Loaded(e), Loaded(d).lastCompletedSlot.value)
  }

  /** What one disk keeps of an earlier one. */
  ghost predicate Later(d: Disk, e: Disk) {
    KeepsReceipts(d, e) && KeepsLast(d, e) && KeepsJob(d, e)
  }

  lemma LaterTransitive(a: Disk, b: Disk, c: Disk)
    requires Later(a, b) && Later(b, c)
    ensures Later(a, c)
  {
    if Loaded(a).job.Some? && Loaded(b).job.Some? && Continues(Loaded(a).job.value, Loaded(b).job.value) {
      assert KeepsJob(a, c);
    }
  }

  /** The receipt a finished job is cleared for is its own. */
  lemma SavedReceipt(w: World, pid: nat)
    requires Inv(w) && pid in w.processes && w.processes[pid].Working? && w.processes[pid].cleared
    ensures Loaded(w.disk).job.Some? && Receipted(w.disk, Loaded(w.disk).job.value)
  {}

  /** A state write either clears a receipted job or carries it forward. */
  lemma WriteMovesForward(w: World, pid: nat)
    requires Inv(w) && pid in w.processes && w.processes[pid].Working?
    requires var pc := w.processes[pid].pc;
             !pc.CheckJob? && !pc.Recover?
    ensures Later(w.disk, w.disk.(state := Some(Memory(w.processes[pid]))))
  {
    if w.processes[pid].cleared { SavedReceipt(w, pid); }
  }

  ghost predicate Saves(pc: Pc) {
    || pc.SaveNewJob? || pc.SaveReconciled? || pc.SaveFrozen? || pc.SaveChanged?
    || pc.SaveRunning? || pc.SaveComplete? || pc.SaveFailed?
  }

  ghost predicate Files(pc: Pc) { pc.CreateReceipt? || pc.FillReceipt? }

  /** Only the state writes replace the state file, and only two steps touch a receipt. */
  lemma WhatIsWritten(w: World, pid: nat, e: Event)
    requires pid in w.processes && w.processes[pid].Working?
    ensures var p := w.processes[pid];
            var v := StepWorking(w, pid, p, e);
            && (Saves(p.pc) && !e.Fails? ==>
                  v.disk == w.disk.(state := Some(Memory(p))) && w.history.completed <= v.history.completed)
            && (!Saves(p.pc) || e.Fails? ==> v.disk.state == w.disk.state && v.history.completed == w.history.completed)
            && (!Files(p.pc) ==> v.disk.receipts == w.disk.receipts)
  {}

  lemma FilingMovesForward(w: World, pid: nat, e: Event)
    requires Inv(w) && pid in w.processes && w.processes[pid].Working? && Files(w.processes[pid].pc)
    ensures Later(w.disk, StepWorking(w, pid, w.processes[pid], e).disk)
  {
    assert Loaded(StepWorking(w, pid, w.processes[pid], e).disk) == Loaded(w.disk);
  }

  lemma WorkingMovesForward(w: World, pid: nat, e: Event)
    requires Inv(w) && pid in w.processes && w.processes[pid].Working?
    ensures Later(w.disk, StepWorking(w, pid, w.processes[pid], e).disk)
    ensures w.history.completed <= StepWorking(w, pid, w.processes[pid], e).history.completed
  {
    WhatIsWritten(w, pid, e);
    var pc := w.processes[pid].pc;
    if Files(pc) { FilingMovesForward(w, pid, e); }
    else if Saves(pc) && !e.Fails? { WriteMovesForward(w, pid); }
    else { SameMovesForward(w.disk, StepWorking(w, pid, w.processes[pid], e).disk); }
  }

  lemma SameMovesForward(d: Disk, e: Disk)
    requires d.state == e.state && d.receipts == e.receipts
    ensures Later(d, e)
  {}

  lemma StepMovesForward(w: World, a: Action)
    requires Inv(w)
    ensures Later(w.disk, Next(w, a).disk) && w.history.completed <= Next(w, a).history.completed
  {
    if a.Step? && a.pid in w.processes && w.processes[a.pid].Working? {
      WorkingMovesForward(w, a.pid, a.event);
    } else {
      assert Next(w, a).disk == w.disk;
    }
  }

  /**
    From any reachable state on: a filled receipt is never changed; a job keeps its backup ID,
    configuration and frozen snapshot, and its phase never moves backward, until it is complete with
    a receipt for exactly that backup and snapshot; completed slots are only ever added to.
   */
  lemma {:induction false} RunsMoveForward(w: World, actions: seq<Action>)
    requires Inv(w)
    ensures Inv(Run(w, actions))
    ensures Later(w.disk, Run(w, actions).disk)
    ensures w.history.completed <= Run(w, actions).history.completed
  {
    if actions != [] {
      var before := Run(w, actions[..|actions| - 1]);
      var a := actions[|actions| - 1];
      RunsMoveForward(w, actions[..|actions| - 1]);
      NextKeeps(before, a);
      StepMovesForward(before, a);
      LaterTransitive(w.disk, before.disk, Next(before, a).disk);
    }
  }

  /** Completed slots strictly increase, and each has its filled receipt. */
  lemma CompletedSlots(actions: seq<Action>)
    ensures var w := Run(INITIAL, actions);
            && Increasing(w.history.completed)
            && (forall slot :: slot in w.history.completed ==> slot in w.disk.receipts && w.disk.receipts[slot].Written?)
            && (w.history.completed != [] ==>
                  Loaded(w.disk).lastCompletedSlot == Some(w.history.completed[|w.history.completed| - 1]))
  {
    Reachable(actions);
  }

  // ---------------------------------------------------------------- recovery of a cut-off completion

  function Steps(pid: nat, n: nat): seq<Action> { seq(n, _ => Step(pid, Proceed)) }

  /**
    A crash between filling the receipt and clearing the job leaves both on disk; the next
    invocation under the same configuration, at any clock, clears the job against that receipt and
    starts no program.
   */
  lemma CutOffCompletionReconciles(w: World, pid: nat, c: Config, now: int)
    requires Inv(w) && w.lock.None? && pid !in w.processes
    requires c.Valid() && c.enabled && now >= 0
    requires Loaded(w.disk).job.Some? && Loaded(w.disk).job.value.config == Some(c)
    requires var slot := Loaded(w.disk).job.value.slot;
             slot in w.disk.receipts && w.disk.receipts[slot].Written?
    ensures var slot := Loaded(w.disk).job.value.slot;
            var v := Run(w, [Launch(pid, c, now)] + Steps(pid, 4));
            && pid in v.processes && v.processes[pid] == Exited(Reconciled) && v.lock.None?
            && v.disk == w.disk.(state := Some(State(Some(slot), None)))
            && v.history == w.history.(completed := w.history.completed + [slot])
  {
    var slot := Loaded(w.disk).job.value.slot;
    var w0 := Next(w, Launch(pid, c, now));
    var w1 := Next(w0, Step(pid, Proceed));
    var w2 := Next(w1, Step(pid, Proceed));
    var w3 := Next(w2, Step(pid, Proceed));
    var w4 := Next(w3, Step(pid, Proceed));
    UnfoldFive(w, Launch(pid, c, now), Step(pid, Proceed));
    SaveCompletedKeeps(w.disk, w.history, slot);
    assert [Launch(pid, c, now)] + Steps(pid, 4) ==
           [Launch(pid, c, now), Step(pid, Proceed), Step(pid, Proceed), Step(pid, Proceed), Step(pid, Proceed)];
  }

  lemma UnfoldFive(w: World, a: Action, b: Action)
    ensures Run(w, [a, b, b, b, b]) == Next(Next(Next(Next(Next(w, a), b), b), b), b)
  {
    var s := [a, b, b, b, b];
    assert s[..4] == [a, b, b, b] && s[..4][..3] == [a, b, b] && s[..4][..3][..2] == [a, b];
    assert [a, b][..1] == [a] && [a][..0] == [];
    assert Run(w, [a]) == Next(w, a);
    assert Run(w, [a, b]) == Next(Run(w, [a]), b);
    assert Run(w, [a, b, b]) == Next(Run(w, [a, b]), b);
    assert Run(w, [a, b, b, b]) == Next(Run(w, [a, b, b]), b);
  }

  // ---------------------------------------------------------------- a torn receipt

  ghost predicate Stuck(d: Disk, j: Job) {
    d.state.Some? && d.state.value.job == Some(j) && j.slot in d.receipts && d.receipts[j.slot].Torn?
  }

  /** The holder of the lock has not got past the receipt check. */
  ghost predicate Unchecked(w: World) {
    forall q :: q in w.processes && w.processes[q].Working? ==> w.processes[q].pc.CheckJob?
  }

  lemma StuckStep(w: World, a: Action, j: Job)
    requires Inv(w) && Stuck(w.disk, j) && Unchecked(w)
    ensures Next(w, a).disk == w.disk && Next(w, a).history == w.history && Unchecked(Next(w, a))
  {}

  /**
    A crash while the receipt is being written leaves a torn one, and from then on no run ever makes
    progress: the job, the history and everything on disk stay as they are until someone intervenes.
   */
  lemma {:induction false} TornReceiptBlocks(w: World, actions: seq<Action>, j: Job)
    requires Inv(w) && Stuck(w.disk, j) && w.lock.None?
    ensures Run(w, actions).disk == w.disk && Run(w, actions).history == w.history
    ensures Unchecked(Run(w, actions))
  {
    if actions != [] {
      TornReceiptBlocks(w, actions[..|actions| - 1], j);
      RunsMoveForward(w, actions[..|actions| - 1]);
      StuckStep(Run(w, actions[..|actions| - 1]), actions[|actions| - 1], j);
    }
  }
}
