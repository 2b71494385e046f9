/**
  What an operator may rely on when adjudicating, whatever else is in flight.
 */
module AdjudicationTheorems {
  import opened Adjudication
  import opened AdjudicationSafety

  // ---------------------------------------------------------------- exactly once

  /** At most one adjudication is ever committed under one key. */
  lemma OneEventPerKey(rules: Rules, actions: seq<Action>, a: (string, int), b: (string, int))
    requires var events := Run(rules, actions).store.events;
             && a in events && events[a].name == "adjudicate_resolution"
             && b in events && events[b].commandId == events[a].commandId
    ensures a == b
  {
    Reachable(rules, actions);
    var s := Run(rules, actions).store;
    assert Filed(s, s.events[a]) && Filed(s, s.events[b]);
    assert LinkOk(s, a.0, a.1) && LinkOk(s, b.0, b.1);
  }

  /** Every successful reply under one key carries the same receipt, for the same request. */
  lemma SuccessesAgree(rules: Rules, actions: seq<Action>, p: nat, q: nat)
    requires var calls := Run(rules, actions).calls;
             && p in calls && calls[p].stage.Replied?
             && q in calls && calls[q].stage.Replied?
             && calls[p].call.key == calls[q].call.key
    ensures var calls := Run(rules, actions).calls;
            calls[p].stage == calls[q].stage && RequestOf(calls[p].call) == RequestOf(calls[q].call)
  {
    Reachable(rules, actions);
    var w := Run(rules, actions);
    assert StageOk(rules, w.store, w.calls[p]) && StageOk(rules, w.store, w.calls[q]);
  }

  // ---------------------------------------------------------------- the receipt

  /**
    A reply's receipt, built from a preview, names the very event on record: from ESCALATED to
    PROPOSED, never FINALIZED, at the revision after the one asked for and the time decided.
   */
  lemma ReceiptIsTheCommit(rules: Rules, actions: seq<Action>, pid: nat)
    requires pid in Run(rules, actions).calls && Run(rules, actions).calls[pid].stage.Replied?
    ensures var w := Run(rules, actions);
            var c, receipt := w.calls[pid].call, w.calls[pid].stage.receipt;
            && (c.forecastId, receipt.revision) in w.store.events
            && w.store.events[(c.forecastId, receipt.revision)] == receipt.event
            && receipt.event.commandId == Admin(c.key)
            && receipt.event.oldState == "ESCALATED" && receipt.event.newState == "PROPOSED" != "FINALIZED"
            && receipt.event.occurredAtMs == receipt.acceptedAtMs
            && receipt.resolutionHash == Commitment(c.resolution.text)
            && (c.expectedRevision.Some? ==> receipt.revision == c.expectedRevision.value + 1)
  {
    Reachable(rules, actions);
    var w := Run(rules, actions);
    var c := w.calls[pid].call;
    assert StageOk(rules, w.store, w.calls[pid]);
    assert Truthful(w.store, c.key, w.store.operations[c.key]);
  }

  /** The events of a forecast form one chain: each names the one before it, back to revision 1. */
  lemma OneChain(rules: Rules, actions: seq<Action>, id: string, r: int)
    requires (id, r) in Run(rules, actions).store.events
    ensures var s := Run(rules, actions).store;
            && s.events[(id, r)].revision == r && s.events[(id, r)].forecastId == id
            && id in s.forecasts && 1 <= r <= s.forecasts[id].revision
            && (r > 1 ==> (id, r - 1) in s.events && s.events[(id, r)].previous == Some(s.events[(id, r - 1)]))
  {
    Reachable(rules, actions);
    assert LinkOk(Run(rules, actions).store, id, r);
  }

  // ---------------------------------------------------------------- for good

  function RunFrom(rules: Rules, w: World, actions: seq<Action>): World {
    if actions == [] then w else Next(rules, RunFrom(rules, w, actions[..|actions| - 1]), actions[|actions| - 1])
  }

  /** From any reachable state on, no receipt, event, body or reply ever changes. */
  lemma {:induction false} NothingIsTakenBack(rules: Rules, w: World, actions: seq<Action>)
    requires Inv(rules, w)
    ensures Inv(rules, RunFrom(rules, w, actions)) && Grows(w.store, RunFrom(rules, w, actions).store)
    ensures forall pid :: pid in w.calls && w.calls[pid].stage.Replied? ==>
                            pid in RunFrom(rules, w, actions).calls && RunFrom(rules, w, actions).calls[pid] == w.calls[pid]
  {
    if actions != [] {
      var before := RunFrom(rules, w, actions[..|actions| - 1]);
      NothingIsTakenBack(rules, w, actions[..|actions| - 1]);
      NextKeeps(rules, before, actions[|actions| - 1]);
      GrowsTransitive(w.store, before.store, Next(rules, before, actions[|actions| - 1]).store);
      RepliesStand(rules, before, actions[|actions| - 1]);
    }
  }

  lemma RepliesStand(rules: Rules, w: World, a: Action)
    ensures forall pid :: pid in w.calls && w.calls[pid].stage.Replied? ==>
                            pid in Next(rules, w, a).calls && Next(rules, w, a).calls[pid] == w.calls[pid]
  {}

  /** Where a call under a committed key can stand: it never loads a forecast, and never writes. */
  ghost predicate Answered(op: Operation, p: Process) {
    || p.stage == Prior
    || p.stage.Failed?
    || (p.stage == Replied(op.result) && RequestOf(p.call) == op.request)
  }

  /** What the database says to it, once it is asked. */
  ghost function AnswerTo(op: Operation, c: Call): Stage {
    if RequestOf(c) == op.request then Replied(op.result) else Failed(IdempotencyConflict)
  }

  lemma AnsweredStep(rules: Rules, s: Store, p: Process, answer: Answer)
    requires p.call.key in s.operations && Answered(s.operations[p.call.key], p)
    ensures var after := StepCall(rules, s, p.call, p.stage, answer);
            && after.0 == s && Answered(s.operations[p.call.key], Process(p.call, after.1))
            && (p.stage == Prior && answer == Served ==> after.1 == AnswerTo(s.operations[p.call.key], p.call))
            && (p.stage != Prior ==> after.1 == p.stage)
  {}

  lemma AnsweredNext(rules: Rules, w: World, a: Action, pid: nat, op: Operation)
    requires pid in w.calls && Answered(op, w.calls[pid])
    requires w.calls[pid].call.key in w.store.operations && w.store.operations[w.calls[pid].call.key] == op
    ensures var v := Next(rules, w, a);
            && pid in v.calls && v.calls[pid].call == w.calls[pid].call && Answered(op, v.calls[pid])
            && (a.Step? && a.pid == pid ==> v.store == w.store)
            && (a == Step(pid, Served) && w.calls[pid].stage == Prior ==> v.calls[pid].stage == AnswerTo(op, w.calls[pid].call))
  {
    if a.Step? && a.pid == pid { AnsweredStep(rules, w.store, w.calls[pid], a.answer); }
  }

  /** A call begun under a key that is committed stays among the answers to it, whatever happens meanwhile. */
  lemma {:induction false} StaysAnswered(rules: Rules, w: World, pid: nat, actions: seq<Action>, op: Operation)
    requires Inv(rules, w) && pid in w.calls && Answered(op, w.calls[pid])
    requires w.calls[pid].call.key in w.store.operations && w.store.operations[w.calls[pid].call.key] == op
    ensures var v := RunFrom(rules, w, actions);
            && pid in v.calls && v.calls[pid].call == w.calls[pid].call && Answered(op, v.calls[pid])
            && v.calls[pid].call.key in v.store.operations && v.store.operations[v.calls[pid].call.key] == op
  {
    NothingIsTakenBack(rules, w, actions);
    if actions != [] {
      StaysAnswered(rules, w, pid, actions[..|actions| - 1], op);
      AnsweredNext(rules, RunFrom(rules, w, actions[..|actions| - 1]), actions[|actions| - 1], pid, op);
    }
  }

  lemma BeginsAnswered(rules: Rules, w: World, pid: nat, c: Call, op: Operation)
    requires Inv(rules, w) && pid !in w.calls && Recordable(rules, c)
    requires c.key in w.store.operations && w.store.operations[c.key] == op
    ensures var v := Next(rules, w, Begin(pid, c));
            && Inv(rules, v) && v.store == w.store && pid in v.calls && v.calls[pid].call == c && Answered(op, v.calls[pid])
  {
    NextKeeps(rules, w, Begin(pid, c));
  }

  /**
    Once a key is committed, a call under it begun at any later time has, at every time after that,
    either no answer, an error, or the original receipt, the last only for the original request. Its
    steps write nothing, and its first answered read gives the receipt to the original request and a
    conflict to any other.
   */
  lemma RetryAfterCommit(rules: Rules, w: World, before: seq<Action>, pid: nat, c: Call, after: seq<Action>, answer: Answer)
    requires Inv(rules, w) && c.key in w.store.operations && pid !in RunFrom(rules, w, before).calls && Recordable(rules, c)
    ensures var v := RunFrom(rules, Next(rules, RunFrom(rules, w, before), Begin(pid, c)), after);
            var next := Next(rules, v, Step(pid, answer));
            && pid in v.calls && v.calls[pid].call == c
            && (v.calls[pid].stage.Replied? ==>
                  v.calls[pid].stage.receipt == w.store.operations[c.key].result
                  && RequestOf(c) == w.store.operations[c.key].request)
            && (v.calls[pid].stage.Replied? || v.calls[pid].stage.Failed? || v.calls[pid].stage == Prior)
            && next.store == v.store
            && (v.calls[pid].stage == Prior && answer == Served ==>
                  next.calls[pid].stage == if RequestOf(c) == w.store.operations[c.key].request
                  then Replied(w.store.operations[c.key].result) else Failed(IdempotencyConflict))
  {
    var op := w.store.operations[c.key];
    var u := RunFrom(rules, w, before);
    NothingIsTakenBack(rules, w, before);
    var begun := Next(rules, u, Begin(pid, c));
    BeginsAnswered(rules, u, pid, c, op);
    StaysAnswered(rules, begun, pid, after, op);
    AnsweredNext(rules, RunFrom(rules, begun, after), Step(pid, answer), pid, op);
  }

  lemma LostCommit(rules: Rules, s: Store, c: Call, f: Forecast, t: Transition, response: Receipt)
    requires Decision(rules, f, c) == Some(t) && GoesIn(s, c, f, t)
    requires |rules.payloadText(c.resolution, c.adjudicator)| <= MAX_ARTIFACT
    ensures StepCall(rules, s, c, Committing(f, response), Lost) ==
            (AfterBatch(rules, s, f, c, t, response), ReadingBack(Unavailable))
  {
    DecisionFollows(rules, f, c);
    BatchEffect(rules, s, f, c, t, response);
  }

  /** A call that lost its answer after committing finds its receipt when it reads back. */
  lemma LostAnswerReadsBack(rules: Rules, s: Store, c: Call, f: Forecast, t: Transition, response: Receipt)
    requires Decision(rules, f, c) == Some(t) && GoesIn(s, c, f, t)
    requires |rules.payloadText(c.resolution, c.adjudicator)| <= MAX_ARTIFACT
    ensures var (committed, stage) := StepCall(rules, s, c, Committing(f, response), Lost);
            StepCall(rules, committed, c, stage, Served) == (committed, Replied(response))
  {
    LostCommit(rules, s, c, f, t, response);
    var committed := AfterBatch(rules, s, f, c, t, response);
    assert committed.operations[c.key] == Operation(RequestOf(c), c.forecastId, response);
  }

  /**
    A loaded decision goes in exactly when its forecast is still at the revision it was decided on,
    and its key is unused.
   */
  lemma CommitsExactlyWhenCurrent(rules: Rules, actions: seq<Action>, pid: nat)
    requires pid in Run(rules, actions).calls && Run(rules, actions).calls[pid].stage.Committing?
    requires var c := Run(rules, actions).calls[pid].call;
             |rules.payloadText(c.resolution, c.adjudicator)| <= MAX_ARTIFACT
    ensures var w := Run(rules, actions);
            var c, f := w.calls[pid].call, w.calls[pid].stage.snapshot;
            Next(rules, w, Step(pid, Served)).calls[pid].stage.Replied? <==>
            f.id in w.store.forecasts && w.store.forecasts[f.id].revision == f.revision
            && c.key !in w.store.operations
  {
    Reachable(rules, actions);
    var w := Run(rules, actions);
    var c, f := w.calls[pid].call, w.calls[pid].stage.snapshot;
    assert StageOk(rules, w.store, w.calls[pid]);
    DecisionFollows(rules, f, c);
    ServedCommits(rules, w.store, c, f, w.calls[pid].stage.response);
    FutureIsFree(w.store, f.id, Decision(rules, f, c).value.event);
  }

  lemma ServedCommits(rules: Rules, s: Store, c: Call, f: Forecast, response: Receipt)
    requires Decision(rules, f, c).Some? && |rules.payloadText(c.resolution, c.adjudicator)| <= MAX_ARTIFACT
    ensures StepCall(rules, s, c, Committing(f, response), Served).1.Replied? <==> GoesIn(s, c, f, Decision(rules, f, c).value)
  {
    DecisionFollows(rules, f, c);
    BatchEffect(rules, s, f, c, Decision(rules, f, c).value, response);
  }

  /** No event is filed past the current revision of its forecast. */
  lemma FutureIsFree(s: Store, id: string, e: Event)
    requires ChainOk(s) && id in s.forecasts && e.forecastId == id
    ensures e.revision > s.forecasts[id].revision ==> (id, e.revision) !in s.events && e !in s.events.Values
  {
    forall at | at in s.events
      ensures s.events[at].forecastId == at.0 && s.events[at].revision == at.1
      ensures at.0 in s.forecasts && at.1 <= s.forecasts[at.0].revision
    {
      assert LinkOk(s, at.0, at.1);
    }
  }
}
