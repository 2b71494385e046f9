/**
  What every reachable state of the adjudication protocol satisfies, under any interleaving of
  calls, other commands, lost answers and failed batches.
 */
module AdjudicationSafety {
  import opened Adjudication

  // ---------------------------------------------------------------- what a batch does

  lemma {:induction false} ExecuteAppend(s: Store, a: seq<Statement>, b: seq<Statement>)
    ensures Execute(s, a + b) == match Execute(s, a) case None => None case Some(t) => Execute(t, b)
    decreases |a|
  {
    if a == [] {
      assert a + b == b;
    } else {
      assert (a + b)[0] == a[0] && (a + b)[1..] == a[1..] + b;
      if Apply(s, a[0]).Some? { ExecuteAppend(Apply(s, a[0]).value, a[1..], b); }
    }
  }

  ghost predicate PutsOnly(batch: seq<Statement>) { forall i :: 0 <= i < |batch| ==> batch[i].PutArtifact? }

  /** Insert-or-ignore, one after the other. */
  function Retained(m: map<Digest, string>, batch: seq<Statement>): map<Digest, string>
    requires PutsOnly(batch)
    decreases |batch|
  {
    if batch == [] then m
    else
      var p := batch[0];
      Retained(if p.hash in m then m else m[p.hash := p.body], batch[1..])
  }

  lemma {:induction false} ExecutePuts(s: Store, batch: seq<Statement>)
    requires PutsOnly(batch)
    ensures Execute(s, batch) == Some(s.(artifacts := Retained(s.artifacts, batch)))
    decreases |batch|
  {
    if batch != [] { ExecutePuts(Apply(s, batch[0]).value, batch[1..]); }
  }

  ghost predicate Extends(m: map<Digest, string>, k: map<Digest, string>) {
    forall h :: h in m ==> h in k && k[h] == m[h]
  }

  lemma {:induction false} RetainedExtends(m: map<Digest, string>, batch: seq<Statement>)
    requires PutsOnly(batch)
    ensures Extends(m, Retained(m, batch))
    ensures forall i :: 0 <= i < |batch| ==> batch[i].hash in Retained(m, batch)
    decreases |batch|
  {
    if batch != [] {
      var p := batch[0];
      var k := if p.hash in m then m else m[p.hash := p.body];
      RetainedExtends(k, batch[1..]);
      assert p.hash in k;
      forall i | 0 < i < |batch| ensures batch[i].hash in Retained(m, batch) { assert batch[i] == batch[1..][i - 1]; }
    }
  }

  ghost predicate WellNamed(rules: Rules, m: map<Digest, string>) {
    forall h :: h in m ==> Names(rules, h, m[h])
  }

  lemma {:induction false} RetainedNames(rules: Rules, m: map<Digest, string>, batch: seq<Statement>)
    requires PutsOnly(batch) && WellNamed(rules, m)
    requires forall i :: 0 <= i < |batch| ==> Names(rules, batch[i].hash, batch[i].body)
    ensures WellNamed(rules, Retained(m, batch))
    decreases |batch|
  {
    if batch != [] {
      var p := batch[0];
      RetainedNames(rules, if p.hash in m then m else m[p.hash := p.body], batch[1..]);
    }
  }

  ghost predicate CoreApplies(s: Store, f: Forecast, t: Transition) {
    && f.id in s.forecasts && s.forecasts[f.id].revision == f.revision
    && (f.id, t.event.revision) !in s.events && t.event !in s.events.Values
    && (f.id, t.event.commandId) !in s.commands
  }

  ghost function AfterCore(s: Store, f: Forecast, t: Transition): Store {
    s.(forecasts := s.forecasts[f.id := t.forecast], events := s.events[(f.id, t.event.revision) := t.event],
      commands := s.commands + {(f.id, t.event.commandId)})
  }

  lemma CoreEffect(s: Store, f: Forecast, t: Transition)
    requires t.forecast.id == f.id == t.event.forecastId
    ensures Execute(s, Core(f, t)) == if CoreApplies(s, f, t) then Some(AfterCore(s, f, t)) else None
  {
    var core := Core(f, t);
    assert core[1..][1..] == [core[2], core[3]] && core[1..][1..][1..] == [core[3]] && core[1..][1..][1..][1..] == [];
    assert core[1..][0] == core[1];
    if f.id in s.forecasts && s.forecasts[f.id].revision == f.revision {
      var s1 := s.(forecasts := s.forecasts[f.id := t.forecast]);
      assert Apply(s, core[1]) == Some(s1);
      assert Execute(s, core) == Execute(s1, core[1..][1..]);
      var s2 := s1.(events := s1.events[(f.id, t.event.revision) := t.event]);
      if (f.id, t.event.revision) !in s.events && t.event !in s.events.Values {
        assert Apply(s1, core[2]) == Some(s2);
        assert Execute(s1, core[1..][1..]) == Execute(s2, core[1..][1..][1..]);
        assert core[1..][1..][1..][0] == core[3];
        assert Execute(s2, core[1..][1..][1..]) ==
               match Apply(s2, core[3]) case None => None case Some(v) => Execute(v, core[1..][1..][1..][1..]);
      }
    }
  }

  /** Everything the batch retains, in the order it does. */
  ghost function Retains(rules: Rules, c: Call): seq<Statement> { Before(rules, c) + Records(c.resolution.verifications) }

  ghost function AfterBatch(rules: Rules, s: Store, f: Forecast, c: Call, t: Transition, response: Receipt): Store {
    AfterCore(s, f, t).(
    operations := s.operations[c.key := Operation(RequestOf(c), c.forecastId, response)],
    artifacts := Retained(s.artifacts, Retains(rules, c)))
  }

  lemma {:induction false} RetainedAppend(m: map<Digest, string>, a: seq<Statement>, b: seq<Statement>)
    requires PutsOnly(a) && PutsOnly(b)
    ensures PutsOnly(a + b) && Retained(m, a + b) == Retained(Retained(m, a), b)
    decreases |a|
  {
    if a == [] {
      assert a + b == b;
    } else {
      assert (a + b)[0] == a[0] && (a + b)[1..] == a[1..] + b;
      RetainedAppend(if a[0].hash in m then m else m[a[0].hash := a[0].body], a[1..], b);
    }
  }

  /** What follows the core of a batch: it fails only if the key is used. */
  lemma TailEffect(s: Store, early: seq<Statement>, key: string, op: Operation, late: seq<Statement>)
    requires PutsOnly(early) && PutsOnly(late)
    ensures PutsOnly(early + late)
    ensures Execute(s, early + ([InsertOperation(key, op)] + late)) ==
            if key in s.operations then None
            else Some(s.(operations := s.operations[key := op], artifacts := Retained(s.artifacts, early + late)))
  {
    var rest := [InsertOperation(key, op)] + late;
    ExecuteAppend(s, early, rest);
    ExecutePuts(s, early);
    var s2 := s.(artifacts := Retained(s.artifacts, early));
    assert rest[0] == InsertOperation(key, op) && rest[1..] == late;
    if key !in s.operations {
      ExecutePuts(s2.(operations := s2.operations[key := op]), late);
      RetainedAppend(s.artifacts, early, late);
    }
  }

  lemma BatchEffect(rules: Rules, s: Store, f: Forecast, c: Call, t: Transition, response: Receipt)
    requires t.forecast.id == f.id == t.event.forecastId
    ensures Execute(s, Batch(rules, f, c, t, response)) ==
            if CoreApplies(s, f, t) && c.key !in s.operations then Some(AfterBatch(rules, s, f, c, t, response)) else None
  {
    var op := Operation(RequestOf(c), c.forecastId, response);
    var early, late := Before(rules, c), Records(c.resolution.verifications);
    var tail := early + ([InsertOperation(c.key, op)] + late);
    assert Batch(rules, f, c, t, response) == Core(f, t) + tail;
    ExecuteAppend(s, Core(f, t), tail);
    CoreEffect(s, f, t);
    if CoreApplies(s, f, t) { TailEffect(AfterCore(s, f, t), early, c.key, op, late); }
  }

  // ---------------------------------------------------------------- the invariant

  /** The record of each forecast ends in its latest event. */
  ghost predicate HeadOk(s: Store, id: string)
    requires id in s.forecasts
  {
    var f := s.forecasts[id];
    && f.id == id && f.revision >= 0
    && (f.revision == 0 ==> f.head.None?)
    && (f.revision > 0 ==> (id, f.revision) in s.events && f.head == Some(s.events[(id, f.revision)]))
  }

  /** Each event is filed by its revision and follows the one before. */
  ghost predicate LinkOk(s: Store, id: string, r: int)
    requires (id, r) in s.events
  {
    var e := s.events[(id, r)];
    && id in s.forecasts && 1 <= r <= s.forecasts[id].revision
    && e.forecastId == id && e.revision == r
    && (r == 1 ==> e.previous.None?)
    && (r > 1 ==> (id, r - 1) in s.events && e.previous == Some(s.events[(id, r - 1)]))
  }

  ghost predicate ChainOk(s: Store) {
    && (forall id :: id in s.forecasts ==> HeadOk(s, id))
    && (forall id, r :: (id, r) in s.events ==> LinkOk(s, id, r))
  }

  /** A hash that was checked is retained, under the bytes it is the plain digest of unless they were supplied. */
  ghost predicate Kept(s: Store, h: Digest) {
    h in s.artifacts && (s.artifacts[h] == h.bytes || |h.bytes| <= MAX_ARTIFACT)
  }

  /** A receipt that tells the truth about an event on record. */
  ghost predicate Truthful(s: Store, key: string, op: Operation) {
    var e := op.result.event;
    && e.commandId == Admin(key) && e.name == "adjudicate_resolution"
    && e.oldState == "ESCALATED" && e.newState == "PROPOSED"
    && e.forecastId == op.forecastId == op.request.forecastId
    && e.revision == op.result.revision && e.occurredAtMs == op.result.acceptedAtMs
    && (e.forecastId, e.revision) in s.events && s.events[(e.forecastId, e.revision)] == e
    && e.resolution.Some? && op.result.resolutionHash == op.request.resolutionHash == Commitment(e.resolution.value.text)
    && (op.request.revision.Some? ==> e.revision == op.request.revision.value + 1)
    && forall h :: h in e.resolution.value.evidence ==> Kept(s, h)
  }

  ghost predicate ReceiptsTrue(s: Store) {
    forall key :: key in s.operations ==> Truthful(s, key, s.operations[key])
  }

  /** An adjudication on record is the one its key's receipt names. */
  ghost predicate Filed(s: Store, e: Event) {
    e.commandId.Admin? || e.name == "adjudicate_resolution" ==>
      e.commandId.Admin? && e.commandId.key in s.operations && s.operations[e.commandId.key].result.event == e
  }

  ghost predicate Indexed(s: Store) { forall at :: at in s.events ==> Filed(s, s.events[at]) }

  /** No adjudication's command is on record without its receipt. */
  ghost predicate CommandsFiled(s: Store) {
    forall at :: at in s.commands && at.1.Admin? ==> at.1.key in s.operations
  }

  ghost predicate OperationsOk(s: Store) { ReceiptsTrue(s) && Indexed(s) && CommandsFiled(s) }

  ghost predicate StoreOk(rules: Rules, s: Store) {
    ChainOk(s) && OperationsOk(s) && WellNamed(rules, s.artifacts)
  }

  /** A forecast some call loaded: unchanged for as long as its revision is current. */
  ghost predicate Loaded(s: Store, c: Call, f: Forecast) {
    && f.id == c.forecastId && f.id in s.forecasts && f.revision <= s.forecasts[f.id].revision
    && (f.revision == s.forecasts[f.id].revision ==> f == s.forecasts[f.id])
    && f.state == "ESCALATED" && (c.expectedRevision.Some? ==> f.revision == c.expectedRevision.value)
  }

  /** The artifacts of a call that passed `artifact_sql`. */
  ghost predicate Acceptable(rules: Rules, artifacts: seq<Supplied>) {
    forall i :: 0 <= i < |artifacts| ==>
                  Names(rules, artifacts[i].hash, artifacts[i].body) && |artifacts[i].body| <= MAX_ARTIFACT
  }

  /** The body of this hash was supplied or in the store, and was the one it is the plain digest of. */
  ghost predicate Checked(s: Store, c: Call, h: Digest) {
    if SuppliedBody(c.artifacts, h).Some? then SuppliedBody(c.artifacts, h).value == h.bytes
    else h in s.artifacts && s.artifacts[h] == h.bytes
  }

  ghost predicate Found(s: Store, c: Call, n: nat) {
    n <= |c.resolution.evidence|
    && forall i :: 0 <= i < n ==> Checked(s, c, c.resolution.evidence[i])
  }

  ghost predicate Previewed(rules: Rules, s: Store, c: Call, f: Forecast, response: Receipt) {
    && Loaded(s, c, f) && Acceptable(rules, c.artifacts) && Found(s, c, |c.resolution.evidence|)
    && Decision(rules, f, c).Some? && response == ReceiptFor(c, Decision(rules, f, c).value)
  }

  ghost predicate StageOk(rules: Rules, s: Store, p: Process) {
    var c := p.call;
    match p.stage
    case Reading(f, n) => Loaded(s, c, f) && Acceptable(rules, c.artifacts) && Found(s, c, n)
    case Reviewing(f, response, _) => Previewed(rules, s, c, f, response)
    case Committing(f, response) => Previewed(rules, s, c, f, response)
    case Replied(receipt) =>
      c.key in s.operations && s.operations[c.key] == Operation(RequestOf(c), c.forecastId, receipt)
    case _ => true
  }

  ghost predicate Inv(rules: Rules, w: World) {
    && StoreOk(rules, w.store)
    && forall pid :: pid in w.calls ==> Recordable(rules, w.calls[pid].call) && StageOk(rules, w.store, w.calls[pid])
  }

  // ---------------------------------------------------------------- what stays true as the store grows

  /** Everything a store may do between two steps of a call. */
  ghost predicate Grows(s: Store, t: Store) {
    && (forall id :: id in s.forecasts ==>
                       id in t.forecasts && s.forecasts[id].revision <= t.forecasts[id].revision
                       && (s.forecasts[id].revision == t.forecasts[id].revision ==> s.forecasts[id] == t.forecasts[id]))
    && (forall at :: at in s.events ==> at in t.events && t.events[at] == s.events[at])
    && (forall key :: key in s.operations ==> key in t.operations && t.operations[key] == s.operations[key])
    && Extends(s.artifacts, t.artifacts)
  }

  lemma StagesSurvive(rules: Rules, s: Store, t: Store, p: Process)
    requires Grows(s, t) && StageOk(rules, s, p)
    ensures StageOk(rules, t, p)
  {}

  lemma GrowsTransitive(a: Store, b: Store, c: Store)
    requires Grows(a, b) && Grows(b, c)
    ensures Grows(a, c)
  {}

  lemma Restore(rules: Rules, w: World, t: Store, calls: map<nat, Process>, pid: nat, p: Process)
    requires Inv(rules, w) && Grows(w.store, t) && StoreOk(rules, t)
    requires calls == w.calls[pid := p] && StageOk(rules, t, p) && Recordable(rules, p.call)
    ensures Inv(rules, World(t, calls))
  {
    forall q | q in calls ensures StageOk(rules, t, calls[q]) {
      if q != pid { StagesSurvive(rules, w.store, t, w.calls[q]); }
    }
  }

  // ---------------------------------------------------------------- a command commits

  /** `t` is a command on the current forecast `f`. */
  ghost predicate Follows(f: Forecast, t: Transition) {
    && t.forecast.id == f.id == t.event.forecastId
    && t.event.revision == t.forecast.revision == f.revision + 1
    && t.event.previous == f.head && t.forecast.head == Some(t.event)
  }

  lemma CoreGrows(s: Store, f: Forecast, t: Transition)
    requires f.id in s.forecasts && f == s.forecasts[f.id] && Follows(f, t) && CoreApplies(s, f, t)
    ensures Grows(s, AfterCore(s, f, t))
  {}

  lemma CoreKeepsHead(s: Store, f: Forecast, t: Transition, id: string)
    requires f.id in s.forecasts && f == s.forecasts[f.id] && f.revision >= 0 && Follows(f, t) && CoreApplies(s, f, t)
    requires id in s.forecasts && HeadOk(s, id)
    ensures HeadOk(AfterCore(s, f, t), id)
  {}

  lemma CoreKeepsLink(s: Store, f: Forecast, t: Transition, id: string, r: int)
    requires f.id in s.forecasts && f == s.forecasts[f.id] && Follows(f, t) && CoreApplies(s, f, t)
    requires (id, r) in s.events && LinkOk(s, id, r)
    ensures LinkOk(AfterCore(s, f, t), id, r)
  {
    assert (id, r) != (f.id, t.event.revision);
    if r > 1 { assert (id, r - 1) != (f.id, t.event.revision); }
  }

  lemma CoreLinks(s: Store, f: Forecast, t: Transition)
    requires f.id in s.forecasts && f == s.forecasts[f.id] && Follows(f, t) && CoreApplies(s, f, t) && HeadOk(s, f.id)
    ensures LinkOk(AfterCore(s, f, t), f.id, t.event.revision)
  {}

  lemma CoreKeepsChain(s: Store, f: Forecast, t: Transition)
    requires ChainOk(s) && f.id in s.forecasts && f == s.forecasts[f.id] && Follows(f, t) && CoreApplies(s, f, t)
    ensures ChainOk(AfterCore(s, f, t))
  {
    assert HeadOk(s, f.id);
    forall id | id in s.forecasts ensures HeadOk(AfterCore(s, f, t), id) { CoreKeepsHead(s, f, t, id); }
    forall id, r | (id, r) in s.events ensures LinkOk(AfterCore(s, f, t), id, r) { CoreKeepsLink(s, f, t, id, r); }
    CoreLinks(s, f, t);
  }

  lemma TruthSurvives(s: Store, t: Store, key: string)
    requires key in s.operations && Truthful(s, key, s.operations[key]) && Grows(s, t)
    ensures Truthful(t, key, s.operations[key])
  {}

  /** Receipts stay true, and adjudications filed, while neither is added to. */
  lemma OperationsSurvive(s: Store, t: Store)
    requires OperationsOk(s) && Grows(s, t) && t.operations == s.operations
    requires forall at :: at in t.events && at !in s.events ==> Filed(t, t.events[at])
    requires forall at :: at in t.commands && at !in s.commands ==> at.1.Other?
    ensures OperationsOk(t)
  {
    forall key | key in t.operations ensures Truthful(t, key, t.operations[key]) { TruthSurvives(s, t, key); }
    forall at | at in t.events ensures Filed(t, t.events[at]) {
      if at in s.events { assert Filed(s, s.events[at]); }
    }
  }

  /** Another caller's command. */
  lemma ChangeKeeps(rules: Rules, s: Store, next: Forecast, event: Event)
    requires StoreOk(rules, s) && LegalChange(s, next, event)
    requires CoreApplies(s, s.forecasts[next.id], Transition(next, event))
    ensures var v := AfterCore(s, s.forecasts[next.id], Transition(next, event));
            StoreOk(rules, v) && Grows(s, v)
  {
    var f := s.forecasts[next.id];
    assert HeadOk(s, next.id);
    CoreKeepsChain(s, f, Transition(next, event));
    CoreGrows(s, f, Transition(next, event));
    OperationsSurvive(s, AfterCore(s, f, Transition(next, event)));
  }

  // ---------------------------------------------------------------- an adjudication commits

  lemma {:induction false} SuppliedMember(artifacts: seq<Supplied>, hash: Digest)
    requires SuppliedBody(artifacts, hash).Some?
    ensures exists i :: 0 <= i < |artifacts| && artifacts[i].hash == hash
                        && artifacts[i].body == SuppliedBody(artifacts, hash).value
  {
    var n := |artifacts| - 1;
    if artifacts[n].hash != hash { SuppliedMember(artifacts[..n], hash); }
  }

  lemma {:induction false} AcceptedArtifacts(rules: Rules, artifacts: seq<Supplied>)
    requires ArtifactRefusal(rules, artifacts).None?
    ensures Acceptable(rules, artifacts)
  {
    if artifacts != [] { AcceptedArtifacts(rules, artifacts[..|artifacts| - 1]); }
  }

  lemma RetainsNamed(rules: Rules, c: Call)
    requires Acceptable(rules, c.artifacts) && Recordable(rules, c)
    ensures PutsOnly(Retains(rules, c))
    ensures forall i :: 0 <= i < |Retains(rules, c)| ==> Names(rules, Retains(rules, c)[i].hash, Retains(rules, c)[i].body)
  {}

  lemma SuppliedNames(rules: Rules, artifacts: seq<Supplied>, h: Digest) returns (i: nat)
    requires Acceptable(rules, artifacts) && SuppliedBody(artifacts, h).Some?
    ensures i < |artifacts| && artifacts[i].hash == h && artifacts[i].body == SuppliedBody(artifacts, h).value
    ensures |artifacts[i].body| <= MAX_ARTIFACT
  {
    SuppliedMember(artifacts, h);
    i :| 0 <= i < |artifacts| && artifacts[i].hash == h && artifacts[i].body == SuppliedBody(artifacts, h).value;
  }

  /** Every cited hash has a row once the batch is in. */
  lemma EvidenceRetained(rules: Rules, s: Store, c: Call, h: Digest)
    requires Acceptable(rules, c.artifacts) && Found(s, c, |c.resolution.evidence|) && h in c.resolution.evidence
    ensures PutsOnly(Retains(rules, c)) && h in Retained(s.artifacts, Retains(rules, c))
    ensures Retained(s.artifacts, Retains(rules, c))[h] == h.bytes || |h.bytes| <= MAX_ARTIFACT
  {
    var puts := Retains(rules, c);
    RetainedExtends(s.artifacts, puts);
    assert Checked(s, c, h);
    if SuppliedBody(c.artifacts, h).Some? {
      var i := SuppliedNames(rules, c.artifacts, h);
      assert puts[i + 1] == Puts(c.artifacts)[i];
      assert puts[i + 1].hash in Retained(s.artifacts, puts);
    }
  }

  ghost predicate Decided(rules: Rules, s: Store, c: Call, f: Forecast, t: Transition) {
    && Loaded(s, c, f) && Acceptable(rules, c.artifacts) && Found(s, c, |c.resolution.evidence|)
    && Decision(rules, f, c) == Some(t)
  }

  /** An adjudication takes ESCALATED to PROPOSED and follows the record it was decided on. */
  lemma DecisionFollows(rules: Rules, f: Forecast, c: Call)
    requires Decision(rules, f, c).Some?
    ensures var t := Decision(rules, f, c).value;
            && Follows(f, t) && t.event.commandId == Admin(c.key) && t.event.name == "adjudicate_resolution"
            && t.event.oldState == f.state == "ESCALATED" && t.event.newState == t.forecast.state == "PROPOSED"
            && t.event.occurredAtMs == c.resolution.proposedAtMs && t.event.resolution == Some(c.resolution)
  {}

  lemma CommitGrows(rules: Rules, s: Store, c: Call, f: Forecast, t: Transition)
    requires ChainOk(s) && WellNamed(rules, s.artifacts) && Decided(rules, s, c, f, t) && Recordable(rules, c)
    requires CoreApplies(s, f, t) && c.key !in s.operations
    ensures var v := AfterBatch(rules, s, f, c, t, ReceiptFor(c, t));
            ChainOk(v) && WellNamed(rules, v.artifacts) && Grows(s, v)
  {
    DecisionFollows(rules, f, c);
    CoreKeepsChain(s, f, t);
    CoreGrows(s, f, t);
    RetainsNamed(rules, c);
    RetainedExtends(s.artifacts, Retains(rules, c));
    RetainedNames(rules, s.artifacts, Retains(rules, c));
    SameRecords(AfterCore(s, f, t), AfterBatch(rules, s, f, c, t, ReceiptFor(c, t)));
  }

  lemma SameRecords(s: Store, t: Store)
    requires ChainOk(s) && t.forecasts == s.forecasts && t.events == s.events
    ensures ChainOk(t)
  {
    forall id | id in t.forecasts ensures HeadOk(t, id) { assert HeadOk(s, id); }
    forall id, r | (id, r) in t.events ensures LinkOk(t, id, r) { assert LinkOk(s, id, r); }
  }

  /** The receipt of the preview is true of the commit. */
  lemma ReceiptTrue(rules: Rules, s: Store, c: Call, f: Forecast, t: Transition)
    requires Decided(rules, s, c, f, t)
    ensures var v := AfterBatch(rules, s, f, c, t, ReceiptFor(c, t));
            Truthful(v, c.key, v.operations[c.key])
  {
    DecisionFollows(rules, f, c);
    var v := AfterBatch(rules, s, f, c, t, ReceiptFor(c, t));
    forall h | h in c.resolution.evidence ensures Kept(v, h) { EvidenceRetained(rules, s, c, h); }
  }

  lemma CommitKeeps(rules: Rules, s: Store, c: Call, f: Forecast, t: Transition)
    requires StoreOk(rules, s) && Decided(rules, s, c, f, t) && CoreApplies(s, f, t) && c.key !in s.operations
    requires Recordable(rules, c)
    ensures var v := AfterBatch(rules, s, f, c, t, ReceiptFor(c, t));
            StoreOk(rules, v) && Grows(s, v)
  {
    var v := AfterBatch(rules, s, f, c, t, ReceiptFor(c, t));
    CommitGrows(rules, s, c, f, t);
    ReceiptTrue(rules, s, c, f, t);
    DecisionFollows(rules, f, c);
    CommitFiles(s, f, t, c.key, v);
  }

  /** The new event is filed under its key, and no other is disturbed. */
  lemma CommitFiles(s: Store, f: Forecast, t: Transition, key: string, v: Store)
    requires OperationsOk(s) && Grows(s, v) && t.event.commandId == Admin(key) && key !in s.operations
    requires v.events == s.events[(f.id, t.event.revision) := t.event]
    requires v.operations.Keys == s.operations.Keys + {key} && v.commands == s.commands + {(f.id, t.event.commandId)}
    requires Truthful(v, key, v.operations[key]) && v.operations[key].result.event == t.event
    ensures OperationsOk(v)
  {
    forall k | k in v.operations ensures Truthful(v, k, v.operations[k]) {
      if k != key { TruthSurvives(s, v, k); }
    }
    forall at | at in v.events ensures Filed(v, v.events[at]) {
      if at != (f.id, t.event.revision) { assert Filed(s, s.events[at]); }
    }
  }

  // ---------------------------------------------------------------- preservation

  /** The batch went in. */
  ghost predicate GoesIn(s: Store, c: Call, f: Forecast, t: Transition) { CoreApplies(s, f, t) && c.key !in s.operations }

  /** The batch goes in whole, or nothing changes and the receipt is read back. */
  lemma CommittingOutcome(rules: Rules, s: Store, c: Call, f: Forecast, response: Receipt, answer: Answer)
    requires Decision(rules, f, c).Some?
    ensures var t := Decision(rules, f, c).value;
            var after := StepCall(rules, s, c, Committing(f, response), answer);
            || (after.0 == s && after.1.ReadingBack?)
            || (GoesIn(s, c, f, t) && after.0 == AfterBatch(rules, s, f, c, t, response)
                && (after.1.ReadingBack? || after.1 == Replied(response)))
  {
    DecisionFollows(rules, f, c);
    BatchEffect(rules, s, f, c, Decision(rules, f, c).value, response);
  }

  lemma CommittingStep(rules: Rules, s: Store, p: Process, answer: Answer)
    requires StoreOk(rules, s) && StageOk(rules, s, p) && Recordable(rules, p.call) && p.stage.Committing?
    ensures var after := StepCall(rules, s, p.call, p.stage, answer);
            StoreOk(rules, after.0) && Grows(s, after.0) && StageOk(rules, after.0, Process(p.call, after.1))
  {
    var c, f, response := p.call, p.stage.snapshot, p.stage.response;
    var t := Decision(rules, f, c).value;
    CommittingOutcome(rules, s, c, f, response, answer);
    if GoesIn(s, c, f, t) { CommitKeeps(rules, s, c, f, t); }
  }

  lemma CommittingKeeps(rules: Rules, w: World, pid: nat, answer: Answer)
    requires Inv(rules, w) && pid in w.calls && w.calls[pid].stage.Committing?
    ensures Inv(rules, Next(rules, w, Step(pid, answer)))
    ensures Grows(w.store, Next(rules, w, Step(pid, answer)).store)
  {
    var p := w.calls[pid];
    CommittingStep(rules, w.store, p, answer);
    var after := StepCall(rules, w.store, p.call, p.stage, answer);
    Restore(rules, w, after.0, w.calls[pid := Process(p.call, after.1)], pid, Process(p.call, after.1));
  }

  /** Every step of a call other than its batch leaves the store alone. */
  lemma ReadingKeeps(rules: Rules, w: World, pid: nat, answer: Answer)
    requires Inv(rules, w) && pid in w.calls && !w.calls[pid].stage.Committing?
    ensures Inv(rules, Next(rules, w, Step(pid, answer)))
    ensures Next(rules, w, Step(pid, answer)).store == w.store
  {
    var p := w.calls[pid];
    var v := Next(rules, w, Step(pid, answer));
    assert StageOk(rules, w.store, p);
    if ArtifactRefusal(rules, p.call.artifacts).None? { AcceptedArtifacts(rules, p.call.artifacts); }
    StageStep(rules, w.store, p, answer);
    Restore(rules, w, w.store, v.calls, pid, v.calls[pid]);
  }

  lemma PriorOk(rules: Rules, s: Store, c: Call)
    requires StoreOk(rules, s)
    ensures PriorReceipt(s, c).Some? ==> StageOk(rules, s, Process(c, PriorReceipt(s, c).value))
  {
    if c.key in s.operations { assert Truthful(s, c.key, s.operations[c.key]); }
  }

  lemma LoadOk(rules: Rules, s: Store, c: Call)
    requires ChainOk(s) && c.forecastId in s.forecasts
    requires ArtifactRefusal(rules, c.artifacts).None? ==> Acceptable(rules, c.artifacts)
    ensures StageOk(rules, s, Process(c, AfterLoad(rules, c, s.forecasts[c.forecastId])))
  {
    assert HeadOk(s, c.forecastId);
  }

  lemma ReadOk(rules: Rules, s: Store, c: Call, f: Forecast, n: nat)
    requires StageOk(rules, s, Process(c, Reading(f, n)))
    ensures n < |c.resolution.evidence| ==> StageOk(rules, s, Process(c, CheckEvidence(s, c, f, n)))
    ensures n >= |c.resolution.evidence| ==> StageOk(rules, s, Process(c, Preview(rules, c, f)))
  {}

  /** Any step but the batch leaves the store alone, and goes where one of four functions says. */
  lemma StageMoves(rules: Rules, s: Store, c: Call, stage: Stage, answer: Answer)
    requires !stage.Committing?
    ensures var after := StepCall(rules, s, c, stage, answer);
            && after.0 == s
            && (|| after.1 == stage
                || after.1.Failed?
                || after.1.Load?
                || Some(after.1) == PriorReceipt(s, c)
                || (stage.Load? && c.forecastId in s.forecasts && after.1 == AfterLoad(rules, c, s.forecasts[c.forecastId]))
                || (stage.Reading? && stage.next < |c.resolution.evidence| && after.1 == CheckEvidence(s, c, stage.snapshot, stage.next))
                || (stage.Reading? && stage.next >= |c.resolution.evidence| && after.1 == Preview(rules, c, stage.snapshot))
                || (stage.Reviewing? && after.1.ReadingBack?)
                || (stage.Reviewing? && after.1 == Committing(stage.snapshot, stage.response))
                || (stage.Reviewing? && after.1 == Reviewing(stage.snapshot, stage.response, stage.next + 1)))
  {}

  lemma StageStep(rules: Rules, s: Store, p: Process, answer: Answer)
    requires StoreOk(rules, s) && StageOk(rules, s, p) && !p.stage.Committing?
    requires ArtifactRefusal(rules, p.call.artifacts).None? ==> Acceptable(rules, p.call.artifacts)
    ensures StageOk(rules, s, Process(p.call, StepCall(rules, s, p.call, p.stage, answer).1))
    ensures StepCall(rules, s, p.call, p.stage, answer).0 == s
  {
    StageMoves(rules, s, p.call, p.stage, answer);
    if PriorReceipt(s, p.call).Some? { PriorOk(rules, s, p.call); }
    if p.stage.Load? && p.call.forecastId in s.forecasts { LoadOk(rules, s, p.call); }
    if p.stage.Reading? { ReadOk(rules, s, p.call, p.stage.snapshot, p.stage.next); }
  }

  lemma OthersKeep(rules: Rules, w: World, a: Action)
    requires Inv(rules, w) && (a.Publish? || a.Change? || a.Retain?)
    ensures Inv(rules, Next(rules, w, a)) && Grows(w.store, Next(rules, w, a).store)
  {
    var v := Next(rules, w, a);
    assert StoreOk(rules, v.store) && Grows(w.store, v.store) by {
      if a.Change? && LegalChange(w.store, a.next, a.event) {
        CoreEffect(w.store, w.store.forecasts[a.next.id], Transition(a.next, a.event));
        if CoreApplies(w.store, w.store.forecasts[a.next.id], Transition(a.next, a.event)) {
          ChangeKeeps(rules, w.store, a.next, a.event);
        }
      } else if a.Publish? {
        PublishKeeps(rules, w.store, a.forecast);
      } else if a.Retain? && Names(rules, a.hash, a.body) {
        RetainKeeps(rules, w.store, a.hash, a.body);
      }
    }
    forall pid | pid in v.calls ensures StageOk(rules, v.store, v.calls[pid]) {
      StagesSurvive(rules, w.store, v.store, w.calls[pid]);
    }
  }

  lemma PublishKeeps(rules: Rules, s: Store, f: Forecast)
    requires StoreOk(rules, s)
    ensures var v := s.(forecasts := s.forecasts[f.id := f]);
            f.id !in s.forecasts && f.revision == 0 && f.head.None? ==> StoreOk(rules, v) && Grows(s, v)
  {
    var v := s.(forecasts := s.forecasts[f.id := f]);
    if f.id !in s.forecasts && f.revision == 0 && f.head.None? {
      forall id | id in v.forecasts ensures HeadOk(v, id) { if id != f.id { assert HeadOk(s, id); } }
      forall id, r | (id, r) in v.events ensures LinkOk(v, id, r) { assert LinkOk(s, id, r); }
      assert Grows(s, v);
      OperationsSurvive(s, v);
    }
  }

  lemma RetainKeeps(rules: Rules, s: Store, hash: Digest, body: string)
    requires StoreOk(rules, s) && Names(rules, hash, body)
    ensures var v := Apply(s, PutArtifact(hash, body)).value;
            StoreOk(rules, v) && Grows(s, v)
  {
    var v := Apply(s, PutArtifact(hash, body)).value;
    SameRecords(s, v);
    assert Grows(s, v);
    OperationsSurvive(s, v);
  }

  lemma NextKeeps(rules: Rules, w: World, a: Action)
    requires Inv(rules, w)
    ensures Inv(rules, Next(rules, w, a)) && Grows(w.store, Next(rules, w, a).store)
  {
    match a
    case Begin(pid, c) =>
      if pid !in w.calls && Recordable(rules, c) { Restore(rules, w, w.store, w.calls[pid := Process(c, Start(c))], pid, Process(c, Start(c))); }
    case Step(pid, answer) =>
      if pid in w.calls {
        if w.calls[pid].stage.Committing? {
          CommittingKeeps(rules, w, pid, answer);
        } else {
          ReadingKeeps(rules, w, pid, answer);
        }
      }
    case _ => OthersKeep(rules, w, a);
  }

  /** Every state the protocol can reach satisfies the invariant. */
  lemma {:induction false} Reachable(rules: Rules, actions: seq<Action>)
    ensures Inv(rules, Run(rules, actions))
  {
    if actions != [] {
      Reachable(rules, actions[..|actions| - 1]);
      NextKeeps(rules, Run(rules, actions[..|actions| - 1]), actions[|actions| - 1]);
    }
  }
}
