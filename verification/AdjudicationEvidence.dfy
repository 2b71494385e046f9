/**
  The evidence of an adjudication: which cited hashes a success is sure to leave on the body they are
  the plain digest of, and runs that leave any other on a body that does not hash to it.
 */
module AdjudicationEvidence {
  import opened Adjudication
  import opened AdjudicationSafety
  import opened AdjudicationTheorems
  import Json
  import Canonical

  // ---------------------------------------------------------------- what is sure

  /** Canonical text is its own canonical form. */
  ghost predicate Lawful(rules: Rules) { forall body :: CanonicalIsFixed(rules, body) }

  ghost predicate CanonicalIsFixed(rules: Rules, body: string) {
    rules.canonical(body).Some? ==> IsCanonical(rules, rules.canonical(body).value)
  }

  /** A call of this run has replied, and cites this hash. */
  ghost predicate Succeeds(rules: Rules, actions: seq<Action>, pid: nat, h: Digest) {
    var calls := Run(rules, actions).calls;
    && pid in calls && calls[pid].stage.Replied?
    && var e := calls[pid].stage.receipt.event;
    e.resolution.Some? && h in e.resolution.value.evidence
  }

  ghost predicate KeptPlain(s: Store, h: Digest) { h in s.artifacts && s.artifacts[h] == h.bytes }

  predicate ReadsAsCommitment(rules: Rules, h: Digest) { PREFIX <= h.bytes && IsCanonical(rules, h.bytes[|PREFIX|..]) }

  predicate ReadsAsCard(rules: Rules, h: Digest) { CARD_PREFIX <= h.bytes && rules.card(h.bytes[|CARD_PREFIX|..]) }

  /**
    Evidence that is small enough to be supplied and begins with one of the prefixes that records and
    cards are hashed with, followed by the text of one.
   */
  predicate Replaceable(rules: Rules, h: Digest) {
    |h.bytes| <= MAX_ARTIFACT && (ReadsAsCommitment(rules, h) || ReadsAsCard(rules, h))
  }

  lemma OtherSenses(rules: Rules, h: Digest, body: string)
    requires Lawful(rules) && Names(rules, h, body) && body != h.bytes
    ensures ReadsAsCommitment(rules, h) || ReadsAsCard(rules, h)
  {
    assert CanonicalIsFixed(rules, body);
    if rules.canonical(body).Some? && h == Commitment(rules.canonical(body).value) {
      assert h.bytes[|PREFIX|..] == rules.canonical(body).value;
    } else {
      assert h.bytes[|CARD_PREFIX|..] == body;
    }
  }

  /**
    Every hash a success cites is retained, under a body it is a hash of: the evidence itself, unless
    the evidence reads as a record's commitment or a card's hash and could have been supplied.
   */
  lemma EvidenceIsRetained(rules: Rules, actions: seq<Action>, pid: nat, h: Digest)
    requires Lawful(rules) && Succeeds(rules, actions, pid, h)
    ensures var s := Run(rules, actions).store;
            && h in s.artifacts && Names(rules, h, s.artifacts[h])
            && (!Replaceable(rules, h) ==> s.artifacts[h] == h.bytes)
  {
    Reachable(rules, actions);
    var w := Run(rules, actions);
    var c := w.calls[pid].call;
    assert StageOk(rules, w.store, w.calls[pid]);
    assert Truthful(w.store, c.key, w.store.operations[c.key]);
    assert Kept(w.store, h);
    if w.store.artifacts[h] != h.bytes { OtherSenses(rules, h, w.store.artifacts[h]); }
  }

  // ---------------------------------------------------------------- the first body stays

  /** The first body a batch offers under a hash. */
  function FirstBody(batch: seq<Statement>, h: Digest): Option<string>
    requires PutsOnly(batch)
    decreases |batch|
  {
    if batch == [] then None
    else if batch[0].hash == h then Some(batch[0].body)
    else FirstBody(batch[1..], h)
  }

  lemma {:induction false} FirstBodyStays(m: map<Digest, string>, batch: seq<Statement>, h: Digest)
    requires PutsOnly(batch)
    ensures h in m ==> h in Retained(m, batch) && Retained(m, batch)[h] == m[h]
    ensures h !in m && FirstBody(batch, h).Some? ==>
              h in Retained(m, batch) && Retained(m, batch)[h] == FirstBody(batch, h).value
    decreases |batch|
  {
    if batch != [] {
      var p := batch[0];
      FirstBodyStays(if p.hash in m then m else m[p.hash := p.body], batch[1..], h);
    }
  }

  /**
    Exactly when the kept body is the one with that plain digest: when the row already in the store,
    or failing one the first offered by the batch, has it.
   */
  lemma KeptBodyIsPlain(rules: Rules, s: Store, c: Call, f: Forecast, t: Transition, h: Digest)
    requires Decided(rules, s, c, f, t) && h in c.resolution.evidence
    ensures var after := AfterBatch(rules, s, f, c, t, ReceiptFor(c, t)).artifacts;
            && PutsOnly(Retains(rules, c))
            && h in after
            && (Sha(after[h]) == h <==>
                if h in s.artifacts then Sha(s.artifacts[h]) == h else FirstBody(Retains(rules, c), h) == Some(h.bytes))
  {
    EvidenceRetained(rules, s, c, h);
    FirstBodyStays(s.artifacts, Retains(rules, c), h);
    if h !in s.artifacts { FirstBodyFound(s.artifacts, Retains(rules, c), h); }
  }

  lemma {:induction false} FirstBodyFound(m: map<Digest, string>, batch: seq<Statement>, h: Digest)
    requires PutsOnly(batch) && h !in m && h in Retained(m, batch)
    ensures FirstBody(batch, h).Some?
    decreases |batch|
  {
    if batch != [] && batch[0].hash != h {
      var p := batch[0];
      FirstBodyFound(if p.hash in m then m else m[p.hash := p.body], batch[1..], h);
    }
  }

  // ---------------------------------------------------------------- a call that is taken

  /** A call for this one hash, with its body supplied, that nothing keeps from succeeding. */
  ghost predicate Awaits(rules: Rules, w: World, pid: nat, c: Call, h: Digest) {
    && pid !in w.calls && Recordable(rules, c) && Start(c) == Prior && c.key !in w.store.operations
    && c.resolution.evidence == [h]
    && SuppliedBody(c.artifacts, h) == Some(h.bytes) && Authentic(INITIAL.store, c, h)
    && c.forecastId in w.store.forecasts
    && var f := w.store.forecasts[c.forecastId];
    && AfterLoad(rules, c, f) == Reading(f, 0) && Decision(rules, f, c).Some?
    && Fits(c) && |rules.payloadText(c.resolution, c.adjudicator)| <= MAX_ARTIFACT
  }

  ghost predicate StandsAt(w: World, s: Store, pid: nat, c: Call, stage: Stage) {
    w.store == s && pid in w.calls && w.calls[pid] == Process(c, stage)
  }

  lemma OneMore(rules: Rules, w: World, actions: seq<Action>, a: Action)
    ensures RunFrom(rules, w, actions + [a]) == Next(rules, RunFrom(rules, w, actions), a)
  {
    assert (actions + [a])[..|actions|] == actions;
  }

  lemma Serves(rules: Rules, w: World, actions: seq<Action>, s: Store, pid: nat, c: Call, stage: Stage, answer: Answer)
    requires StandsAt(RunFrom(rules, w, actions), s, pid, c, stage)
    ensures var after := StepCall(rules, s, c, stage, answer);
            StandsAt(RunFrom(rules, w, actions + [Step(pid, answer)]), after.0, pid, c, after.1)
  {
    OneMore(rules, w, actions, Step(pid, answer));
  }

  /** The receipt the call's preview promises. */
  ghost function Promised(rules: Rules, f: Forecast, c: Call): Receipt
    requires Decision(rules, f, c).Some?
  {
    ReceiptFor(c, Decision(rules, f, c).value)
  }

  lemma ReadsPass(rules: Rules, w: World, pid: nat, c: Call, h: Digest)
    requires Awaits(rules, w, pid, c, h)
    ensures var s, f := w.store, w.store.forecasts[c.forecastId];
            && StepCall(rules, s, c, Prior, Served) == (s, Load)
            && StepCall(rules, s, c, Load, Served) == (s, Reading(f, 0))
            && StepCall(rules, s, c, Reading(f, 0), Served) == (s, Reading(f, 1))
            && StepCall(rules, s, c, Reading(f, 1), Served) == (s, Reviewing(f, Promised(rules, f, c), 0))
  {
    assert CheckEvidence(w.store, c, w.store.forecasts[c.forecastId], 0) == Reading(w.store.forecasts[c.forecastId], 1);
  }

  function Begun(pid: nat, c: Call): seq<Action> {
    [] + [Begin(pid, c)] + [Step(pid, Served)] + [Step(pid, Served)] + [Step(pid, Served)] + [Step(pid, Served)]
  }

  /** Served at every step, it comes to the timing review. */
  lemma CallIsBegun(rules: Rules, w: World, pid: nat, c: Call, h: Digest)
    requires Awaits(rules, w, pid, c, h)
    ensures var f := w.store.forecasts[c.forecastId];
            StandsAt(RunFrom(rules, w, Begun(pid, c)), w.store, pid, c, Reviewing(f, Promised(rules, f, c), 0))
  {
    var s, f := w.store, w.store.forecasts[c.forecastId];
    var begin, step := [] + [Begin(pid, c)], [Step(pid, Served)];
    ReadsPass(rules, w, pid, c, h);
    OneMore(rules, w, [], Begin(pid, c));
    Serves(rules, w, begin, s, pid, c, Prior, Served);
    Serves(rules, w, begin + step, s, pid, c, Load, Served);
    Serves(rules, w, begin + step + step, s, pid, c, Reading(f, 0), Served);
    Serves(rules, w, begin + step + step + step, s, pid, c, Reading(f, 1), Served);
  }

  /** The review finds only the supplied bodies. */
  lemma ReviewPasses(rules: Rules, w: World, pid: nat, c: Call, h: Digest)
    requires Awaits(rules, w, pid, c, h) && h !in w.store.artifacts
    ensures var s, f := w.store, w.store.forecasts[c.forecastId];
            var response := Promised(rules, f, c);
            && StepCall(rules, s, c, Reviewing(f, response, 0), Served) == (s, Reviewing(f, response, 1))
            && StepCall(rules, s, c, Reviewing(f, response, 1), Served) == (s, Committing(f, response))
  {
    assert Bodies(w.store, c, h) == Bodies(INITIAL.store, c, h);
  }

  /** The batch goes in whatever the artifacts are by then. */
  lemma BatchPasses(rules: Rules, w: World, m: map<Digest, string>, pid: nat, c: Call, h: Digest)
    requires Inv(rules, w) && Awaits(rules, w, pid, c, h)
    ensures var s, f := w.store.(artifacts := m), w.store.forecasts[c.forecastId];
            var t := Decision(rules, f, c).value;
            StepCall(rules, s, c, Committing(f, Promised(rules, f, c)), Served) ==
            (AfterBatch(rules, s, f, c, t, Promised(rules, f, c)), Replied(Promised(rules, f, c)))
  {
    var s, f := w.store, w.store.forecasts[c.forecastId];
    var t := Decision(rules, f, c).value;
    DecisionFollows(rules, f, c);
    assert HeadOk(s, c.forecastId);
    FutureIsFree(s, f.id, t.event);
    assert CoreApplies(s.(artifacts := m), f, t);
    BatchEffect(rules, s.(artifacts := m), f, c, t, Promised(rules, f, c));
  }

  /** It replies, and what was retained by then stays. */
  lemma CallIsTaken(rules: Rules, w: World, m: map<Digest, string>, actions: seq<Action>, pid: nat, c: Call, h: Digest)
    requires Inv(rules, w) && Awaits(rules, w, pid, c, h) && h in m
    requires var f := w.store.forecasts[c.forecastId];
             StandsAt(RunFrom(rules, w, actions), w.store.(artifacts := m), pid, c, Committing(f, Promised(rules, f, c)))
    ensures var v := RunFrom(rules, w, actions + [Step(pid, Served)]);
            && h in v.store.artifacts && v.store.artifacts[h] == m[h]
            && pid in v.calls && v.calls[pid].stage.Replied?
            && v.calls[pid].stage.receipt.event.resolution == Some(c.resolution)
  {
    var f := w.store.forecasts[c.forecastId];
    Serves(rules, w, actions, w.store.(artifacts := m), pid, c, Committing(f, Promised(rules, f, c)), Served);
    BatchPasses(rules, w, m, pid, c, h);
    DecisionFollows(rules, f, c);
    var puts := Retains(rules, c);
    assert PutsOnly(puts);
    FirstBodyStays(m, puts, h);
  }

  // ---------------------------------------------------------------- a body that does not hash to its evidence

  lemma {:induction false} RunAppends(rules: Rules, a: seq<Action>, b: seq<Action>)
    ensures Run(rules, a + b) == RunFrom(rules, Run(rules, a), b)
    decreases |b|
  {
    if b == [] {
      assert a + b == a;
    } else {
      var n := |b| - 1;
      RunAppends(rules, a, b[..n]);
      assert (a + b)[..|a + b| - 1] == a + b[..n] && (a + b)[|a + b| - 1] == b[n];
    }
  }

  lemma RetainEffect(rules: Rules, w: World, h: Digest, body: string)
    requires Names(rules, h, body) && h !in w.store.artifacts
    ensures Next(rules, w, Retain(h, body)) == w.(store := w.store.(artifacts := w.store.artifacts[h := body]))
  {}

  /** A body other than the evidence that the hash names. */
  lemma OtherBody(rules: Rules, h: Digest) returns (body: string)
    requires ReadsAsCommitment(rules, h) || ReadsAsCard(rules, h)
    ensures Names(rules, h, body) && body != h.bytes
  {
    if ReadsAsCommitment(rules, h) {
      body := h.bytes[|PREFIX|..];
      assert PREFIX + body == h.bytes && |PREFIX| > 0;
    } else {
      body := h.bytes[|CARD_PREFIX|..];
      assert CARD_PREFIX + body == h.bytes && |CARD_PREFIX| > 0;
    }
  }

  function Reviewed(pid: nat, c: Call): seq<Action> { Begun(pid, c) + [Step(pid, Served)] + [Step(pid, Served)] }

  /** The body is retained between the timing review and the batch. */
  lemma RetainedLate(rules: Rules, w: World, pid: nat, c: Call, h: Digest, body: string)
    requires Inv(rules, w) && Awaits(rules, w, pid, c, h) && h !in w.store.artifacts && Names(rules, h, body)
    ensures var v := RunFrom(rules, w, Reviewed(pid, c) + [Retain(h, body)] + [Step(pid, Served)]);
            && h in v.store.artifacts && v.store.artifacts[h] == body
            && pid in v.calls && v.calls[pid].stage.Replied?
            && v.calls[pid].stage.receipt.event.resolution == Some(c.resolution)
  {
    var s, f := w.store, w.store.forecasts[c.forecastId];
    var response := Promised(rules, f, c);
    CallIsBegun(rules, w, pid, c, h);
    ReviewPasses(rules, w, pid, c, h);
    Serves(rules, w, Begun(pid, c), s, pid, c, Reviewing(f, response, 0), Served);
    Serves(rules, w, Begun(pid, c) + [Step(pid, Served)], s, pid, c, Reviewing(f, response, 1), Served);
    OneMore(rules, w, Reviewed(pid, c), Retain(h, body));
    RetainEffect(rules, RunFrom(rules, w, Reviewed(pid, c)), h, body);
    CallIsTaken(rules, w, s.artifacts[h := body], Reviewed(pid, c) + [Retain(h, body)], pid, c, h);
  }

  /**
    The check reads the supplied body, but a body already in the store is kept; both may carry the
    hash, one as its plain digest and one in another sense. So after any run, if a call is about to
    succeed, the record or card its evidence reads as may be retained just before its batch, and the
    call still succeeds and leaves its evidence hash on a body that does not hash to it.
   */
  lemma CheckedBodyMayNotBeKept(rules: Rules, before: seq<Action>, pid: nat, c: Call, h: Digest) returns (body: string)
    requires var w := Run(rules, before); Awaits(rules, w, pid, c, h) && h !in w.store.artifacts
    requires ReadsAsCommitment(rules, h) || ReadsAsCard(rules, h)
    ensures Names(rules, h, body) && body != h.bytes
    ensures var actions := before + (Reviewed(pid, c) + [Retain(h, body)] + [Step(pid, Served)]);
            && Succeeds(rules, actions, pid, h)
            && h in Run(rules, actions).store.artifacts && Run(rules, actions).store.artifacts[h] == body
  {
    body := OtherBody(rules, h);
    Reachable(rules, before);
    RunAppends(rules, before, Reviewed(pid, c) + [Retain(h, body)] + [Step(pid, Served)]);
    RetainedLate(rules, Run(rules, before), pid, c, h, body);
  }

  // ---------------------------------------------------------------- the timing review

  /** Nothing it waits for is in the artifacts. */
  lemma StillAwaits(rules: Rules, w: World, m: map<Digest, string>, pid: nat, c: Call, h: Digest)
    requires Awaits(rules, w, pid, c, h)
    ensures Awaits(rules, w.(store := w.store.(artifacts := m)), pid, c, h)
  {}

  function PassedOver(pid: nat, c: Call): seq<Action> { Begun(pid, c) + [Step(pid, Exempt)] }

  /**
    A body retained before the call is kept just the same when the forecast needs no timing review;
    when it is reviewed, the call is refused.
   */
  lemma RetainedEarly(rules: Rules, before: seq<Action>, pid: nat, c: Call, h: Digest)
    requires var w := Run(rules, before);
             Awaits(rules, w, pid, c, h) && h in w.store.artifacts && w.store.artifacts[h] != h.bytes
    ensures var actions := before + (PassedOver(pid, c) + [Step(pid, Served)]);
            && Succeeds(rules, actions, pid, h)
            && h in Run(rules, actions).store.artifacts
            && Run(rules, actions).store.artifacts[h] == Run(rules, before).store.artifacts[h]
    ensures var v := Run(rules, before + (Begun(pid, c) + [Step(pid, Served)]));
            pid in v.calls && v.calls[pid].stage == ReadingBack(TimingReview)
  {
    var w := Run(rules, before);
    var s := w.store;
    Reachable(rules, before);
    RunAppends(rules, before, PassedOver(pid, c) + [Step(pid, Served)]);
    RunAppends(rules, before, Begun(pid, c) + [Step(pid, Served)]);
    ReviewOfSpoiled(rules, w, pid, c, h);
    assert s.(artifacts := s.artifacts) == s;
    CallIsTaken(rules, w, s.artifacts, PassedOver(pid, c), pid, c, h);
  }

  lemma ReviewOfSpoiled(rules: Rules, w: World, pid: nat, c: Call, h: Digest)
    requires Awaits(rules, w, pid, c, h) && h in w.store.artifacts && w.store.artifacts[h] != h.bytes
    ensures var s, f := w.store, w.store.forecasts[c.forecastId];
            && StandsAt(RunFrom(rules, w, PassedOver(pid, c)), s, pid, c, Committing(f, Promised(rules, f, c)))
            && StandsAt(RunFrom(rules, w, Begun(pid, c) + [Step(pid, Served)]), s, pid, c, ReadingBack(TimingReview))
  {
    var s, f := w.store, w.store.forecasts[c.forecastId];
    CallIsBegun(rules, w, pid, c, h);
    Serves(rules, w, Begun(pid, c), s, pid, c, Reviewing(f, Promised(rules, f, c), 0), Exempt);
    Serves(rules, w, Begun(pid, c), s, pid, c, Reviewing(f, Promised(rules, f, c), 0), Served);
    SpoiledIsNotAuthentic(s, c, h);
  }

  lemma SpoiledIsNotAuthentic(s: Store, c: Call, h: Digest)
    requires h in s.artifacts && s.artifacts[h] != h.bytes
    ensures !Authentic(s, c, h)
  {
    var bodies := Bodies(s, c, h);
    assert bodies[|BodiesUnder(c.artifacts, h)|] == s.artifacts[h];
  }

  // ---------------------------------------------------------------- from a draft to an escalated dispute

  /** A command of anyone else, and the record it leaves. */
  datatype Move =
    Move(name: string, state: string, resolution: Option<Resolution>, disputes: nat, reviews: nat)

  function CommandOf(n: nat): CommandId { Other(seq(n, _ => 'c')) }

  function Recorded(id: string, moves: seq<Move>): Forecast {
    if moves == [] then Forecast(id, 0, "DRAFT", 0, None, 0, 0, None)
    else
      var n := |moves|;
      var f, m := Recorded(id, moves[..n - 1]), moves[n - 1];
      var event := Event(id, CommandOf(n), m.name, f.state, m.state, n, n, None, f.head);
      Forecast(id, n, m.state, n, m.resolution, m.disputes, m.reviews, Some(event))
  }

  lemma RecordedFields(id: string, moves: seq<Move>)
    ensures var f := Recorded(id, moves);
            && f.id == id && f.revision == f.updatedAtMs == |moves| && (f.head.None? <==> moves == [])
            && (moves != [] ==> f.head.value.commandId == CommandOf(|moves|) && f.head.value.name == moves[|moves| - 1].name)
  {}

  function History(id: string, moves: seq<Move>): seq<Action> {
    if moves == [] then [Publish(Recorded(id, []))]
    else
      RecordedFields(id, moves);
      History(id, moves[..|moves| - 1]) + [Change(Recorded(id, moves), Recorded(id, moves).head.value)]
  }

  ghost predicate Quiet(w: World, id: string, moves: seq<Move>) {
    && w.calls == map[] && w.store.operations == map[] && w.store.artifacts == map[]
    && w.store.forecasts == map[id := Recorded(id, moves)]
    && forall at :: at in w.store.commands ==> at.1.Other? && |at.1.text| <= |moves|
  }

  lemma MoveIsLegal(w: World, id: string, moves: seq<Move>, f: Forecast, next: Forecast, event: Event)
    requires moves != [] && moves[|moves| - 1].name != "adjudicate_resolution"
    requires ChainOk(w.store) && Quiet(w, id, moves[..|moves| - 1])
    requires f == Recorded(id, moves[..|moves| - 1]) && next == Recorded(id, moves) && next.head == Some(event)
    ensures LegalChange(w.store, next, event) && w.store.forecasts[id] == f && next.id == f.id == id
    ensures CoreApplies(w.store, f, Transition(next, event))
  {
    RecordedFields(id, moves);
    RecordedFields(id, moves[..|moves| - 1]);
    FutureIsFree(w.store, id, event);
  }

  lemma ChangeEffect(rules: Rules, w: World, f: Forecast, next: Forecast, event: Event)
    requires LegalChange(w.store, next, event) && w.store.forecasts[next.id] == f && f.id == next.id
    requires CoreApplies(w.store, f, Transition(next, event))
    ensures Next(rules, w, Change(next, event)) == w.(store := AfterCore(w.store, f, Transition(next, event)))
  {
    CoreEffect(w.store, f, Transition(next, event));
  }

  lemma StaysQuiet(w: World, id: string, moves: seq<Move>, f: Forecast, next: Forecast, event: Event)
    requires moves != [] && Quiet(w, id, moves[..|moves| - 1]) && f.id == id
    requires next == Recorded(id, moves) && event.commandId == CommandOf(|moves|)
    ensures Quiet(w.(store := AfterCore(w.store, f, Transition(next, event))), id, moves)
  {}

  lemma MoveRuns(rules: Rules, w: World, id: string, moves: seq<Move>)
    requires moves != [] && moves[|moves| - 1].name != "adjudicate_resolution"
    requires Inv(rules, w) && Quiet(w, id, moves[..|moves| - 1])
    requires Recorded(id, moves).head.Some?
    ensures Quiet(Next(rules, w, Change(Recorded(id, moves), Recorded(id, moves).head.value)), id, moves)
  {
    var before, next := Recorded(id, moves[..|moves| - 1]), Recorded(id, moves);
    RecordedFields(id, moves);
    var event := next.head.value;
    MoveIsLegal(w, id, moves, before, next, event);
    ChangeEffect(rules, w, before, next, event);
    StaysQuiet(w, id, moves, before, next, event);
  }

  lemma {:induction false} HistoryRuns(rules: Rules, id: string, moves: seq<Move>)
    requires forall i :: 0 <= i < |moves| ==> moves[i].name != "adjudicate_resolution"
    ensures Quiet(Run(rules, History(id, moves)), id, moves)
  {
    if moves == [] {
      var a := Publish(Recorded(id, []));
      assert [a][..0] == [];
      assert Run(rules, [a]) == Next(rules, INITIAL, a);
    } else {
      var earlier := History(id, moves[..|moves| - 1]);
      RecordedFields(id, moves);
      HistoryRuns(rules, id, moves[..|moves| - 1]);
      Reachable(rules, earlier);
      MoveRuns(rules, Run(rules, earlier), id, moves);
      assert History(id, moves)[..|earlier|] == earlier;
    }
  }

  const PROPOSAL := Resolution("the proposal", 5, [], [], "judge", "counter judge")

  const ESCALATION: seq<Move> := [
    Move("begin_validation", "VALIDATING", None, 0, 0),
    Move("publish", "OPEN", None, 0, 0),
    Move("lock", "LOCKED", None, 0, 0),
    Move("begin_resolution", "RESOLVING", None, 0, 0),
    Move("propose_resolution", "PROPOSED", Some(PROPOSAL), 0, 0),
    Move("begin_challenge", "CHALLENGE", Some(PROPOSAL), 0, 0),
    Move("submit_dispute", "DISPUTED", Some(PROPOSAL), 1, 0),
    Move("review_dispute", "DISPUTED", Some(PROPOSAL), 1, 1),
    Move("escalate", "ESCALATED", Some(PROPOSAL), 1, 1)]

  // ---------------------------------------------------------------- exactly

  /** Rules with this parser and these cards that find every record valid. */
  function Lenient(canonical: string -> Option<string>, card: string -> bool): Rules {
    Rules(canonical, card, name => name, (_, _) => Sha(""), (_, _) => "{}", _ => true)
  }

  function Replacement(h: Digest, at: nat): Resolution { Resolution("{}", at, [h], [], "judge", "counter judge") }

  /** An adjudication that cites one hash and supplies its evidence as plain text. */
  function CallFor(h: Digest, id: string, at: nat): Call {
    var r := Replacement(h, at);
    Call(id, r, Provenance("{}", "ADJUDICATION", "adjudicator", Sha(""), Commitment(r.text), at),
         [Supplied(h, "page", h.bytes, "text/plain")], "key", None, at)
  }

  ghost predicate Escalates(moves: seq<Move>) {
    && 0 < |moves| < 10
    && (forall i :: 0 <= i < |moves| ==> moves[i].name != "adjudicate_resolution")
    && var m := moves[|moves| - 1];
    m.state == "ESCALATED" && m.resolution.Some? && m.disputes == m.reviews
    && "adjudicator" !in {m.resolution.value.judge, m.resolution.value.counterJudge}
  }

  lemma CallAwaits(rules: Rules, w: World, id: string, moves: seq<Move>, h: Digest)
    requires rules == Lenient(rules.canonical, rules.card) && IsCanonical(rules, "{}")
    requires Escalates(moves) && Quiet(w, id, moves) && |h.bytes| <= MAX_ARTIFACT
    ensures Awaits(rules, w, 0, CallFor(h, id, |moves|), h) && h !in w.store.artifacts
  {
    var c := CallFor(h, id, |moves|);
    var f := w.store.forecasts[id];
    RecordedFields(id, moves);
    OneSupplied(rules, c.artifacts[0]);
    assert Decision(rules, f, c).Some?;
  }

  lemma OneSupplied(rules: Rules, a: Supplied)
    requires a.hash == Sha(a.body) && a.media == "text/plain" && |a.body| <= MAX_ARTIFACT
    ensures ArtifactRefusal(rules, [a]).None? && SuppliedBody([a], a.hash) == Some(a.body) && BodiesUnder([a], a.hash) == [a.body]
  {
    assert [a][..0] == [];
    assert Sizes([a]) == |a.body|;
  }

  /** Some call that cites the hash comes to be about to succeed, with nothing retained under it. */
  ghost predicate Takes(rules: Rules, h: Digest) {
    exists before, pid, c :: Awaits(rules, Run(rules, before), pid, c, h) && h !in Run(rules, before).store.artifacts
  }

  /** From the start, whatever the parser and the cards, under rules that let enough through. */
  lemma LenientTakes(canonical: string -> Option<string>, card: string -> bool, h: Digest)
    requires canonical("{}") == Some("{}") && |h.bytes| <= MAX_ARTIFACT
    ensures Takes(Lenient(canonical, card), h)
  {
    var rules, id, moves := Lenient(canonical, card), "forecast", ESCALATION;
    var before := History(id, moves);
    EscalationEscalates();
    HistoryRuns(rules, id, moves);
    CallAwaits(rules, Run(rules, before), id, moves, h);
  }

  lemma EscalationEscalates()
    ensures Escalates(ESCALATION)
  {}

  lemma ThisCallLosesIt(rules: Rules, before: seq<Action>, pid: nat, c: Call, h: Digest)
    requires Awaits(rules, Run(rules, before), pid, c, h) && h !in Run(rules, before).store.artifacts && Replaceable(rules, h)
    ensures exists actions, q :: Succeeds(rules, actions, q, h) && !KeptPlain(Run(rules, actions).store, h)
  {
    var body := CheckedBodyMayNotBeKept(rules, before, pid, c, h);
    var actions := before + (Reviewed(pid, c) + [Retain(h, body)] + [Step(pid, Served)]);
    assert Succeeds(rules, actions, pid, h) && !KeptPlain(Run(rules, actions).store, h);
  }

  lemma SomeCallLosesIt(rules: Rules, h: Digest)
    requires Takes(rules, h) && Replaceable(rules, h)
    ensures exists actions, pid :: Succeeds(rules, actions, pid, h) && !KeptPlain(Run(rules, actions).store, h)
  {
    var before, pid, c :| Awaits(rules, Run(rules, before), pid, c, h) && h !in Run(rules, before).store.artifacts;
    ThisCallLosesIt(rules, before, pid, c, h);
  }

  /**
    Under rules that take calls for a hash, every success is sure to leave its evidence in the store,
    whatever else is in flight, exactly when the evidence is not replaceable.
   */
  lemma KeptPlainExactlyWhen(rules: Rules, h: Digest)
    requires Lawful(rules) && (|h.bytes| <= MAX_ARTIFACT ==> Takes(rules, h))
    ensures (forall actions, pid :: Succeeds(rules, actions, pid, h) ==> KeptPlain(Run(rules, actions).store, h))
       <==> !Replaceable(rules, h)
  {
    if Replaceable(rules, h) {
      SomeCallLosesIt(rules, h);
    } else {
      forall actions, pid | Succeeds(rules, actions, pid, h) ensures KeptPlain(Run(rules, actions).store, h) {
        EvidenceIsRetained(rules, actions, pid, h);
      }
    }
  }

  // ---------------------------------------------------------------- the parser of the program

  /** The canonical text of JSON, as it is printed and parsed in module Json. */
  function CanonicalJson(body: string): Option<string> {
    var parsed := Json.Loads(body);
    if parsed.Some? then Some(Canonical.Canon(parsed.value)) else None
  }

  /** That parser obeys the law. */
  lemma JsonIsLawful(card: string -> bool)
    ensures Lawful(Lenient(CanonicalJson, card)) && CanonicalJson("{}") == Some("{}")
  {
    var rules := Lenient(CanonicalJson, card);
    forall body ensures CanonicalIsFixed(rules, body) {
      if Json.Loads(body).Some? {
        Json.LoadedIsProper(body);
        Canonical.CanonIsStable(Json.Loads(body).value);
      }
    }
    EmptyIsCanonical();
  }

  lemma EmptyIsCanonical()
    ensures CanonicalJson("{}") == Some("{}")
  {
    var v := Json.Dict(Json.NoFields);
    Canonical.CanonIsStable(v);
    assert Canonical.Canon(v) == "{}";
  }

  /** From the start, with that parser, evidence that reads as a commitment or a card is lost in some run. */
  lemma SomeRunReplaces(card: string -> bool, h: Digest)
    requires Replaceable(Lenient(CanonicalJson, card), h)
    ensures exists actions, pid ::
              && Succeeds(Lenient(CanonicalJson, card), actions, pid, h)
              && !KeptPlain(Run(Lenient(CanonicalJson, card), actions).store, h)
  {
    JsonIsLawful(card);
    LenientTakes(CanonicalJson, card, h);
    KeptPlainExactlyWhen(Lenient(CanonicalJson, card), h);
  }
}
