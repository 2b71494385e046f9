/**
  What an adjudication comes to, said of the fields of the calls, the records and the store: when two
  requests are one, exactly when a call is let through each check, and what a commit leaves behind.
 */
module AdjudicationOutcomes {
  import opened Adjudication
  import opened AdjudicationSafety
  import opened AdjudicationTheorems

  // ---------------------------------------------------------------- one request

  /** The same forecast, records and revision, and artifacts of the same hashes, kinds and media types in the same order. */
  ghost predicate SameRequest(c: Call, d: Call) {
    && c.forecastId == d.forecastId && c.resolution.text == d.resolution.text && c.adjudicator.text == d.adjudicator.text
    && c.expectedRevision == d.expectedRevision && |c.artifacts| == |d.artifacts|
    && forall i :: 0 <= i < |c.artifacts| ==>
                     && c.artifacts[i].hash == d.artifacts[i].hash && c.artifacts[i].kind == d.artifacts[i].kind
                     && c.artifacts[i].media == d.artifacts[i].media
  }

  lemma CommitmentIsInjective(a: string, b: string)
    requires Commitment(a) == Commitment(b)
    ensures a == b
  {
    assert (PREFIX + a)[|PREFIX|..] == a && (PREFIX + b)[|PREFIX|..] == b;
  }

  /** Two calls make one request exactly when they agree on all of that. */
  lemma RequestsAgreeExactlyWhen(c: Call, d: Call)
    ensures RequestOf(c) == RequestOf(d) <==> SameRequest(c, d)
  {
    var n, m := NamesOf(c.artifacts), NamesOf(d.artifacts);
    if RequestOf(c) == RequestOf(d) {
      CommitmentIsInjective(c.resolution.text, d.resolution.text);
      CommitmentIsInjective(c.adjudicator.text, d.adjudicator.text);
      assert |n| == |m|;
      forall i | 0 <= i < |c.artifacts|
        ensures Named(c.artifacts[i].hash, c.artifacts[i].kind, c.artifacts[i].media) ==
                Named(d.artifacts[i].hash, d.artifacts[i].kind, d.artifacts[i].media)
      {
        assert n[i] == m[i];
      }
    }
    if SameRequest(c, d) { assert n == m; }
  }

  /** What a request says of the call it is made of. */
  lemma RequestSays(c: Call)
    ensures var r := RequestOf(c);
            && r.forecastId == c.forecastId && r.revision == c.expectedRevision
            && r.resolutionHash == Sha("forecast-network:sha256:canonical-json:v1\n" + c.resolution.text)
            && r.adjudicatorHash == Sha("forecast-network:sha256:canonical-json:v1\n" + c.adjudicator.text)
            && |r.artifacts| == |c.artifacts|
            && forall i :: 0 <= i < |c.artifacts| ==>
                             && r.artifacts[i].hash == c.artifacts[i].hash && r.artifacts[i].kind == c.artifacts[i].kind
                             && r.artifacts[i].media == c.artifacts[i].media
  {}

  /** Every receipt on file was made for a call of the run, under its key and for its request. */
  ghost predicate Authored(w: World, key: string) {
    exists pid :: && pid in w.calls && w.calls[pid].call.key == key && key in w.store.operations
                  && w.store.operations[key].request == RequestOf(w.calls[pid].call)
  }

  lemma CallsStay(rules: Rules, w: World, a: Action)
    ensures forall pid :: pid in w.calls ==> pid in Next(rules, w, a).calls && Next(rules, w, a).calls[pid].call == w.calls[pid].call
  {}

  lemma StepFiles(rules: Rules, s: Store, c: Call, stage: Stage, answer: Answer)
    ensures var t := StepCall(rules, s, c, stage, answer).0;
            || t.operations == s.operations
            || (c.key in t.operations && t.operations[c.key].request == RequestOf(c)
                && forall key :: key in t.operations && key != c.key ==> key in s.operations && t.operations[key] == s.operations[key])
  {
    if stage.Committing? && Decision(rules, stage.snapshot, c).Some? {
      DecisionFollows(rules, stage.snapshot, c);
      BatchEffect(rules, s, stage.snapshot, c, Decision(rules, stage.snapshot, c).value, stage.response);
    }
  }

  lemma ChangeFilesNothing(rules: Rules, w: World, next: Forecast, event: Event)
    requires Inv(rules, w)
    ensures Next(rules, w, Change(next, event)).store.operations == w.store.operations
  {
    if LegalChange(w.store, next, event) {
      assert HeadOk(w.store, next.id);
      CoreFilesNothing(w.store, w.store.forecasts[next.id], Transition(next, event));
    }
  }

  lemma RetainFilesNothing(rules: Rules, w: World, hash: Digest, body: string)
    ensures Next(rules, w, Retain(hash, body)).store.operations == w.store.operations
  {}

  lemma OthersFileNothing(rules: Rules, w: World, a: Action)
    requires !a.Step? && Inv(rules, w)
    ensures Next(rules, w, a).store.operations == w.store.operations
  {
    match a
    case Change(next, event) => ChangeFilesNothing(rules, w, next, event);
    case Retain(hash, body) => RetainFilesNothing(rules, w, hash, body);
    case _ =>
  }

  lemma CoreFilesNothing(s: Store, f: Forecast, t: Transition)
    requires t.forecast.id == f.id == t.event.forecastId
    ensures Execute(s, Core(f, t)).Some? ==> Execute(s, Core(f, t)).value.operations == s.operations
  {
    CoreEffect(s, f, t);
  }

  lemma NextAuthored(rules: Rules, w: World, a: Action, key: string)
    requires key in Next(rules, w, a).store.operations && (key in w.store.operations ==> Authored(w, key))
    requires Inv(rules, w)
    ensures Authored(Next(rules, w, a), key)
  {
    var v := Next(rules, w, a);
    CallsStay(rules, w, a);
    NextKeeps(rules, w, a);
    if key in w.store.operations {
      var pid :| pid in w.calls && w.calls[pid].call.key == key && w.store.operations[key].request == RequestOf(w.calls[pid].call);
      assert v.store.operations[key] == w.store.operations[key];
      assert pid in v.calls && v.calls[pid].call == w.calls[pid].call;
    } else if a.Step? && a.pid in w.calls {
      StepFiles(rules, w.store, w.calls[a.pid].call, w.calls[a.pid].stage, a.answer);
      assert a.pid in v.calls && v.calls[a.pid].call.key == key;
    } else {
      OthersFileNothing(rules, w, a);
    }
  }

  lemma {:induction false} AlwaysAuthored(rules: Rules, actions: seq<Action>, key: string)
    requires key in Run(rules, actions).store.operations
    ensures Authored(Run(rules, actions), key)
  {
    if actions != [] {
      var n := |actions| - 1;
      Reachable(rules, actions[..n]);
      if key in Run(rules, actions[..n]).store.operations { AlwaysAuthored(rules, actions[..n], key); }
      NextAuthored(rules, Run(rules, actions[..n]), actions[n], key);
    }
  }

  /** The call whose request a key was committed for. */
  lemma OriginalCall(rules: Rules, actions: seq<Action>, key: string) returns (pid: nat)
    requires key in Run(rules, actions).store.operations
    ensures var w := Run(rules, actions);
            && pid in w.calls && w.calls[pid].call.key == key
            && w.store.operations[key].request == RequestOf(w.calls[pid].call)
  {
    AlwaysAuthored(rules, actions, key);
    pid :| pid in Run(rules, actions).calls && Run(rules, actions).calls[pid].call.key == key
           && Run(rules, actions).store.operations[key].request == RequestOf(Run(rules, actions).calls[pid].call);
  }

  /**
    All successes under one key carry one receipt, and are of one request: two calls that differ in the
    forecast, a record, the revision or what they say of an artifact never both succeed under it.
   */
  lemma OneRequestPerKey(rules: Rules, actions: seq<Action>, p: nat, q: nat)
    requires var calls := Run(rules, actions).calls;
             && p in calls && calls[p].stage.Replied? && q in calls && calls[q].stage.Replied?
             && calls[p].call.key == calls[q].call.key
    ensures var calls := Run(rules, actions).calls;
            calls[p].stage == calls[q].stage && SameRequest(calls[p].call, calls[q].call)
  {
    SuccessesAgree(rules, actions, p, q);
    RequestsAgreeExactlyWhen(Run(rules, actions).calls[p].call, Run(rules, actions).calls[q].call);
  }

  /**
    Once a key is committed there is a call it was committed for, and a call begun under the key at any
    later time has, at every time after, no answer yet, an error, or that call's receipt, the last only
    if the two make the same request. Its steps write nothing; its first answered read gives the receipt
    if they do and a conflict if they differ in anything.
   */
  lemma RetriesAfterCommit(rules: Rules, actions: seq<Action>, before: seq<Action>, pid: nat, c: Call, after: seq<Action>, answer: Answer)
    returns (original: nat)
    requires var w := Run(rules, actions);
             c.key in w.store.operations && pid !in RunFrom(rules, w, before).calls && Recordable(rules, c)
    ensures var w := Run(rules, actions);
            original in w.calls && w.calls[original].call.key == c.key
    ensures var w := Run(rules, actions);
            var v := RunFrom(rules, Next(rules, RunFrom(rules, w, before), Begin(pid, c)), after);
            var next := Next(rules, v, Step(pid, answer));
            var receipt := w.store.operations[c.key].result;
            && pid in v.calls && v.calls[pid].call == c
            && (v.calls[pid].stage.Replied? ==> v.calls[pid].stage.receipt == receipt && SameRequest(c, w.calls[original].call))
            && (v.calls[pid].stage.Replied? || v.calls[pid].stage.Failed? || v.calls[pid].stage == Prior)
            && next.store == v.store
            && (v.calls[pid].stage == Prior && answer == Served ==>
                  next.calls[pid].stage ==
                  if SameRequest(c, w.calls[original].call) then Replied(receipt) else Failed(IdempotencyConflict))
  {
    Reachable(rules, actions);
    original := OriginalCall(rules, actions, c.key);
    RequestsAgreeExactlyWhen(c, Run(rules, actions).calls[original].call);
    RetryAfterCommit(rules, Run(rules, actions), before, pid, c, after, answer);
  }

  // ---------------------------------------------------------------- what lets a call through

  /** A call is turned away at once exactly for a negative revision or more than thirty-two artifacts. */
  lemma StartsExactlyWhen(c: Call)
    ensures var negative := c.expectedRevision.Some? && c.expectedRevision.value < 0;
            Start(c) == if negative then Failed(Invalid) else if |c.artifacts| >= 33 then Failed(TooManyArtifacts) else Prior
  {}

  /** The bytes of the first `n` artifacts. */
  function BytesOf(artifacts: seq<Supplied>, n: nat): nat
    requires n <= |artifacts|
  {
    if n == 0 then 0 else BytesOf(artifacts, n - 1) + |artifacts[n - 1].body|
  }

  lemma {:induction false} SizesAreBytes(artifacts: seq<Supplied>, n: nat)
    requires n <= |artifacts|
    ensures Sizes(artifacts[..n]) == BytesOf(artifacts, n)
  {
    if n > 0 {
      SizesAreBytes(artifacts, n - 1);
      assert artifacts[..n][..n - 1] == artifacts[..n - 1];
    }
  }

  /** The artifact itself, or the canonical form of the JSON it is, has the hash. */
  ghost predicate HashesRight(rules: Rules, a: Supplied) {
    || a.hash == Sha(a.body)
    || (&& a.media == "application/json" && rules.canonical(a.body).Some?
        && a.hash == Sha("forecast-network:sha256:canonical-json:v1\n" + rules.canonical(a.body).value))
  }

  ghost predicate Passes(rules: Rules, artifacts: seq<Supplied>, i: nat)
    requires i < |artifacts|
  {
    var a := artifacts[i];
    && |a.body| <= 524288 && BytesOf(artifacts, i + 1) <= 2097152
    && (a.media == "application/json" ==> rules.canonical(a.body).Some?)
    && HashesRight(rules, a)
  }

  /** The first artifact at fault, and what is wrong with it. */
  ghost predicate FaultAt(rules: Rules, artifacts: seq<Supplied>, i: nat, why: Refusal)
    requires i < |artifacts|
  {
    var a := artifacts[i];
    var large := |a.body| > 524288 || BytesOf(artifacts, i + 1) > 2097152;
    var unreadable := a.media == "application/json" && rules.canonical(a.body).None?;
    && (forall k :: 0 <= k < i ==> Passes(rules, artifacts, k))
    && match why
       case TooLarge => large
       case ArtifactInvalid => !large && unreadable
       case ArtifactMismatch => !large && !unreadable && !HashesRight(rules, a)
       case _ => false
  }

  /** Artifacts are accepted exactly when each is small enough, all of them together are, and each has its hash. */
  lemma {:induction false} ArtifactsPassExactlyWhen(rules: Rules, artifacts: seq<Supplied>, n: nat)
    requires n <= |artifacts|
    ensures ArtifactRefusal(rules, artifacts[..n]).None? <==> forall i :: 0 <= i < n ==> Passes(rules, artifacts, i)
  {
    if n > 0 {
      var early := artifacts[..n];
      assert early[..n - 1] == artifacts[..n - 1];
      ArtifactsPassExactlyWhen(rules, artifacts, n - 1);
      SizesAreBytes(artifacts, n);
      if ArtifactRefusal(rules, artifacts[..n - 1]).None? { LastPasses(rules, early, artifacts, n - 1); }
    }
  }

  lemma LastPasses(rules: Rules, early: seq<Supplied>, artifacts: seq<Supplied>, i: nat)
    requires i < |artifacts| && early == artifacts[..i + 1] && Sizes(early) == BytesOf(artifacts, i + 1)
    requires ArtifactRefusal(rules, early[..i]).None?
    ensures ArtifactRefusal(rules, early).None? <==> Passes(rules, artifacts, i)
    ensures ArtifactRefusal(rules, early).Some? && (forall k :: 0 <= k < i ==> Passes(rules, artifacts, k)) ==>
              FaultAt(rules, artifacts, i, ArtifactRefusal(rules, early).value)
  {}

  lemma {:induction false} RefusedForTheFirst(rules: Rules, artifacts: seq<Supplied>, n: nat) returns (i: nat)
    requires n <= |artifacts| && ArtifactRefusal(rules, artifacts[..n]).Some?
    ensures i < n && FaultAt(rules, artifacts, i, ArtifactRefusal(rules, artifacts[..n]).value)
  {
    var early := artifacts[..n];
    assert early[..n - 1] == artifacts[..n - 1];
    if ArtifactRefusal(rules, artifacts[..n - 1]).Some? {
      i := RefusedForTheFirst(rules, artifacts, n - 1);
    } else {
      i := n - 1;
      ArtifactsPassExactlyWhen(rules, artifacts, n - 1);
      SizesAreBytes(artifacts, n);
      LastPasses(rules, early, artifacts, n - 1);
    }
  }

  /** The decision was made no earlier than the last change of the forecast, no later than now, and within fifteen minutes. */
  ghost predicate Timely(c: Call, f: Forecast) {
    f.updatedAtMs <= c.resolution.proposedAtMs <= c.nowMs <= c.resolution.proposedAtMs + 900000
  }

  /** What becomes of a call that finds its forecast, first failure first. */
  lemma LoadsExactlyWhen(rules: Rules, c: Call, f: Forecast)
    ensures var after := AfterLoad(rules, c, f);
            if c.expectedRevision.Some? && c.expectedRevision.value != f.revision then after == Failed(RevisionConflict)
            else if f.state != "ESCALATED" then after == Failed(NotAllowed)
            else if !Timely(c, f) then after == Failed(BadDecisionTime)
            else if forall i :: 0 <= i < |c.artifacts| ==> Passes(rules, c.artifacts, i) then after == Reading(f, 0)
            else after.Failed? && exists i :: 0 <= i < |c.artifacts| && FaultAt(rules, c.artifacts, i, after.why)
  {
    assert c.artifacts[..|c.artifacts|] == c.artifacts;
    ArtifactsPassExactlyWhen(rules, c.artifacts, |c.artifacts|);
    if ArtifactRefusal(rules, c.artifacts).Some? { var i := RefusedForTheFirst(rules, c.artifacts, |c.artifacts|); }
  }

  // ---------------------------------------------------------------- evidence

  /** The body that counts for a hash: the last supplied under it, or failing one the one in the store. */
  ghost predicate Counts(s: Store, c: Call, h: Digest, body: string) {
    || (exists i :: && 0 <= i < |c.artifacts| && c.artifacts[i].hash == h && c.artifacts[i].body == body
                    && forall k :: i < k < |c.artifacts| ==> c.artifacts[k].hash != h)
    || ((forall i :: 0 <= i < |c.artifacts| ==> c.artifacts[i].hash != h) && h in s.artifacts && s.artifacts[h] == body)
  }

  lemma {:induction false} LastSupplied(artifacts: seq<Supplied>, n: nat, h: Digest)
    requires n <= |artifacts|
    ensures SuppliedBody(artifacts[..n], h).None? <==> forall i :: 0 <= i < n ==> artifacts[i].hash != h
    ensures SuppliedBody(artifacts[..n], h).Some? ==>
              exists i :: && 0 <= i < n && artifacts[i].hash == h && artifacts[i].body == SuppliedBody(artifacts[..n], h).value
                          && forall k :: i < k < n ==> artifacts[k].hash != h
  {
    if n > 0 {
      assert artifacts[..n][..n - 1] == artifacts[..n - 1];
      LastSupplied(artifacts, n - 1, h);
    }
  }

  lemma CountsExactlyWhen(s: Store, c: Call, h: Digest, body: string)
    ensures EvidenceBody(s, c, h) == Some(body) <==> Counts(s, c, h, body)
  {
    assert c.artifacts[..|c.artifacts|] == c.artifacts;
    LastSupplied(c.artifacts, |c.artifacts|, h);
  }

  /** A piece of evidence passes exactly when the body that counts for its hash is the one it is the plain digest of. */
  lemma EvidencePassesExactlyWhen(s: Store, c: Call, f: Forecast, i: nat)
    requires i < |c.resolution.evidence|
    ensures var h, after := c.resolution.evidence[i], CheckEvidence(s, c, f, i);
            && (after == Reading(f, i + 1) <==> Counts(s, c, h, h.bytes))
            && (after == Failed(MissingEvidence) <==> forall body :: !Counts(s, c, h, body))
            && (after == Reading(f, i + 1) || after == Failed(MissingEvidence) || after == Failed(EvidenceMismatch))
  {
    var h := c.resolution.evidence[i];
    forall body: string ensures EvidenceBody(s, c, h) == Some(body) <==> Counts(s, c, h, body) { CountsExactlyWhen(s, c, h, body); }
    if EvidenceBody(s, c, h).Some? { assert Counts(s, c, h, EvidenceBody(s, c, h).value); }
  }

  lemma {:induction false} BodiesMembers(artifacts: seq<Supplied>, n: nat, h: Digest, body: string)
    requires n <= |artifacts|
    ensures body in BodiesUnder(artifacts[..n], h) <==> exists i :: 0 <= i < n && artifacts[i].hash == h && artifacts[i].body == body
  {
    if n > 0 {
      assert artifacts[..n][..n - 1] == artifacts[..n - 1];
      BodiesMembers(artifacts, n - 1, h, body);
    }
  }

  /** A body is at hand under a hash: supplied, or in the store. */
  ghost predicate AtHand(s: Store, c: Call, h: Digest, body: string) {
    || (exists i :: 0 <= i < |c.artifacts| && c.artifacts[i].hash == h && c.artifacts[i].body == body)
    || (h in s.artifacts && s.artifacts[h] == body)
  }

  lemma AuthenticExactlyWhen(s: Store, c: Call, h: Digest)
    ensures Authentic(s, c, h) <==> AtHand(s, c, h, h.bytes) && forall body :: AtHand(s, c, h, body) ==> body == h.bytes
  {
    var all := Bodies(s, c, h);
    assert c.artifacts[..|c.artifacts|] == c.artifacts;
    forall body: string ensures body in all <==> AtHand(s, c, h, body) { BodiesMembers(c.artifacts, |c.artifacts|, h, body); }
    if Authentic(s, c, h) {
      assert all[0] in all && Sha(all[0]) == h;
      forall body | AtHand(s, c, h, body) ensures body == h.bytes {
        var k :| 0 <= k < |all| && all[k] == body;
        assert Sha(all[k]) == h;
      }
    } else if AtHand(s, c, h, h.bytes) {
      assert h.bytes in all;
      var k :| 0 <= k < |all| && Sha(all[k]) != h;
      assert all[k] in all && all[k] != h.bytes;
    }
  }

  /**
    The timing review goes on to the next piece of evidence exactly when one body at least is at hand
    for this one and every one has that plain digest; it lets the call commit after the last, or at once
    when the forecast needs no review; any other answer is an error.
   */
  lemma ReviewsExactlyWhen(s: Store, c: Call, f: Forecast, response: Receipt, i: nat, answer: Answer)
    ensures var after := Review(s, c, f, response, i, answer);
            && (answer == Down || answer == Lost ==> after == ReadingBack(Unavailable))
            && (answer == Rejected ==> after == ReadingBack(TimingReview))
            && (answer == Exempt && i == 0 ==> after == Committing(f, response))
            && (answer == Served || (answer == Exempt && i > 0) ==>
                  after ==
                  if i >= |c.resolution.evidence| then Committing(f, response)
                  else
                    var h := c.resolution.evidence[i];
                    if AtHand(s, c, h, h.bytes) && (forall body :: AtHand(s, c, h, body) ==> body == h.bytes)
                    then Reviewing(f, response, i + 1) else ReadingBack(TimingReview))
  {
    if i < |c.resolution.evidence| { AuthenticExactlyWhen(s, c, c.resolution.evidence[i]); }
  }

  // ---------------------------------------------------------------- the decision

  /** The event and the forecast that a decision leads to. */
  ghost function Adjudged(f: Forecast, c: Call): Event {
    Event(f.id, Admin(c.key), "adjudicate_resolution", "ESCALATED", "PROPOSED", f.revision + 1, c.resolution.proposedAtMs,
          Some(c.resolution), f.head)
  }

  ghost function Reproposed(f: Forecast, c: Call): Forecast {
    Forecast(f.id, f.revision + 1, "PROPOSED", c.resolution.proposedAtMs, Some(c.resolution), 0, 0, Some(Adjudged(f, c)))
  }

  /**
    A decision is taken exactly on an escalated forecast whose disputes are all reviewed, at a time in
    the range of integers and not before its last change, by an adjudicator other than both judges
    that saw this proposal, produced this resolution and did so at that time, provided the rules find
    the forecast valid that it makes; and what it makes is that forecast, proposed again.
   */
  lemma DecidesExactlyWhen(rules: Rules, f: Forecast, c: Call)
    ensures var r, a := c.resolution, c.adjudicator;
            Decision(rules, f, c) ==
            if && 0 <= r.proposedAtMs <= 9007199254740991 && f.updatedAtMs <= r.proposedAtMs && f.revision <= 9007199254740990
               && f.state == "ESCALATED" && f.resolution.Some? && f.disputes == f.reviews
               && a.task == "ADJUDICATION"
               && rules.lower(a.provider) != rules.lower(f.resolution.value.judge)
               && rules.lower(a.provider) != rules.lower(f.resolution.value.counterJudge)
               && a.inputHash == rules.inputHash(f, r)
               && a.outputHash == Sha("forecast-network:sha256:canonical-json:v1\n" + r.text)
               && a.createdAtMs == r.proposedAtMs
               && rules.valid(Reproposed(f, c))
            then Some(Transition(Reproposed(f, c), Adjudged(f, c))) else None
  {}

  /** The preview refuses what is not decided, and records of more than 524,288 bytes. */
  lemma PreviewsExactlyWhen(rules: Rules, c: Call, f: Forecast)
    ensures var after := Preview(rules, c, f);
            var fits :=
              && |c.resolution.text| <= 524288 && |c.adjudicator.text| <= 524288
              && forall i :: 0 <= i < |c.resolution.verifications| ==> |c.resolution.verifications[i]| <= 524288;
            if Decision(rules, f, c).None? then after == Failed(ValidationFailed)
            else if !fits then after == Failed(TooLarge)
            else
              after == Reviewing(f, Receipt(Sha("forecast-network:sha256:canonical-json:v1\n" + c.resolution.text),
                                            Adjudged(f, c), f.revision + 1, c.resolution.proposedAtMs), 0)
  {
    DecidesExactlyWhen(rules, f, c);
  }

  // ---------------------------------------------------------------- the commit

  /** Everything the batch says it retains: the payload, what was supplied, and every record it cites. */
  ghost predicate RetainedBy(rules: Rules, c: Call, h: Digest) {
    || (exists i :: 0 <= i < |c.artifacts| && c.artifacts[i].hash == h)
    || h == Sha("forecast-network:sha256:canonical-json:v1\n" + rules.payloadText(c.resolution, c.adjudicator))
    || h == Sha("forecast-network:sha256:canonical-json:v1\n" + c.resolution.text)
    || h == Sha("forecast-network:sha256:canonical-json:v1\n" + c.adjudicator.text)
    || (exists i :: && 0 <= i < |c.resolution.verifications|
                    && h == Sha("forecast-network:sha256:canonical-json:v1\n" + c.resolution.verifications[i]))
  }

  /** The store after a commit: one forecast, event, command and receipt more, and the bodies. */
  ghost predicate Committed(rules: Rules, s: Store, t: Store, c: Call, f: Forecast) {
    && t.forecasts == s.forecasts[f.id := Reproposed(f, c)]
    && t.events == s.events[(f.id, f.revision + 1) := Adjudged(f, c)]
    && t.commands == s.commands + {(f.id, Admin(c.key))}
    && t.operations == s.operations[c.key := Operation(RequestOf(c), c.forecastId, Receipted(f, c))]
    && Extends(s.artifacts, t.artifacts)
    && (forall h :: h in t.artifacts <==> h in s.artifacts || RetainedBy(rules, c, h))
  }

  /** The receipt of a decision. */
  ghost function Receipted(f: Forecast, c: Call): Receipt {
    Receipt(Sha("forecast-network:sha256:canonical-json:v1\n" + c.resolution.text), Adjudged(f, c), f.revision + 1,
            c.resolution.proposedAtMs)
  }

  ghost predicate Offers(batch: seq<Statement>, h: Digest)
    requires PutsOnly(batch)
  {
    exists i :: 0 <= i < |batch| && batch[i].hash == h
  }

  lemma {:induction false} RetainedKeys(m: map<Digest, string>, batch: seq<Statement>, h: Digest)
    requires PutsOnly(batch)
    ensures h in Retained(m, batch) <==> h in m || Offers(batch, h)
    decreases |batch|
  {
    if batch != [] {
      var p, rest := batch[0], batch[1..];
      RetainedKeys(if p.hash in m then m else m[p.hash := p.body], rest, h);
      OffersAppend([p], rest, h);
      assert [p] + rest == batch && (Offers([p], h) <==> [p][0].hash == h);
    }
  }

  lemma OffersAppend(a: seq<Statement>, b: seq<Statement>, h: Digest)
    requires PutsOnly(a) && PutsOnly(b)
    ensures PutsOnly(a + b) && (Offers(a + b, h) <==> Offers(a, h) || Offers(b, h))
  {
    if i :| 0 <= i < |a| && a[i].hash == h { assert (a + b)[i].hash == h; }
    if i :| 0 <= i < |b| && b[i].hash == h { assert (a + b)[|a| + i].hash == h; }
    if i :| 0 <= i < |a + b| && (a + b)[i].hash == h {
      if i < |a| { assert a[i].hash == h; } else { assert b[i - |a|].hash == h; }
    }
  }

  lemma OffersPuts(artifacts: seq<Supplied>, h: Digest)
    ensures PutsOnly(Puts(artifacts))
    ensures Offers(Puts(artifacts), h) <==> exists i :: 0 <= i < |artifacts| && artifacts[i].hash == h
  {
    if i :| 0 <= i < |artifacts| && artifacts[i].hash == h { assert Puts(artifacts)[i].hash == h; }
  }

  lemma OffersRecords(texts: seq<string>, h: Digest)
    ensures PutsOnly(Records(texts))
    ensures Offers(Records(texts), h) <==>
            exists i :: 0 <= i < |texts| && h == Sha("forecast-network:sha256:canonical-json:v1\n" + texts[i])
  {
    if i :| 0 <= i < |texts| && h == Sha("forecast-network:sha256:canonical-json:v1\n" + texts[i]) {
      assert Records(texts)[i].hash == h;
    }
  }

  lemma OffersThree(a: string, b: string, c: string, h: Digest)
    ensures Offers([Record(a)], h) <==> h == Commitment(a)
    ensures Offers([Record(b), Record(c)], h) <==> h == Commitment(b) || h == Commitment(c)
  {
    assert [Record(a)][0].hash == Commitment(a);
    assert [Record(b), Record(c)][0].hash == Commitment(b) && [Record(b), Record(c)][1].hash == Commitment(c);
  }

  lemma RetainsThese(rules: Rules, c: Call, h: Digest)
    ensures PutsOnly(Retains(rules, c))
    ensures Offers(Retains(rules, c), h) <==> RetainedBy(rules, c, h)
  {
    var payload, puts := [Record(rules.payloadText(c.resolution, c.adjudicator))], Puts(c.artifacts);
    var two := [Record(c.resolution.text), Record(c.adjudicator.text)];
    OffersPuts(c.artifacts, h);
    OffersRecords(c.resolution.verifications, h);
    OffersThree(rules.payloadText(c.resolution, c.adjudicator), c.resolution.text, c.adjudicator.text, h);
    OffersAppend(payload, puts, h);
    OffersAppend(payload + puts, two, h);
    OffersAppend(payload + puts + two, Records(c.resolution.verifications), h);
  }

  lemma ArtifactsAfterBatch(rules: Rules, m: map<Digest, string>, c: Call)
    ensures PutsOnly(Retains(rules, c))
    ensures var k := Retained(m, Retains(rules, c));
            Extends(m, k) && forall h :: h in k <==> h in m || RetainedBy(rules, c, h)
  {
    RetainsThese(rules, c, Sha(""));
    RetainedExtends(m, Retains(rules, c));
    forall h: Digest ensures h in Retained(m, Retains(rules, c)) <==> h in m || RetainedBy(rules, c, h) {
      RetainsThese(rules, c, h);
      RetainedKeys(m, Retains(rules, c), h);
    }
  }

  lemma AfterBatchCommits(rules: Rules, s: Store, f: Forecast, c: Call, t: Transition)
    requires t == Transition(Reproposed(f, c), Adjudged(f, c))
    ensures Committed(rules, s, AfterBatch(rules, s, f, c, t, Receipted(f, c)), c, f)
  {
    ArtifactsAfterBatch(rules, s.artifacts, c);
  }

  /**
    A call that commits, whether or not its answer gets through, leaves exactly this: its forecast
    proposed again at the next revision, one event, one command, its receipt under its key, and every
    body and record it cites; and it replies with that receipt when it is heard.
   */
  lemma CommitLeaves(rules: Rules, actions: seq<Action>, pid: nat, answer: Answer)
    requires pid in Run(rules, actions).calls && Run(rules, actions).calls[pid].stage.Committing?
    requires var w := Run(rules, actions); Next(rules, w, Step(pid, answer)).store != w.store
    ensures var w := Run(rules, actions);
            var v := Next(rules, w, Step(pid, answer));
            var c, f := w.calls[pid].call, w.calls[pid].stage.snapshot;
            && f.id == c.forecastId && f.id in w.store.forecasts && w.store.forecasts[f.id] == f
            && c.key !in w.store.operations
            && Committed(rules, w.store, v.store, c, f)
            && v.calls[pid].stage == if answer == Lost then ReadingBack(Unavailable) else Replied(v.store.operations[c.key].result)
  {
    Reachable(rules, actions);
    var w := Run(rules, actions);
    var c, f, response := w.calls[pid].call, w.calls[pid].stage.snapshot, w.calls[pid].stage.response;
    assert StageOk(rules, w.store, w.calls[pid]);
    var t := Decision(rules, f, c).value;
    DecisionFollows(rules, f, c);
    BatchEffect(rules, w.store, f, c, t, response);
    DecidesExactlyWhen(rules, f, c);
    AfterBatchCommits(rules, w.store, f, c, t);
    CommitStep(rules, w.store, c, f, t, response, answer);
  }

  lemma CommitStep(rules: Rules, s: Store, c: Call, f: Forecast, t: Transition, response: Receipt, answer: Answer)
    requires Decision(rules, f, c) == Some(t) && StepCall(rules, s, c, Committing(f, response), answer).0 != s
    ensures Execute(s, Batch(rules, f, c, t, response)).Some?
    ensures StepCall(rules, s, c, Committing(f, response), answer) ==
            (Execute(s, Batch(rules, f, c, t, response)).value, if answer == Lost then ReadingBack(Unavailable) else Replied(response))
  {}

  /**
    A batch that does not go in changes nothing and is reported as a revision conflict exactly when the
    forecast has moved on, and as unavailable when it is the key that was taken meanwhile.
   */
  lemma LostRaceIsReported(rules: Rules, actions: seq<Action>, pid: nat)
    requires pid in Run(rules, actions).calls && Run(rules, actions).calls[pid].stage.Committing?
    requires var c := Run(rules, actions).calls[pid].call; |rules.payloadText(c.resolution, c.adjudicator)| <= 524288
    ensures var w := Run(rules, actions);
            var v := Next(rules, w, Step(pid, Served));
            var c, f := w.calls[pid].call, w.calls[pid].stage.snapshot;
            var current := f.id in w.store.forecasts && w.store.forecasts[f.id].revision == f.revision;
            && (!current ==> v.store == w.store && v.calls[pid].stage == ReadingBack(RevisionConflict))
            && (current && c.key in w.store.operations ==> v.store == w.store && v.calls[pid].stage == ReadingBack(Unavailable))
            && (current && c.key !in w.store.operations ==> v.calls[pid].stage.Replied?)
  {
    CommitsExactlyWhenCurrent(rules, actions, pid);
    Reachable(rules, actions);
    var w := Run(rules, actions);
    var c, f := w.calls[pid].call, w.calls[pid].stage.snapshot;
    assert StageOk(rules, w.store, w.calls[pid]);
    RefusedBatch(rules, w.store, c, f, w.calls[pid].stage.response);
  }

  lemma RefusedBatch(rules: Rules, s: Store, c: Call, f: Forecast, response: Receipt)
    requires Decision(rules, f, c).Some? && |rules.payloadText(c.resolution, c.adjudicator)| <= 524288
    ensures var (after, stage) := StepCall(rules, s, c, Committing(f, response), Served);
            || stage.Replied?
            || (after == s && stage == ReadingBack(if f.id in s.forecasts && s.forecasts[f.id].revision == f.revision
                                                   then Unavailable else RevisionConflict))
  {}

  /** A statement alone: an update of another revision changes nothing, and no insert replaces a row. */
  lemma StatementsAreGuarded(s: Store, f: Forecast, revision: int, e: Event, command: CommandId, hash: Digest, body: string, key: string, op: Operation)
    ensures Apply(s, Guard(f.id, revision)) == if f.id in s.forecasts && s.forecasts[f.id].revision == revision then Some(s) else None
    ensures Apply(s, Update(f, revision)) ==
            Some(if f.id in s.forecasts && s.forecasts[f.id].revision == revision then s.(forecasts := s.forecasts[f.id := f]) else s)
    ensures (e.forecastId, e.revision) in s.events || e in s.events.Values ==> Apply(s, InsertEvent(e)).None?
    ensures (f.id, command) in s.commands ==> Apply(s, InsertCommand(f.id, command)).None?
    ensures hash in s.artifacts ==> Apply(s, PutArtifact(hash, body)) == Some(s)
    ensures key in s.operations ==> Apply(s, InsertOperation(key, op)).None?
  {}

  /** Over every run, a body is on file only under one of its three hashes. */
  lemma RowsAreNamed(rules: Rules, actions: seq<Action>, h: Digest)
    requires h in Run(rules, actions).store.artifacts
    ensures var body := Run(rules, actions).store.artifacts[h];
            || h == Sha(body)
            || (rules.canonical(body).Some? && h == Sha("forecast-network:sha256:canonical-json:v1\n" + rules.canonical(body).value))
            || (rules.card(body) && h == Sha("forecast-network:sha256:profile-card-json:v1\n" + body))
  {
    Reachable(rules, actions);
    assert Names(rules, h, Run(rules, actions).store.artifacts[h]);
  }

  // ---------------------------------------------------------------- time

  /** A forecast was last changed by its latest event, and no event is before the one it follows. */
  ghost predicate InTime(s: Store) {
    && (forall id :: id in s.forecasts && s.forecasts[id].head.Some? ==>
                       s.forecasts[id].updatedAtMs == s.forecasts[id].head.value.occurredAtMs)
    && (forall at :: at in s.events && s.events[at].previous.Some? ==>
                       s.events[at].previous.value.occurredAtMs <= s.events[at].occurredAtMs)
  }

  lemma CoreInTime(s: Store, f: Forecast, t: Transition)
    requires InTime(s) && f.id in s.forecasts && s.forecasts[f.id] == f && Follows(f, t)
    requires t.event.occurredAtMs == t.forecast.updatedAtMs >= f.updatedAtMs
    ensures InTime(AfterCore(s, f, t))
  {}

  lemma ChangeInTime(rules: Rules, w: World, next: Forecast, event: Event)
    requires Inv(rules, w) && InTime(w.store)
    ensures InTime(Next(rules, w, Change(next, event)).store)
  {
    if LegalChange(w.store, next, event) {
      assert HeadOk(w.store, next.id);
      CoreEffect(w.store, w.store.forecasts[next.id], Transition(next, event));
      if CoreApplies(w.store, w.store.forecasts[next.id], Transition(next, event)) {
        CoreInTime(w.store, w.store.forecasts[next.id], Transition(next, event));
      }
    }
  }

  /** Only a commit writes. */
  lemma ReadsWriteNothing(rules: Rules, s: Store, c: Call, stage: Stage, answer: Answer)
    requires !stage.Committing?
    ensures StepCall(rules, s, c, stage, answer).0 == s
  {}

  lemma CommitInTime(rules: Rules, s: Store, c: Call, f: Forecast, response: Receipt, answer: Answer)
    requires InTime(s) && Decision(rules, f, c).Some? && (f.id in s.forecasts && f.revision == s.forecasts[f.id].revision ==> f == s.forecasts[f.id])
    ensures InTime(StepCall(rules, s, c, Committing(f, response), answer).0)
  {
    var t := Decision(rules, f, c).value;
    CommittingOutcome(rules, s, c, f, response, answer);
    DecidesExactlyWhen(rules, f, c);
    DecisionFollows(rules, f, c);
    if GoesIn(s, c, f, t) {
      CoreInTime(s, f, t);
      BatchInTime(rules, s, f, c, t, response);
    }
  }

  lemma BatchInTime(rules: Rules, s: Store, f: Forecast, c: Call, t: Transition, response: Receipt)
    requires InTime(AfterCore(s, f, t))
    ensures InTime(AfterBatch(rules, s, f, c, t, response))
  {}

  lemma StepInTime(rules: Rules, w: World, pid: nat, answer: Answer)
    requires Inv(rules, w) && InTime(w.store) && pid in w.calls
    ensures InTime(Next(rules, w, Step(pid, answer)).store)
  {
    var c, stage := w.calls[pid].call, w.calls[pid].stage;
    if stage.Committing? {
      assert StageOk(rules, w.store, w.calls[pid]);
      CommitInTime(rules, w.store, c, stage.snapshot, stage.response, answer);
    } else {
      ReadsWriteNothing(rules, w.store, c, stage, answer);
    }
  }

  lemma {:induction false} AlwaysInTime(rules: Rules, actions: seq<Action>)
    ensures InTime(Run(rules, actions).store)
  {
    if actions != [] {
      var n := |actions| - 1;
      var w := Run(rules, actions[..n]);
      Reachable(rules, actions[..n]);
      AlwaysInTime(rules, actions[..n]);
      match actions[n]
      case Step(pid, answer) => if pid in w.calls { StepInTime(rules, w, pid, answer); }
      case Change(next, event) => ChangeInTime(rules, w, next, event);
      case Retain(hash, body) =>
      case _ =>
    }
  }

  /** Along the chain of a forecast time never goes back, an adjudication's included. */
  lemma TimeNeverGoesBack(rules: Rules, actions: seq<Action>, id: string, r: int)
    requires r > 1 && (id, r) in Run(rules, actions).store.events
    ensures var events := Run(rules, actions).store.events;
            (id, r - 1) in events && events[(id, r - 1)].occurredAtMs <= events[(id, r)].occurredAtMs
  {
    OneChain(rules, actions, id, r);
    AlwaysInTime(rules, actions);
  }

  // ---------------------------------------------------------------- when the database does not answer

  /** A read that is not answered fails the call and writes nothing; a missing forecast is not found. */
  lemma UnansweredReadsFail(rules: Rules, s: Store, c: Call, error: Refusal, answer: Answer)
    requires answer != Served
    ensures StepCall(rules, s, c, Prior, answer) == (s, Failed(Unavailable))
    ensures StepCall(rules, s, c, Load, answer) == (s, Failed(Unavailable))
    ensures StepCall(rules, s, c, ReadingBack(error), answer) == (s, Failed(Unavailable))
    ensures c.forecastId !in s.forecasts ==> StepCall(rules, s, c, Load, Served) == (s, Failed(NotFound))
  {}

  /** A commit that is refused, or not reached, or whose payload is too large, writes nothing and reads back. */
  lemma UnreachedCommitWritesNothing(rules: Rules, s: Store, c: Call, f: Forecast, response: Receipt)
    requires Decision(rules, f, c).Some?
    ensures StepCall(rules, s, c, Committing(f, response), Down) == (s, ReadingBack(Unavailable))
    ensures StepCall(rules, s, c, Committing(f, response), Rejected) == (s, ReadingBack(TimingReview))
    ensures |rules.payloadText(c.resolution, c.adjudicator)| > 524288 ==>
              StepCall(rules, s, c, Committing(f, response), Served) == (s, ReadingBack(TooLarge))
  {}

  /** Evidence that is not supplied must be read from the store; supplied evidence needs no answer. */
  lemma ReadsOnlyWhatIsMissing(rules: Rules, s: Store, c: Call, f: Forecast, i: nat, answer: Answer)
    requires i < |c.resolution.evidence| && answer != Served
    ensures var supplied := exists k :: 0 <= k < |c.artifacts| && c.artifacts[k].hash == c.resolution.evidence[i];
            StepCall(rules, s, c, Reading(f, i), answer) ==
            (s, if supplied then CheckEvidence(s, c, f, i) else Failed(Unavailable))
  {
    assert c.artifacts[..|c.artifacts|] == c.artifacts;
    LastSupplied(c.artifacts, |c.artifacts|, c.resolution.evidence[i]);
  }
}
