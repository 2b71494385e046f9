/**
  `adjudicate_forecast` as the program it is, with the loops that check the evidence and build the
  batch, proved to be one call of the protocol with nothing in between.
 */
module Adjudicator {
  import opened Adjudication
  import opened AdjudicationSafety

  /** How the environment answers at each point of one call; no call is at one point twice. */
  type Answers = Stage -> Answer

  datatype Moment = Moment(store: Store, stage: Stage)

  function After(rules: Rules, c: Call, m: Moment, answers: Answers): Moment {
    var after := StepCall(rules, m.store, c, m.stage, answers(m.stage));
    Moment(after.0, after.1)
  }

  function Drive(rules: Rules, c: Call, m: Moment, answers: Answers, n: nat): Moment {
    if n == 0 then m else After(rules, c, Drive(rules, c, m, answers, n - 1), answers)
  }

  /** A step number; naming one is what brings the step there into a proof. */
  ghost predicate Index(k: nat) { true }

  ghost predicate Faithful(rules: Rules, c: Call, visited: seq<Moment>, answers: Answers) {
    forall k: nat {:trigger Index(k)} :: Index(k) && k + 1 < |visited| ==> visited[k + 1] == After(rules, c, visited[k], answers)
  }

  lemma FaithfulGrows(rules: Rules, c: Call, visited: seq<Moment>, answers: Answers)
    requires visited != [] && Faithful(rules, c, visited, answers)
    ensures Faithful(rules, c, visited + [After(rules, c, visited[|visited| - 1], answers)], answers)
  {}

  lemma {:induction false} FaithfulIsDrive(rules: Rules, c: Call, visited: seq<Moment>, answers: Answers, n: nat)
    requires n < |visited| && Faithful(rules, c, visited, answers)
    ensures visited[n] == Drive(rules, c, visited[0], answers, n)
  {
    if n > 0 {
      FaithfulIsDrive(rules, c, visited, answers, n - 1);
      assert Index(n - 1);
    }
  }

  /** What `artifact_sql` makes of one more artifact. */
  function NextRefusal(rules: Rules, total: nat, a: Supplied): Option<Refusal> {
    if |a.body| > MAX_ARTIFACT || total > 4 * MAX_ARTIFACT then Some(TooLarge)
    else if a.media == "application/json" && rules.canonical(a.body).None? then Some(ArtifactInvalid)
    else if !PlainOrCommitted(rules, a) then Some(ArtifactMismatch)
    else None
  }

  lemma NextArtifact(rules: Rules, artifacts: seq<Supplied>, i: nat)
    requires i < |artifacts| && ArtifactRefusal(rules, artifacts[..i]).None?
    ensures Sizes(artifacts[..i + 1]) == Sizes(artifacts[..i]) + |artifacts[i].body|
    ensures ArtifactRefusal(rules, artifacts[..i + 1]) == NextRefusal(rules, Sizes(artifacts[..i + 1]), artifacts[i])
    ensures Puts(artifacts[..i + 1]) == Puts(artifacts[..i]) + [PutArtifact(artifacts[i].hash, artifacts[i].body)]
  {
    assert artifacts[..i + 1][..i] == artifacts[..i];
  }

  /** `artifact_sql`: the statements that retain what the request supplies, or why it is refused. */
  method ArtifactStatements(rules: Rules, artifacts: seq<Supplied>) returns (refusal: Option<Refusal>, puts: seq<Statement>)
    ensures refusal == ArtifactRefusal(rules, artifacts)
    ensures refusal.None? ==> puts == Puts(artifacts)
  {
    puts := [];
    var total := 0;
    for i := 0 to |artifacts|
      invariant total == Sizes(artifacts[..i])
      invariant ArtifactRefusal(rules, artifacts[..i]).None?
      invariant puts == Puts(artifacts[..i])
    {
      var a := artifacts[i];
      NextArtifact(rules, artifacts, i);
      total := total + |a.body|;
      refusal := CheckArtifact(rules, total, a);
      if refusal.Some? {
        RefusedEarly(rules, artifacts, i + 1);
        return refusal, [];
      }
      puts := puts + [PutArtifact(a.hash, a.body)];
    }
    assert artifacts[..|artifacts|] == artifacts;
    return None, puts;
  }

  /** The body of the loop: either of the two hashes of the body will do. */
  method CheckArtifact(rules: Rules, total: nat, a: Supplied) returns (refusal: Option<Refusal>)
    ensures refusal == NextRefusal(rules, total, a)
  {
    if |a.body| > MAX_ARTIFACT || total > 4 * MAX_ARTIFACT { return Some(TooLarge); }
    var hashes := [Sha(a.body)];
    if a.media == "application/json" {
      if rules.canonical(a.body).None? { return Some(ArtifactInvalid); }
      hashes := hashes + [Commitment(rules.canonical(a.body).value)];
    }
    return if a.hash !in hashes then Some(ArtifactMismatch) else None;
  }

  lemma {:induction false} RefusedEarly(rules: Rules, artifacts: seq<Supplied>, n: nat)
    requires n <= |artifacts| && ArtifactRefusal(rules, artifacts[..n]).Some?
    ensures ArtifactRefusal(rules, artifacts) == ArtifactRefusal(rules, artifacts[..n])
  {
    if n == |artifacts| {
      assert artifacts[..n] == artifacts;
    } else {
      var rest := artifacts[..|artifacts| - 1];
      assert rest[..n] == artifacts[..n];
      RefusedEarly(rules, rest, n);
    }
  }

  class Database {
    var store: Store
    /** Where the latest call stands, and every moment it has passed. */
    ghost var stage: Stage
    ghost var visited: seq<Moment>

    ghost predicate Recorded(rules: Rules, c: Call, answers: Answers)
      reads this
    {
      visited != [] && visited[|visited| - 1] == Moment(store, stage) && Faithful(rules, c, visited, answers)
    }

    constructor ()
      ensures store == INITIAL.store
    {
      store, stage, visited := INITIAL.store, Prior, [];
    }

    /** All statements, or none and no change. */
    method RunBatch(batch: seq<Statement>) returns (ok: bool)
      modifies `store
      ensures ok <==> Execute(old(store), batch).Some?
      ensures store == if ok then Execute(old(store), batch).value else old(store)
    {
      var scratch := store;
      var i := 0;
      while i < |batch|
        invariant 0 <= i <= |batch|
        invariant Execute(store, batch) == Execute(scratch, batch[i..])
        invariant store == old(store)
      {
        var applied := Apply(scratch, batch[i]);
        assert batch[i..][0] == batch[i] && batch[i..][1..] == batch[i + 1..];
        if applied.None? { return false; }
        scratch := applied.value;
        i := i + 1;
      }
      store := scratch;
      return true;
    }

    /** One step of the protocol, taken where the program stands. */
    ghost method Advance(rules: Rules, c: Call, answers: Answers, before: Store, now: Stage)
      requires visited != [] && visited[|visited| - 1] == Moment(before, stage) && Faithful(rules, c, visited, answers)
      requires StepCall(rules, before, c, stage, answers(stage)) == (store, now)
      modifies `stage, `visited
      ensures Recorded(rules, c, answers) && stage == now && visited[0] == old(visited[0])
    {
      FaithfulGrows(rules, c, visited, answers);
      visited := visited + [After(rules, c, Moment(before, stage), answers)];
      stage := now;
    }

    method Adjudicate(rules: Rules, c: Call, answers: Answers) returns (reply: Stage)
      modifies this
      ensures reply.Replied? || reply.Failed?
      ensures exists n :: Moment(store, reply) == Drive(rules, c, Moment(old(store), Start(c)), answers, n)
    {
      stage := Start(c);
      visited := [Moment(store, stage)];
      ghost var first := visited[0];
      if c.expectedRevision.Some? && c.expectedRevision.value < 0 {
        reply := Failed(Invalid);
      } else if |c.artifacts| > 32 {
        reply := Failed(TooManyArtifacts);
      } else {
        reply := PriorOrLoad(rules, c, answers);
      }
      assert reply == stage && visited[0] == first;
      FaithfulIsDrive(rules, c, visited, answers, |visited| - 1);
    }

    method PriorOrLoad(rules: Rules, c: Call, answers: Answers) returns (reply: Stage)
      requires Recorded(rules, c, answers) && stage == Prior
      modifies this
      ensures Recorded(rules, c, answers) && reply == stage && visited[0] == old(visited[0])
      ensures reply.Replied? || reply.Failed?
    {
      if answers(Prior) != Served {
        reply := Failed(Unavailable);
        Advance(rules, c, answers, store, reply);
        return;
      }
      if c.key in store.operations {
        var prior := store.operations[c.key];
        reply := if prior.request != RequestOf(c) then Failed(IdempotencyConflict) else Replied(prior.result);
        Advance(rules, c, answers, store, reply);
        return;
      }
      Advance(rules, c, answers, store, Load);
      if answers(Load) != Served {
        reply := Failed(Unavailable);
        Advance(rules, c, answers, store, reply);
        return;
      }
      if c.forecastId !in store.forecasts {
        reply := Failed(NotFound);
        Advance(rules, c, answers, store, reply);
        return;
      }
      reply := CheckAndDecide(rules, c, store.forecasts[c.forecastId], answers);
    }

    method CheckAndDecide(rules: Rules, c: Call, forecast: Forecast, answers: Answers) returns (reply: Stage)
      requires Recorded(rules, c, answers) && stage == Load && answers(Load) == Served
      requires c.forecastId in store.forecasts && forecast == store.forecasts[c.forecastId]
      modifies this
      ensures Recorded(rules, c, answers) && reply == stage && visited[0] == old(visited[0])
      ensures reply.Replied? || reply.Failed?
    {
      var decisionAt := c.resolution.proposedAtMs;
      if c.expectedRevision.Some? && forecast.revision != c.expectedRevision.value {
        reply := Failed(RevisionConflict);
      } else if forecast.state != "ESCALATED" {
        reply := Failed(NotAllowed);
      } else if !(forecast.updatedAtMs <= decisionAt <= c.nowMs) || c.nowMs - decisionAt > WINDOW_MS {
        reply := Failed(BadDecisionTime);
      } else {
        var refusal, puts := ArtifactStatements(rules, c.artifacts);
        if refusal.None? {
          Advance(rules, c, answers, store, Reading(forecast, 0));
          var missing := CheckAll(rules, c, forecast, answers);
          if missing.Some? { return Failed(missing.value); }
          reply := Propose(rules, c, forecast, puts, answers);
          return;
        }
        reply := Failed(refusal.value);
      }
      Advance(rules, c, answers, store, reply);
    }

    /** Every piece of evidence, supplied or retained, hashes to what the resolution claims. */
    method CheckAll(rules: Rules, c: Call, forecast: Forecast, answers: Answers) returns (missing: Option<Refusal>)
      requires Recorded(rules, c, answers) && stage == Reading(forecast, 0)
      modifies `stage, `visited
      ensures Recorded(rules, c, answers) && visited[0] == old(visited[0])
      ensures stage == if missing.Some? then Failed(missing.value) else Reading(forecast, |c.resolution.evidence|)
    {
      var i := 0;
      while i < |c.resolution.evidence|
        invariant 0 <= i <= |c.resolution.evidence|
        invariant Recorded(rules, c, answers) && stage == Reading(forecast, i) && visited[0] == old(visited[0])
      {
        var hash := c.resolution.evidence[i];
        var body := SuppliedBody(c.artifacts, hash);
        if body.None? && answers(Reading(forecast, i)) != Served {
          Advance(rules, c, answers, store, Failed(Unavailable));
          return Some(Unavailable);
        }
        if body.None? && hash in store.artifacts { body := Some(store.artifacts[hash]); }
        if body.None? {
          Advance(rules, c, answers, store, Failed(MissingEvidence));
          return Some(MissingEvidence);
        }
        if Sha(body.value) != hash {
          Advance(rules, c, answers, store, Failed(EvidenceMismatch));
          return Some(EvidenceMismatch);
        }
        i := i + 1;
        Advance(rules, c, answers, store, Reading(forecast, i));
      }
      return None;
    }

    /** The preview, the records beside the command, and the commit. */
    method Propose(rules: Rules, c: Call, forecast: Forecast, puts: seq<Statement>, answers: Answers) returns (reply: Stage)
      requires Recorded(rules, c, answers) && stage == Reading(forecast, |c.resolution.evidence|) && puts == Puts(c.artifacts)
      modifies this
      ensures Recorded(rules, c, answers) && reply == stage && visited[0] == old(visited[0])
      ensures reply.Replied? || reply.Failed?
    {
      var preview := Decision(rules, forecast, c);
      if preview.None? {
        reply := Failed(ValidationFailed);
        Advance(rules, c, answers, store, reply);
        return;
      }
      var response := ReceiptFor(c, preview.value);
      var fits, extra := Extra(c, puts, response);
      if !fits {
        reply := Failed(TooLarge);
        Advance(rules, c, answers, store, reply);
        return;
      }
      Advance(rules, c, answers, store, Reviewing(forecast, response, 0));
      var error := Mutate(rules, c, forecast, response, extra, answers);
      if error.None? { return Replied(response); }
      reply := ReadBack(rules, c, error.value, answers);
    }

    /** The statements added to the command's own. */
    static method Extra(c: Call, puts: seq<Statement>, response: Receipt) returns (fits: bool, extra: seq<Statement>)
      requires puts == Puts(c.artifacts)
      ensures fits <==> Fits(c)
      ensures fits ==> extra == Puts(c.artifacts) + [Record(c.resolution.text), Record(c.adjudicator.text)]
                                + [InsertOperation(c.key, Operation(RequestOf(c), c.forecastId, response))]
                                + Records(c.resolution.verifications)
    {
      extra := puts;
      if |c.resolution.text| > MAX_ARTIFACT || |c.adjudicator.text| > MAX_ARTIFACT { return false, []; }
      extra := extra + [Record(c.resolution.text), Record(c.adjudicator.text)];
      extra := extra + [InsertOperation(c.key, Operation(RequestOf(c), c.forecastId, response))];
      ghost var fixed := extra;
      for i := 0 to |c.resolution.verifications|
        invariant forall k :: 0 <= k < i ==> |c.resolution.verifications[k]| <= MAX_ARTIFACT
        invariant extra == fixed + Records(c.resolution.verifications[..i])
      {
        if |c.resolution.verifications[i]| > MAX_ARTIFACT { return false, []; }
        extra := extra + [Record(c.resolution.verifications[i])];
      }
      assert c.resolution.verifications[..|c.resolution.verifications|] == c.resolution.verifications;
      return true, extra;
    }

    /** The timing review: every body at hand for every cited hash has that plain digest. */
    method ReviewTiming(rules: Rules, c: Call, forecast: Forecast, response: Receipt, answers: Answers)
      returns (error: Option<Refusal>)
      requires Recorded(rules, c, answers) && stage == Reviewing(forecast, response, 0) && Decision(rules, forecast, c).Some?
      modifies `stage, `visited
      ensures Recorded(rules, c, answers) && visited[0] == old(visited[0])
      ensures stage == if error.Some? then ReadingBack(error.value) else Committing(forecast, response)
    {
      var i := 0;
      while true
        invariant 0 <= i <= |c.resolution.evidence|
        invariant Recorded(rules, c, answers) && stage == Reviewing(forecast, response, i) && visited[0] == old(visited[0])
        decreases |c.resolution.evidence| - i
      {
        var answer := answers(Reviewing(forecast, response, i));
        if answer.Down? || answer.Lost? {
          error := Some(Unavailable);
        } else if answer.Rejected? {
          error := Some(TimingReview);
        } else if (answer.Exempt? && i == 0) || i == |c.resolution.evidence| {
          Advance(rules, c, answers, store, Committing(forecast, response));
          return None;
        } else {
          var hash := c.resolution.evidence[i];
          var valid := Inspect(rules, c, hash);
          if valid {
            i := i + 1;
            Advance(rules, c, answers, store, Reviewing(forecast, response, i));
            continue;
          }
          error := Some(TimingReview);
        }
        Advance(rules, c, answers, store, ReadingBack(error.value));
        return;
      }
    }

    /** `inspect`: the bodies supplied under the hash and the one retained, if any. */
    method Inspect(rules: Rules, c: Call, hash: Digest) returns (valid: bool)
      ensures valid <==> Authentic(store, c, hash)
    {
      var bodies: seq<string> := [];
      for i := 0 to |c.artifacts|
        invariant bodies == BodiesUnder(c.artifacts[..i], hash)
      {
        assert c.artifacts[..i + 1][..i] == c.artifacts[..i];
        if c.artifacts[i].hash == hash { bodies := bodies + [c.artifacts[i].body]; }
      }
      assert c.artifacts[..|c.artifacts|] == c.artifacts;
      var stored := if hash in store.artifacts then [store.artifacts[hash]] else [];
      bodies := bodies + stored;
      assert bodies == Bodies(store, c, hash);
      valid := bodies != [] && AllPlain(bodies, hash);
    }

    /** `mutate`: decides again, has the timing reviewed, and commits everything in one batch. */
    method Mutate(rules: Rules, c: Call, forecast: Forecast, response: Receipt, extra: seq<Statement>, answers: Answers)
      returns (error: Option<Refusal>)
      requires Recorded(rules, c, answers) && stage == Reviewing(forecast, response, 0)
      requires extra == Puts(c.artifacts) + [Record(c.resolution.text), Record(c.adjudicator.text)]
                        + [InsertOperation(c.key, Operation(RequestOf(c), c.forecastId, response))]
                        + Records(c.resolution.verifications)
      modifies this
      ensures Recorded(rules, c, answers) && visited[0] == old(visited[0])
      ensures stage == if error.Some? then ReadingBack(error.value) else Replied(response)
    {
      var result := Decision(rules, forecast, c);
      if result.None? {
        error := Some(ValidationFailed);
        Advance(rules, c, answers, store, ReadingBack(ValidationFailed));
        return;
      }
      error := ReviewTiming(rules, c, forecast, response, answers);
      if error.Some? { return; }
      error := Commit(rules, c, forecast, result.value, response, extra, answers);
    }

    /** The batch of a decision that may be committed. */
    method Commit(rules: Rules, c: Call, forecast: Forecast, t: Transition, response: Receipt, extra: seq<Statement>,
                  answers: Answers)
      returns (error: Option<Refusal>)
      requires Recorded(rules, c, answers) && stage == Committing(forecast, response) && Decision(rules, forecast, c) == Some(t)
      requires extra == Puts(c.artifacts) + [Record(c.resolution.text), Record(c.adjudicator.text)]
                        + [InsertOperation(c.key, Operation(RequestOf(c), c.forecastId, response))]
                        + Records(c.resolution.verifications)
      modifies this
      ensures Recorded(rules, c, answers) && visited[0] == old(visited[0])
      ensures stage == if error.Some? then ReadingBack(error.value) else Replied(response)
    {
      ghost var before := store;
      if answers(Committing(forecast, response)).Down? {
        error := Some(Unavailable);
      } else if answers(Committing(forecast, response)).Rejected? {
        error := Some(TimingReview);
      } else if |rules.payloadText(c.resolution, c.adjudicator)| > MAX_ARTIFACT {
        error := Some(TooLarge);
      } else {
        var payload := [Record(rules.payloadText(c.resolution, c.adjudicator))];
        var batch := Core(forecast, t) + payload + extra;
        assert batch == Batch(rules, forecast, c, t, response);
        var ok := RunBatch(batch);
        if !ok {
          error := Some(BatchError(store, forecast));
        } else if answers(Committing(forecast, response)).Lost? {
          error := Some(Unavailable);
        } else {
          error := None;
        }
      }
      Advance(rules, c, answers, before, if error.Some? then ReadingBack(error.value) else Replied(response));
    }

    /** A refusal and a lost race look the same, so the receipt decides which it was. */
    method ReadBack(rules: Rules, c: Call, error: Refusal, answers: Answers) returns (reply: Stage)
      requires Recorded(rules, c, answers) && stage == ReadingBack(error)
      modifies `stage, `visited
      ensures Recorded(rules, c, answers) && reply == stage && visited[0] == old(visited[0])
      ensures reply.Replied? || reply.Failed?
    {
      if answers(ReadingBack(error)) != Served {
        reply := Failed(Unavailable);
      } else if c.key in store.operations {
        var prior := store.operations[c.key];
        reply := if prior.request != RequestOf(c) then Failed(IdempotencyConflict) else Replied(prior.result);
      } else {
        reply := Failed(error);
      }
      Advance(rules, c, answers, store, reply);
    }
  }
}
