/**
  What a committed replay does to each row, said of the registry's entries and the tables it started
  from, and what of that lasts over every later run.
 */
module TombstoneOutcomes {
  import opened Identifiers
  import opened Tombstones
  import opened TombstoneTheorems

  // ---------------------------------------------------------------- what the registry says

  ghost predicate Says(r: Registry, kind: Kind, subject: string) {
    exists i :: 0 <= i < |r.body.entries| && r.body.entries[i].kind == kind && r.body.entries[i].subject == subject
  }

  /**
    A user the registry concerns: one it says is to be erased, or to whom an address it says is
    retired belongs, by an identity row or by a link, in those of the two tables that exist.
   */
  ghost predicate Concerned(t: Tables, r: Registry, user: string) {
    || Says(r, Erasure, user)
    || (t.schema.identities && exists a :: a in t.identities && t.identities[a].userId == user && Says(r, WalletRetired, a))
    || (t.schema.links && exists a: string :: (user, a) in t.links && Says(r, WalletRetired, a))
  }

  lemma SaysInSet(r: Registry, kind: Kind, subject: string)
    ensures Says(r, kind, subject) <==> exists e :: e in SetOf(r.body.entries) && e.kind == kind && e.subject == subject
  {
    if i :| 0 <= i < |r.body.entries| && r.body.entries[i].kind == kind && r.body.entries[i].subject == subject {
      assert r.body.entries[i] in SetOf(r.body.entries);
    }
  }

  lemma RetiredSays(r: Registry, a: string)
    ensures a in RetiredWallets(SetOf(r.body.entries)) <==> Says(r, WalletRetired, a)
  {
    SaysInSet(r, WalletRetired, a);
  }

  lemma RevokedSays(r: Registry, h: string)
    ensures h in RevokedHashes(SetOf(r.body.entries)) <==> Says(r, SessionRevoked, h)
  {
    SaysInSet(r, SessionRevoked, h);
  }

  lemma AffectedIsConcerned(t: Tables, r: Registry, user: string)
    ensures user in Affected(t, SetOf(r.body.entries)) <==> Concerned(t, r, user)
  {
    var retired := RetiredWallets(SetOf(r.body.entries));
    SaysInSet(r, Erasure, user);
    assert user in ErasedUsers(SetOf(r.body.entries)) <==> Says(r, Erasure, user);
    forall a: string ensures a in retired <==> Says(r, WalletRetired, a) { RetiredSays(r, a); }
    if a: string :| (user, a) in t.links && Says(r, WalletRetired, a) { assert (user, a).1 in retired; }
  }

  // ---------------------------------------------------------------- each row of a committed replay

  /** The subjects after a commit are those before and those the registry concerns, and the report counts the latter. */
  lemma SubjectsExactlyWhen(t: Tables, r: Registry, a: Anchor, key: string, verifies: Verifier, now: int) returns (blocked: set<string>)
    requires Applied(t, r, a, key, verifies, now, true).1.Quarantined?
    ensures var (v, report) := Applied(t, r, a, key, verifies, now, true);
            && (forall user :: user in v.subjects <==> user in t.subjects || Concerned(t, r, user))
            && (forall user :: user in blocked <==> Concerned(t, r, user))
            && report.blockedSubjects == |blocked|
  {
    blocked := Affected(t, SetOf(r.body.entries));
    forall user: string ensures user in blocked <==> Concerned(t, r, user) { AffectedIsConcerned(t, r, user); }
  }

  /** A session is gone exactly when it is of a user the registry concerns, or its hash is one it revokes; the report counts those. */
  lemma SessionsExactlyWhen(t: Tables, r: Registry, a: Anchor, key: string, verifies: Verifier, now: int) returns (gone: set<string>)
    requires Applied(t, r, a, key, verifies, now, true).1.Quarantined?
    ensures var (v, report) := Applied(t, r, a, key, verifies, now, true);
            && (forall h :: h in v.sessions <==>
                            h in t.sessions && !Says(r, SessionRevoked, h) && !Concerned(t, r, t.sessions[h].userId))
            && (forall h :: h in v.sessions ==> v.sessions[h] == t.sessions[h])
            && gone == t.sessions.Keys - v.sessions.Keys
            && report.sessionsRevoked == |gone|
  {
    var v := Applied(t, r, a, key, verifies, now, true).0;
    gone := t.sessions.Keys - v.sessions.Keys;
    forall h: string
      ensures h in v.sessions <==> h in t.sessions && !Says(r, SessionRevoked, h) && !Concerned(t, r, t.sessions[h].userId)
    {
      RevokedSays(r, h);
      if h in t.sessions { AffectedIsConcerned(t, r, t.sessions[h].userId); }
    }
    assert v.sessions.Keys <= t.sessions.Keys;
    assert |t.sessions| == |t.sessions.Keys| && |v.sessions| == |v.sessions.Keys|;
  }

  /** A login context some session that is not itself revoked, or some challenge, of a concerned user names. */
  ghost predicate NamedBy(t: Tables, r: Registry, context: string) {
    || (exists h :: h in t.sessions && !Says(r, SessionRevoked, h) && Concerned(t, r, t.sessions[h].userId)
                    && t.sessions[h].contextHash == Some(context))
    || (exists i :: i in t.challenges && Concerned(t, r, t.challenges[i].targetUser) && t.challenges[i].contextHash == context)
  }

  /**
    A login context is revoked exactly when its active session is, or when it was not revoked yet and a
    concerned user comes in through it: at the time of the replay unless it already had a time, with no
    active session left and its epoch one further. Any other is as it was.
   */
  lemma ContextsExactlyWhen(t: Tables, r: Registry, a: Anchor, key: string, verifies: Verifier, now: int, h: string)
    requires Applied(t, r, a, key, verifies, now, true).1.Quarantined? && h in t.contexts
    ensures var v := Applied(t, r, a, key, verifies, now, true).0;
            var c := t.contexts[h];
            var revoked :=
              t.schema.contexts &&
              (|| (c.active.Some? && Says(r, SessionRevoked, c.active.value))
               || (t.schema.challenges && c.revokedAt.None? && NamedBy(t, r, h)));
            && h in v.contexts
            && v.contexts[h] ==
               if revoked then Context(Some(if c.revokedAt.Some? then c.revokedAt.value else now), None, c.epoch + 1) else c
  {
    var es := SetOf(r.body.entries);
    var c, mid := t.contexts[h], AfterEntries(t, es, now);
    if c.active.Some? { RevokedSays(r, c.active.value); }
    NamesIsNamedBy(t, r, h, now);
    CommittedContext(t, r, a, key, verifies, now, h);
    ReplayedContext(t, es, now, h);
    RowAfter(c, RevokedHashes(es), now, t.schema.contexts, t.schema.challenges, NamedBy(t, r, h));
  }

  lemma CommittedContext(t: Tables, r: Registry, a: Anchor, key: string, verifies: Verifier, now: int, h: string)
    requires Applied(t, r, a, key, verifies, now, true).1.Quarantined? && h in t.contexts
    ensures Applied(t, r, a, key, verifies, now, true).0.contexts == Replay(t, SetOf(r.body.entries), now).contexts
  {}

  /** The row of a context after a replay, by the two ways it may be revoked. */
  function Row(c: Context, hashes: set<string>, now: int, contexts: bool, challenges: bool, named: bool): Context {
    if !contexts then c
    else if !challenges then RevokeActive(c, hashes, now)
    else RevokeNamed(RevokeActive(c, hashes, now), named, now)
  }

  lemma ReplayedContext(t: Tables, es: set<Entry>, now: int, h: string)
    requires h in t.contexts
    ensures var mid := AfterEntries(t, es, now);
            && h in Replay(t, es, now).contexts
            && Replay(t, es, now).contexts[h] ==
               Row(t.contexts[h], RevokedHashes(es), now, t.schema.contexts, t.schema.challenges,
                   Names(mid.sessions, mid.challenges, Affected(t, es), h))
  {}

  lemma RowAfter(c: Context, hashes: set<string>, now: int, contexts: bool, challenges: bool, named: bool)
    ensures var revoked := contexts && ((c.active.Some? && c.active.value in hashes) || (challenges && c.revokedAt.None? && named));
            Row(c, hashes, now, contexts, challenges, named) ==
            if revoked then Context(Some(if c.revokedAt.Some? then c.revokedAt.value else now), None, c.epoch + 1) else c
  {}

  lemma NamesIsNamedBy(t: Tables, r: Registry, context: string, now: int)
    ensures var mid := AfterEntries(t, SetOf(r.body.entries), now);
            Names(mid.sessions, mid.challenges, Affected(t, SetOf(r.body.entries)), context) <==> NamedBy(t, r, context)
  {
    var es := SetOf(r.body.entries);
    var users, mid := Affected(t, es), AfterEntries(t, es, now);
    forall user: string ensures user in users <==> Concerned(t, r, user) { AffectedIsConcerned(t, r, user); }
    forall h: string ensures h in mid.sessions <==> h in t.sessions && !Says(r, SessionRevoked, h) { RevokedSays(r, h); }
    if h :| h in t.sessions && !Says(r, SessionRevoked, h) && Concerned(t, r, t.sessions[h].userId)
            && t.sessions[h].contextHash == Some(context)
    {
      assert h in mid.sessions && mid.sessions[h] == t.sessions[h];
    }
    if i :| i in t.challenges && Concerned(t, r, t.challenges[i].targetUser) && t.challenges[i].contextHash == context {
      assert i in mid.challenges && mid.challenges[i].targetUser in users;
    }
  }

  /** A login of a concerned user still open is closed at the time of the replay; any other is as it was. */
  lemma ChallengesExactlyWhen(t: Tables, r: Registry, a: Anchor, key: string, verifies: Verifier, now: int, i: string)
    requires Applied(t, r, a, key, verifies, now, true).1.Quarantined? && i in t.challenges
    ensures var v := Applied(t, r, a, key, verifies, now, true).0;
            var c := t.challenges[i];
            && i in v.challenges
            && v.challenges[i] ==
               if t.schema.contexts && t.schema.challenges && c.revokedAt.None? && Concerned(t, r, c.targetUser)
               then Challenge(c.contextHash, c.targetUser, c.address, Some(now)) else c
  {
    AffectedIsConcerned(t, r, t.challenges[i].targetUser);
  }

  /** The rest: the entries are on file, no more and no less; no row is added anywhere; wallets and links are left alone. */
  lemma NothingElseChanges(t: Tables, r: Registry, a: Anchor, key: string, verifies: Verifier, now: int)
    requires Applied(t, r, a, key, verifies, now, true).1.Quarantined?
    ensures var (v, report) := Applied(t, r, a, key, verifies, now, true);
            && (forall e :: e in v.tombstones <==> e in r.body.entries)
            && v.contexts.Keys == t.contexts.Keys && v.challenges.Keys == t.challenges.Keys
            && v.schema == t.schema && v.identities == t.identities && v.links == t.links
            && v.head == Some(report.head) && report.head.sequence == r.body.sequence && report.head.registry == r
  {
    CommitAdvances(t, r, a, key, verifies, now, true);
    ReplayKeepsTheRest(t, SetOf(r.body.entries), now);
  }

  lemma ReplayKeepsTheRest(t: Tables, es: set<Entry>, now: int)
    ensures var v := Replay(t, es, now);
            && v.contexts.Keys == t.contexts.Keys && v.challenges.Keys == t.challenges.Keys
            && v.schema == t.schema && v.identities == t.identities && v.links == t.links
  {}

  // ---------------------------------------------------------------- refusals

  /** Of a registry that is refused before its entries are looked at, which refusal, first failure first. */
  lemma RefusesInOrder(r: Registry, a: Anchor, key: string, verifies: Verifier, now: int)
    ensures var why := EnvelopeRefusal(r, a, key, verifies, now);
            if now < 0 || |key| != 32 then why == Some(BadContext)
            else if r.body.version != 1 || r.body.purpose != "restore-privacy-tombstones" then why == Some(BadPurpose)
            else if r.body.sequence < 0 || r.body.issuedAtMs < 0 || r.body.validUntilMs < 0 then why == Some(BadClock)
            else if !InForce(r.body, now) then why == Some(Refusal.Expired)
            else if a.sequence < 0 || a.observedAtMs < 0 || a.maxAgeMs < 0 then why == Some(NoAnchor)
            else if a.maxAgeMs == 0 || now < a.observedAtMs || now > a.observedAtMs + a.maxAgeMs then why == Some(Stale)
            else if !Pins(a, r, now) then why == Some(NotPinned)
            else if !verifies(key, r.body, r.signature) then why == Some(BadSignature)
            else if |r.body.entries| > 100000 then why == Some(TooMany)
            else why == None
  {}

  /** The entry a refusal is for, everything before it being in order. */
  ghost predicate AtFault(entries: seq<Entry>, issuedAtMs: int, i: nat, why: Refusal)
    requires i < |entries|
  {
    var e := entries[i];
    && WellFormed(entries[..i], issuedAtMs)
    && match why
       case BadSubject => e.subject == "" || |e.subject| > 128
       case BadTime => e.subject != "" && (e.recordedAtMs < 0 || e.recordedAtMs > issuedAtMs)
       case BadHash => e.kind == SessionRevoked && !IsHash(e.subject)
       case Duplicate => exists k :: 0 <= k < i && entries[k] == e
       case _ => false
  }

  lemma {:induction false} RefusesFirstEntry(entries: seq<Entry>, issuedAtMs: int) returns (i: nat)
    requires EntriesRefusal(entries, issuedAtMs).Some?
    ensures i < |entries| && AtFault(entries, issuedAtMs, i, EntriesRefusal(entries, issuedAtMs).value)
  {
    var n := |entries| - 1;
    if EntriesRefusal(entries[..n], issuedAtMs).Some? {
      i := RefusesFirstEntry(entries[..n], issuedAtMs);
      assert entries[..n][..i] == entries[..i];
      assert forall k :: 0 <= k <= i ==> entries[..n][k] == entries[k];
    } else {
      i := n;
      EntriesPassExactlyWhen(entries[..n], issuedAtMs);
      if entries[n] in SetOf(entries[..n]) {
        var k :| 0 <= k < n && entries[..n][k] == entries[n];
        assert entries[k] == entries[n];
      }
    }
  }

  /** And of one that is valid: a rollback before an omission, that before a missing table, that before foreign keys. */
  lemma RefusesHistory(t: Tables, r: Registry, a: Anchor, key: string, verifies: Verifier, now: int, sound: bool)
    requires Validation(r, a, key, verifies, now).None?
    ensures var report := Applied(t, r, a, key, verifies, now, sound).1;
            var behind := t.head.Some? && !(r.body.sequence > t.head.value.sequence)
                          && !(r.body.sequence == t.head.value.sequence && r == t.head.value.registry);
            var omits := exists e :: e in t.tombstones && e !in r.body.entries;
            var lacks := !t.schema.sessions || !t.schema.users;
            && (report == Refused(Rollback) <==> behind)
            && (report == Refused(Omission) <==> !behind && omits)
            && (report == Refused(BadSchema) <==> !behind && !omits && lacks)
            && (report == Refused(ForeignKeys) <==> !behind && !omits && !lacks && !sound)
  {
    assert t.tombstones <= SetOf(r.body.entries) <==> forall e :: e in t.tombstones ==> e in r.body.entries;
  }

  // ---------------------------------------------------------------- ever after

  /** What no replay takes away or adds to. */
  ghost predicate Keeps(t: Tables, v: Tables) {
    && v.schema == t.schema && t.subjects <= v.subjects && v.identities == t.identities
    && v.challenges.Keys == t.challenges.Keys
    && forall i :: i in t.challenges ==> v.challenges[i].address == t.challenges[i].address
  }

  lemma ReplayKeepsRows(t: Tables, es: set<Entry>, now: int, head: Option<Head>)
    ensures Keeps(t, Replay(t, es, now).(head := head))
  {}

  lemma ApplyKeepsRows(t: Tables, r: Registry, a: Anchor, key: string, verifies: Verifier, now: int, sound: bool)
    ensures Keeps(t, Applied(t, r, a, key, verifies, now, sound).0)
  {
    var replayed := Replay(t, SetOf(r.body.entries), now).(head := Some(Head(r.body.sequence, r)));
    ReplayKeepsRows(t, SetOf(r.body.entries), now, Some(Head(r.body.sequence, r)));
    AppliedIs(t, r, a, key, verifies, now, sound);
    KeepsEither(t, replayed, Applied(t, r, a, key, verifies, now, sound).0);
  }

  lemma AppliedIs(t: Tables, r: Registry, a: Anchor, key: string, verifies: Verifier, now: int, sound: bool)
    ensures var v := Applied(t, r, a, key, verifies, now, sound).0;
            v == t || v == Replay(t, SetOf(r.body.entries), now).(head := Some(Head(r.body.sequence, r)))
  {}

  lemma KeepsEither(t: Tables, u: Tables, v: Tables)
    requires Keeps(t, u) && (v == t || v == u)
    ensures Keeps(t, v)
  {}

  lemma SubjectsStayAtWrites(t: Tables, a: Action)
    requires !a.Apply?
    ensures Next(t, a).subjects == t.subjects && Next(t, a).schema == t.schema
  {}

  lemma {:induction false} SubjectsStay(t: Tables, actions: seq<Action>)
    ensures t.subjects <= Run(t, actions).subjects && Run(t, actions).schema == t.schema
  {
    if actions != [] {
      var v, a := Run(t, actions[..|actions| - 1]), actions[|actions| - 1];
      SubjectsStay(t, actions[..|actions| - 1]);
      if a.Apply? {
        ApplyKeepsRows(v, a.registry, a.anchor, a.key, a.verifies, a.now, a.sound);
      } else {
        SubjectsStayAtWrites(v, a);
      }
    }
  }

  /** A run is its actions one after the other. */
  lemma RunsInOrder(t: Tables, actions: seq<Action>, a: Action)
    ensures Run(t, []) == t && Run(t, actions + [a]) == Next(Run(t, actions), a)
  {
    assert (actions + [a])[..|actions|] == actions;
  }

  lemma {:induction false} SafeStays(t: Tables, actions: seq<Action>)
    requires Safe(t)
    ensures Safe(Run(t, actions))
  {
    if actions != [] {
      SafeStays(t, actions[..|actions| - 1]);
      NextSafe(Run(t, actions[..|actions| - 1]), actions[|actions| - 1]);
    }
  }

  lemma SafeShutsOut(t: Tables, user: string)
    requires Safe(t) && user in t.subjects
    ensures forall h :: h in t.sessions ==> t.sessions[h].userId != user
    ensures t.schema.contexts && t.schema.challenges ==>
              forall i :: i in t.challenges && t.challenges[i].targetUser == user ==> t.challenges[i].revokedAt.Some?
  {}

  /**
    Whoever a committed replay concerned, the owners of the wallets it retired among them, stays shut
    out over every later run: no session, and no login that is not closed.
   */
  lemma ConcernedStayOut(t: Tables, before: seq<Action>, r: Registry, a: Anchor, key: string, verifies: Verifier, now: int,
                         after: seq<Action>, user: string)
    requires Untouched(t) && Applied(Run(t, before), r, a, key, verifies, now, true).1.Quarantined?
    requires Concerned(Run(t, before), r, user)
    ensures var v := Run(Applied(Run(t, before), r, a, key, verifies, now, true).0, after);
            && user in v.subjects
            && (forall h :: h in v.sessions ==> v.sessions[h].userId != user)
            && (v.schema.contexts && v.schema.challenges ==>
                  forall i :: i in v.challenges && v.challenges[i].targetUser == user ==> v.challenges[i].revokedAt.Some?)
  {
    var w := Run(t, before);
    var v := Applied(w, r, a, key, verifies, now, true).0;
    AlwaysSafe(t, before);
    ApplySafe(w, r, a, key, verifies, now, true);
    var _ := SubjectsExactlyWhen(w, r, a, key, verifies, now);
    SubjectsStay(v, after);
    SafeStays(v, after);
    SafeShutsOut(Run(v, after), user);
  }

  /** A retired address has no identity or login row that it did not have when it was retired, save an inactive identity. */
  ghost predicate StaysRetired(t: Tables, v: Tables, address: string) {
    && (address in v.identities && v.identities[address].active ==> address in t.identities && v.identities[address] == t.identities[address])
    && (forall i :: i in v.challenges && v.challenges[i].address == address ==> i in t.challenges)
  }

  ghost predicate Retires(t: Tables, address: string) { t.head.Some? && address in RetiredWallets(t.tombstones) }

  lemma StepStaysRetired(t: Tables, v: Tables, a: Action, address: string)
    requires Retires(v, address) && StaysRetired(t, v, address)
    ensures StaysRetired(t, Next(v, a), address)
  {
    if a.Apply? {
      ApplyKeepsRows(v, a.registry, a.anchor, a.key, a.verifies, a.now, a.sound);
    } else {
      WriteStaysRetired(t, v, a, address);
    }
  }

  lemma WriteStaysRetired(t: Tables, v: Tables, a: Action, address: string)
    requires Retires(v, address) && StaysRetired(t, v, address) && !a.Apply?
    ensures StaysRetired(t, Next(v, a), address)
  {}

  /** Once retired, an address gets no new login and no new active identity. */
  lemma {:induction false} RetiredForGood(t: Tables, actions: seq<Action>, address: string)
    requires HeadTrue(t) && Retires(t, address)
    ensures Retires(Run(t, actions), address) && StaysRetired(t, Run(t, actions), address)
  {
    if actions != [] {
      var n := |actions| - 1;
      RetiredForGood(t, actions[..n], address);
      RunsAdvance(t, actions[..n]);
      NextAdvances(Run(t, actions[..n]), actions[n]);
      StepStaysRetired(t, Run(t, actions[..n]), actions[n], address);
    }
  }

  // ---------------------------------------------------------------- the writes between replays

  ghost predicate OnFile(t: Tables, kind: Kind, subject: string) {
    t.head.Some? && exists e :: e in t.tombstones && e.kind == kind && e.subject == subject
  }

  ghost predicate ShutOut(t: Tables, user: string) { t.head.Some? && user in t.subjects }

  /**
    The triggers refuse a session exactly for a quarantined user or a revoked hash, a new login exactly
    for a quarantined user or a retired address, and a new identity exactly when it is active and its
    address retired; a replay not yet made refuses nothing. No insert replaces a row that is there.
   */
  lemma TriggersRefuse(t: Tables, hash: string, s: Session, c: Challenge, address: string, i: Identity)
    ensures Next(t, InsertSession(hash, s)) ==
            if ShutOut(t, s.userId) || OnFile(t, SessionRevoked, hash) then t else t.(sessions := t.sessions[hash := s])
    ensures Next(t, InsertChallenge(address, c)) ==
            if ShutOut(t, c.targetUser) || OnFile(t, WalletRetired, c.address) || address in t.challenges then t
            else t.(challenges := t.challenges[address := c])
    ensures Next(t, InsertIdentity(address, i)) ==
            if (i.active && OnFile(t, WalletRetired, address)) || address in t.identities then t
            else t.(identities := t.identities[address := i])
  {}

  /** A session moved to another hash or user is refused exactly like a new one. */
  lemma TriggersRefuseUpdates(t: Tables, from: string, hash: string, s: Session)
    requires from in t.sessions
    ensures Next(t, UpdateSession(from, hash, s)) ==
            if ShutOut(t, s.userId) || OnFile(t, SessionRevoked, hash) then t
            else t.(sessions := (t.sessions - {from})[hash := s])
  {}

  /**
    A sign-in goes through exactly when no trigger refuses it, its hash is free and the context it is
    made in, if any, is there and not revoked; then its session is the only one of that context, and
    the context's active one. Otherwise nothing changes.
   */
  lemma SignsInExactlyWhen(t: Tables, prepared: Option<string>, hash: string, user: string, dropped: set<string>)
    ensures var v := Next(t, SignIn(prepared, hash, user, dropped));
            var goes := h => h in dropped || (h in t.sessions && prepared.Some? && t.sessions[h].contextHash == prepared);
            if && !ShutOut(t, user) && !OnFile(t, SessionRevoked, hash) && (hash in t.sessions ==> goes(hash))
               && (prepared.Some? ==> prepared.value in t.contexts && t.contexts[prepared.value].revokedAt.None?)
            then
              && (forall h :: h in v.sessions <==> h == hash || (h in t.sessions && !goes(h)))
              && v.sessions[hash] == Session(user, prepared)
              && (forall h :: h in v.sessions && h != hash ==> v.sessions[h] == t.sessions[h])
              && v.contexts == (if prepared.None? then t.contexts
                                else var c := t.contexts[prepared.value];
                                     t.contexts[prepared.value := Context(None, Some(hash), c.epoch)])
              && v == t.(sessions := v.sessions, contexts := v.contexts)
            else v == t
  {}

  /** A sign-out ends its own session and every session of its contexts, and revokes those contexts; nothing else. */
  lemma SignsOut(t: Tables, contexts: set<string>, leaving: Option<string>, now: int)
    ensures var v := Next(t, SignOut(contexts, leaving, now));
            && (forall h :: h in v.sessions <==>
                            && h in t.sessions && leaving != Some(h)
                            && (t.sessions[h].contextHash.Some? ==> t.sessions[h].contextHash.value !in contexts))
            && (forall h :: h in v.sessions ==> v.sessions[h] == t.sessions[h])
            && v.contexts.Keys == t.contexts.Keys
            && (forall c :: c in t.contexts ==>
                              var row := t.contexts[c];
                              v.contexts[c] ==
                              if c in contexts then Context(Some(if row.revokedAt.Some? then row.revokedAt.value else now), None, row.epoch + 1)
                              else row)
            && v == t.(sessions := v.sessions, contexts := v.contexts)
  {}

  /** A prepared context starts unrevoked, without a session; expiry drops the named sessions; a login once closed stays closed. */
  lemma OtherWrites(t: Tables, c: string, hashes: set<string>, i: string, revokedAt: Option<int>)
    ensures c !in t.contexts ==> Next(t, Prepare(c)) == t.(contexts := t.contexts[c := Context(None, None, 1)])
    ensures c in t.contexts ==> Next(t, Prepare(c)) == t
    ensures Next(t, Expire(hashes)) == t.(sessions := Next(t, Expire(hashes)).sessions)
    ensures forall h :: h in Next(t, Expire(hashes)).sessions <==> h in t.sessions && h !in hashes
    ensures i in t.challenges && t.challenges[i].revokedAt.Some? ==> Next(t, UpdateChallenge(i, revokedAt)) == t
    ensures i in t.challenges && t.challenges[i].revokedAt.None? ==>
              Next(t, UpdateChallenge(i, revokedAt)) ==
              t.(challenges := t.challenges[i := Challenge(t.challenges[i].contextHash, t.challenges[i].targetUser, t.challenges[i].address, revokedAt)])
  {}
}
