/**
  What the restored database keeps, over every run of replays and later writes guarded by the
  triggers a replay installs.
 */
module TombstoneTheorems {
  import opened Identifiers
  import opened Tombstones

  // ---------------------------------------------------------------- one replay

  /**
    A committed replay moves the head forward, never to another registry under the same sequence,
    and leaves the tombstones equal to the registry's entries and a superset of the old ones.
   */
  lemma CommitAdvances(t: Tables, r: Registry, a: Anchor, key: string, verifies: Verifier, now: int, sound: bool)
    requires Applied(t, r, a, key, verifies, now, sound).1.Quarantined?
    ensures var (v, report) := Applied(t, r, a, key, verifies, now, sound);
            && v.head == Some(Head(r.body.sequence, r)) == Some(report.head)
            && (t.head.Some? ==> t.head.value.sequence <= r.body.sequence)
            && (t.head.Some? && t.head.value.sequence == r.body.sequence ==> t.head.value.registry == r)
            && v.tombstones == SetOf(r.body.entries) >= t.tombstones
            && v.subjects == t.subjects + Affected(t, SetOf(r.body.entries))
            && report.tombstonesApplied == |r.body.entries|
            && verifies(key, r.body, r.signature) && a.head == Some(r)
  {
    AcceptedEntries(r.body.entries, r.body.issuedAtMs);
  }

  /** A registry of this program, in its window of validity. */
  predicate InForce(b: Body, now: int) {
    && b.version == 1 && b.purpose == "restore-privacy-tombstones" && b.sequence >= 0
    && 0 <= b.issuedAtMs <= now <= b.validUntilMs
  }

  /** The anchor was observed lately and names this very registry, at its sequence. */
  predicate Pins(a: Anchor, r: Registry, now: int) {
    && a.head == Some(r) && a.sequence == r.body.sequence && a.observedAtMs >= 0
    && 0 <= now - a.observedAtMs <= a.maxAgeMs && a.maxAgeMs > 0
  }

  /** Every entry has a bounded subject and time, and a revoked session a hash; no two are the same. */
  ghost predicate WellFormed(entries: seq<Entry>, issuedAtMs: int) {
    && (forall i :: 0 <= i < |entries| ==>
                      && 1 <= |entries[i].subject| <= 128 && 0 <= entries[i].recordedAtMs <= issuedAtMs
                      && (entries[i].kind.SessionRevoked? ==> IsHash(entries[i].subject)))
    && forall i, j :: 0 <= i < j < |entries| ==> entries[i] != entries[j]
  }

  /** The registry is the one applied last, or a later one; either way it names all that was applied. */
  ghost predicate Succeeds(r: Registry, t: Tables) {
    && (t.head.Some? ==> r.body.sequence > t.head.value.sequence
                         || (r.body.sequence == t.head.value.sequence && r == t.head.value.registry))
    && forall e :: e in t.tombstones ==> e in r.body.entries
  }

  lemma {:induction false} EntriesPassExactlyWhen(entries: seq<Entry>, issuedAtMs: int)
    ensures EntriesRefusal(entries, issuedAtMs).None? <==> WellFormed(entries, issuedAtMs)
  {
    if entries != [] {
      var n := |entries| - 1;
      var early := entries[..n];
      EntriesPassExactlyWhen(early, issuedAtMs);
      LastEntry(entries, early, entries[n], issuedAtMs);
    }
  }

  lemma LastEntry(entries: seq<Entry>, early: seq<Entry>, e: Entry, issuedAtMs: int)
    requires entries == early + [e]
    ensures WellFormed(entries, issuedAtMs) <==>
            WellFormed(early, issuedAtMs) && EntryRefusal(e, SetOf(early), issuedAtMs).None?
  {
    assert forall i :: 0 <= i < |early| ==> entries[i] == early[i];
    assert entries[|early|] == e;
    assert forall i :: 0 <= i < |early| ==> early[i] in SetOf(early);
  }

  lemma EnvelopePassesExactlyWhen(r: Registry, a: Anchor, key: string, verifies: Verifier, now: int)
    ensures EnvelopeRefusal(r, a, key, verifies, now).None? <==>
            && |key| == 32 && InForce(r.body, now) && Pins(a, r, now)
            && verifies(key, r.body, r.signature) && |r.body.entries| <= 100000
  {}

  /**
    A replay commits exactly when its registry is in force, pinned by a fresh anchor, signed, well
    formed, no older than what was applied and no smaller, and the database has its tables and passes
    the foreign key check; otherwise nothing changes.
   */
  lemma CommitsExactlyWhen(t: Tables, r: Registry, a: Anchor, key: string, verifies: Verifier, now: int, sound: bool)
    ensures Applied(t, r, a, key, verifies, now, sound).1.Quarantined? <==>
            && |key| == 32 && InForce(r.body, now) && Pins(a, r, now)
            && verifies(key, r.body, r.signature)
            && |r.body.entries| <= 100000 && WellFormed(r.body.entries, r.body.issuedAtMs)
            && Succeeds(r, t)
            && t.schema.sessions && t.schema.users && sound
    ensures !Applied(t, r, a, key, verifies, now, sound).1.Quarantined? ==>
              Applied(t, r, a, key, verifies, now, sound).0 == t
  {
    EnvelopePassesExactlyWhen(r, a, key, verifies, now);
    EntriesPassExactlyWhen(r.body.entries, r.body.issuedAtMs);
    assert t.tombstones <= SetOf(r.body.entries) <==> forall e :: e in t.tombstones ==> e in r.body.entries;
  }

  /** Exactly the sessions of an affected user, or with a revoked hash, are gone. */
  lemma SessionsLeft(t: Tables, es: set<Entry>, now: int, h: string)
    ensures h in Replay(t, es, now).sessions <==>
            h in t.sessions && h !in RevokedHashes(es) && t.sessions[h].userId !in Affected(t, es)
    ensures h in Replay(t, es, now).sessions ==> Replay(t, es, now).sessions[h] == t.sessions[h]
  {}

  /** A login context is revoked at most once: its first revocation time stays, and its epoch moves by one at most. */
  lemma ContextsRevokedOnce(t: Tables, es: set<Entry>, now: int, h: string)
    requires h in t.contexts
    ensures var v := Replay(t, es, now);
            && v.contexts.Keys == t.contexts.Keys
            && (t.contexts[h].revokedAt.Some? ==> v.contexts[h].revokedAt == t.contexts[h].revokedAt)
            && (v.contexts[h] == t.contexts[h]
                || (v.contexts[h].epoch == t.contexts[h].epoch + 1 && v.contexts[h].active.None? && v.contexts[h].revokedAt.Some?))
  {}

  // ---------------------------------------------------------------- order

  function EntryByEntry(t: Tables, entries: seq<Entry>, now: int): Tables {
    if entries == [] then t
    else AfterEntries(EntryByEntry(t, entries[..|entries| - 1], now), {entries[|entries| - 1]}, now)
  }

  function Users(us: seq<string>): set<string> { set u | u in us }

  function UserByUser(t: Tables, users: seq<string>, now: int): Tables {
    if users == [] then t else AfterUsers(UserByUser(t, users[..|users| - 1], now), {users[|users| - 1]}, now)
  }

  lemma {:induction false} EntryByEntryIsOneStep(t: Tables, entries: seq<Entry>, now: int)
    ensures EntryByEntry(t, entries, now) == AfterEntries(t, SetOf(entries), now)
  {
    if entries == [] {
      NoEntries(t, now);
    } else {
      var n := |entries| - 1;
      var early := SetOf(entries[..n]);
      EntryByEntryIsOneStep(t, entries[..n], now);
      OneMoreEntry(entries, n);
      assert entries[..n + 1] == entries;
      EntriesCompose(t, early, {entries[n]}, now);
    }
  }

  lemma {:induction false} UserByUserIsOneStep(t: Tables, users: seq<string>, now: int)
    ensures UserByUser(t, users, now) == AfterUsers(t, Users(users), now)
  {
    if users == [] {
      NoUsers(t, now);
      assert Users(users) == {};
    } else {
      var n := |users| - 1;
      UserByUserIsOneStep(t, users[..n], now);
      UsersCompose(t, Users(users[..n]), {users[n]}, now);
      assert users == users[..n] + [users[n]];
      assert Users(users) == Users(users[..n]) + {users[n]};
    }
  }

  /** Neither the order of the registry's entries nor the order of the affected users matters. */
  lemma ReplayIgnoresOrder(t: Tables, es: seq<Entry>, fs: seq<Entry>, us: seq<string>, vs: seq<string>, now: int)
    requires multiset(es) == multiset(fs)
    requires Users(us) == Users(vs) == Affected(t, SetOf(es))
    ensures Affected(t, SetOf(fs)) == Affected(t, SetOf(es))
    ensures UserByUser(EntryByEntry(t, es, now), us, now) == UserByUser(EntryByEntry(t, fs, now), vs, now)
    ensures UserByUser(EntryByEntry(t, es, now), us, now) == Replay(t, SetOf(es), now)
  {
    forall e: Entry ensures e in es <==> e in fs { assert e in multiset(es) <==> e in multiset(fs); }
    assert SetOf(es) == SetOf(fs);
    EntryByEntryIsOneStep(t, es, now);
    EntryByEntryIsOneStep(t, fs, now);
    UserByUserIsOneStep(AfterEntries(t, SetOf(es), now), us, now);
    UserByUserIsOneStep(AfterEntries(t, SetOf(es), now), vs, now);
  }

  // ---------------------------------------------------------------- again

  lemma NoOneNamed(t: Tables, es: set<Entry>, now: int, h: string)
    requires t.schema.contexts && t.schema.challenges && h in t.contexts
    requires var v := Replay(t, es, now);
             Names(v.sessions, v.challenges, Affected(t, es), h)
    ensures Replay(t, es, now).contexts[h].revokedAt.Some?
  {
    var v, mid, users := Replay(t, es, now), AfterEntries(t, es, now), Affected(t, es);
    assert forall k :: k in v.sessions ==> v.sessions[k].userId !in users;
    var i :| i in v.challenges && v.challenges[i].targetUser in users && v.challenges[i].contextHash == h;
    assert i in mid.challenges && mid.challenges[i].targetUser in users && mid.challenges[i].contextHash == h;
    assert Names(mid.sessions, mid.challenges, users, h);
  }

  lemma ContextsSettled(t: Tables, es: set<Entry>, now: int, later: int)
    ensures var v := Replay(t, es, now);
            NamedRevoked(AfterEntries(v, es, later), Affected(t, es), later) == v.contexts
  {
    var v := Replay(t, es, now);
    var again := AfterEntries(v, es, later);
    assert ActiveRevoked(v, RevokedHashes(es), later) == v.contexts;
    assert again.sessions == v.sessions;
    if t.schema.contexts && t.schema.challenges {
      forall h | h in v.contexts
        ensures RevokeNamed(v.contexts[h], Names(v.sessions, v.challenges, Affected(t, es), h), later) == v.contexts[h]
      {
        if Names(v.sessions, v.challenges, Affected(t, es), h) { NoOneNamed(t, es, now, h); }
      }
    }
  }

  /** Replaying the same entries at a later time changes no row: no second epoch, no later revocation time. */
  lemma ReplayTwice(t: Tables, es: set<Entry>, now: int, later: int)
    ensures Replay(Replay(t, es, now), es, later) == Replay(t, es, now)
  {
    var v := Replay(t, es, now);
    OwnersStay(t, v, RetiredWallets(es));
    assert Affected(v, es) == Affected(t, es);
    ContextsSettled(t, es, now, later);
    var again := AfterEntries(v, es, later);
    assert again.tombstones == v.tombstones;
    assert again.sessions == v.sessions;
    assert ChallengesRevoked(again, Affected(t, es), later) == v.challenges;
    assert WithoutUsers(again.sessions, Affected(t, es)) == v.sessions;
    assert again.subjects + Affected(t, es) == v.subjects;
  }

  /** Applying the same registry again later, under a fresh anchor, is accepted and changes nothing. */
  lemma ApplyTwice(t: Tables, r: Registry, a: Anchor, b: Anchor, key: string, verifies: Verifier, now: int, later: int)
    requires Applied(t, r, a, key, verifies, now, true).1.Quarantined?
    requires Validation(r, b, key, verifies, later).None?
    ensures var v := Applied(t, r, a, key, verifies, now, true).0;
            var (w, report) := Applied(v, r, b, key, verifies, later, true);
            report.Quarantined? && w == v && report.sessionsRevoked == 0
  {
    var es := SetOf(r.body.entries);
    var v := Applied(t, r, a, key, verifies, now, true).0;
    var fresher := Replay(t, es, now);
    ReplayTwice(t, es, now, later);
    assert v == fresher.(head := Some(Head(r.body.sequence, r)));
    OwnersStay(fresher, v, RetiredWallets(es));
    ReplayIgnoresHead(fresher, Some(Head(r.body.sequence, r)), es, later);
  }

  lemma ReplayIgnoresHead(t: Tables, head: Option<Head>, es: set<Entry>, now: int)
    ensures Replay(t.(head := head), es, now) == Replay(t, es, now).(head := head)
  {
    OwnersStay(t, t.(head := head), RetiredWallets(es));
  }

  // ---------------------------------------------------------------- ever after

  /**
    A replay; what the application does with sessions and login contexts (a context prepared, a
    sign-in with or without one that drops what sessions it must, a sign-out, expiry); and any other
    write of a row that the triggers let through.
   */
  datatype Action =
    | Prepare(context: string)
    | SignIn(prepared: Option<string>, hash: string, user: string, dropped: set<string>)
    | SignOut(contexts: set<string>, leaving: Option<string>, now: int)
    | Expire(hashes: set<string>)
    | Apply(registry: Registry, anchor: Anchor, key: string, verifies: Verifier, now: int, sound: bool)
    | InsertSession(hash: string, session: Session)
    | UpdateSession(from: string, hash: string, session: Session)
    | DeleteSession(hash: string)
    | InsertChallenge(id: string, challenge: Challenge)
    | UpdateChallenge(id: string, revokedAt: Option<int>)
    | InsertIdentity(address: string, identity: Identity)
    | SetLinks(links: set<(string, string)>)
    | SetContext(hash: string, row: Context)

  /** `_recovery_block_session_insert` and `_recovery_block_session_update`. */
  predicate SessionBlocked(t: Tables, hash: string, s: Session) {
    t.head.Some? && (s.userId in t.subjects || hash in RevokedHashes(t.tombstones))
  }

  /** `_recovery_block_login`. */
  predicate LoginBlocked(t: Tables, c: Challenge) {
    t.head.Some? && (c.targetUser in t.subjects || c.address in RetiredWallets(t.tombstones))
  }

  /** `_recovery_block_wallet`. */
  predicate WalletBlocked(t: Tables, address: string, i: Identity) {
    t.head.Some? && i.active && address in RetiredWallets(t.tombstones)
  }

  function WithoutContexts(ss: map<string, Session>, contexts: set<string>): map<string, Session> {
    map k | k in ss && !(ss[k].contextHash.Some? && ss[k].contextHash.value in contexts) :: ss[k]
  }

  /** The batch of a sign-in: all of it, or none when a guard, a key or a trigger refuses. */
  function SignedIn(t: Tables, context: Option<string>, hash: string, user: string, dropped: set<string>): Tables {
    var s := Session(user, context);
    var kept := WithoutHashes(t.sessions, dropped);
    if SessionBlocked(t, hash, s) then t
    else
      match context
      case None => if hash in kept then t else t.(sessions := kept[hash := s])
      case Some(c) =>
        var left := WithoutContexts(kept, {c});
        if c !in t.contexts || t.contexts[c].revokedAt.Some? || hash in left then t
        else t.(sessions := left[hash := s], contexts := t.contexts[c := t.contexts[c].(active := Some(hash))])
  }

  function SignedOut(t: Tables, contexts: set<string>, hash: Option<string>, now: int): Tables {
    t.(contexts := map c | c in t.contexts :: if c in contexts then Revoke(t.contexts[c], now) else t.contexts[c],
                                              sessions := WithoutContexts(WithoutHashes(t.sessions, if hash.Some? then {hash.value} else {}), contexts))
  }

  function Next(t: Tables, a: Action): Tables {
    match a
    case Prepare(c) => if c in t.contexts then t else t.(contexts := t.contexts[c := Context(None, None, 1)])
    case SignIn(context, hash, user, dropped) => SignedIn(t, context, hash, user, dropped)
    case SignOut(contexts, hash, now) => SignedOut(t, contexts, hash, now)
    case Expire(hashes) => t.(sessions := WithoutHashes(t.sessions, hashes))
    case Apply(r, anchor, key, verifies, now, sound) => Applied(t, r, anchor, key, verifies, now, sound).0
    case InsertSession(hash, s) =>
      if SessionBlocked(t, hash, s) then t else t.(sessions := t.sessions[hash := s])
    case UpdateSession(from, hash, s) =>
      if from !in t.sessions || SessionBlocked(t, hash, s) then t
      else t.(sessions := (t.sessions - {from})[hash := s])
    case DeleteSession(hash) => t.(sessions := t.sessions - {hash})
    case InsertChallenge(id, c) =>
      if LoginBlocked(t, c) || id in t.challenges then t else t.(challenges := t.challenges[id := c])
    case UpdateChallenge(id, revokedAt) =>
      // The migration's own trigger: a revocation time, once set, is never changed.
      if id !in t.challenges || t.challenges[id].revokedAt.Some? then t
      else t.(challenges := t.challenges[id := t.challenges[id].(revokedAt := revokedAt)])
    case InsertIdentity(address, i) =>
      if WalletBlocked(t, address, i) || address in t.identities then t
      else t.(identities := t.identities[address := i])
    case SetLinks(links) => t.(links := links)
    case SetContext(hash, c) => t.(contexts := t.contexts[hash := c])
  }

  function Run(t: Tables, actions: seq<Action>): Tables {
    if actions == [] then t else Next(Run(t, actions[..|actions| - 1]), actions[|actions| - 1])
  }

  /** A restore nothing has been replayed into. */
  ghost predicate Untouched(t: Tables) { t.head.None? && t.tombstones == {} && t.subjects == {} }

  /** The owner of every active wallet that is retired is quarantined. */
  ghost predicate OwnersBlocked(t: Tables) {
    t.schema.identities ==>
      forall a, e :: a in t.identities && t.identities[a].active && e in t.tombstones && e.kind == WalletRetired && e.subject == a ==>
                       t.identities[a].userId in t.subjects
  }

  /** No session of a quarantined user or under a revoked hash, and no login of one still open. */
  ghost predicate Safe(t: Tables) {
    && (forall h :: h in t.sessions ==> t.sessions[h].userId !in t.subjects && h !in RevokedHashes(t.tombstones))
    && ErasedUsers(t.tombstones) <= t.subjects && OwnersBlocked(t)
    && (t.schema.contexts && t.schema.challenges ==>
          forall i :: i in t.challenges && t.challenges[i].targetUser in t.subjects ==> t.challenges[i].revokedAt.Some?)
    && (t.head.None? ==> t.tombstones == {} && t.subjects == {})
  }

  lemma ReplaySafe(t: Tables, es: set<Entry>, now: int)
    requires Safe(t) && t.tombstones <= es
    ensures var v := Replay(t, es, now);
            && (forall h :: h in v.sessions ==> v.sessions[h].userId !in v.subjects && h !in RevokedHashes(v.tombstones))
            && ErasedUsers(v.tombstones) <= v.subjects && OwnersBlocked(v)
            && (v.schema.contexts && v.schema.challenges ==>
                  forall i :: i in v.challenges && v.challenges[i].targetUser in v.subjects ==> v.challenges[i].revokedAt.Some?)
  {
    var v := Replay(t, es, now);
    assert v.tombstones == es;
    forall h | h in v.sessions ensures v.sessions[h].userId !in v.subjects && h !in RevokedHashes(es) {
      SessionsLeft(t, es, now, h);
    }
  }

  lemma SessionsSafe(t: Tables, sessions: map<string, Session>, contexts: map<string, Context>)
    requires Safe(t)
    requires forall h :: h in sessions ==>
                           (h in t.sessions && sessions[h] == t.sessions[h]) || !SessionBlocked(t, h, sessions[h])
    ensures Safe(t.(sessions := sessions, contexts := contexts))
  {}

  lemma SignInSafe(t: Tables, context: Option<string>, hash: string, user: string, dropped: set<string>)
    requires Safe(t)
    ensures Safe(SignedIn(t, context, hash, user, dropped))
  {
    var v := SignedIn(t, context, hash, user, dropped);
    SessionsSafe(t, v.sessions, v.contexts);
    assert v == t.(sessions := v.sessions, contexts := v.contexts);
  }

  lemma SignOutSafe(t: Tables, contexts: set<string>, hash: Option<string>, now: int)
    requires Safe(t)
    ensures Safe(SignedOut(t, contexts, hash, now))
  {
    var v := SignedOut(t, contexts, hash, now);
    SessionsSafe(t, v.sessions, v.contexts);
    assert v == t.(sessions := v.sessions, contexts := v.contexts);
  }

  lemma NextSafe(t: Tables, a: Action)
    requires Safe(t)
    ensures Safe(Next(t, a))
  {
    if a.SignIn? { SignInSafe(t, a.prepared, a.hash, a.user, a.dropped); }
    else if a.SignOut? { SignOutSafe(t, a.contexts, a.leaving, a.now); }
    else if a.Apply? { ApplySafe(t, a.registry, a.anchor, a.key, a.verifies, a.now, a.sound); }
    else { WriteSafe(t, a); }
  }

  lemma WriteSafe(t: Tables, a: Action)
    requires Safe(t) && !a.SignIn? && !a.SignOut? && !a.Apply?
    ensures Safe(Next(t, a))
  {}

  lemma ApplySafe(t: Tables, r: Registry, a: Anchor, key: string, verifies: Verifier, now: int, sound: bool)
    requires Safe(t)
    ensures Safe(Applied(t, r, a, key, verifies, now, sound).0)
  {
    if Applied(t, r, a, key, verifies, now, sound).1.Quarantined? { ReplaySafe(t, SetOf(r.body.entries), now); }
  }

  /**
    Whatever is written between and after replays, no reachable state holds a session of a
    quarantined user or under a revoked hash.
   */
  lemma {:induction false} AlwaysSafe(t: Tables, actions: seq<Action>)
    requires Untouched(t)
    ensures Safe(Run(t, actions))
  {
    if actions != [] {
      AlwaysSafe(t, actions[..|actions| - 1]);
      NextSafe(Run(t, actions[..|actions| - 1]), actions[|actions| - 1]);
    }
  }

  /** What a later state keeps of the registry applied before. */
  ghost predicate Advances(t: Tables, v: Tables) {
    && t.tombstones <= v.tombstones && t.subjects <= v.subjects
    && (t.head.Some? ==>
          v.head.Some? && t.head.value.sequence <= v.head.value.sequence
          && (t.head.value.sequence == v.head.value.sequence ==> t.head == v.head))
    && (v.head != t.head ==> v.head.Some? && v.tombstones == SetOf(v.head.value.registry.body.entries))
  }

  ghost predicate HeadTrue(t: Tables) {
    t.head.Some? ==> t.head.value.sequence == t.head.value.registry.body.sequence
                     && t.tombstones == SetOf(t.head.value.registry.body.entries)
  }

  lemma NextAdvances(t: Tables, a: Action)
    requires HeadTrue(t)
    ensures Advances(t, Next(t, a)) && HeadTrue(Next(t, a))
  {
    if a.Apply? {
      if Applied(t, a.registry, a.anchor, a.key, a.verifies, a.now, a.sound).1.Quarantined? {
        CommitAdvances(t, a.registry, a.anchor, a.key, a.verifies, a.now, a.sound);
      }
    }
  }

  /**
    Over every run the registry's sequence never goes back, one sequence never names two registries,
    no tombstone or quarantined user is ever dropped, and the tombstones are always exactly the entries
    of the registry at the head.
   */
  lemma {:induction false} RunsAdvance(t: Tables, actions: seq<Action>)
    requires HeadTrue(t)
    ensures HeadTrue(Run(t, actions)) && Advances(t, Run(t, actions))
  {
    if actions != [] {
      RunsAdvance(t, actions[..|actions| - 1]);
      NextAdvances(Run(t, actions[..|actions| - 1]), actions[|actions| - 1]);
    }
  }
}
