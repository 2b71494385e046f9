/**
  Privacy tombstones replayed into a quarantined restore: what the registry must prove, what the
  replay does to the tables, and what they satisfy ever after.
 */
module Tombstones {
  import opened Identifiers

  datatype Option<+T> = None | Some(value: T)

  // ---------------------------------------------------------------- the registry

  datatype Kind = Erasure | WalletRetired | SessionRevoked

  /** An entry stands for its own hash. */
  datatype Entry = Entry(kind: Kind, subject: string, recordedAtMs: int)

  datatype Body =
    Body(version: int, purpose: string, sequence: int, issuedAtMs: int, validUntilMs: int, entries: seq<Entry>)

  /** A registry stands for its own hash, its head. */
  datatype Registry = Registry(body: Body, signature: string)

  datatype Anchor = Anchor(sequence: int, observedAtMs: int, maxAgeMs: int, head: Option<Registry>)

  /** Whether a key verifies a signature over a body. */
  type Verifier = (string, Body, string) -> bool

  datatype Refusal =
    | BadContext | BadPurpose | BadClock | Expired | NoAnchor | Stale | NotPinned | BadSignature | TooMany
    | BadSubject | BadTime | BadHash | Duplicate
    | Rollback | Omission | BadSchema | ForeignKeys

  function EntryRefusal(e: Entry, seen: set<Entry>, issuedAtMs: int): Option<Refusal> {
    if !(1 <= |e.subject| <= 128) then Some(BadSubject)
    else if !(0 <= e.recordedAtMs <= issuedAtMs) then Some(BadTime)
    else if e.kind.SessionRevoked? && !IsHash(e.subject) then Some(BadHash)
    else if e in seen then Some(Duplicate)
    else None
  }

  function SetOf(entries: seq<Entry>): set<Entry> { set e | e in entries }

  /** The first entry at fault, if any. */
  function EntriesRefusal(entries: seq<Entry>, issuedAtMs: int): Option<Refusal> {
    if entries == [] then None
    else
      var n := |entries| - 1;
      var earlier := EntriesRefusal(entries[..n], issuedAtMs);
      if earlier.Some? then earlier else EntryRefusal(entries[n], SetOf(entries[..n]), issuedAtMs)
  }

  /** Everything `validate_tombstones` asks before it looks at the entries. */
  function EnvelopeRefusal(r: Registry, a: Anchor, key: string, verifies: Verifier, now: int): Option<Refusal> {
    var b := r.body;
    if now < 0 || |key| != 32 then Some(BadContext)
    else if b.version != 1 || b.purpose != "restore-privacy-tombstones" then Some(BadPurpose)
    else if b.sequence < 0 || b.issuedAtMs < 0 || b.validUntilMs < 0 then Some(BadClock)
    else if !(b.issuedAtMs <= now <= b.validUntilMs) then Some(Expired)
    else if a.sequence < 0 || a.observedAtMs < 0 || a.maxAgeMs < 0 then Some(NoAnchor)
    else if a.maxAgeMs == 0 || !(0 <= now - a.observedAtMs <= a.maxAgeMs) then Some(Stale)
    else if a.head != Some(r) || a.sequence != b.sequence then Some(NotPinned)
    else if !verifies(key, b, r.signature) then Some(BadSignature)
    else if |b.entries| > 100000 then Some(TooMany)
    else None
  }

  function Validation(r: Registry, a: Anchor, key: string, verifies: Verifier, now: int): Option<Refusal> {
    var envelope := EnvelopeRefusal(r, a, key, verifies, now);
    if envelope.Some? then envelope else EntriesRefusal(r.body.entries, r.body.issuedAtMs)
  }

  method ValidateTombstones(r: Registry, a: Anchor, key: string, verifies: Verifier, now: int) returns (refusal: Option<Refusal>)
    ensures refusal == Validation(r, a, key, verifies, now)
  {
    refusal := EnvelopeRefusal(r, a, key, verifies, now);
    if refusal.Some? { return; }
    var entries := r.body.entries;
    var seen: set<Entry> := {};
    for i := 0 to |entries|
      invariant EntriesRefusal(entries[..i], r.body.issuedAtMs).None? && seen == SetOf(entries[..i])
    {
      assert entries[..i + 1][..i] == entries[..i];
      refusal := EntryRefusal(entries[i], seen, r.body.issuedAtMs);
      if refusal.Some? {
        RefusedEarly(entries, r.body.issuedAtMs, i + 1);
        return;
      }
      seen := seen + {entries[i]};
    }
    assert entries[..|entries|] == entries;
    return None;
  }

  lemma {:induction false} RefusedEarly(entries: seq<Entry>, issuedAtMs: int, n: nat)
    requires n <= |entries| && EntriesRefusal(entries[..n], issuedAtMs).Some?
    ensures EntriesRefusal(entries, issuedAtMs) == EntriesRefusal(entries[..n], issuedAtMs)
  {
    if n == |entries| {
      assert entries[..n] == entries;
    } else {
      assert entries[..|entries| - 1][..n] == entries[..n];
      RefusedEarly(entries[..|entries| - 1], issuedAtMs, n);
    }
  }

  /** An accepted registry holds each entry once, every one with a bounded subject and time. */
  lemma {:induction false} AcceptedEntries(entries: seq<Entry>, issuedAtMs: int)
    requires EntriesRefusal(entries, issuedAtMs).None?
    ensures |SetOf(entries)| == |entries|
    ensures forall e :: e in entries ==>
                          1 <= |e.subject| <= 128 && 0 <= e.recordedAtMs <= issuedAtMs && (e.kind.SessionRevoked? ==> IsHash(e.subject))
  {
    if entries != [] {
      var n := |entries| - 1;
      AcceptedEntries(entries[..n], issuedAtMs);
      assert entries == entries[..n] + [entries[n]];
      assert SetOf(entries) == SetOf(entries[..n]) + {entries[n]};
    }
  }

  // ---------------------------------------------------------------- the tables

  datatype Session = Session(userId: string, contextHash: Option<string>)
  datatype Context = Context(revokedAt: Option<int>, active: Option<string>, epoch: int)
  datatype Challenge = Challenge(contextHash: string, targetUser: string, address: string, revokedAt: Option<int>)
  datatype Identity = Identity(userId: string, active: bool)
  datatype Head = Head(sequence: int, registry: Registry)

  /** Which of the account tables the restored database has. */
  datatype Schema = Schema(sessions: bool, users: bool, contexts: bool, challenges: bool, identities: bool, links: bool)

  /** `head` is absent, with no tombstone, subject or trigger, until a first replay commits. */
  datatype Tables = Tables(
    schema: Schema,
    sessions: map<string, Session>,
    contexts: map<string, Context>,
    challenges: map<string, Challenge>,
    identities: map<string, Identity>,
    links: set<(string, string)>,
    tombstones: set<Entry>,
    subjects: set<string>,
    head: Option<Head>)

  // ---------------------------------------------------------------- what a replay does

  function RevokedHashes(es: set<Entry>): set<string> { set e | e in es && e.kind.SessionRevoked? :: e.subject }
  function RetiredWallets(es: set<Entry>): set<string> { set e | e in es && e.kind.WalletRetired? :: e.subject }
  function ErasedUsers(es: set<Entry>): set<string> { set e | e in es && e.kind.Erasure? :: e.subject }

  /** The users an address belongs to. */
  function Owners(t: Tables, addresses: set<string>): set<string> {
    (if t.schema.identities then set a | a in t.identities && a in addresses :: t.identities[a].userId else {})
    + (if t.schema.links then set l | l in t.links && l.1 in addresses :: l.0 else {})
  }

  function Affected(t: Tables, es: set<Entry>): set<string> { ErasedUsers(es) + Owners(t, RetiredWallets(es)) }

  function Revoke(c: Context, now: int): Context {
    Context(if c.revokedAt.Some? then c.revokedAt else Some(now), None, c.epoch + 1)
  }

  function RevokeActive(c: Context, hashes: set<string>, now: int): Context {
    if c.active.Some? && c.active.value in hashes then Revoke(c, now) else c
  }

  function WithoutHashes(ss: map<string, Session>, hashes: set<string>): map<string, Session> {
    map h | h in ss && h !in hashes :: ss[h]
  }

  function WithoutUsers(ss: map<string, Session>, users: set<string>): map<string, Session> {
    map h | h in ss && ss[h].userId !in users :: ss[h]
  }

  /** A session or a challenge of one of the users names this login context. */
  predicate Names(ss: map<string, Session>, cs: map<string, Challenge>, users: set<string>, context: string) {
    || (exists h :: h in ss && ss[h].userId in users && ss[h].contextHash == Some(context))
    || (exists i :: i in cs && cs[i].targetUser in users && cs[i].contextHash == context)
  }

  function RevokeNamed(c: Context, named: bool, now: int): Context {
    if c.revokedAt.None? && named then Revoke(c, now) else c
  }

  function RevokeChallenge(c: Challenge, users: set<string>, now: int): Challenge {
    if c.targetUser in users && c.revokedAt.None? then c.(revokedAt := Some(now)) else c
  }

  function ActiveRevoked(t: Tables, hashes: set<string>, now: int): map<string, Context> {
    if t.schema.contexts then map h | h in t.contexts :: RevokeActive(t.contexts[h], hashes, now) else t.contexts
  }

  function AfterEntries(t: Tables, es: set<Entry>, now: int): Tables {
    t.(tombstones := t.tombstones + es,
    sessions := WithoutHashes(t.sessions, RevokedHashes(es)),
    contexts := ActiveRevoked(t, RevokedHashes(es), now))
  }

  function NamedRevoked(t: Tables, users: set<string>, now: int): map<string, Context> {
    if t.schema.contexts && t.schema.challenges
    then map h | h in t.contexts :: RevokeNamed(t.contexts[h], Names(t.sessions, t.challenges, users, h), now)
    else t.contexts
  }

  function ChallengesRevoked(t: Tables, users: set<string>, now: int): map<string, Challenge> {
    if t.schema.contexts && t.schema.challenges
    then map i | i in t.challenges :: RevokeChallenge(t.challenges[i], users, now)
    else t.challenges
  }

  function AfterUsers(t: Tables, users: set<string>, now: int): Tables {
    t.(subjects := t.subjects + users,
    sessions := WithoutUsers(t.sessions, users),
    contexts := NamedRevoked(t, users, now),
    challenges := ChallengesRevoked(t, users, now))
  }

  /** The rows after a replay: of the entries as a collection, and of the users in no order. */
  function Replay(t: Tables, es: set<Entry>, now: int): Tables {
    AfterUsers(AfterEntries(t, es, now), Affected(t, es), now)
  }

  function HistoryRefusal(t: Tables, r: Registry): Option<Refusal> {
    if t.head.Some? && (r.body.sequence < t.head.value.sequence
                        || (r.body.sequence == t.head.value.sequence && r != t.head.value.registry))
    then Some(Rollback)
    else if !(t.tombstones <= SetOf(r.body.entries)) then Some(Omission)
      else if !t.schema.sessions || !t.schema.users then Some(BadSchema)
      else None
  }

  datatype Report =
    | Refused(why: Refusal)
    | Quarantined(head: Head, tombstonesApplied: nat, blockedSubjects: nat, sessionsRevoked: int)

  /** The whole program: tables after, and what it reports. `sound` is the foreign key check. */
  function Applied(t: Tables, r: Registry, a: Anchor, key: string, verifies: Verifier, now: int, sound: bool): (Tables, Report) {
    var refusal := Validation(r, a, key, verifies, now);
    if refusal.Some? then (t, Refused(refusal.value))
    else if HistoryRefusal(t, r).Some? then (t, Refused(HistoryRefusal(t, r).value))
    else if !sound then (t, Refused(ForeignKeys))
    else
      var es := SetOf(r.body.entries);
      var head := Head(r.body.sequence, r);
      var v := Replay(t, es, now).(head := Some(head));
      (v, Quarantined(head, |es|, |Affected(t, es)|, |t.sessions| - |v.sessions|))
  }

  // ---------------------------------------------------------------- the program

  class RestoreDatabase {
    var tables: Tables

    constructor (t: Tables)
      ensures tables == t
    {
      tables := t;
    }

    /** The statements for a revoked session. */
    method RevokeSession(hash: string, now: int)
      modifies this
      ensures tables == old(tables).(sessions := WithoutHashes(old(tables).sessions, {hash}),
                        contexts := ActiveRevoked(old(tables), {hash}, now))
    {
      var t := tables;
      if t.schema.contexts {
        tables := tables.(contexts := map h | h in t.contexts ::
          if t.contexts[h].active == Some(hash) then Revoke(t.contexts[h], now) else t.contexts[h]);
      }
      assert tables.contexts == ActiveRevoked(t, {hash}, now);
      tables := tables.(sessions := tables.sessions - {hash});
      assert tables.sessions == WithoutHashes(t.sessions, {hash});
    }

    /** The users a retired wallet belongs to. */
    method OwnersOf(address: string) returns (owners: set<string>)
      ensures owners == Owners(tables, {address})
    {
      owners := {};
      if tables.schema.identities {
        owners := owners + set a | a in tables.identities && a == address :: tables.identities[a].userId;
      }
      if tables.schema.links {
        owners := owners + set l | l in tables.links && l.1 == address :: l.0;
      }
    }

    /** One registry entry; the users it concerns. */
    method ReplayEntry(e: Entry, now: int) returns (concerned: set<string>)
      modifies this
      ensures concerned == Affected(old(tables), {e})
      ensures tables == AfterEntries(old(tables), {e}, now)
    {
      OneEntry(e);
      NoHashes(tables, now);
      tables := tables.(tombstones := tables.tombstones + {e});
      match e.kind {
        case Erasure =>
          concerned := {e.subject};
        case WalletRetired =>
          concerned := OwnersOf(e.subject);
        case SessionRevoked =>
          RevokeSession(e.subject, now);
          concerned := {};
      }
    }

    /** One user of the affected ones. */
    method QuarantineUser(user: string, now: int)
      modifies this
      ensures tables == AfterUsers(old(tables), {user}, now)
    {
      var t := tables;
      tables := tables.(subjects := tables.subjects + {user});
      if t.schema.contexts && t.schema.challenges {
        tables := tables.(
        contexts := map h | h in t.contexts ::
          if t.contexts[h].revokedAt.None? && Names(t.sessions, t.challenges, {user}, h)
          then Revoke(t.contexts[h], now) else t.contexts[h],
          challenges := map i | i in t.challenges ::
            if t.challenges[i].targetUser == user && t.challenges[i].revokedAt.None?
            then t.challenges[i].(revokedAt := Some(now)) else t.challenges[i]);
      }
      assert tables.contexts == NamedRevoked(t, {user}, now) && tables.challenges == ChallengesRevoked(t, {user}, now);
      tables := tables.(sessions := map h | h in t.sessions && t.sessions[h].userId != user :: t.sessions[h]);
      assert tables.sessions == WithoutUsers(t.sessions, {user});
    }

    method ApplyRestoreTombstones(r: Registry, a: Anchor, key: string, verifies: Verifier, now: int, sound: bool)
      returns (report: Report)
      modifies this
      ensures tables == Applied(old(tables), r, a, key, verifies, now, sound).0
      ensures report == Applied(old(tables), r, a, key, verifies, now, sound).1
    {
      var refusal := ValidateTombstones(r, a, key, verifies, now);
      if refusal.Some? { return Refused(refusal.value); }
      var saved := tables;
      refusal := HistoryRefusal(tables, r);
      if refusal.Some? { return Refused(refusal.value); }
      var before := |tables.sessions|;
      var users := ReplayAll(r, now);
      if !sound {
        tables := saved;
        return Refused(ForeignKeys);
      }
      return Quarantined(Head(r.body.sequence, r), |SetOf(r.body.entries)|, |users|, before - |tables.sessions|);
    }

    /** Every entry, then every user they concern, and the new head. */
    method ReplayAll(r: Registry, now: int) returns (users: set<string>)
      modifies this
      ensures users == Affected(old(tables), SetOf(r.body.entries))
      ensures tables == Replay(old(tables), SetOf(r.body.entries), now).(head := Some(Head(r.body.sequence, r)))
    {
      users := ReplayEntries(r.body.entries, now);
      QuarantineAll(users, now);
      tables := tables.(head := Some(Head(r.body.sequence, r)));
    }

    method ReplayEntries(entries: seq<Entry>, now: int) returns (users: set<string>)
      modifies this
      ensures users == Affected(old(tables), SetOf(entries))
      ensures tables == AfterEntries(old(tables), SetOf(entries), now)
    {
      users := {};
      ghost var start, done: set<Entry> := tables, {};
      NoEntries(tables, now);
      for i := 0 to |entries|
        invariant done == SetOf(entries[..i])
        invariant users == Affected(start, done)
        invariant tables == AfterEntries(start, done, now)
      {
        OneMoreEntry(entries, i);
        EntriesCompose(start, done, {entries[i]}, now);
        var concerned := ReplayEntry(entries[i], now);
        users := users + concerned;
        done := done + {entries[i]};
      }
      assert entries[..|entries|] == entries;
    }

    /** The users one after the other, in whatever order the set yields them. */
    method QuarantineAll(users: set<string>, now: int)
      modifies this
      ensures tables == AfterUsers(old(tables), users, now)
    {
      var todo := users;
      ghost var start, finished: set<string> := tables, {};
      NoUsers(tables, now);
      while todo != {}
        invariant finished + todo == users
        invariant tables == AfterUsers(start, finished, now)
        decreases |todo|
      {
        var user :| user in todo;
        UsersCompose(start, finished, {user}, now);
        QuarantineUser(user, now);
        todo := todo - {user};
        finished := finished + {user};
      }
      assert finished == users;
    }
  }

  // ---------------------------------------------------------------- why the order does not matter

  lemma OneMoreEntry(entries: seq<Entry>, i: nat)
    requires i < |entries|
    ensures SetOf(entries[..i + 1]) == SetOf(entries[..i]) + {entries[i]}
  {
    assert entries[..i + 1] == entries[..i] + [entries[i]];
  }

  lemma OneEntry(e: Entry)
    ensures RevokedHashes({e}) == if e.kind.SessionRevoked? then {e.subject} else {}
    ensures RetiredWallets({e}) == if e.kind.WalletRetired? then {e.subject} else {}
    ensures ErasedUsers({e}) == if e.kind.Erasure? then {e.subject} else {}
  {}

  lemma NoHashes(t: Tables, now: int)
    ensures WithoutHashes(t.sessions, {}) == t.sessions && ActiveRevoked(t, {}, now) == t.contexts
    ensures Owners(t, {}) == {}
  {}

  lemma NoEntries(t: Tables, now: int)
    ensures AfterEntries(t, SetOf([]), now) == t && Affected(t, SetOf([])) == {}
  {
    NoHashes(t, now);
    assert RevokedHashes({}) == {} && RetiredWallets({}) == {} && ErasedUsers({}) == {};
  }

  lemma NoUsers(t: Tables, now: int)
    ensures AfterUsers(t, {}, now) == t
  {
    assert WithoutUsers(t.sessions, {}) == t.sessions;
    assert NamedRevoked(t, {}, now) == t.contexts;
    assert ChallengesRevoked(t, {}, now) == t.challenges;
  }

  lemma EntrySetsUnion(a: set<Entry>, b: set<Entry>)
    ensures RevokedHashes(a + b) == RevokedHashes(a) + RevokedHashes(b)
    ensures RetiredWallets(a + b) == RetiredWallets(a) + RetiredWallets(b)
    ensures ErasedUsers(a + b) == ErasedUsers(a) + ErasedUsers(b)
  {}

  lemma OwnersUnion(t: Tables, a: set<string>, b: set<string>)
    ensures Owners(t, a + b) == Owners(t, a) + Owners(t, b)
  {}

  lemma SessionHashesCompose(ss: map<string, Session>, a: set<string>, b: set<string>)
    ensures WithoutHashes(WithoutHashes(ss, a), b) == WithoutHashes(ss, a + b)
  {}

  /** Revoking an active session clears it, so no second hash finds it again. */
  lemma ActiveRevokedCompose(t: Tables, v: Tables, a: set<string>, b: set<string>, now: int)
    requires v.schema == t.schema && v.contexts == ActiveRevoked(t, a, now)
    ensures ActiveRevoked(v, b, now) == ActiveRevoked(t, a + b, now)
  {
    forall h | h in t.contexts && t.schema.contexts
      ensures RevokeActive(RevokeActive(t.contexts[h], a, now), b, now) == RevokeActive(t.contexts[h], a + b, now)
    {}
  }

  lemma EntriesCompose(t: Tables, a: set<Entry>, b: set<Entry>, now: int)
    ensures AfterEntries(AfterEntries(t, a, now), b, now) == AfterEntries(t, a + b, now)
    ensures Affected(AfterEntries(t, a, now), b) == Affected(t, b)
    ensures Affected(t, a) + Affected(t, b) == Affected(t, a + b)
  {
    EntrySetsUnion(a, b);
    OwnersUnion(t, RetiredWallets(a), RetiredWallets(b));
    SessionHashesCompose(t.sessions, RevokedHashes(a), RevokedHashes(b));
    ActiveRevokedCompose(t, AfterEntries(t, a, now), RevokedHashes(a), RevokedHashes(b), now);
    OwnersStay(t, AfterEntries(t, a, now), RetiredWallets(b));
  }

  lemma OwnersStay(t: Tables, v: Tables, addresses: set<string>)
    requires v.schema == t.schema && v.identities == t.identities && v.links == t.links
    ensures Owners(v, addresses) == Owners(t, addresses)
  {}

  lemma SessionUsersCompose(ss: map<string, Session>, a: set<string>, b: set<string>)
    ensures WithoutUsers(WithoutUsers(ss, a), b) == WithoutUsers(ss, a + b)
  {}

  /** A context the first users do not name is named by the second exactly as if the first were never there. */
  lemma NamesCompose(ss: map<string, Session>, cs: map<string, Challenge>, ds: map<string, Challenge>,
                     a: set<string>, b: set<string>, context: string)
    requires ds.Keys == cs.Keys
    requires forall i :: i in cs ==> ds[i].targetUser == cs[i].targetUser && ds[i].contextHash == cs[i].contextHash
    ensures Names(ss, cs, a + b, context) <==>
            Names(ss, cs, a, context) || Names(WithoutUsers(ss, a), ds, b, context)
  {
    var rest := WithoutUsers(ss, a);
    if h :| h in ss && ss[h].userId in a + b && ss[h].contextHash == Some(context) {
      if ss[h].userId !in a { assert h in rest && rest[h] == ss[h]; }
    }
    if i :| i in cs && cs[i].targetUser in a + b && cs[i].contextHash == context {
      if cs[i].targetUser !in a { assert i in ds && ds[i].targetUser in b; }
    }
  }

  lemma NamedRevokedCompose(t: Tables, a: set<string>, b: set<string>, now: int)
    ensures NamedRevoked(AfterUsers(t, a, now), b, now) == NamedRevoked(t, a + b, now)
  {
    if t.schema.contexts && t.schema.challenges {
      var v := AfterUsers(t, a, now);
      forall h | h in t.contexts
        ensures NamedRevoked(v, b, now)[h] == NamedRevoked(t, a + b, now)[h]
      {
        NamesCompose(t.sessions, t.challenges, v.challenges, a, b, h);
      }
    }
  }

  lemma ChallengesRevokedCompose(t: Tables, a: set<string>, b: set<string>, now: int)
    ensures ChallengesRevoked(AfterUsers(t, a, now), b, now) == ChallengesRevoked(t, a + b, now)
  {}

  lemma UsersCompose(t: Tables, a: set<string>, b: set<string>, now: int)
    ensures AfterUsers(AfterUsers(t, a, now), b, now) == AfterUsers(t, a + b, now)
  {
    SessionUsersCompose(t.sessions, a, b);
    NamedRevokedCompose(t, a, b, now);
    ChallengesRevokedCompose(t, a, b, now);
  }
}
