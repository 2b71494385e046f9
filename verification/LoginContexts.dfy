/**
  The login contexts of affected users under a replay: which are sure to be revoked, because the
  application keeps a context's session and its active session the same, and which would be left.
 */
module LoginContexts {
  import opened Tombstones
  import opened TombstoneTheorems

  /** Every session that names a context is that context's active one, unless the context is revoked. */
  ghost predicate BoundToActive(t: Tables) {
    forall k :: k in t.sessions ==> Bound(k, t.sessions[k], t.contexts)
  }

  ghost predicate Bound(k: string, s: Session, contexts: map<string, Context>) {
    s.contextHash.Some? ==>
      && s.contextHash.value in contexts
      && var c := contexts[s.contextHash.value];
      c.revokedAt.Some? || c.active == Some(k)
  }

  // ---------------------------------------------------------------- one replay

  /**
    Every context that a session or a challenge of an affected user names, in the tables a replay
    starts from, is revoked by it: no login context is left that an affected user could come back
    through.
   */
  lemma ContextsOfAffectedAreRevoked(t: Tables, es: set<Entry>, now: int, h: string)
    requires t.schema.contexts && t.schema.challenges && h in t.contexts && BoundToActive(t)
    requires Names(t.sessions, t.challenges, Affected(t, es), h)
    ensures Replay(t, es, now).contexts[h].revokedAt.Some?
  {
    LeftExactlyWhen(t, es, now, h);
    if k :| k in t.sessions && t.sessions[k].userId in Affected(t, es) && t.sessions[k].contextHash == Some(h) {
      assert Bound(k, t.sessions[k], t.contexts);
    }
  }

  /**
    No challenge of an affected user names the context, and every session of theirs that names it is
    revoked by an entry of its own, while the context is neither revoked nor active under such a session.
   */
  ghost predicate Overlooked(t: Tables, es: set<Entry>, h: string)
    requires h in t.contexts
  {
    && t.contexts[h].revokedAt.None?
    && (t.contexts[h].active.Some? ==> t.contexts[h].active.value !in RevokedHashes(es))
    && (forall k :: k in t.sessions && t.sessions[k].userId in Affected(t, es) && t.sessions[k].contextHash == Some(h) ==>
                      k in RevokedHashes(es))
    && (forall i :: i in t.challenges && t.challenges[i].contextHash == h ==> t.challenges[i].targetUser !in Affected(t, es))
  }

  /** Whatever the tables, a context is left unrevoked exactly when the replay overlooks it. */
  lemma LeftExactlyWhen(t: Tables, es: set<Entry>, now: int, h: string)
    requires t.schema.contexts && t.schema.challenges && h in t.contexts
    ensures Replay(t, es, now).contexts[h].revokedAt.None? <==> Overlooked(t, es, h)
  {
    var users, left := Affected(t, es), WithoutHashes(t.sessions, RevokedHashes(es));
    assert Replay(t, es, now).contexts[h] ==
           RevokeNamed(RevokeActive(t.contexts[h], RevokedHashes(es), now), Names(left, t.challenges, users, h), now);
    if Names(left, t.challenges, users, h) {
      if k :| k in left && left[k].userId in users && left[k].contextHash == Some(h) { assert t.sessions[k] == left[k]; }
    } else {
      forall k | k in t.sessions && t.sessions[k].userId in users && t.sessions[k].contextHash == Some(h)
        ensures k in RevokedHashes(es)
      {
        assert k in RevokedHashes(es) || k in left;
      }
    }
  }

  /** A user erased together with the only session that names a context, which does not have it active. */
  lemma ContextMayBeLeft(user: string, session: string, context: string, now: int)
    ensures var es := {Entry(Erasure, user, 0), Entry(SessionRevoked, session, 0)};
            var t := Tables(Schema(true, true, true, true, true, true), map[session := Session(user, Some(context))],
                            map[context := Context(None, None, 1)], map[], map[], {}, {}, {}, None);
            && Names(t.sessions, t.challenges, Affected(t, es), context)
            && !BoundToActive(t)
            && Replay(t, es, now).contexts[context].revokedAt.None?
  {
    var es := {Entry(Erasure, user, 0), Entry(SessionRevoked, session, 0)};
    var t := Tables(Schema(true, true, true, true, true, true), map[session := Session(user, Some(context))],
                    map[context := Context(None, None, 1)], map[], map[], {}, {}, {}, None);
    assert Entry(Erasure, user, 0) in es && Entry(SessionRevoked, session, 0) in es;
    assert user in ErasedUsers(es) && session in RevokedHashes(es);
    assert session in t.sessions && t.sessions[session].userId in Affected(t, es);
    assert !Bound(session, t.sessions[session], t.contexts);
    LeftExactlyWhen(t, es, now, context);
  }

  // ---------------------------------------------------------------- the application

  /** Sessions and contexts are written only by sign-ins, sign-outs, expiry and replays. */
  ghost predicate ByApplication(a: Action) { !a.InsertSession? && !a.UpdateSession? && !a.SetContext? }

  ghost predicate AllByApplication(actions: seq<Action>) { forall k :: 0 <= k < |actions| ==> ByApplication(actions[k]) }

  /** A sign-in removes the sessions its context had before it makes its own the active one. */
  lemma SignInKeeps(t: Tables, context: Option<string>, hash: string, user: string, dropped: set<string>)
    requires BoundToActive(t)
    ensures BoundToActive(SignedIn(t, context, hash, user, dropped))
  {
    var v := SignedIn(t, context, hash, user, dropped);
    forall k | k in v.sessions && k != hash ensures Bound(k, v.sessions[k], v.contexts) {
      assert k in t.sessions && v.sessions[k] == t.sessions[k];
      assert Bound(k, t.sessions[k], t.contexts);
    }
  }

  lemma SignOutKeeps(t: Tables, contexts: set<string>, hash: Option<string>, now: int)
    requires BoundToActive(t)
    ensures BoundToActive(SignedOut(t, contexts, hash, now))
  {
    var v := SignedOut(t, contexts, hash, now);
    forall k | k in v.sessions ensures Bound(k, v.sessions[k], v.contexts) {
      assert k in t.sessions && v.sessions[k] == t.sessions[k];
      assert Bound(k, t.sessions[k], t.contexts);
    }
  }

  lemma ReplayKeeps(t: Tables, es: set<Entry>, now: int)
    requires BoundToActive(t)
    ensures BoundToActive(Replay(t, es, now))
  {
    var v := Replay(t, es, now);
    forall k | k in v.sessions ensures Bound(k, v.sessions[k], v.contexts) {
      SessionsLeft(t, es, now, k);
      assert Bound(k, t.sessions[k], t.contexts);
      if v.sessions[k].contextHash.Some? { ContextsRevokedOnce(t, es, now, v.sessions[k].contextHash.value); }
    }
  }

  lemma PrepareKeeps(t: Tables, c: string)
    requires BoundToActive(t) && c !in t.contexts
    ensures BoundToActive(t.(contexts := t.contexts[c := Context(None, None, 1)]))
  {
    forall k | k in t.sessions ensures Bound(k, t.sessions[k], t.contexts[c := Context(None, None, 1)]) {
      assert Bound(k, t.sessions[k], t.contexts);
    }
  }

  lemma ExpireKeeps(t: Tables, hashes: set<string>)
    requires BoundToActive(t)
    ensures BoundToActive(t.(sessions := WithoutHashes(t.sessions, hashes)))
  {
    forall k | k in WithoutHashes(t.sessions, hashes) ensures Bound(k, t.sessions[k], t.contexts) {}
  }

  lemma NextKeeps(t: Tables, a: Action)
    requires BoundToActive(t) && ByApplication(a)
    ensures BoundToActive(Next(t, a))
  {
    match a
    case Prepare(c) => if c !in t.contexts { PrepareKeeps(t, c); }
    case SignIn(context, hash, user, dropped) => SignInKeeps(t, context, hash, user, dropped);
    case SignOut(contexts, hash, now) => SignOutKeeps(t, contexts, hash, now);
    case Expire(hashes) => ExpireKeeps(t, hashes);
    case DeleteSession(hash) =>
      ExpireKeeps(t, {hash});
      assert t.sessions - {hash} == WithoutHashes(t.sessions, {hash});
    case Apply(r, _, _, _, now, _) => ReplayKeeps(t, SetOf(r.body.entries), now);
    case _ =>
  }

  /** Whatever the application does and is replayed, a session stays the active one of its context. */
  lemma {:induction false} StaysBound(t: Tables, actions: seq<Action>)
    requires BoundToActive(t) && AllByApplication(actions)
    ensures BoundToActive(Run(t, actions))
  {
    if actions != [] {
      StaysBound(t, actions[..|actions| - 1]);
      NextKeeps(Run(t, actions[..|actions| - 1]), actions[|actions| - 1]);
    }
  }

  /** So from a database without sessions on, every replay revokes every context of those it affects. */
  lemma EveryReplayRevokes(t: Tables, actions: seq<Action>, es: set<Entry>, now: int, h: string)
    requires t.sessions == map[] && AllByApplication(actions)
    requires var v := Run(t, actions);
             v.schema.contexts && v.schema.challenges && h in v.contexts && Names(v.sessions, v.challenges, Affected(v, es), h)
    ensures Replay(Run(t, actions), es, now).contexts[h].revokedAt.Some?
  {
    StaysBound(t, actions);
    ContextsOfAffectedAreRevoked(Run(t, actions), es, now, h);
  }
}
