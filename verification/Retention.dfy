/**
  The retention plan of `backup_schedule.py`: which archives could be deleted, and which must stay.
 */
module Retention {
  import opened Identifiers
  import opened Sorting
  import opened Strings

  /** `createdAtMs` is None where the record holds no integer; an absent hash is the empty string. */
  datatype Archive = Archive(backupId: string, createdAtMs: Option<int>, verified: bool, pinned: bool, archiveSha256: string)
  datatype Option<+T> = None | Some(value: T)

  datatype Candidate = Candidate(backupId: string, archiveSha256: string)

  /** The inventory stands for the hash taken of it. */
  datatype Plan = Plan(asOf: int, retentionDays: int, minimum: int, inventory: seq<Archive>, candidates: seq<Candidate>)
  datatype Refusal = BadClock | BadParameter | BadInventory
  datatype Outcome = Planned(plan: Plan) | Refused(why: Refusal)

  const DAY_MS := 86400000

  // ---------------------------------------------------------------- the two orders

  function Created(a: Archive): int { if a.createdAtMs.Some? then a.createdAtMs.value else 0 }

  /** `reverse=True` on (createdAtMs, backupId). */
  predicate Newer(a: Archive, b: Archive) {
    Created(a) > Created(b) || (Created(a) == Created(b) && Earlier(b.backupId, a.backupId))
  }

  predicate ArchiveById(a: Archive, b: Archive) { Earlier(a.backupId, b.backupId) }
  predicate CandidateById(a: Candidate, b: Candidate) { Earlier(a.backupId, b.backupId) }

  lemma Orderings()
    ensures Ordering(Newer) && Ordering(ArchiveById) && Ordering(CandidateById)
  {
    forall a: string ensures !Earlier(a, a) { EarlierIsStrict(a); }
    forall a: string, b: string, c: string | Earlier(a, b) && Earlier(b, c) ensures Earlier(a, c) {
      EarlierIsTransitive(a, b, c);
    }
    forall a: string, b: string, c: string | !Earlier(b, a) && !Earlier(c, b) ensures !Earlier(c, a) {
      EarlierIsTotal(a, b);
      EarlierIsTotal(b, c);
    }
    forall a: string, b: string ensures a == b || Earlier(a, b) || Earlier(b, a) { EarlierIsTotal(a, b); }
  }

  // ---------------------------------------------------------------- the plan

  function IfVerified(a: Archive): seq<Archive> { if a.verified then [a] else [] }

  function Verified(archives: seq<Archive>): seq<Archive> { Choose(IfVerified, archives) }

  function First<T>(s: seq<T>, n: nat): seq<T> { if n < |s| then s[..n] else s }

  function Ranked(archives: seq<Archive>): seq<Archive> { Sort(Newer, Verified(archives)) }

  function Kept(archives: seq<Archive>, minimum: nat): (keep: set<string>) {
    set a | a in First(Ranked(archives), minimum) :: a.backupId
  }

  predicate Acceptable(a: Archive, now: int) {
    IsBackupId(a.backupId) && a.createdAtMs.Some? && a.createdAtMs.value <= now && (a.verified ==> IsHash(a.archiveSha256))
  }

  predicate Expired(a: Archive, keep: set<string>, now: int, days: int) {
    a.verified && !a.pinned && a.backupId !in keep && now - Created(a) > days * DAY_MS
  }

  function Listed(a: Archive): Candidate { Candidate(a.backupId, a.archiveSha256) }

  function Selected(archives: seq<Archive>, keep: set<string>, now: int, days: int): seq<Candidate> {
    Choose(a => if Expired(a, keep, now, days) then [Listed(a)] else [], archives)
  }

  /** What the program answers. */
  function Planning(archives: seq<Archive>, now: int, days: int, minimum: int): Outcome {
    if now < 0 then Refused(BadClock)
    else if days <= 0 || minimum <= 0 then Refused(BadParameter)
    else if exists i :: 0 <= i < |archives| && !Acceptable(archives[i], now) then Refused(BadInventory)
    else
      Planned(Plan(now, days, minimum, Sort(ArchiveById, archives),
                   Sort(CandidateById, Selected(archives, Kept(archives, minimum), now, days))))
  }

  method RetentionPlan(archives: seq<Archive>, now: int, days: int, minimum: int) returns (r: Outcome)
    ensures r == Planning(archives, now, days, minimum)
  {
    if now < 0 { return Refused(BadClock); }
    if days <= 0 || minimum <= 0 { return Refused(BadParameter); }
    var verified := Ranked(archives);
    var keep := set a | a in First(verified, minimum) :: a.backupId;
    var candidates: seq<Candidate> := [];
    for i := 0 to |archives|
      invariant forall k :: 0 <= k < i ==> Acceptable(archives[k], now)
      invariant candidates == Selected(archives[..i], keep, now, days)
    {
      var item := archives[i];
      if !Acceptable(item, now) { return Refused(BadInventory); }
      if item.verified && !item.pinned && item.backupId !in keep && now - Created(item) > days * DAY_MS {
        candidates := candidates + [Candidate(item.backupId, item.archiveSha256)];
      }
      assert archives[..i + 1] == archives[..i] + [item] && (archives[..i] + [item])[..i] == archives[..i];
    }
    assert archives[..|archives|] == archives;
    return Planned(Plan(now, days, minimum, Sort(ArchiveById, archives), Sort(CandidateById, candidates)));
  }

  // ---------------------------------------------------------------- what is listed

  lemma SelectedMembers(archives: seq<Archive>, keep: set<string>, now: int, days: int, c: Candidate)
    ensures c in Selected(archives, keep, now, days) <==>
            exists i :: 0 <= i < |archives| && Expired(archives[i], keep, now, days) && Listed(archives[i]) == c
  {
    var f := a => if Expired(a, keep, now, days) then [Listed(a)] else [];
    ChooseMembers(f, archives, c);
    assert forall a :: c in f(a) <==> Expired(a, keep, now, days) && Listed(a) == c;
  }

  /** An archive is listed exactly when it is verified, unpinned, expired and not among the newest kept. */
  lemma CandidatesAreExpired(archives: seq<Archive>, now: int, days: int, minimum: int, c: Candidate)
    requires Planning(archives, now, days, minimum).Planned?
    ensures c in Planning(archives, now, days, minimum).plan.candidates <==>
            exists i :: 0 <= i < |archives| && Expired(archives[i], Kept(archives, minimum), now, days) && Listed(archives[i]) == c
  {
    var chosen := Selected(archives, Kept(archives, minimum), now, days);
    SortContents(CandidateById, chosen);
    SelectedMembers(archives, Kept(archives, minimum), now, days, c);
    assert c in Sort(CandidateById, chosen) <==> c in multiset(Sort(CandidateById, chosen));
    assert c in chosen <==> c in multiset(chosen);
  }

  /** The list is ordered by backup ID. */
  lemma CandidatesAreSorted(archives: seq<Archive>, now: int, days: int, minimum: int)
    requires Planning(archives, now, days, minimum).Planned?
    ensures var listed := Planning(archives, now, days, minimum).plan.candidates;
            forall i, j :: 0 <= i < j < |listed| ==> !Earlier(listed[j].backupId, listed[i].backupId)
  {
    Orderings();
    SortSorts(CandidateById, Selected(archives, Kept(archives, minimum), now, days));
  }

  // ---------------------------------------------------------------- what stays

  /** How many verified archives are left once everything listed is gone. */
  function Left(archives: seq<Archive>, gone: set<string>): nat {
    if archives == [] then 0
    else
      var a := archives[|archives| - 1];
      Left(archives[..|archives| - 1], gone) + (if a.verified && a.backupId !in gone then 1 else 0)
  }

  function Count(archives: seq<Archive>, gone: set<string>): nat {
    if archives == [] then 0 else Count(archives[1..], gone) + (if archives[0].backupId !in gone then 1 else 0)
  }

  lemma {:induction false} CountOfEnd(s: seq<Archive>, a: Archive, gone: set<string>)
    ensures Count(s + [a], gone) == Count(s, gone) + (if a.backupId !in gone then 1 else 0)
  {
    if s == [] { assert s + [a] == [a]; } else {
      CountOfEnd(s[1..], a, gone);
      assert (s + [a])[1..] == s[1..] + [a];
    }
  }

  lemma {:induction false} LeftIsCount(archives: seq<Archive>, gone: set<string>)
    ensures Left(archives, gone) == Count(Verified(archives), gone)
  {
    if archives != [] {
      var n := |archives| - 1;
      LeftIsCount(archives[..n], gone);
      var rest := Verified(archives[..n]);
      assert Verified(archives) == rest + IfVerified(archives[n]);
      if archives[n].verified { CountOfEnd(rest, archives[n], gone); } else { assert rest + [] == rest; }
    }
  }

  lemma {:induction false} CountInsert(a: Archive, s: seq<Archive>, gone: set<string>)
    ensures Count(Insert(Newer, a, s), gone) == Count(s, gone) + (if a.backupId !in gone then 1 else 0)
  {
    if s != [] && Newer(s[0], a) { CountInsert(a, s[1..], gone); } else { assert ([a] + s)[1..] == s; }
  }

  lemma {:induction false} CountSort(s: seq<Archive>, gone: set<string>)
    ensures Count(Sort(Newer, s), gone) == Count(s, gone)
  {
    if s != [] {
      CountSort(s[1..], gone);
      CountInsert(s[0], Sort(Newer, s[1..]), gone);
    }
  }

  lemma {:induction false} CountFirst(s: seq<Archive>, n: nat, gone: set<string>)
    requires n <= |s| && forall k :: 0 <= k < n ==> s[k].backupId !in gone
    ensures Count(s, gone) >= n
  {
    if n > 0 {
      forall k | 0 <= k < n - 1 ensures s[1..][k].backupId !in gone { assert s[1..][k] == s[k + 1]; }
      CountFirst(s[1..], n - 1, gone);
    }
  }

  /** The backup IDs a plan lists. */
  function Ids(candidates: seq<Candidate>): set<string> { set c | c in candidates :: c.backupId }

  /**
    Deleting every archive whose ID is listed leaves the required number of verified archives, or all
    there are.
   */
  lemma MinimumStays(archives: seq<Archive>, now: int, days: int, minimum: int)
    requires Planning(archives, now, days, minimum).Planned?
    ensures var left := Left(archives, Ids(Planning(archives, now, days, minimum).plan.candidates));
            left >= minimum || left == |Verified(archives)|
  {
    var gone := Ids(Planning(archives, now, days, minimum).plan.candidates);
    var ranked := Ranked(archives);
    var n := |First(ranked, minimum)|;
    forall k | 0 <= k < n ensures ranked[k].backupId !in gone {
      KeptMember(archives, minimum, k);
      if ranked[k].backupId in gone {
        var c :| c in Planning(archives, now, days, minimum).plan.candidates && c.backupId == ranked[k].backupId;
        CandidatesAreExpired(archives, now, days, minimum, c);
      }
    }
    SortContents(Newer, Verified(archives));
    CountFirst(ranked, n, gone);
    CountSort(Verified(archives), gone);
    LeftIsCount(archives, gone);
    CountAtMost(Verified(archives), gone);
  }

  lemma {:induction false} CountAtMost(s: seq<Archive>, gone: set<string>)
    ensures Count(s, gone) <= |s|
  {
    if s != [] { CountAtMost(s[1..], gone); }
  }

  lemma VerifiedMembers(archives: seq<Archive>, a: Archive)
    ensures a in Verified(archives) <==> a in archives && a.verified
  {
    ChooseMembers(IfVerified, archives, a);
    if a in archives && a.verified {
      var i :| 0 <= i < |archives| && archives[i] == a;
      assert a in IfVerified(archives[i]);
    }
  }

  lemma KeptMember(archives: seq<Archive>, minimum: nat, k: nat)
    requires k < minimum && k < |Ranked(archives)|
    ensures Ranked(archives)[k].backupId in Kept(archives, minimum)
  {
    assert First(Ranked(archives), minimum)[k] == Ranked(archives)[k];
  }

  /** Every listed archive ranks below every one of the newest kept. */
  lemma CandidatesRankBelowKept(archives: seq<Archive>, now: int, days: int, minimum: int, i: nat, k: nat)
    requires Planning(archives, now, days, minimum).Planned?
    requires i < |archives| && Expired(archives[i], Kept(archives, minimum), now, days)
    requires k < minimum && k < |Ranked(archives)|
    ensures Newer(Ranked(archives)[k], archives[i])
  {
    var ranked, a := Ranked(archives), archives[i];
    VerifiedMembers(archives, a);
    SortContents(Newer, Verified(archives));
    assert a in multiset(ranked);
    var j :| 0 <= j < |ranked| && ranked[j] == a;
    assert j >= minimum by { if j < minimum { KeptMember(archives, minimum, j); } }
    KeptMember(archives, minimum, k);
    Orderings();
    SortSorts(Newer, Verified(archives));
    assert !Newer(a, ranked[k]);
    EarlierIsTotal(a.backupId, ranked[k].backupId);
  }

  // ---------------------------------------------------------------- order of the inventory

  ghost predicate DistinctIds(archives: seq<Archive>) {
    forall i, j :: 0 <= i < j < |archives| ==> archives[i].backupId != archives[j].backupId
  }

  ghost predicate DistinctCandidates(cs: seq<Candidate>) {
    forall i, j :: 0 <= i < j < |cs| ==> cs[i].backupId != cs[j].backupId
  }

  lemma IdsDistinguish(archives: seq<Archive>)
    requires DistinctIds(archives)
    ensures Distinguished(Newer, archives) && Distinguished(ArchiveById, archives)
  {
    forall i, j | 0 <= i < j < |archives|
      ensures Earlier(archives[i].backupId, archives[j].backupId) || Earlier(archives[j].backupId, archives[i].backupId)
    {
      EarlierIsTotal(archives[i].backupId, archives[j].backupId);
    }
  }

  lemma {:induction false} VerifiedKeepsIds(archives: seq<Archive>)
    requires DistinctIds(archives)
    ensures DistinctIds(Verified(archives))
  {
    if archives != [] {
      var n := |archives| - 1;
      VerifiedKeepsIds(archives[..n]);
      var rest := Verified(archives[..n]);
      forall i | 0 <= i < |rest| ensures rest[i].backupId != archives[n].backupId {
        VerifiedMembers(archives[..n], rest[i]);
      }
    }
  }

  lemma {:induction false} SelectedKeepsIds(archives: seq<Archive>, keep: set<string>, now: int, days: int)
    requires DistinctIds(archives)
    ensures DistinctCandidates(Selected(archives, keep, now, days))
  {
    if archives != [] {
      var n := |archives| - 1;
      SelectedKeepsIds(archives[..n], keep, now, days);
      var rest := Selected(archives[..n], keep, now, days);
      forall i | 0 <= i < |rest| ensures rest[i].backupId != archives[n].backupId {
        SelectedMembers(archives[..n], keep, now, days, rest[i]);
      }
    }
  }

  lemma CandidatesDistinguish(cs: seq<Candidate>)
    requires DistinctCandidates(cs)
    ensures Distinguished(CandidateById, cs)
  {
    forall i, j | 0 <= i < j < |cs| ensures CandidateById(cs[i], cs[j]) || CandidateById(cs[j], cs[i]) {
      EarlierIsTotal(cs[i].backupId, cs[j].backupId);
    }
  }

  lemma RankedIgnoresArrival(s: seq<Archive>, t: seq<Archive>)
    requires multiset(s) == multiset(t) && DistinctIds(s) && DistinctIds(t)
    ensures Ranked(s) == Ranked(t)
  {
    Orderings();
    ChooseIgnoresArrival(IfVerified, s, t);
    VerifiedKeepsIds(s);
    VerifiedKeepsIds(t);
    IdsDistinguish(Verified(s));
    IdsDistinguish(Verified(t));
    SortIgnoresArrival(Newer, Verified(s), Verified(t));
  }

  lemma SelectedIgnoresArrival(s: seq<Archive>, t: seq<Archive>, keep: set<string>, now: int, days: int)
    requires multiset(s) == multiset(t) && DistinctIds(s) && DistinctIds(t)
    ensures Sort(CandidateById, Selected(s, keep, now, days)) == Sort(CandidateById, Selected(t, keep, now, days))
  {
    Orderings();
    ChooseIgnoresArrival(a => if Expired(a, keep, now, days) then [Listed(a)] else [], s, t);
    SelectedKeepsIds(s, keep, now, days);
    SelectedKeepsIds(t, keep, now, days);
    CandidatesDistinguish(Selected(s, keep, now, days));
    CandidatesDistinguish(Selected(t, keep, now, days));
    SortIgnoresArrival(CandidateById, Selected(s, keep, now, days), Selected(t, keep, now, days));
  }

  lemma AcceptanceIgnoresArrival(s: seq<Archive>, t: seq<Archive>, now: int)
    requires multiset(s) == multiset(t) && exists i :: 0 <= i < |s| && !Acceptable(s[i], now)
    ensures exists i :: 0 <= i < |t| && !Acceptable(t[i], now)
  {
    var i :| 0 <= i < |s| && !Acceptable(s[i], now);
    var k := Pull(s, i, t);
  }

  /** With distinct IDs the answer does not depend on the order the inventory was read in. */
  lemma PlanIgnoresArrival(s: seq<Archive>, t: seq<Archive>, now: int, days: int, minimum: int)
    requires multiset(s) == multiset(t) && DistinctIds(s) && DistinctIds(t)
    ensures Planning(s, now, days, minimum) == Planning(t, now, days, minimum)
  {
    if exists i :: 0 <= i < |s| && !Acceptable(s[i], now) {
      AcceptanceIgnoresArrival(s, t, now);
    } else if exists i :: 0 <= i < |t| && !Acceptable(t[i], now) {
      AcceptanceIgnoresArrival(t, s, now);
    } else if minimum > 0 {
      RankedIgnoresArrival(s, t);
      Orderings();
      IdsDistinguish(s);
      IdsDistinguish(t);
      SortIgnoresArrival(ArchiveById, s, t);
      SelectedIgnoresArrival(s, t, Kept(s, minimum), now, days);
    }
  }

  /** As time passes an inventory stays acceptable, and nothing leaves the list. */
  lemma CandidatesGrow(archives: seq<Archive>, now: int, later: int, days: int, minimum: int, c: Candidate)
    requires now <= later && Planning(archives, now, days, minimum).Planned?
    ensures Planning(archives, later, days, minimum).Planned?
    ensures c in Planning(archives, now, days, minimum).plan.candidates ==>
              c in Planning(archives, later, days, minimum).plan.candidates
  {
    CandidatesAreExpired(archives, now, days, minimum, c);
    CandidatesAreExpired(archives, later, days, minimum, c);
    if i :| 0 <= i < |archives| && Expired(archives[i], Kept(archives, minimum), now, days) && Listed(archives[i]) == c {
      assert Expired(archives[i], Kept(archives, minimum), later, days);
    }
  }

  // ---------------------------------------------------------------- in the inventory's own terms

  /** An inventory is refused for the clock first, for the parameters next, for a record at fault last. */
  lemma PlansExactlyWhen(archives: seq<Archive>, now: int, days: int, minimum: int)
    ensures var r := Planning(archives, now, days, minimum);
            && (r == Refused(BadClock) <==> now < 0)
            && (r == Refused(BadParameter) <==> now >= 0 && (days < 1 || minimum < 1))
            && (r.Planned? <==>
                && now >= 0 && days >= 1 && minimum >= 1
                && forall i :: 0 <= i < |archives| ==>
                                 && IsBackupId(archives[i].backupId)
                                 && archives[i].createdAtMs.Some? && archives[i].createdAtMs.value <= now
                                 && (archives[i].verified ==> IsHash(archives[i].archiveSha256)))
            && (r.Planned? ==>
                  && r.plan.asOf == now && r.plan.retentionDays == days && r.plan.minimum == minimum
                  && multiset(r.plan.inventory) == multiset(archives)
                  && (forall i, j :: 0 <= i < j < |r.plan.inventory| ==>
                                       !Earlier(r.plan.inventory[j].backupId, r.plan.inventory[i].backupId)))
  {
    var r := Planning(archives, now, days, minimum);
    if r.Planned? {
      Orderings();
      SortContents(ArchiveById, archives);
      SortSorts(ArchiveById, archives);
      assert forall i :: 0 <= i < |archives| ==> Acceptable(archives[i], now);
    } else if now >= 0 && days >= 1 && minimum >= 1 {
      var i :| 0 <= i < |archives| && !Acceptable(archives[i], now);
    }
  }

  /** `b` is verified, and newer than `a`, or as new with the later ID. */
  predicate Outranks(b: Archive, a: Archive) {
    && b.verified && b.createdAtMs.Some? && a.createdAtMs.Some?
    && (b.createdAtMs.value > a.createdAtMs.value
        || (b.createdAtMs.value == a.createdAtMs.value && Earlier(a.backupId, b.backupId)))
  }

  /** How many archives outrank one. */
  function Outranking(archives: seq<Archive>, a: Archive): nat {
    if archives == [] then 0
    else
      var n := |archives| - 1;
      Outranking(archives[..n], a) + (if Outranks(archives[n], a) then 1 else 0)
  }

  function Above(s: seq<Archive>, a: Archive): nat {
    if s == [] then 0 else Above(s[1..], a) + (if Newer(s[0], a) then 1 else 0)
  }

  lemma {:induction false} AboveOfEnd(s: seq<Archive>, b: Archive, a: Archive)
    ensures Above(s + [b], a) == Above(s, a) + (if Newer(b, a) then 1 else 0)
  {
    if s == [] { assert s + [b] == [b]; } else {
      AboveOfEnd(s[1..], b, a);
      assert (s + [b])[1..] == s[1..] + [b];
    }
  }

  lemma {:induction false} OutrankingIsAbove(archives: seq<Archive>, a: Archive)
    requires a.createdAtMs.Some? && forall i :: 0 <= i < |archives| ==> archives[i].createdAtMs.Some?
    ensures Outranking(archives, a) == Above(Verified(archives), a)
  {
    if archives != [] {
      var n := |archives| - 1;
      OutrankingIsAbove(archives[..n], a);
      var rest := Verified(archives[..n]);
      assert Verified(archives) == rest + IfVerified(archives[n]);
      if archives[n].verified { AboveOfEnd(rest, archives[n], a); } else { assert rest + [] == rest; }
    }
  }

  lemma {:induction false} AboveInsert(b: Archive, s: seq<Archive>, a: Archive)
    ensures Above(Insert(Newer, b, s), a) == Above(s, a) + (if Newer(b, a) then 1 else 0)
  {
    if s != [] && Newer(s[0], b) { AboveInsert(b, s[1..], a); } else { assert ([b] + s)[1..] == s; }
  }

  lemma {:induction false} AboveSort(s: seq<Archive>, a: Archive)
    ensures Above(Sort(Newer, s), a) == Above(s, a)
  {
    if s != [] {
      AboveSort(s[1..], a);
      AboveInsert(s[0], Sort(Newer, s[1..]), a);
    }
  }

  /** In a ranked list the archives above one come first. */
  lemma {:induction false} AboveComeFirst(s: seq<Archive>, a: Archive)
    requires Sorted(Newer, s)
    ensures Above(s, a) <= |s|
    ensures forall k :: 0 <= k < |s| ==> (Newer(s[k], a) <==> k < Above(s, a))
  {
    if s != [] {
      assert Sorted(Newer, s[1..]);
      AboveComeFirst(s[1..], a);
      Orderings();
      if !Newer(s[0], a) && |s| > 1 {
        assert !Newer(s[1], s[0]);
        assert !Newer(s[1..][0], a);
      }
      forall k | 0 <= k < |s| ensures Newer(s[k], a) <==> k < Above(s, a) {
        if k > 0 { assert s[k] == s[1..][k - 1]; }
      }
    }
  }

  /**
    An ID is kept whatever its age exactly when fewer than the minimum of verified archives outrank a
    verified one of that ID.
   */
  lemma KeptExactlyWhen(archives: seq<Archive>, minimum: nat, id: string)
    requires forall i :: 0 <= i < |archives| ==> archives[i].createdAtMs.Some?
    ensures id in Kept(archives, minimum) <==>
            exists i :: 0 <= i < |archives| && archives[i].verified && archives[i].backupId == id
                        && Outranking(archives, archives[i]) < minimum
  {
    var ranked := Ranked(archives);
    SortContents(Newer, Verified(archives));
    Orderings();
    SortSorts(Newer, Verified(archives));
    if id in Kept(archives, minimum) {
      var a :| a in First(ranked, minimum) && a.backupId == id;
      var k :| 0 <= k < |First(ranked, minimum)| && First(ranked, minimum)[k] == a;
      assert a in multiset(ranked);
      VerifiedMembers(archives, a);
      var i :| 0 <= i < |archives| && archives[i] == a;
      RankIsOutranking(archives, a, k);
    }
    if i :| 0 <= i < |archives| && archives[i].verified && archives[i].backupId == id
            && Outranking(archives, archives[i]) < minimum
    {
      FewOutrankIsKept(archives, minimum, i);
    }
  }

  lemma RankIsOutranking(archives: seq<Archive>, a: Archive, k: nat)
    requires forall i :: 0 <= i < |archives| ==> archives[i].createdAtMs.Some?
    requires a in archives && k < |Ranked(archives)| && Ranked(archives)[k] == a
    ensures Outranking(archives, a) <= k
  {
    Orderings();
    SortSorts(Newer, Verified(archives));
    OutrankingIsAbove(archives, a);
    AboveSort(Verified(archives), a);
    AboveComeFirst(Ranked(archives), a);
    assert !Newer(a, a);
  }

  lemma FewOutrankIsKept(archives: seq<Archive>, minimum: nat, i: nat)
    requires forall k :: 0 <= k < |archives| ==> archives[k].createdAtMs.Some?
    requires i < |archives| && archives[i].verified && Outranking(archives, archives[i]) < minimum
    ensures archives[i].backupId in Kept(archives, minimum)
  {
    var a, ranked := archives[i], Ranked(archives);
    var n := Outranking(archives, a);
    OutrankingIsAbove(archives, a);
    AboveSort(Verified(archives), a);
    VerifiedMembers(archives, a);
    SortContents(Newer, Verified(archives));
    assert a in multiset(ranked);
    Orderings();
    SortSorts(Newer, Verified(archives));
    FirstNotAbove(ranked, a, n);
    KeptMember(archives, minimum, n);
  }

  /** The first of a ranked list that is not above one of its members has that member's ID. */
  lemma FirstNotAbove(s: seq<Archive>, a: Archive, n: nat)
    requires Sorted(Newer, s) && a in s && n == Above(s, a)
    ensures n < |s| && s[n].backupId == a.backupId
  {
    AboveComeFirst(s, a);
    var j :| 0 <= j < |s| && s[j] == a;
    EarlierIsStrict(a.backupId);
    assert !Newer(a, a) && n <= j;
    assert !Newer(s[n], a) && !Newer(a, s[n]);
    EarlierIsTotal(a.backupId, s[n].backupId);
  }

  /**
    Verified, not pinned, more than the given days of 86,400,000 milliseconds old, and of an ID that no
    verified archive keeps by its rank.
   */
  ghost predicate Deletable(archives: seq<Archive>, now: int, days: int, minimum: int, a: Archive) {
    && a.verified && !a.pinned && a.createdAtMs.Some? && now - a.createdAtMs.value > days * 86400000
    && forall k :: 0 <= k < |archives| && archives[k].verified && archives[k].backupId == a.backupId ==>
                     Outranking(archives, archives[k]) >= minimum
  }

  lemma ExpiredIsDeletable(archives: seq<Archive>, now: int, days: int, minimum: nat, a: Archive)
    requires (forall i :: 0 <= i < |archives| ==> archives[i].createdAtMs.Some?) && a.createdAtMs.Some?
    ensures Expired(a, Kept(archives, minimum), now, days) <==> Deletable(archives, now, days, minimum, a)
  {
    KeptExactlyWhen(archives, minimum, a.backupId);
  }

  /** The list, in full: an archive is on it exactly when it is deletable. */
  lemma ListedExactlyWhen(archives: seq<Archive>, now: int, days: int, minimum: int, c: Candidate)
    requires Planning(archives, now, days, minimum).Planned?
    ensures c in Planning(archives, now, days, minimum).plan.candidates <==>
            exists i :: && 0 <= i < |archives| && Deletable(archives, now, days, minimum, archives[i])
                        && c == Candidate(archives[i].backupId, archives[i].archiveSha256)
  {
    CandidatesAreExpired(archives, now, days, minimum, c);
    AllAcceptable(archives, now, days, minimum);
    forall i | 0 <= i < |archives|
      ensures Expired(archives[i], Kept(archives, minimum), now, days) <==> Deletable(archives, now, days, minimum, archives[i])
    {
      ExpiredIsDeletable(archives, now, days, minimum, archives[i]);
    }
  }

  lemma AllAcceptable(archives: seq<Archive>, now: int, days: int, minimum: int)
    requires Planning(archives, now, days, minimum).Planned?
    ensures minimum > 0 && forall i :: 0 <= i < |archives| ==> archives[i].createdAtMs.Some?
  {
    assert forall i :: 0 <= i < |archives| ==> Acceptable(archives[i], now);
  }
}
