/**
  Choosing what to delete from a snapshot of the ledger: everything expired, and the oldest of the
  jobs a larger finished job strictly covers, beyond the hundred that may stay.
*/
module PrunePlan {
  import opened Prelude
  import opened LedgerModel
  import Ops = LedgerOps

  const MAX_ELIGIBLE_COVERED := 100

  /** A covered candidate and the job that keeps its answers. */
  datatype Pair = Pair(candidate: Job, keeper: Job)

  function Filter(s: seq<Job>, keep: Job -> bool): (r: seq<Job>)
    ensures forall j :: j in r <==> j in s && keep(j)
  {
    if s == [] then []
    else
      var init := Filter(s[..|s| - 1], keep);
      assert s == s[..|s| - 1] + [Last(s)];
      if keep(Last(s)) then init + [Last(s)] else init
  }

  lemma FilterNext(s: seq<Job>, keep: Job -> bool, i: nat)
    requires i < |s|
    ensures Filter(s[..i + 1], keep) == Filter(s[..i], keep) + if keep(s[i]) then [s[i]] else []
  {
    assert s[..i + 1][..i] == s[..i];
  }

  function Names(jobs: seq<Job>): (r: seq<string>)
    ensures |r| == |jobs| && forall i :: 0 <= i < |jobs| ==> r[i] == jobs[i].fingerprint
  {
    seq(|jobs|, i requires 0 <= i < |jobs| => jobs[i].fingerprint)
  }

  function Out(now: int): Job -> bool { j => Eligible(j, now) && Expired(j, now) }

  function Candidate(now: int): Job -> bool { j => Eligible(j, now) && !Expired(j, now) }

  function ExpiredNames(s: seq<Job>, now: int): seq<string> { Names(Filter(s, Out(now))) }

  function Keepable(expired: seq<string>): Job -> bool { j => FinishedStatus(j) && j.fingerprint !in expired }

  function Pool(s: seq<Job>, now: int): seq<Job> { Filter(s, Keepable(ExpiredNames(s, now))) }

  function Size(job: Job): nat { |SourceSet(job)| }

  /** The last of the largest coverers, as `max_by_key` picks it. */
  function BestCoverer(c: Job, pool: seq<Job>): (best: Option<Job>)
    ensures best.Some? ==> best.value in pool && StrictlyCovered(c, best.value)
    ensures best.Some? ==> forall w :: w in pool && StrictlyCovered(c, w) ==> Size(w) <= Size(best.value)
    ensures best.None? ==> forall w :: w in pool ==> !StrictlyCovered(c, w)
  {
    if pool == [] then None
    else
      var best := BestCoverer(c, pool[..|pool| - 1]);
      assert pool == pool[..|pool| - 1] + [Last(pool)];
      if StrictlyCovered(c, Last(pool)) && (best.None? || Size(best.value) <= Size(Last(pool))) then Some(Last(pool))
      else best
  }

  function Pairs(candidates: seq<Job>, pool: seq<Job>): seq<Pair> {
    if candidates == [] then []
    else
      var init := Pairs(candidates[..|candidates| - 1], pool);
      match BestCoverer(Last(candidates), pool)
      case Some(w) => init + [Pair(Last(candidates), w)]
      case None => init
  }

  function CoveredPairs(s: seq<Job>, now: int): seq<Pair> { Pairs(Filter(s, Candidate(now)), Pool(s, now)) }

  /** The most recent finish of a job, which orders deletion; a job without one comes first. */
  function LastFinish(attempts: seq<Attempt>): (latest: Option<int>)
    ensures forall a :: a in attempts && a.finished.Some? && a.finished.value.At? ==>
      latest.Some? && a.finished.value.t <= latest.value
    ensures latest.Some? ==> exists a :: a in attempts && a.finished == Some(At(latest.value))
  {
    if attempts == [] then None
    else
      var rest := LastFinish(attempts[..|attempts| - 1]);
      assert attempts == attempts[..|attempts| - 1] + [Last(attempts)];
      match Last(attempts).finished
      case Some(At(t)) => if rest.Some? && rest.value > t then rest else Some(t)
      case _ => rest
  }

  predicate Older(a: Option<int>, b: Option<int>) { a.None? || (b.Some? && a.value <= b.value) }

  predicate PairOlder(p: Pair, q: Pair) { Older(LastFinish(p.candidate.attempts), LastFinish(q.candidate.attempts)) }

  /** A stable sort: equal finish times keep their order. */
  function Insert(s: seq<Pair>, p: Pair): seq<Pair> {
    if s == [] || PairOlder(Last(s), p) then s + [p] else Insert(s[..|s| - 1], p) + [Last(s)]
  }

  function Sort(s: seq<Pair>): seq<Pair> {
    if s == [] then [] else Insert(Sort(s[..|s| - 1]), Last(s))
  }

  predicate Sorted(s: seq<Pair>) { forall i, j :: 0 <= i < j < |s| ==> PairOlder(s[i], s[j]) }

  lemma {:induction false} InsertBag(s: seq<Pair>, p: Pair)
    ensures multiset(Insert(s, p)) == multiset(s) + multiset{p}
  {
    if s != [] && !PairOlder(Last(s), p) {
      InsertBag(s[..|s| - 1], p);
      assert s == s[..|s| - 1] + [Last(s)];
    }
  }

  lemma InsertMembers(s: seq<Pair>, p: Pair, q: Pair)
    requires q in Insert(s, p)
    ensures q in s || q == p
  {
    InsertBag(s, p);
    assert q in multiset(Insert(s, p));
    assert q in multiset(s) || q == p;
  }

  lemma {:induction false} InsertKeeps(s: seq<Pair>, p: Pair)
    requires Sorted(s)
    ensures Sorted(Insert(s, p))
  {
    if s != [] && !PairOlder(Last(s), p) {
      var init := s[..|s| - 1];
      InsertKeeps(init, p);
      forall q | q in Insert(init, p) ensures PairOlder(q, Last(s)) {
        InsertMembers(init, p, q);
        if q != p {
          var i :| 0 <= i < |init| && init[i] == q;
          assert s[i] == q;
        }
      }
    }
  }

  lemma {:induction false} SortKeeps(s: seq<Pair>)
    ensures Sorted(Sort(s)) && multiset(Sort(s)) == multiset(s)
  {
    if s != [] {
      SortKeeps(s[..|s| - 1]);
      InsertKeeps(Sort(s[..|s| - 1]), Last(s));
      InsertBag(Sort(s[..|s| - 1]), Last(s));
      assert s == s[..|s| - 1] + [Last(s)];
    }
  }

  function KeeperNames(pairs: seq<Pair>): set<string> { set p | p in pairs :: p.keeper.fingerprint }

  /** The first `excess` pairs whose candidate keeps nobody else. */
  function Choose(pairs: seq<Pair>, keepers: set<string>, excess: nat): seq<Pair> {
    if pairs == [] then []
    else
      var init := Choose(pairs[..|pairs| - 1], keepers, excess);
      if |init| < excess && Last(pairs).candidate.fingerprint !in keepers then init + [Last(pairs)] else init
  }

  function CoveredChoice(s: seq<Job>, now: int): seq<Pair> {
    var pairs := CoveredPairs(s, now);
    if |pairs| <= MAX_ELIGIBLE_COVERED then []
    else Choose(Sort(pairs), KeeperNames(Sort(pairs)), |pairs| - MAX_ELIGIBLE_COVERED)
  }

  method Classify(snapshots: seq<Job>, now: int) returns (outdated: seq<Job>, candidates: seq<Job>, completed: seq<Job>)
    ensures outdated == Filter(snapshots, Out(now))
    ensures candidates == Filter(snapshots, Candidate(now))
    ensures completed == Filter(snapshots, FinishedStatus)
  {
    outdated, candidates, completed := [], [], [];
    for i := 0 to |snapshots|
      invariant outdated == Filter(snapshots[..i], Out(now))
      invariant candidates == Filter(snapshots[..i], Candidate(now))
      invariant completed == Filter(snapshots[..i], FinishedStatus)
    {
      var job := snapshots[i];
      FilterNext(snapshots, Out(now), i);
      FilterNext(snapshots, Candidate(now), i);
      FilterNext(snapshots, FinishedStatus, i);
      if FinishedStatus(job) {
        completed := completed + [job];
      }
      if Eligible(job, now) {
        if Expired(job, now) {
          outdated := outdated + [job];
        } else {
          candidates := candidates + [job];
        }
      }
    }
    assert snapshots[..|snapshots|] == snapshots;
  }

  method PairUp(candidates: seq<Job>, pool: seq<Job>) returns (pairs: seq<Pair>)
    ensures pairs == Pairs(candidates, pool)
  {
    pairs := [];
    for i := 0 to |candidates|
      invariant pairs == Pairs(candidates[..i], pool)
    {
      assert candidates[..i + 1][..i] == candidates[..i];
      var best := BestCoverer(candidates[i], pool);
      if best.Some? {
        pairs := pairs + [Pair(candidates[i], best.value)];
      }
    }
    assert candidates[..|candidates|] == candidates;
  }

  method PickOldest(pairs: seq<Pair>, excess: nat) returns (chosen: seq<Pair>)
    ensures chosen == Choose(pairs, KeeperNames(pairs), excess)
  {
    chosen := [];
    var keepers := KeeperNames(pairs);
    var i := 0;
    while i < |pairs| && |chosen| < excess
      invariant 0 <= i <= |pairs|
      invariant chosen == Choose(pairs[..i], keepers, excess)
    {
      assert pairs[..i + 1][..i] == pairs[..i];
      if pairs[i].candidate.fingerprint !in keepers {
        chosen := chosen + [pairs[i]];
      }
      i := i + 1;
    }
    ChooseFull(pairs, keepers, excess, i);
  }

  method PlanPrune(snapshots: seq<Job>, now: int) returns (expired: seq<string>, covered: seq<Pair>)
    ensures expired == ExpiredNames(snapshots, now)
    ensures covered == CoveredChoice(snapshots, now)
  {
    hide Filter, Pairs, Sort, Choose, KeeperNames, Names;
    var outdated, candidates, completed := Classify(snapshots, now);
    expired := Names(outdated);
    FilterTwice(snapshots, expired);
    var pairs := PairUp(candidates, Filter(completed, NotNamed(expired)));
    covered := [];
    if |pairs| > MAX_ELIGIBLE_COVERED {
      covered := PickOldest(Sort(pairs), |pairs| - MAX_ELIGIBLE_COVERED);
    }
  }

  function NotNamed(names: seq<string>): Job -> bool { (j: Job) => j.fingerprint !in names }

  lemma {:induction false} FilterTwice(s: seq<Job>, expired: seq<string>)
    ensures Filter(Filter(s, FinishedStatus), NotNamed(expired)) == Filter(s, Keepable(expired))
  {
    if s != [] {
      FilterTwice(s[..|s| - 1], expired);
      var init := Filter(s[..|s| - 1], FinishedStatus);
      assert (init + [Last(s)])[..|init|] == init;
    }
  }

  /** Once enough are chosen, the rest of the list changes nothing. */
  lemma {:induction false} ChooseFull(pairs: seq<Pair>, keepers: set<string>, excess: nat, i: nat)
    requires i <= |pairs|
    requires i == |pairs| || |Choose(pairs[..i], keepers, excess)| >= excess
    ensures Choose(pairs, keepers, excess) == Choose(pairs[..i], keepers, excess)
  {
    if i == |pairs| {
      assert pairs[..i] == pairs;
    } else {
      var init := pairs[..|pairs| - 1];
      assert init[..i] == pairs[..i];
      ChooseFull(init, keepers, excess, i);
    }
  }

  // ---------------------------------------------------------------- what the plan guarantees

  /** A directory lists every name once. */
  predicate DistinctNames(s: seq<Job>) {
    forall i, j :: 0 <= i < j < |s| ==> s[i].fingerprint != s[j].fingerprint
  }

  lemma {:induction false} PairsMeaning(candidates: seq<Job>, pool: seq<Job>, p: Pair)
    ensures p in Pairs(candidates, pool) <==>
      p.candidate in candidates && BestCoverer(p.candidate, pool) == Some(p.keeper)
  {
    if candidates != [] {
      PairsMeaning(candidates[..|candidates| - 1], pool, p);
      assert candidates == candidates[..|candidates| - 1] + [Last(candidates)];
    }
  }

  /** A largest coverer is itself covered by nobody: coverage composes, so a coverer of it would be larger. */
  lemma LargestIsUncovered(c: Job, w: Job, pool: seq<Job>)
    requires BestCoverer(c, pool) == Some(w)
    requires forall x :: x in pool && x.fingerprint == c.fingerprint ==> Size(x) == Size(c)
    ensures BestCoverer(w, pool).None?
  {
    var up := BestCoverer(w, pool);
    if up.Some? {
      var x := up.value;
      assert Size(c) < Size(w) < Size(x);
      CoverageComposes(c, w, x);
    }
  }

  /** So the test that skips a candidate someone relies on never fires: candidates and keepers are disjoint. */
  lemma KeepersAreNoCandidates(s: seq<Job>, now: int, p: Pair, q: Pair)
    requires DistinctNames(s)
    requires p in CoveredPairs(s, now) && q in CoveredPairs(s, now)
    ensures p.candidate.fingerprint != q.keeper.fingerprint
    ensures q.keeper.fingerprint !in ExpiredNames(s, now)
  {
    var candidates, pool := Filter(s, Candidate(now)), Pool(s, now);
    PairsMeaning(candidates, pool, p);
    PairsMeaning(candidates, pool, q);
    assert q.keeper in pool && q.keeper in s && p.candidate in s && q.candidate in s;
    if p.candidate.fingerprint == q.keeper.fingerprint {
      SameNameSameJob(s, p.candidate, q.keeper);
      forall x | x in pool && x.fingerprint == q.candidate.fingerprint ensures Size(x) == Size(q.candidate) {
        SameNameSameJob(s, x, q.candidate);
      }
      LargestIsUncovered(q.candidate, q.keeper, pool);
    }
  }

  lemma SameNameSameJob(s: seq<Job>, a: Job, b: Job)
    requires DistinctNames(s) && a in s && b in s && a.fingerprint == b.fingerprint
    ensures a == b
  {
    var i :| 0 <= i < |s| && s[i] == a;
    var j :| 0 <= j < |s| && s[j] == b;
  }

  lemma {:induction false} ChooseIsPrefix(pairs: seq<Pair>, keepers: set<string>, excess: nat)
    requires forall p :: p in pairs ==> p.candidate.fingerprint !in keepers
    ensures Choose(pairs, keepers, excess) == if |pairs| <= excess then pairs else pairs[..excess]
  {
    if pairs != [] {
      var init := pairs[..|pairs| - 1];
      ChooseIsPrefix(init, keepers, excess);
      assert pairs == init + [Last(pairs)];
      assert |pairs| > excess ==> init[..excess] == pairs[..excess];
    }
  }

  /**
    The covered deletions are exactly the oldest beyond the first hundred: their number, their identity
    in finish order, and that nobody kept is older than anyone deleted.
  */
  lemma OldestExcessGoes(s: seq<Job>, now: int)
    requires DistinctNames(s)
    ensures var pairs, chosen := CoveredPairs(s, now), CoveredChoice(s, now);
      && |chosen| == Max(0, |pairs| - MAX_ELIGIBLE_COVERED)
      && |chosen| <= |Sort(pairs)| && chosen == Sort(pairs)[..|chosen|]
      && multiset(Sort(pairs)) == multiset(pairs)
      && forall p, q :: p in chosen && q in Sort(pairs)[|chosen|..] ==> PairOlder(p, q)
  {
    hide CoveredPairs, Sort, Choose, PairOlder;
    var pairs := CoveredPairs(s, now);
    var sorted := Sort(pairs);
    SortKeeps(pairs);
    assert |multiset(sorted)| == |multiset(pairs)|;
    if |pairs| > MAX_ELIGIBLE_COVERED {
      forall p | p in sorted ensures p.candidate.fingerprint !in KeeperNames(sorted) {
        assert p in multiset(sorted);
        forall q | q in sorted ensures p.candidate.fingerprint != q.keeper.fingerprint {
          assert q in multiset(sorted);
          KeepersAreNoCandidates(s, now, p, q);
        }
      }
      ChooseIsPrefix(sorted, KeeperNames(sorted), |pairs| - MAX_ELIGIBLE_COVERED);
    }
  }

  /** Each planned covered deletion is an eligible, unexpired job under one of its largest finished coverers. */
  lemma ChoiceIsJustified(s: seq<Job>, now: int, p: Pair)
    requires DistinctNames(s) && p in CoveredChoice(s, now)
    ensures p.candidate in s && p.keeper in s && p in CoveredPairs(s, now)
    ensures Eligible(p.candidate, now) && !Expired(p.candidate, now) && StrictlyCovered(p.candidate, p.keeper)
    ensures forall w ::
      w in s && FinishedStatus(w) && w.fingerprint !in ExpiredNames(s, now) && StrictlyCovered(p.candidate, w) ==>
      Size(w) <= Size(p.keeper)
  {
    OldestExcessGoes(s, now);
    var sorted := Sort(CoveredPairs(s, now));
    assert p in sorted;
    assert p in multiset(sorted);
    PairsMeaning(Filter(s, Candidate(now)), Pool(s, now), p);
  }

  function ItemOf(p: Pair): Ops.Item { Ops.Item(p.candidate.fingerprint, Some(p.keeper.fingerprint)) }

  /** The deletions `run_prune` walks through: the expired first, then the covered with their keepers. */
  function Items(s: seq<Job>, now: int): seq<Ops.Item> {
    var expired, covered := ExpiredNames(s, now), CoveredChoice(s, now);
    seq(|expired|, i requires 0 <= i < |expired| => Ops.Item(expired[i], None))
    + seq(|covered|, i requires 0 <= i < |covered| => ItemOf(covered[i]))
  }

  lemma ItemMeaning(s: seq<Job>, now: int, item: Ops.Item)
    requires item in Items(s, now)
    ensures item.keeper.None? ==> item.fp in ExpiredNames(s, now)
    ensures item.keeper.Some? ==>
      exists p :: p in CoveredChoice(s, now) && item == Ops.Item(p.candidate.fingerprint, Some(p.keeper.fingerprint))
  {
    var expired, covered := ExpiredNames(s, now), CoveredChoice(s, now);
    var i :| 0 <= i < |Items(s, now)| && Items(s, now)[i] == item;
    if i < |expired| {
      assert item == Ops.Item(expired[i], None);
    } else {
      assert covered[i - |expired|] in covered;
    }
  }

  /** No planned deletion is the keeper of another, whatever its kind. */
  lemma KeepersAreNotTargets(s: seq<Job>, now: int, a: Ops.Item, b: Ops.Item)
    requires DistinctNames(s) && a in Items(s, now) && b in Items(s, now) && b.keeper.Some?
    ensures a.fp != b.keeper.value
    ensures exists w :: w in s && w.fingerprint == b.keeper.value && FinishedStatus(w)
  {
    ItemMeaning(s, now, a);
    ItemMeaning(s, now, b);
    var q :| q in CoveredChoice(s, now) && b == Ops.Item(q.candidate.fingerprint, Some(q.keeper.fingerprint));
    ChoiceIsJustified(s, now, q);
    assert q.keeper in s && FinishedStatus(q.keeper);
    if a.keeper.Some? {
      var p :| p in CoveredChoice(s, now) && a == Ops.Item(p.candidate.fingerprint, Some(p.keeper.fingerprint));
      ChoiceIsJustified(s, now, p);
      KeepersAreNoCandidates(s, now, p, q);
    } else {
      KeepersAreNoCandidates(s, now, q, q);
    }
  }
}
