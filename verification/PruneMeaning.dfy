/**
  What the plan of a clean-up chooses, said of the jobs of the snapshot alone.
*/
module PruneMeaning {
  import opened Prelude
  import opened LedgerModel
  import Ops = LedgerOps
  import opened LedgerMeaning
  import opened LedgerDeletion
  import opened PrunePlan

  predicate GoesByAge(j: Job, now: int) { Removable(j, now) && MonthOld(j, now) }

  /** The number of different sources a job was made from. */
  function Breadth(j: Job): nat { |set x | x in j.source| }

  /** A finished job of the snapshot that is not to go by age and outdoes `j`. */
  predicate Keeps(s: seq<Job>, now: int, j: Job, w: Job) { w in s && Outdone(j, w) && !GoesByAge(w, now) }

  /** The jobs that are covered: finished for over an hour, not yet a month old, and outdone by one that stays. */
  ghost predicate IsCovered(s: seq<Job>, now: int, j: Job) {
    j in s && Removable(j, now) && !MonthOld(j, now) && exists w :: Keeps(s, now, j, w)
  }

  lemma ExpiredExactly(s: seq<Job>, now: int, n: string)
    ensures n in ExpiredNames(s, now) <==> exists j :: j in s && j.fingerprint == n && GoesByAge(j, now)
  {
    hide Removable, MonthOld;
    var gone := Filter(s, Out(now));
    forall j ensures Out(now)(j) <==> GoesByAge(j, now) {
      RemovableExactly(j, now);
    }
    assert ExpiredNames(s, now) == Names(gone);
    if n in Names(gone) {
      var i :| 0 <= i < |gone| && Names(gone)[i] == n;
      assert gone[i] in gone;
    }
    if j :| j in s && j.fingerprint == n && GoesByAge(j, now) {
      assert j in gone;
      var i :| 0 <= i < |gone| && gone[i] == j;
      assert Names(gone)[i] == n;
    }
  }

  lemma PoolExactly(s: seq<Job>, now: int, j: Job, w: Job)
    requires DistinctNames(s)
    ensures w in Pool(s, now) && StrictlyCovered(j, w) <==> Keeps(s, now, j, w)
  {
    hide Removable, MonthOld, Outdone, StrictlyCovered;
    OutdoneExactly(j, w);
    ExpiredExactly(s, now, w.fingerprint);
    assert StrictlyCovered(j, w) ==> FinishedStatus(w) by {
      CovererIsFinished(j, w);
    }
    if w in s && exists x :: x in s && x.fingerprint == w.fingerprint && GoesByAge(x, now) {
      var x :| x in s && x.fingerprint == w.fingerprint && GoesByAge(x, now);
      SameNameSameJob(s, x, w);
    }
  }

  lemma CovererIsFinished(j: Job, w: Job)
    ensures StrictlyCovered(j, w) ==> FinishedStatus(w)
  {
  }

  lemma CandidateExactly(j: Job, now: int)
    ensures Candidate(now)(j) <==> Removable(j, now) && !MonthOld(j, now)
  {
    RemovableExactly(j, now);
  }

  lemma PairExactly(s: seq<Job>, now: int, p: Pair)
    requires DistinctNames(s)
    ensures p in CoveredPairs(s, now) ==> IsCovered(s, now, p.candidate) && Keeps(s, now, p.candidate, p.keeper)
    ensures p in CoveredPairs(s, now) ==>
      forall w :: Keeps(s, now, p.candidate, w) ==> Breadth(w) <= Breadth(p.keeper)
  {
    hide Removable, MonthOld, Keeps, StrictlyCovered;
    PairsMeaning(Filter(s, Candidate(now)), Pool(s, now), p);
    if p in CoveredPairs(s, now) {
      CandidateExactly(p.candidate, now);
      PoolExactly(s, now, p.candidate, p.keeper);
      forall w | Keeps(s, now, p.candidate, w) ensures Breadth(w) <= Breadth(p.keeper) {
        PoolExactly(s, now, p.candidate, w);
        assert Size(w) == Breadth(w) && Size(p.keeper) == Breadth(p.keeper);
      }
    }
  }

  lemma BestNext(c: Job, pool: seq<Job>, x: Job)
    ensures BestCoverer(c, pool + [x])
      == if StrictlyCovered(c, x) && (BestCoverer(c, pool).None? || Size(BestCoverer(c, pool).value) <= Size(x))
         then Some(x) else BestCoverer(c, pool)
  {
    hide StrictlyCovered, Size;
    assert (pool + [x])[..|pool|] == pool && Last(pool + [x]) == x;
  }

  lemma {:induction false} BestIsLast(c: Job, s: seq<Job>, keep: Job -> bool) returns (i: nat)
    requires BestCoverer(c, Filter(s, keep)).Some?
    ensures i < |s| && BestCoverer(c, Filter(s, keep)) == Some(s[i])
    ensures forall k :: i < k < |s| && keep(s[k]) && StrictlyCovered(c, s[k]) ==> Size(s[k]) < Size(s[i])
  {
    hide StrictlyCovered, Size, BestCoverer;
    NoBest(c);
    assert s != [];
    var init, x := s[..|s| - 1], Last(s);
    BestNext(c, Filter(init, keep), x);
    if keep(x) && BestCoverer(c, Filter(s, keep)) == Some(x) {
      i := |s| - 1;
    } else {
      i := BestIsLast(c, init, keep);
    }
  }

  lemma NoBest(c: Job)
    ensures BestCoverer(c, []).None?
  {
  }

  /** Of several keepers with the most sources it is the last of the snapshot. */
  lemma KeeperIsTheLast(s: seq<Job>, now: int, p: Pair) returns (i: nat)
    requires DistinctNames(s) && p in CoveredPairs(s, now)
    ensures i < |s| && s[i] == p.keeper
    ensures forall k :: i < k < |s| && Keeps(s, now, p.candidate, s[k]) ==> Breadth(s[k]) < Breadth(p.keeper)
  {
    hide Removable, MonthOld, Keeps, StrictlyCovered;
    PairsMeaning(Filter(s, Candidate(now)), Pool(s, now), p);
    var stays := Keepable(ExpiredNames(s, now));
    i := BestIsLast(p.candidate, s, stays);
    forall k | i < k < |s| && Keeps(s, now, p.candidate, s[k]) ensures Breadth(s[k]) < Breadth(p.keeper) {
      PoolExactly(s, now, p.candidate, s[k]);
      assert stays(s[k]);
      assert Size(s[k]) == Breadth(s[k]) && Size(p.keeper) == Breadth(p.keeper);
    }
  }

  /** Every covered job has its pair. */
  lemma CoveredHasPair(s: seq<Job>, now: int, j: Job)
    requires DistinctNames(s) && IsCovered(s, now, j)
    ensures exists p :: p in CoveredPairs(s, now) && p.candidate == j
  {
    hide Removable, MonthOld, Keeps, StrictlyCovered;
    var w :| Keeps(s, now, j, w);
    PoolExactly(s, now, j, w);
    CandidateExactly(j, now);
    var best := BestCoverer(j, Pool(s, now));
    PairsMeaning(Filter(s, Candidate(now)), Pool(s, now), Pair(j, best.value));
    assert Pair(j, best.value) in CoveredPairs(s, now);
  }

  /** The covered jobs of the snapshot. */
  ghost function CoveredJobs(s: seq<Job>, now: int): set<Job> {
    set j | j in s && IsCovered(s, now, j)
  }

  function CandidatesOf(pairs: seq<Pair>): set<Job> { set p | p in pairs :: p.candidate }

  lemma {:induction false} PairsAreDistinct(candidates: seq<Job>, pool: seq<Job>)
    requires forall i, k :: 0 <= i < k < |candidates| ==> candidates[i] != candidates[k]
    ensures |Pairs(candidates, pool)| == |CandidatesOf(Pairs(candidates, pool))|
    ensures forall p :: p in Pairs(candidates, pool) ==> p.candidate in candidates
  {
    if candidates != [] {
      var init, c := candidates[..|candidates| - 1], Last(candidates);
      PairsAreDistinct(init, pool);
      var before := Pairs(init, pool);
      match BestCoverer(c, pool)
      case None => assert Pairs(candidates, pool) == before;
      case Some(w) =>
        assert Pairs(candidates, pool) == before + [Pair(c, w)];
        assert CandidatesOf(before + [Pair(c, w)]) == CandidatesOf(before) + {c};
        assert c !in init;
    }
  }

  lemma {:induction false} FilterIsDistinct(s: seq<Job>, keep: Job -> bool)
    requires DistinctNames(s)
    ensures DistinctNames(Filter(s, keep))
  {
    if s != [] {
      var init := s[..|s| - 1];
      FilterIsDistinct(init, keep);
      forall j | j in Filter(init, keep) ensures j.fingerprint != Last(s).fingerprint {
        var i :| 0 <= i < |init| && init[i] == j;
        assert s[i] == j;
      }
    }
  }

  lemma CountPairs(s: seq<Job>, now: int)
    requires DistinctNames(s)
    ensures |CoveredPairs(s, now)| == |CoveredJobs(s, now)|
  {
    var candidates, pool := Filter(s, Candidate(now)), Pool(s, now);
    FilterIsDistinct(s, Candidate(now));
    forall i, k | 0 <= i < k < |candidates| ensures candidates[i] != candidates[k] {
      assert candidates[i].fingerprint != candidates[k].fingerprint;
    }
    PairsAreDistinct(candidates, pool);
    var pairs := CoveredPairs(s, now);
    hide IsCovered, CoveredPairs;
    forall j ensures j in CandidatesOf(pairs) <==> j in CoveredJobs(s, now) {
      if j in CandidatesOf(pairs) {
        var p :| p in pairs && p.candidate == j;
        PairExactly(s, now, p);
        CoveredIsIn(s, now, j);
      }
      if j in CoveredJobs(s, now) {
        CoveredHasPair(s, now, j);
      }
    }
    assert CandidatesOf(pairs) == CoveredJobs(s, now);
  }

  lemma CoveredIsIn(s: seq<Job>, now: int, j: Job)
    requires IsCovered(s, now, j)
    ensures j in s
  {
  }

  /** No attempt of `j` ended after all of `k` had. */
  predicate EndedNoLater(j: Job, k: Job) {
    forall a :: a in j.attempts && a.finished.Some? && a.finished.value.At? ==>
      exists b ::
        b in k.attempts && b.finished.Some? && b.finished.value.At? && a.finished.value.t <= b.finished.value.t
  }

  lemma OlderExactly(j: Job, k: Job)
    ensures Older(LastFinish(j.attempts), LastFinish(k.attempts)) <==> EndedNoLater(j, k)
  {
    var a, b := LastFinish(j.attempts), LastFinish(k.attempts);
    if a.Some? && EndedNoLater(j, k) {
      var x :| x in j.attempts && x.finished == Some(At(a.value));
      var y :| y in k.attempts && y.finished.Some? && y.finished.value.At? && x.finished.value.t <= y.finished.value.t;
    }
    if b.Some? {
      var y :| y in k.attempts && y.finished == Some(At(b.value));
    }
  }

  /** No covered deletion is of `j`. */
  predicate Stays(s: seq<Job>, now: int, j: Job) { forall q :: q in CoveredChoice(s, now) ==> q.candidate != j }

  /**
    The plan: exactly the removable jobs older than a month go by age; of the covered jobs exactly those
    beyond a hundred go, none of which ended after one that may stay, each under a job that stays and outdoes
    it with the most sources.
  */
  lemma PlanExactly(s: seq<Job>, now: int, n: string, p: Pair, j: Job)
    requires DistinctNames(s)
    ensures n in ExpiredNames(s, now) <==> exists x :: x in s && x.fingerprint == n && GoesByAge(x, now)
    ensures |CoveredChoice(s, now)| == Max(0, |CoveredJobs(s, now)| - 100)
    ensures p in CoveredChoice(s, now) ==>
      IsCovered(s, now, p.candidate) && Keeps(s, now, p.candidate, p.keeper)
      && forall w :: Keeps(s, now, p.candidate, w) ==> Breadth(w) <= Breadth(p.keeper)
    ensures p in CoveredChoice(s, now) && IsCovered(s, now, j) && Stays(s, now, j) ==> EndedNoLater(p.candidate, j)
  {
    hide CoveredPairs, CoveredChoice, Sort, IsCovered, Keeps, EndedNoLater, LastFinish, Older, Breadth, GoesByAge;
    ExpiredExactly(s, now, n);
    CountPairs(s, now);
    OldestExcessGoes(s, now);
    var pairs, chosen := CoveredPairs(s, now), CoveredChoice(s, now);
    var sorted := Sort(pairs);
    if p in chosen {
      assert p in multiset(sorted);
      PairExactly(s, now, p);
      if IsCovered(s, now, j) && Stays(s, now, j) {
        CoveredHasPair(s, now, j);
        var q :| q in pairs && q.candidate == j;
        assert q in multiset(sorted);
        assert sorted == chosen + sorted[|chosen|..];
        assert PairOlder(p, q);
        OlderExactly(p.candidate, j);
      }
    }
  }
}
