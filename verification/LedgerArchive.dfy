/**
  The archive merge on arbitrary contents, trusted or not: nothing is lost, repeating it after a crash
  changes nothing, and two payloads under one attempt id stop it before anything is touched.
*/
module LedgerArchive {
  import opened Prelude
  import opened LedgerModel
  import opened Ops = LedgerOps

  lemma {:induction false} FindInPrefix(s: seq<Attempt>, t: seq<Attempt>, id: string)
    requires FindAttempt(s, id).Some?
    ensures FindAttempt(s + t, id) == FindAttempt(s, id)
  {
    if s[0].id != id {
      assert (s + t)[1..] == s[1..] + t;
      FindInPrefix(s[1..], t, id);
    }
  }

  lemma {:induction false} FindPast(s: seq<Attempt>, t: seq<Attempt>, id: string)
    requires FindAttempt(s, id).None?
    ensures FindAttempt(s + t, id) == match FindAttempt(t, id) case Some(i) => Some(i + |s|) case None => None
  {
    if s == [] {
      assert s + t == t;
    } else {
      assert (s + t)[1..] == s[1..] + t;
      FindPast(s[1..], t, id);
    }
  }

  /** A successful merge keeps the archive as its beginning and contains every attempt of both sides, and no other. */
  lemma {:induction false} MergeLosesNothing(base: seq<Attempt>, extra: seq<Attempt>)
    requires MergeAttempts(base, extra).Some?
    ensures base <= MergeAttempts(base, extra).value
    ensures forall a :: a in MergeAttempts(base, extra).value <==> a in base || a in extra
    decreases |extra|
  {
    if extra != [] {
      var next := if FindAttempt(base, extra[0].id).Some? then base else base + [extra[0]];
      MergeLosesNothing(next, extra[1..]);
      var m := MergeAttempts(base, extra).value;
      assert extra == [extra[0]] + extra[1..];
      forall a ensures a in m <==> a in base || a in extra {
        assert a in next <==> a in base || (next != base && a == extra[0]);
        if a == extra[0] && next == base {
          assert a in base;
        }
      }
    }
  }

  /** After a successful merge each merged attempt is the first with its id. */
  lemma {:induction false} MergedIsFirst(base: seq<Attempt>, extra: seq<Attempt>, k: nat)
    requires MergeAttempts(base, extra).Some? && k < |extra|
    ensures var m := MergeAttempts(base, extra).value;
      FindAttempt(m, extra[k].id).Some? && m[FindAttempt(m, extra[k].id).value] == extra[k]
    decreases |extra|
  {
    var m := MergeAttempts(base, extra).value;
    var known := FindAttempt(base, extra[0].id).Some?;
    var next := if known then base else base + [extra[0]];
    if k > 0 {
      MergedIsFirst(next, extra[1..], k - 1);
    } else {
      MergeLosesNothing(next, extra[1..]);
      assert m == next + m[|next|..];
      if !known {
        FindPast(base, [extra[0]], extra[0].id);
      }
      FindInPrefix(next, m[|next|..], extra[0].id);
    }
  }

  lemma {:induction false} MergeAll(m: seq<Attempt>, extra: seq<Attempt>)
    requires forall k :: 0 <= k < |extra| ==>
      FindAttempt(m, extra[k].id).Some? && m[FindAttempt(m, extra[k].id).value] == extra[k]
    ensures MergeAttempts(m, extra) == Some(m)
  {
    if extra != [] {
      forall k | 0 <= k < |extra[1..]|
        ensures FindAttempt(m, extra[1..][k].id).Some? && m[FindAttempt(m, extra[1..][k].id).value] == extra[1..][k]
      {
        assert extra[1..][k] == extra[k + 1];
      }
      assert FindAttempt(m, extra[0].id).Some?;
      MergeAll(m, extra[1..]);
    }
  }

  /** Merging again changes nothing. */
  lemma MergeIsIdempotent(base: seq<Attempt>, extra: seq<Attempt>)
    requires MergeAttempts(base, extra).Some?
    ensures MergeAttempts(MergeAttempts(base, extra).value, extra) == MergeAttempts(base, extra)
  {
    var m := MergeAttempts(base, extra).value;
    forall k | 0 <= k < |extra|
      ensures FindAttempt(m, extra[k].id).Some? && m[FindAttempt(m, extra[k].id).value] == extra[k]
    {
      MergedIsFirst(base, extra, k);
    }
    MergeAll(m, extra);
  }

  /** The first attempt carrying the id of `extra[k]`, reading the archive before the job. */
  predicate Agrees(base: seq<Attempt>, extra: seq<Attempt>, k: nat)
    requires k < |extra|
  {
    var i := FindAttempt(base + extra, extra[k].id);
    i.Some? && (base + extra)[i.value] == extra[k]
  }

  /** The merge is refused exactly when some id occurs with two payloads, in the archive or in the job itself. */
  lemma {:induction false} MergeConflict(base: seq<Attempt>, extra: seq<Attempt>)
    ensures MergeAttempts(base, extra).Some? <==> forall k :: 0 <= k < |extra| ==> Agrees(base, extra, k)
    decreases |extra|
  {
    if extra != [] {
      var a, rest := extra[0], extra[1..];
      var found := FindAttempt(base, a.id);
      assert base + extra == base + [a] + rest;
      if found.Some? {
        FindInPrefix(base, extra, a.id);
        if base[found.value] == a {
          MergeConflict(base, rest);
          forall k | 0 <= k < |rest| ensures Agrees(base, rest, k) == Agrees(base, extra, k + 1) {
            assert extra == [a] + rest && extra[k + 1] == rest[k];
            SkipKnown(base, a, rest, rest[k].id);
          }
          assert Agrees(base, extra, 0);
          AgreesSplit(base, extra);
        } else {
          assert !Agrees(base, extra, 0);
        }
      } else {
        MergeConflict(base + [a], rest);
        FindPast(base, extra, a.id);
        assert Agrees(base, extra, 0);
        AgreesSplitNew(base, extra);
      }
    }
  }

  lemma AgreesSplit(base: seq<Attempt>, extra: seq<Attempt>)
    requires extra != [] && Agrees(base, extra, 0)
    requires forall k :: 0 <= k < |extra| - 1 ==> Agrees(base, extra[1..], k) == Agrees(base, extra, k + 1)
    ensures (forall k :: 0 <= k < |extra| ==> Agrees(base, extra, k)) <==>
      (forall k :: 0 <= k < |extra[1..]| ==> Agrees(base, extra[1..], k))
  {
    if forall k :: 0 <= k < |extra[1..]| ==> Agrees(base, extra[1..], k) {
      forall k | 0 <= k < |extra| ensures Agrees(base, extra, k) {
        if k > 0 {
          assert Agrees(base, extra[1..], k - 1);
        }
      }
    }
  }

  lemma AgreesSplitNew(base: seq<Attempt>, extra: seq<Attempt>)
    requires extra != [] && Agrees(base, extra, 0)
    ensures (forall k :: 0 <= k < |extra| ==> Agrees(base, extra, k)) <==>
      (forall k :: 0 <= k < |extra[1..]| ==> Agrees(base + [extra[0]], extra[1..], k))
  {
    assert base + extra == base + [extra[0]] + extra[1..];
    forall k | 0 <= k < |extra| - 1 ensures Agrees(base + [extra[0]], extra[1..], k) == Agrees(base, extra, k + 1) {
    }
    if forall k :: 0 <= k < |extra[1..]| ==> Agrees(base + [extra[0]], extra[1..], k) {
      forall k | 0 <= k < |extra| ensures Agrees(base, extra, k) {
        if k > 0 {
          assert Agrees(base + [extra[0]], extra[1..], k - 1);
        }
      }
    }
  }

  /** Dropping a repeat of a known attempt does not change which attempt is first for any id. */
  lemma SkipKnown(base: seq<Attempt>, a: Attempt, rest: seq<Attempt>, id: string)
    requires FindAttempt(base, a.id).Some? && base[FindAttempt(base, a.id).value] == a
    ensures var i, j := FindAttempt(base + rest, id), FindAttempt(base + ([a] + rest), id);
      i.Some? == j.Some? && (i.Some? ==> (base + rest)[i.value] == (base + ([a] + rest))[j.value])
  {
    if FindAttempt(base, id).Some? {
      FindInPrefix(base, rest, id);
      FindInPrefix(base, [a] + rest, id);
    } else {
      FindPast(base, rest, id);
      FindPast(base, [a] + rest, id);
      assert a in base;
      FindPast([a], rest, id);
    }
  }

  /** Archiving, crashing before the unlink and archiving again writes the same archive. */
  lemma ArchiveTwice(d: Dir, job: Job, io: PruneIo)
    requires io.archiveSave && ArchiveJob(d, job, io.conflictSave, true).ok
    ensures var d1 := ArchiveJob(d, job, io.conflictSave, true).dir;
      ArchiveJob(d1, job, io.conflictSave, true).ok && ArchiveJob(d1, job, io.conflictSave, true).dir == d1
  {
    var fp := job.fingerprint;
    var base := if fp in d.archive then LoadForPrune(d.archive, fp).job else job;
    MergeIsIdempotent(base.attempts, job.attempts);
    var d1 := ArchiveJob(d, job, io.conflictSave, true).dir;
    var m := d1.archive[fp].job;
    assert LoadForPrune(d1.archive, fp) == Found(m);
    assert MergeAttempts(m.attempts, job.attempts) == Some(m.attempts);
    assert Sealed(ArchiveBase(m, job).(attempts := m.attempts, status := job.status)) == m;
    assert d1.archive[fp := Json(m, false)] == d1.archive;
  }

  /** A refused archive leaves the archive and every hot job as they were; only evidence may be added. */
  lemma RefusalTouchesNothing(d: Dir, job: Job, conflictSave: bool, archiveSave: bool)
    requires !ArchiveJob(d, job, conflictSave, archiveSave).ok
    ensures var d1 := ArchiveJob(d, job, conflictSave, archiveSave).dir;
      d1.hot == d.hot && d1.archive == d.archive && d.conflicts.Keys <= d1.conflicts.Keys
      && forall c :: c in d.conflicts ==> d1.conflicts[c] == d.conflicts[c]
  {
  }

  /** Attempt ids of hot and archive together survive every durable state of a deletion, whatever was on disk. */
  lemma PruneKeepsAttempts(d: Dir, fp: string, keeper: Option<string>, now: int, io: PruneIo, i: nat, a: Attempt)
    requires i < |PruneItem(d, fp, keeper, now, io).trail|
    requires LoadForPrune(d.hot, fp).Found?
    requires a in LoadForPrune(d.hot, fp).job.attempts ||
      (LoadForPrune(d.archive, fp).Found? && a in LoadForPrune(d.archive, fp).job.attempts)
    ensures var t := PruneItem(d, fp, keeper, now, io).trail[i];
      || (LoadForPrune(t.hot, fp).Found? && a in LoadForPrune(t.hot, fp).job.attempts)
      || (LoadForPrune(t.archive, fp).Found? && a in LoadForPrune(t.archive, fp).job.attempts)
  {
    hide Eligible, StrictlyCovered, Expired, MergeAttempts;
    var job := LoadForPrune(d.hot, fp).job;
    var base := if fp in d.archive then LoadForPrune(d.archive, fp).job else job;
    var kept := ArchiveJob(d, job, io.conflictSave, io.archiveSave);
    if kept.ok {
      MergeLosesNothing(base.attempts, job.attempts);
      assert a in kept.dir.archive[fp].job.attempts;
    }
  }
}
