/**
  When exactly a planned deletion removes a job and what it leaves, said of the files alone.
*/
module LedgerDeletion {
  import opened Prelude
  import opened LedgerModel
  import opened Ops = LedgerOps
  import opened LedgerMeaning
  import opened LedgerArchive

  const DAYS_30 := 2_592_000_000_000_000

  /** The name of a fingerprint: 64 hexadecimal digits, letters in lower case. */
  predicate HexName(fp: string) {
    |fp| == 64 && forall c :: c in fp ==> c in "0123456789abcdef"
  }

  lemma HexNames(fp: string)
    ensures ValidFingerprint(fp) <==> HexName(fp)
  {
  }

  /** A file clean-up may act on: readable, of that name, and without fields it does not know. */
  predicate Known(files: map<string, File>, fp: string) { HexName(fp) && Readable(files, fp) && !files[fp].extra }

  /** Over, begun and ended in that order before `limit`, and asking for no wait that lasts until `now`. */
  predicate LongOver(a: Attempt, limit: int, now: int) {
    && (a.state == Completed || a.state == Failed || a.state == Interrupted)
    && a.started.At? && a.finished.Some? && a.finished.value.At?
    && a.started.t <= a.finished.value.t < limit
    && match a.retryAfter case None => true case Some(Garbled) => false case Some(At(t)) => t < now
  }

  /** Finished, and everything about it is more than an hour ago. */
  predicate Removable(job: Job, now: int) {
    Succeeded(job) && job.status == Completed && forall a :: a in job.attempts ==> LongOver(a, now - AN_HOUR, now)
  }

  /** Everything about it is more than thirty days ago. */
  predicate MonthOld(job: Job, now: int) {
    forall a :: a in job.attempts ==> LongOver(a, now - DAYS_30, now)
  }

  lemma RemovableExactly(job: Job, now: int)
    ensures Eligible(job, now) <==> Removable(job, now)
    ensures Removable(job, now) ==> (Expired(job, now) <==> MonthOld(job, now))
  {
    forall a ensures AttemptOlderThanAnHour(a, now) <==> LongOver(a, now - AN_HOUR, now) {
    }
  }

  /** A finished job of the same settings was made from all of it and more, and has a text for each version. */
  predicate Outdone(job: Job, big: Job) {
    && job.fingerprint != big.fingerprint && job.scope == big.scope && job.scope != ""
    && Succeeded(big) && big.status == Completed
    && job.source != [] && (forall s :: s in job.source ==> s in big.source)
    && (exists s :: s in big.source && s !in job.source)
    && forall s :: s in job.source ==> exists t :: t in big.sections && t.version == s.version && Shows(t.body)
  }

  predicate Shows(body: string) { exists c :: c in body && !UnicodeSpace(c) }

  lemma OutdoneExactly(job: Job, big: Job)
    ensures StrictlyCovered(job, big) <==> Outdone(job, big)
  {
    var (a, b) := (SourceSet(job), SourceSet(big));
    assert (forall s :: s in job.source <==> s in a) && forall s :: s in big.source <==> s in b;
    assert job.source != [] ==> job.source[0] in a;
    if a <= b {
      StrictSubset(a, b);
    }
    forall s | s in job.source
      ensures HasText(big, s.version) <==> exists t :: t in big.sections && t.version == s.version && Shows(t.body)
    {
    }
  }

  lemma StrictSubset(a: set<Source>, b: set<Source>)
    requires a <= b
    ensures |a| < |b| <==> exists s :: s in b && s !in a
  {
    assert b == a + (b - a);
    assert |b| == |a| + |b - a|;
    if b - a != {} {
      var s :| s in b - a;
      assert s in b && s !in a;
    }
  }

  /** A planned deletion still holds on the files as they are now. */
  predicate Holds(d: Dir, fp: string, keeper: Option<string>, now: int) {
    && Known(d.hot, fp) && Removable(d.hot[fp].job, now)
    && match keeper
       case Some(k) => Known(d.hot, k) && Outdone(d.hot[fp].job, d.hot[k].job)
       case None => MonthOld(d.hot[fp].job, now)
  }

  /** The archive can take the job: its file there is usable, and no attempt id has two contents. */
  predicate Archivable(d: Dir, fp: string)
    requires fp in d.hot && d.hot[fp].Json?
  {
    fp in d.archive ==> Known(d.archive, fp)
  }

  function OldAttempts(d: Dir, fp: string): seq<Attempt>
    requires fp in d.hot && d.hot[fp].Json? && Archivable(d, fp)
  {
    if fp in d.archive then d.archive[fp].job.attempts else d.hot[fp].job.attempts
  }

  /** `a` is the first attempt with its id. */
  predicate IsFirst(attempts: seq<Attempt>, a: Attempt) {
    exists i :: 0 <= i < |attempts| && attempts[i] == a && forall j :: 0 <= j < i ==> attempts[j].id != a.id
  }

  predicate NoConflict(base: seq<Attempt>, extra: seq<Attempt>) {
    forall k :: 0 <= k < |extra| ==> IsFirst(base + extra, extra[k])
  }

  lemma AgreesExactly(base: seq<Attempt>, extra: seq<Attempt>)
    ensures MergeAttempts(base, extra).Some? <==> NoConflict(base, extra)
  {
    hide MergeAttempts;
    MergeConflict(base, extra);
    forall k | 0 <= k < |extra|
      ensures Agrees(base, extra, k) <==> IsFirst(base + extra, extra[k])
    {
    }
  }

  /** A planned deletion goes through if and only if it still holds, the archive takes the job, and both writes work. */
  lemma RemovedExactly(d: Dir, fp: string, keeper: Option<string>, now: int, io: PruneIo)
    ensures PruneItem(d, fp, keeper, now, io).removed <==>
      && Holds(d, fp, keeper, now) && Archivable(d, fp) && NoConflict(OldAttempts(d, fp), d.hot[fp].job.attempts)
      && io.archiveSave && io.unlink
  {
    HoldsExactly(d, fp, keeper, now);
    hide Holds, StillJustified, ArchiveJob, Archivable, NoConflict;
    if StillJustified(d, fp, keeper, now) {
      JustifiedIsKnown(d, fp, keeper, now);
      ArchivedExactly(d, fp, io);
    }
  }

  lemma ArchivedExactly(d: Dir, fp: string, io: PruneIo)
    requires ValidFingerprint(fp) && fp in d.hot && d.hot[fp].Json? && d.hot[fp].job.fingerprint == fp
    ensures ArchiveJob(d, d.hot[fp].job, io.conflictSave, io.archiveSave).ok <==>
      Archivable(d, fp) && NoConflict(OldAttempts(d, fp), d.hot[fp].job.attempts) && io.archiveSave
  {
    hide NoConflict, MergeAttempts;
    KnownExactly(d.archive, fp);
    if Archivable(d, fp) {
      AgreesExactly(OldAttempts(d, fp), d.hot[fp].job.attempts);
    }
  }

  lemma JustifiedIsKnown(d: Dir, fp: string, keeper: Option<string>, now: int)
    requires StillJustified(d, fp, keeper, now)
    ensures ValidFingerprint(fp) && fp in d.hot && d.hot[fp].Json? && d.hot[fp].job.fingerprint == fp
    ensures LoadForPrune(d.hot, fp) == Found(d.hot[fp].job)
  {
  }

  lemma KnownExactly(files: map<string, File>, fp: string)
    ensures LoadForPrune(files, fp).Found? <==> Known(files, fp)
    ensures LoadForPrune(files, fp).Missing? <==> fp !in files
    ensures Known(files, fp) ==> LoadForPrune(files, fp).job == files[fp].job
  {
    HexNames(fp);
  }

  lemma HoldsExactly(d: Dir, fp: string, keeper: Option<string>, now: int)
    ensures StillJustified(d, fp, keeper, now) <==> Holds(d, fp, keeper, now)
  {
    hide Eligible, Removable, Expired, MonthOld, StrictlyCovered, Outdone, Known, HexName, ValidFingerprint;
    hide LoadForPrune;
    HexNames(fp);
    KnownExactly(d.hot, fp);
    KnownIsHex(d.hot, fp);
    if keeper.Some? {
      HexNames(keeper.value);
      KnownExactly(d.hot, keeper.value);
      KnownIsHex(d.hot, keeper.value);
    }
    if Known(d.hot, fp) {
      var job := d.hot[fp].job;
      RemovableExactly(job, now);
      if keeper.Some? && Known(d.hot, keeper.value) {
        OutdoneExactly(job, d.hot[keeper.value].job);
      }
    }
  }

  lemma KnownIsHex(files: map<string, File>, fp: string)
    ensures Known(files, fp) ==> HexName(fp) && fp in files && files[fp].Json?
  {
  }

  /** The archived job: what was there, with the new attempts after the old, and the texts if it had none. */
  predicate ArchivedAs(d: Dir, fp: string, m: Job)
    requires fp in d.hot && d.hot[fp].Json? && Archivable(d, fp)
  {
    var (job, base) := (d.hot[fp].job, if fp in d.archive then d.archive[fp].job else d.hot[fp].job);
    && m.fingerprint == fp && m.scope == base.scope && m.included == base.included
    && (if base.sections == [] then m.summary == job.summary && m.sections == job.sections && m.source == job.source
        else m.summary == base.summary && m.sections == base.sections && m.source == base.source)
    && base.attempts <= m.attempts && (forall a :: a in job.attempts ==> a in m.attempts)
    && (forall a :: a in m.attempts ==> a in base.attempts || a in job.attempts)
    && m.attempts != [] && m.status == Last(m.attempts).state
  }

  /** What a deletion that goes through leaves: after one write the archive, after the other the hot file gone. */
  lemma WhatDeletionLeaves(d: Dir, fp: string, keeper: Option<string>, now: int, io: PruneIo)
    requires PruneItem(d, fp, keeper, now, io).removed
    ensures var trail := PruneItem(d, fp, keeper, now, io).trail;
      && |trail| == 2 && fp in d.hot && d.hot[fp].Json? && Archivable(d, fp)
      && fp in trail[0].archive && trail[0].archive[fp].Json? && !trail[0].archive[fp].extra
      && trail[0] == d.(archive := d.archive[fp := trail[0].archive[fp]])
      && ArchivedAs(d, fp, trail[0].archive[fp].job)
      && trail[1] == trail[0].(hot := trail[0].hot - {fp})
  {
    RemovedExactly(d, fp, keeper, now, io);
    HoldsExactly(d, fp, keeper, now);
    KnownExactly(d.archive, fp);
    KnownExactly(d.hot, fp);
    hide Removable, Outdone, MonthOld, StillJustified, NoConflict, Known;
    KnownIsHex(d.hot, fp);
    KnownIsHex(d.archive, fp);
    HexNames(fp);
    var job := d.hot[fp].job;
    assert Succeeded(job) by {
      RemovableSucceeded(job, now);
    }
    MergeLosesNothing(OldAttempts(d, fp), job.attempts);
    assert Last(job.attempts) in job.attempts;
  }

  lemma RemovableSucceeded(job: Job, now: int)
    requires Removable(job, now)
    ensures Succeeded(job)
  {
  }

  // ---------------------------------------------------------------- conflicts and batches

  /** A job without its texts: what was spent. */
  predicate Spending(job: Job, c: Job) {
    && c.fingerprint == job.fingerprint && c.attempts == job.attempts && c.scope == job.scope
    && c.included == job.included && c.status == job.status
    && c.summary == [] && c.sections == [] && c.source == []
  }

  /** The evidence was there already, or was written if that works. */
  predicate Kept(d: Dir, d': Dir, c: Job, works: bool) {
    if c in d.conflicts || !works then d' == d
    else
      c in d'.conflicts && d'.conflicts == d.conflicts[c := d'.conflicts[c]]
      && c.attempts != [] && d'.conflicts[c] == c.(status := Last(c.attempts).state)
  }

  /**
    A deletion that still holds but meets two contents under one attempt id deletes nothing; if its write
    works or it was there, what the hot job spent is on record as a conflict.  Nothing else changes.
  */
  lemma ConflictIsOnRecord(d: Dir, fp: string, keeper: Option<string>, now: int, io: PruneIo)
    requires Holds(d, fp, keeper, now) && Archivable(d, fp)
    requires !NoConflict(OldAttempts(d, fp), d.hot[fp].job.attempts)
    ensures var r, d' := PruneItem(d, fp, keeper, now, io), Ops.Final(d, PruneItem(d, fp, keeper, now, io).trail);
      && !r.removed && |r.trail| <= 1 && d'.hot == d.hot && d'.archive == d.archive
      && exists c :: Spending(d.hot[fp].job, c) && Kept(d, d', c, io.conflictSave)
  {
    HoldsExactly(d, fp, keeper, now);
    KnownExactly(d.archive, fp);
    KnownExactly(d.hot, fp);
    AgreesExactly(OldAttempts(d, fp), d.hot[fp].job.attempts);
    var job := d.hot[fp].job;
    assert Succeeded(job) by {
      RemovableSucceeded(job, now);
    }
    hide Removable, Outdone, MonthOld, StillJustified, NoConflict, Known, MergeAttempts, Holds;
    assert fp in d.hot && d.hot[fp].Json? && d.hot[fp].job.fingerprint == fp && ValidFingerprint(fp) by {
      JustifiedIsKnown(d, fp, keeper, now);
    }
    var c := ConflictJob(job);
    assert Spending(job, c);
  }

  function One(b: bool): nat { if b then 1 else 0 }

  /**
    The file operations a planned deletion counts: reading the job and, while that is removable, its keeper;
    then, if it still holds, reading the archive and writing or refusing it, and the unlink.
  */
  lemma OperationsExactly(d: Dir, fp: string, keeper: Option<string>, now: int, io: PruneIo)
    ensures var ops := PruneItem(d, fp, keeper, now, io).ops;
      if !HexName(fp) || (keeper.Some? && !HexName(keeper.value)) then ops == 0
      else if !Known(d.hot, fp) || !Removable(d.hot[fp].job, now) then ops == 1
      else if !Holds(d, fp, keeper, now) then ops == 1 + One(keeper.Some?)
      else ops == 1 + One(keeper.Some?) + ArchiveOperations(d, fp, io)
  {
    HoldsExactly(d, fp, keeper, now);
    HexNames(fp);
    if keeper.Some? {
      HexNames(keeper.value);
    }
    KnownExactly(d.hot, fp);
    KnownIsHex(d.hot, fp);
    if Known(d.hot, fp) {
      RemovableExactly(d.hot[fp].job, now);
    }
    hide Removable, Holds, StillJustified, ArchiveJob, Eligible, HexName, Known, ValidFingerprint, LoadForPrune;
    if StillJustified(d, fp, keeper, now) {
      JustifiedIsKnown(d, fp, keeper, now);
      ArchiveCounts(d, fp, io);
      ArchivedExactly(d, fp, io);
    }
    assert Holds(d, fp, keeper, now) ==> Known(d.hot, fp) && Removable(d.hot[fp].job, now) by {
      HoldsIsKnown(d, fp, keeper, now);
    }
  }

  lemma HoldsIsKnown(d: Dir, fp: string, keeper: Option<string>, now: int)
    ensures Holds(d, fp, keeper, now) ==>
      Known(d.hot, fp) && Removable(d.hot[fp].job, now) && (keeper.Some? ==> Known(d.hot, keeper.value))
  {
  }

  /** The conflict the job would leave is on record already. */
  predicate OnRecord(d: Dir, job: Job) {
    exists c :: c in d.conflicts && Spending(job, c)
  }

  function ArchiveOperations(d: Dir, fp: string, io: PruneIo): nat
    requires fp in d.hot && d.hot[fp].Json?
  {
    if !Archivable(d, fp) then 1
    else if !NoConflict(OldAttempts(d, fp), d.hot[fp].job.attempts) then if OnRecord(d, d.hot[fp].job) then 2 else 3
    else if io.archiveSave then 3 else 2
  }

  lemma ArchiveCounts(d: Dir, fp: string, io: PruneIo)
    requires ValidFingerprint(fp) && fp in d.hot && d.hot[fp].Json? && d.hot[fp].job.fingerprint == fp
    ensures var kept := ArchiveJob(d, d.hot[fp].job, io.conflictSave, io.archiveSave);
      ArchiveOperations(d, fp, io) == kept.ops + One(kept.ok)
  {
    hide NoConflict, MergeAttempts;
    KnownExactly(d.archive, fp);
    if Archivable(d, fp) {
      AgreesExactly(OldAttempts(d, fp), d.hot[fp].job.attempts);
    }
    assert forall c :: Spending(d.hot[fp].job, c) <==> c == ConflictJob(d.hot[fp].job);
  }

  lemma BatchOfNone(d: Dir, now: int, io: int -> PruneIo)
    ensures PruneBatch(d, [], now, io) == Ops.Batch([], 0, 0, 0)
  {
  }

  /** A batch of one is that item. */
  lemma BatchOfOne(d: Dir, item: Item, now: int, io: int -> PruneIo)
    ensures var (b, p) := (PruneBatch(d, [item], now, io), PruneItem(d, item.fp, item.keeper, now, io(0)));
      b.trail == p.trail && b.visited == 1 && b.ops == p.ops && b.removed == if p.removed then 1 else 0
  {
    hide PruneItem;
    assert [item][..0] == [];
    assert PruneBatch(d, [], now, io) == Ops.Batch([], 0, 0, 0);
  }

  /** Items are taken in order, each on the files the ones before it left. */
  lemma {:induction false} BatchComposes(d: Dir, a: seq<Item>, b: seq<Item>, now: int, io: int -> PruneIo)
    ensures var (x, y, z) := (PruneBatch(d, a + b, now, io), PruneBatch(d, a, now, io),
                              PruneBatch(Ops.Final(d, PruneBatch(d, a, now, io).trail), b, now, i => io(|a| + i)));
      x.trail == y.trail + z.trail && x.visited == y.visited + z.visited && x.ops == y.ops + z.ops
      && x.removed == y.removed + z.removed
    decreases |b|
  {
    hide PruneItem;
    if b == [] {
      assert a + b == a;
    } else {
      var init, k := b[..|b| - 1], |b| - 1;
      BatchComposes(d, a, init, now, io);
      assert (a + b)[..|a + b| - 1] == a + init && (a + b)[|a + b| - 1] == b[k];
      var y := PruneBatch(d, a, now, io);
      var later := (i: int) => io(|a| + i);
      var z := PruneBatch(Ops.Final(d, y.trail), init, now, later);
      FinalOfConcat(d, y.trail, z.trail);
      assert later(k) == io(|a| + k);
    }
  }
}
