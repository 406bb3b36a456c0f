/**
  The ledger directories as the daemon changes them, one file write at a time.  `trail` records
  every durable state, so a contract over it says what a crash between two writes can leave behind.
*/
module LedgerStore {
  import opened Prelude
  import opened LedgerModel
  import Ops = LedgerOps

  class Ledger {
    var hot: map<string, File>
    var archive: map<string, File>
    var conflicts: map<Job, Job>
    ghost var trail: seq<Dir>

    function View(): Dir
      reads this
    {
      Dir(hot, archive, conflicts)
    }

    constructor (hot: map<string, File>, archive: map<string, File>, conflicts: map<Job, Job>)
      ensures View() == Dir(hot, archive, conflicts) && trail == []
    {
      this.hot, this.archive, this.conflicts := hot, archive, conflicts;
      trail := [];
    }

    /** `save` of a hot job; a failed write leaves the old file. */
    method Save(fp: string, job: Job, works: bool) returns (ok: bool)
      modifies this
      ensures ok == works
      ensures works ==> View() == Ops.PutHot(old(View()), fp, job) && trail == old(trail) + [View()]
      ensures !works ==> View() == old(View()) && trail == old(trail)
    {
      ok := works;
      if works {
        var sealed := job;
        if job.attempts != [] {
          sealed := sealed.(status := Last(job.attempts).state);
        }
        hot := hot[fp := Json(sealed, false)];
        trail := trail + [View()];
      }
    }

    /** The tests `decide` makes before it writes anything. */
    method Refuse(limits: Limits, plan: Plan, fp: string, env: Ops.Env)
      returns (refusal: Option<Ops.View>, existing: Option<Job>)
      ensures refusal == Ops.Refusal(View(), limits, plan, fp, env)
      ensures refusal.None? ==> existing == Ops.Existing(View(), fp)
    {
      existing := None;
      if !env.languageOk {
        return Some(Ops.LanguageView), None;
      }
      match Load(View(), fp) {
        case Found(job) => existing := Some(job);
        case Corrupt => return Some(Ops.LedgerView), None;
        case Missing =>
      }
      if !Ops.OwnBusyOrDone(existing) {
        if CoveredSomewhere(View(), plan) {
          return Some(Ops.CoveredView), existing;
        }
        if CoveringBusy(View(), plan, fp) {
          return Some(Ops.CoveringBusyView), existing;
        }
      }
      if existing.Some? {
        var state := LastState(existing.value);
        if state.Completed? || state.Reserved? || state.InFlight? || RetryBlocked(existing.value, env.retryNow) {
          return Some(Ops.JobView(existing.value, None)), existing;
        }
        var over := AttemptsBlock(existing.value, limits, env.blockNow);
        if over.Some? {
          return Some(Ops.JobView(existing.value, over)), existing;
        }
      }
      var jobs := LedgerJobs(View());
      if limits.maxPerHour > 0 && |Spent(jobs, env.budgetNow)| >= limits.maxPerHour {
        return Some(Ops.HourlyBudget), existing;
      }
      if |BusyOthers(jobs, fp)| >= limits.maxInFlight {
        return Some(Ops.InFlightBudget), existing;
      }
      if !env.keyOk {
        return Some(Ops.Unconfigured), existing;
      }
      refusal := None;
    }

    method Decide(limits: Limits, plan: Plan, fp: string, env: Ops.Env) returns (action: Ops.Action)
      modifies this
      ensures action == Ops.Decide(old(View()), limits, plan, fp, env).action
      ensures trail == old(trail) + Ops.Decide(old(View()), limits, plan, fp, env).trail
      ensures View() == Ops.Final(old(View()), Ops.Decide(old(View()), limits, plan, fp, env).trail)
    {
      hide Ops.Refusal, Ops.Existing, Ops.BlankJob, Ops.PutHot, Stamp;
      var refusal, existing := Refuse(limits, plan, fp, env);
      if refusal.Some? {
        return Ops.Show(refusal.value);
      }
      var job := if existing.Some? then existing.value else Ops.BlankJob(fp, plan);
      job := job.(attempts := job.attempts + [Ops.ReservedAttempt(env, limits)]);
      var saved := Save(fp, job, env.firstSave);
      if !saved {
        return Ops.Show(Ops.LedgerHttpView);
      }
      job := Ops.SetLast(job, Last(job.attempts).(state := InFlight, sent := true));
      saved := Save(fp, job, env.secondSave);
      if !saved {
        job := Ops.SetLast(job, Last(job.attempts).(
          state := Interrupted, sent := false, usage := None, error := Some("not_sent"), errorKind := None,
          finished := Some(At(Stamp(env.endNow)))));
        var _ := Save(fp, job, env.thirdSave);
        return Ops.Show(Ops.JobView(job, None));
      }
      action := Ops.Send(env.id, job);
    }

    method Finish(fp: string, id: string, reply: Ops.Reply, now: int, works: bool)
      modifies this
      ensures trail == old(trail) + Ops.Finish(old(View()), fp, id, reply, now, works)
      ensures View() == Ops.Final(old(View()), Ops.Finish(old(View()), fp, id, reply, now, works))
    {
      var loaded := Load(View(), fp);
      if !loaded.Found? {
        return;
      }
      var job := loaded.job;
      var sent := SentCount(job);
      if sent == 0 {
        sent := 1;
      }
      var pos := Ops.FindAttempt(job.attempts, id);
      if pos.None? {
        return;
      }
      var (a, produced) := Ops.FillAttempt(job.attempts[pos.value], reply, job.included, sent, now);
      job := job.(attempts := job.attempts[pos.value := a]);
      if produced.Some? {
        job := job.(summary := produced.value.summary, sections := produced.value.sections);
      }
      var _ := Save(fp, job, works);
    }

    /** Close an attempt the last process left open: a sent one may have been charged, a reserved one was not sent. */
    method SettleFile(g: string, works: bool, now: int)
      requires g in hot
      modifies this
      ensures Ops.NeedsSettle(old(hot)[g], g) && works ==>
        View() == Ops.PutHot(old(View()), g, Ops.SettleJob(old(hot)[g].job, now)) && trail == old(trail) + [View()]
      ensures !(Ops.NeedsSettle(old(hot)[g], g) && works) ==> View() == old(View()) && trail == old(trail)
    {
      var loaded := LoadFile(hot[g], g);
      if !loaded.Found? || loaded.job.attempts == [] {
        return;
      }
      var job := loaded.job;
      var a := Last(job.attempts);
      if a.state.InFlight? {
        a := a.(state := Interrupted, usage := None, sent := true, error := Some("restart"), errorKind := None,
          finished := Some(At(Stamp(now))));
      } else if a.state.Reserved? {
        a := a.(state := Interrupted, sent := false, usage := None, error := Some("not_sent"), errorKind := None,
          finished := Some(At(Stamp(now))));
      } else {
        return;
      }
      var _ := Save(g, Ops.SetLast(job, a), works);
    }

    ghost static predicate SettledPart(before: Dir, limit: set<string>, at: string -> int, t: Dir) {
      exists s :: s <= limit && t == Ops.SettleDir(before, s, at)
    }

    method SettleNext(g: string, works: bool, at: string -> int, ghost before: Dir, ghost saved: set<string>)
      returns (ghost step: seq<Dir>)
      requires g in before.hot && g !in saved && View() == Ops.SettleDir(before, saved, at)
      modifies this
      ensures View() == Ops.SettleDir(before, if works then saved + {g} else saved, at)
      ensures trail == old(trail) + step && (step == [] || step == [View()])
    {
      Ops.SettleOne(before, saved, g, at);
      SettleFile(g, works, at(g));
      step := trail[|old(trail)|..];
    }

    /** The listing comes in any order; files in `failing` cannot be written. */
    method SettleDir(failing: set<string>, at: string -> int) returns (ghost steps: seq<Dir>)
      modifies this
      ensures View() == Ops.SettleDir(old(View()), old(hot).Keys - failing, at)
      ensures trail == old(trail) + steps
      ensures forall i :: 0 <= i < |steps| ==> SettledPart(old(View()), old(hot).Keys - failing, at, steps[i])
    {
      ghost var before := View();
      var todo := hot.Keys;
      ghost var limit := todo - failing;
      Ops.SettleNothing(before, at);
      steps := [];
      assert limit - todo == {};
      while todo != {}
        invariant todo <= before.hot.Keys
        invariant View() == Ops.SettleDir(before, limit - todo, at)
        invariant trail == old(trail) + steps
        invariant forall i :: 0 <= i < |steps| ==> SettledPart(before, limit, at, steps[i])
        decreases todo
      {
        var g :| g in todo;
        ghost var saved := limit - todo;
        ghost var step := SettleNext(g, g !in failing, at, before, saved);
        todo := todo - {g};
        assert limit - todo == if g in failing then saved else saved + {g};
        assert SettledPart(before, limit, at, View());
        steps := steps + step;
      }
      assert limit - todo == limit;
    }

    /** Copy a job into the archive, merging by attempt id and refusing on a conflicting payload. */
    method ArchivePrunedJob(job: Job, conflictSave: bool, archiveSave: bool) returns (ok: bool, ops: nat)
      modifies this
      ensures View() == Ops.ArchiveJob(old(View()), job, conflictSave, archiveSave).dir
      ensures ok == Ops.ArchiveJob(old(View()), job, conflictSave, archiveSave).ok
      ensures ops == Ops.ArchiveJob(old(View()), job, conflictSave, archiveSave).ops
      ensures trail == if View() == old(View()) && !ok then old(trail) else old(trail) + [View()]
    {
      ok, ops := false, 0;
      if !ValidFingerprint(job.fingerprint) {
        return;
      }
      ops := 1;
      var base := job;
      match LoadForPrune(archive, job.fingerprint) {
        case Found(existing) => base := existing;
        case Missing =>
        case Corrupt => return;
      }
      ghost var first := base;
      if base.sections == [] {
        base := base.(summary := job.summary, sections := job.sections, source := job.source);
      }
      var conflict := false;
      var i := 0;
      while i < |job.attempts| && !conflict
        invariant 0 <= i <= |job.attempts|
        invariant base == Ops.ArchiveBase(first, job).(attempts := base.attempts)
        invariant !conflict ==>
          Ops.MergeAttempts(first.attempts, job.attempts) == Ops.MergeAttempts(base.attempts, job.attempts[i..])
        invariant conflict ==> Ops.MergeAttempts(first.attempts, job.attempts).None?
        decreases |job.attempts| - i, !conflict
      {
        var a := job.attempts[i];
        assert job.attempts[i..][1..] == job.attempts[i + 1..];
        var found := Ops.FindAttempt(base.attempts, a.id);
        if found.Some? {
          if base.attempts[found.value] != a {
            conflict := true;
          }
        } else {
          base := base.(attempts := base.attempts + [a]);
        }
        i := i + 1;
      }
      if conflict {
        var c := job.(summary := [], sections := [], source := []);
        ops := ops + 1;
        if c !in conflicts {
          ops := ops + 1;
          if conflictSave {
            conflicts := conflicts[c := Sealed(c)];
            trail := trail + [View()];
          }
        }
        return;
      }
      base := base.(status := job.status);
      ops := ops + 1;
      if archiveSave {
        archive := archive[job.fingerprint := Json(Sealed(base), false)];
        trail := trail + [View()];
        ok := true;
      }
    }

    /** One gate section of clean-up: every planned deletion is re-justified from the files as they are now. */
    method ApplyPruneBatch(items: seq<Ops.Item>, now: int, io: int -> Ops.PruneIo)
      returns (visited: nat, ops: nat, removed: nat)
      requires |items| <= 40
      modifies this
      ensures trail == old(trail) + Ops.PruneBatch(old(View()), items, now, io).trail
      ensures View() == Ops.Final(old(View()), Ops.PruneBatch(old(View()), items, now, io).trail)
      ensures removed == Ops.PruneBatch(old(View()), items, now, io).removed
      ensures visited == |items|
      ensures ops <= 200
    {
      hide Ops.PruneItem;
      visited, ops, removed := 0, 0, 0;
      ghost var done: Ops.Batch := Ops.Batch([], 0, 0, 0);
      while visited < |items|
        invariant 0 <= visited <= |items|
        invariant done == Ops.PruneBatch(old(View()), items[..visited], now, io)
        invariant ops == done.ops && removed == done.removed
        invariant trail == old(trail) + done.trail
        invariant View() == Ops.Final(old(View()), done.trail)
      {
        ghost var before := View();
        ghost var beforeTrail := trail;
        assert items[..visited + 1][..visited] == items[..visited];
        ghost var p := Ops.PruneItem(before, items[visited].fp, items[visited].keeper, now, io(visited));
        var gone, used := ApplyPruneItem(items[visited], now, io(visited));
        ops := ops + used;
        removed := removed + if gone then 1 else 0;
        Ops.FinalOfConcat(old(View()), done.trail, p.trail);
        done := Ops.PruneBatch(old(View()), items[..visited + 1], now, io);
        visited := visited + 1;
      }
      assert items[..|items|] == items;
    }

    /** One pass of the deletion loop. */
    method ApplyPruneItem(item: Ops.Item, now: int, io: Ops.PruneIo) returns (removed: bool, ops: nat)
      modifies this
      ensures trail == old(trail) + Ops.PruneItem(old(View()), item.fp, item.keeper, now, io).trail
      ensures View() == Ops.Final(old(View()), Ops.PruneItem(old(View()), item.fp, item.keeper, now, io).trail)
      ensures ops == Ops.PruneItem(old(View()), item.fp, item.keeper, now, io).ops
      ensures removed == Ops.PruneItem(old(View()), item.fp, item.keeper, now, io).removed
    {
      removed, ops := false, 0;
      if !ValidFingerprint(item.fp) || (item.keeper.Some? && !ValidFingerprint(item.keeper.value)) {
        return;
      }
      ops := ops + 1;
      var loaded := LoadForPrune(hot, item.fp);
      if !loaded.Found? || !Eligible(loaded.job, now) {
        return;
      }
      if item.keeper.Some? {
        ops := ops + 1;
        var retained := LoadForPrune(hot, item.keeper.value);
        if !retained.Found? || !StrictlyCovered(loaded.job, retained.job) {
          return;
        }
      } else if !Expired(loaded.job, now) {
        return;
      }
      var archived, used := ArchivePrunedJob(loaded.job, io.conflictSave, io.archiveSave);
      ops := ops + used;
      if !archived {
        return;
      }
      ops := ops + 1;
      if io.unlink {
        hot := hot - {item.fp};
        trail := trail + [View()];
        removed := true;
      }
    }
  }
}
