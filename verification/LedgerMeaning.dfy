/**
  What a reservation, a reply, a restart and a deletion come to, said of the files alone: when exactly a
  request is sent, that what is shown instead is true, what a reply leaves, and when exactly a job goes.
*/
module LedgerMeaning {
  import opened Prelude
  import opened LedgerModel
  import opened Ops = LedgerOps
  import opened LedgerRuns
  import opened LedgerSystem

  const AN_HOUR := 3_600_000_000_000

  // ---------------------------------------------------------------- what the files show

  predicate Readable(files: map<string, File>, g: string) {
    g in files && files[g].Json? && files[g].job.fingerprint == g
  }

  predicate Succeeded(job: Job) { job.attempts != [] && Last(job.attempts).state == Completed }

  predicate UnderWay(job: Job) {
    job.attempts != [] && (Last(job.attempts).state == Reserved || Last(job.attempts).state == InFlight)
  }

  /** The job the ledger shows for a fingerprint: the hot one, else an archived finished one with a text. */
  predicate Shown(d: Dir, g: string, job: Job) {
    || (Readable(d.hot, g) && job == d.hot[g].job)
    || (!Readable(d.hot, g) && Readable(d.archive, g) && job == d.archive[g].job && Succeeded(job)
        && job.sections != [])
  }

  function Named(d: Dir): set<string> { d.hot.Keys + d.archive.Keys }

  function ShownJob(d: Dir, g: string): Job
    requires Readable(d.hot, g) || Readable(d.archive, g)
  {
    if Readable(d.hot, g) then d.hot[g].job else d.archive[g].job
  }

  predicate IsShown(d: Dir, g: string) {
    (Readable(d.hot, g) || Readable(d.archive, g)) && Shown(d, g, ShownJob(d, g))
  }

  lemma JobsAreShown(d: Dir, g: string)
    ensures g in LedgerJobs(d) <==> IsShown(d, g)
    ensures g in LedgerJobs(d) ==> LedgerJobs(d)[g] == ShownJob(d, g) && g in Named(d)
  {
  }

  /** The attempts within the last hour that may have been charged; one without a readable start counts. */
  function Charged(d: Dir, now: int): set<(string, int)> {
    set g, i | g in Named(d) && IsShown(d, g) && 0 <= i < |ShownJob(d, g).attempts|
      && ShownJob(d, g).attempts[i].sent
      && (ShownJob(d, g).attempts[i].started.At? ==> now - ShownJob(d, g).attempts[i].started.t <= AN_HOUR)
      :: (g, i)
  }

  /** The other jobs being translated. */
  function OthersUnderWay(d: Dir, fp: string): set<string> {
    set g | g in Named(d) && IsShown(d, g) && g != fp && UnderWay(ShownJob(d, g))
  }

  lemma ChargedAreSpent(d: Dir, now: int)
    ensures Charged(d, now) == Spent(LedgerJobs(d), now)
  {
    forall g ensures g in LedgerJobs(d) <==> IsShown(d, g) {
      JobsAreShown(d, g);
    }
    forall g | g in LedgerJobs(d) ensures LedgerJobs(d)[g] == ShownJob(d, g) && g in Named(d) {
      JobsAreShown(d, g);
    }
    hide IsShown, ShownJob, Named, LedgerJobs;
    assert forall x :: x in Charged(d, now) <==> x in Spent(LedgerJobs(d), now);
  }

  lemma OthersAreBusy(d: Dir, fp: string)
    ensures OthersUnderWay(d, fp) == BusyOthers(LedgerJobs(d), fp)
  {
    forall g ensures g in LedgerJobs(d) <==> IsShown(d, g) {
      JobsAreShown(d, g);
    }
    forall g | g in LedgerJobs(d) ensures LedgerJobs(d)[g] == ShownJob(d, g) && g in Named(d) {
      JobsAreShown(d, g);
    }
    hide IsShown, ShownJob, Named, LedgerJobs;
    assert forall x :: x in OthersUnderWay(d, fp) <==> x in BusyOthers(LedgerJobs(d), fp);
  }

  // ---------------------------------------------------------------- what stands against a send

  predicate Includes(job: Job, plan: Plan) {
    job.scope == plan.scope && forall w :: w in plan.want ==> w in job.source
  }

  /** A finished job that has a text for each wanted version, made from the wanted source. */
  predicate AnsweredBy(d: Dir, plan: Plan, g: string) {
    && plan.want != [] && IsShown(d, g) && Succeeded(ShownJob(d, g)) && Includes(ShownJob(d, g), plan)
    && forall w :: w in plan.want ==> exists s :: s in ShownJob(d, g).sections && s.version == w.version
  }

  /** Another job that is being translated and includes all of the request. */
  predicate AwaitedFrom(d: Dir, plan: Plan, fp: string, g: string) {
    plan.want != [] && g != fp && IsShown(d, g) && UnderWay(ShownJob(d, g)) && Includes(ShownJob(d, g), plan)
  }

  /** The file of a fingerprint is there and cannot be used, or is missing and the archived one cannot be used. */
  predicate Unusable(d: Dir, fp: string) {
    || (fp in d.hot && !Readable(d.hot, fp))
    || (fp !in d.hot && fp in d.archive && !Readable(d.archive, fp))
  }

  /** The last failure asks to wait past this moment; a time that cannot be read waits for ever. */
  predicate HeldBack(job: Job, now: int) {
    && job.attempts != [] && !Succeeded(job) && !UnderWay(job)
    && match Last(job.attempts).retryAfter
       case None => false
       case Some(Garbled) => true
       case Some(At(t)) => t > now - now % 1_000_000
  }

  predicate LastSentAt(attempts: seq<Attempt>, i: int) {
    0 <= i < |attempts| && attempts[i].sent && forall j :: i < j < |attempts| ==> !attempts[j].sent
  }

  function EndOf(a: Attempt): When { if a.finished.Some? then a.finished.value else a.started }

  /** All attempts are used up, and the last one sent ended less than an hour ago. */
  ghost predicate UsedUp(job: Job, limits: Limits, now: int) {
    && limits.maxAttempts > 0
    && |set i | 0 <= i < |job.attempts| && job.attempts[i].sent| >= limits.maxAttempts
    && exists i :: LastSentAt(job.attempts, i) && EndOf(job.attempts[i]).At?
         && EndOf(job.attempts[i]).t + AN_HOUR > now
  }

  lemma {:induction false} LastSentIs(attempts: seq<Attempt>)
    ensures match LastSent(attempts)
            case None => forall i :: !LastSentAt(attempts, i)
            case Some(a) => forall i :: LastSentAt(attempts, i) ==> attempts[i] == a
    ensures LastSent(attempts).Some? ==> exists i :: LastSentAt(attempts, i)
  {
    var n := |attempts| - 1;
    if attempts != [] {
      if attempts[n].sent {
        assert LastSentAt(attempts, n);
      } else {
        var init := attempts[..n];
        LastSentIs(init);
        assert forall i :: LastSentAt(attempts, i) ==> LastSentAt(init, i);
        assert forall i :: LastSentAt(init, i) ==> LastSentAt(attempts, i) && init[i] == attempts[i];
      }
    }
  }

  lemma UsedUpExactly(job: Job, limits: Limits, now: int)
    requires !Succeeded(job) && !UnderWay(job)
    ensures RetryBlocked(job, now) <==> HeldBack(job, now)
    ensures !HeldBack(job, now) ==> (AttemptsBlock(job, limits, now).Some? <==> UsedUp(job, limits, now))
    ensures AttemptsBlock(job, limits, now).Some? ==>
      exists i :: LastSentAt(job.attempts, i) && EndOf(job.attempts[i]).At?
        && AttemptsBlock(job, limits, now).value == EndOf(job.attempts[i]).t + AN_HOUR > now
  {
    LastSentIs(job.attempts);
    assert SentSlots(job.attempts) == set i | 0 <= i < |job.attempts| && job.attempts[i].sent;
  }

  /** Nothing about the request's own job stands against another attempt. */
  ghost predicate MayTry(d: Dir, limits: Limits, fp: string, env: Env) {
    && !Unusable(d, fp)
    && (IsShown(d, fp) ==>
        var job := ShownJob(d, fp);
        !Succeeded(job) && !UnderWay(job) && !HeldBack(job, env.retryNow) && !UsedUp(job, limits, env.blockNow))
  }

  lemma OwnJob(d: Dir, fp: string)
    requires !Unusable(d, fp)
    ensures match Existing(d, fp)
            case Some(job) => IsShown(d, fp) && job == ShownJob(d, fp)
            case None => !IsShown(d, fp)
    ensures !Load(d, fp).Corrupt?
  {
  }

  lemma CoveredMeans(d: Dir, plan: Plan)
    ensures CoveredSomewhere(d, plan) <==> exists g :: AnsweredBy(d, plan, g)
  {
    forall g ensures g in LedgerJobs(d) <==> IsShown(d, g) {
      JobsAreShown(d, g);
    }
    forall g | g in LedgerJobs(d)
      ensures Covers(LedgerJobs(d)[g], plan) && plan.want != [] <==> AnsweredBy(d, plan, g)
    {
      JobsAreShown(d, g);
      OneCovers(LedgerJobs(d)[g], plan);
    }
    hide LedgerJobs, IsShown, ShownJob, Covers, Includes;
    if g :| AnsweredBy(d, plan, g) {
      assert g in LedgerJobs(d);
    }
  }

  lemma OneCovers(job: Job, plan: Plan)
    ensures Covers(job, plan) <==>
      Succeeded(job) && Includes(job, plan)
      && forall w :: w in plan.want ==> exists s :: s in job.sections && s.version == w.version
  {
  }

  lemma BusyMeans(d: Dir, plan: Plan, fp: string)
    ensures CoveringBusy(d, plan, fp) <==> exists g :: AwaitedFrom(d, plan, fp, g)
  {
    forall g ensures g in LedgerJobs(d) <==> IsShown(d, g) {
      JobsAreShown(d, g);
    }
    forall g | g in LedgerJobs(d) ensures LedgerJobs(d)[g] == ShownJob(d, g) {
      JobsAreShown(d, g);
    }
    hide LedgerJobs, IsShown, ShownJob;
    if CoveringBusy(d, plan, fp) {
      var g :| g in LedgerJobs(d) && g != fp && Busy(LedgerJobs(d)[g]) && SameSources(LedgerJobs(d)[g], plan);
      assert AwaitedFrom(d, plan, fp, g);
    }
    if g :| AwaitedFrom(d, plan, fp, g) {
      assert Busy(LedgerJobs(d)[g]) && SameSources(LedgerJobs(d)[g], plan);
    }
  }

  // ---------------------------------------------------------------- when a request is sent

  /** Room in both budgets; a cap of zero an hour is no cap. */
  predicate HasRoom(d: Dir, limits: Limits, fp: string, env: Env) {
    && (limits.maxPerHour > 0 ==> |Charged(d, env.budgetNow)| < limits.maxPerHour)
    && |OthersUnderWay(d, fp)| < limits.maxInFlight
  }

  /** A request is sent if and only if nothing of this stands against it and both writes before it work. */
  lemma SendExactly(d: Dir, limits: Limits, plan: Plan, fp: string, env: Env)
    requires env.retryNow <= env.blockNow
    ensures Decide(d, limits, plan, fp, env).action.Send? <==>
      && env.languageOk && env.keyOk && env.firstSave && env.secondSave
      && MayTry(d, limits, fp, env) && HasRoom(d, limits, fp, env)
      && (forall g :: !AnsweredBy(d, plan, g)) && (forall g :: !AwaitedFrom(d, plan, fp, g))
  {
    hide AnsweredBy, AwaitedFrom, CoveredSomewhere, CoveringBusy, LedgerJobs, Spent, BusyOthers, Charged;
    hide OthersUnderWay, MayTry, Load, Existing, RetryBlocked, AttemptsBlock, ReserveJob, LaunchJob, WithdrawJob;
    hide PutHot;
    OwnMayTry(d, limits, fp, env);
    CoveredMeans(d, plan);
    BusyMeans(d, plan, fp);
    ChargedAreSpent(d, env.budgetNow);
    OthersAreBusy(d, fp);
  }

  lemma OwnMayTry(d: Dir, limits: Limits, fp: string, env: Env)
    requires env.retryNow <= env.blockNow
    ensures MayTry(d, limits, fp, env) <==> !Load(d, fp).Corrupt? && OwnTest(Existing(d, fp), limits, env)
  {
    hide LastSent, SentSlots, UsedUp, AttemptsBlock, Stamp;
    if !Unusable(d, fp) {
      OwnJob(d, fp);
      if IsShown(d, fp) && !Succeeded(ShownJob(d, fp)) && !UnderWay(ShownJob(d, fp)) {
        UsedUpExactly(ShownJob(d, fp), limits, env.retryNow);
        UsedUpExactly(ShownJob(d, fp), limits, env.blockNow);
        HoldsPass(ShownJob(d, fp), env.retryNow, env.blockNow);
      }
    }
  }

  predicate OwnTest(existing: Option<Job>, limits: Limits, env: Env) {
    existing.Some? ==>
      !OwnBusyOrDone(existing) && !RetryBlocked(existing.value, env.retryNow)
      && AttemptsBlock(existing.value, limits, env.blockNow).None?
  }

  lemma HoldsPass(job: Job, now: int, later: int)
    requires now <= later
    ensures HeldBack(job, later) ==> HeldBack(job, now)
  {
  }

  /** What is shown when nothing is sent is true of the files, the caps, the key or the write. */
  lemma ShownIsTrue(d: Dir, limits: Limits, plan: Plan, fp: string, env: Env, v: View)
    requires env.retryNow <= env.blockNow
    requires Refusal(d, limits, plan, fp, env) == Some(v)
    ensures Decide(d, limits, plan, fp, env) == Decision([], Show(v))
    ensures match v
            case LanguageView => !env.languageOk
            case LedgerView => Unusable(d, fp)
            case LedgerHttpView => false
            case CoveredView => exists g :: AnsweredBy(d, plan, g)
            case CoveringBusyView => exists g :: AwaitedFrom(d, plan, fp, g)
            case JobView(job, at) => IsShown(d, fp) && job == ShownJob(d, fp) && TruePause(job, at, limits, env)
            case HourlyBudget => limits.maxPerHour > 0 && |Charged(d, env.budgetNow)| >= limits.maxPerHour
            case InFlightBudget => |OthersUnderWay(d, fp)| >= limits.maxInFlight
            case Unconfigured => !env.keyOk
  {
    hide AnsweredBy, AwaitedFrom, CoveredSomewhere, CoveringBusy, LedgerJobs, Spent, BusyOthers, Charged;
    hide OthersUnderWay, Load, Existing, RetryBlocked, AttemptsBlock, IsShown, ShownJob, Unusable, TruePause;
    CoveredMeans(d, plan);
    BusyMeans(d, plan, fp);
    ChargedAreSpent(d, env.budgetNow);
    OthersAreBusy(d, fp);
    UnusableIsCorrupt(d, fp);
    if v.JobView? {
      PausesAreTrue(d, limits, fp, env);
    }
  }

  lemma UnusableIsCorrupt(d: Dir, fp: string)
    ensures Load(d, fp).Corrupt? <==> Unusable(d, fp)
  {
  }

  /** Shown without a time: done, under way or held back.  Shown with one: all attempts used up until then. */
  predicate TruePause(job: Job, at: Option<int>, limits: Limits, env: Env) {
    match at
    case None => Succeeded(job) || UnderWay(job) || HeldBack(job, env.retryNow)
    case Some(t) =>
      && !Succeeded(job) && !UnderWay(job) && t > env.blockNow
      && 0 < limits.maxAttempts <= |set i | 0 <= i < |job.attempts| && job.attempts[i].sent|
      && exists i :: 0 <= i < |job.attempts| && LastSentAt(job.attempts, i) && EndOf(job.attempts[i]) == At(t - AN_HOUR)
  }

  lemma PausesAreTrue(d: Dir, limits: Limits, fp: string, env: Env)
    requires !Load(d, fp).Corrupt? && Existing(d, fp).Some? && env.retryNow <= env.blockNow
    ensures var job := Existing(d, fp).value;
      && IsShown(d, fp) && job == ShownJob(d, fp)
      && (OwnBusyOrDone(Some(job)) || RetryBlocked(job, env.retryNow) ==> TruePause(job, None, limits, env))
      && (!OwnBusyOrDone(Some(job)) && AttemptsBlock(job, limits, env.blockNow).Some? ==>
        TruePause(job, AttemptsBlock(job, limits, env.blockNow), limits, env))
  {
    hide LastSent, UsedUp, Stamp, IsShown, ShownJob, Load, Existing, Unusable;
    UnusableIsCorrupt(d, fp);
    OwnJob(d, fp);
    var job := Existing(d, fp).value;
    if !OwnBusyOrDone(Some(job)) {
      UsedUpExactly(job, limits, env.retryNow);
      UsedUpExactly(job, limits, env.blockNow);
      assert SentSlots(job.attempts) == set i | 0 <= i < |job.attempts| && job.attempts[i].sent;
    }
  }

  // ---------------------------------------------------------------- what a reservation leaves on disk

  /** The job as it was before, or a new one for the plan, with one more attempt. */
  predicate OneMore(d: Dir, plan: Plan, fp: string, job: Job, a: Attempt) {
    && job.attempts != [] && Last(job.attempts) == a
    && if IsShown(d, fp) then job == ShownJob(d, fp).(attempts := ShownJob(d, fp).attempts + [a], status := a.state)
       else
         && job.fingerprint == fp && job.attempts == [a] && job.summary == [] && job.sections == []
         && job.scope == plan.scope && job.source == plan.want
         && |job.included| == |plan.want|
         && forall i :: 0 <= i < |plan.want| ==> job.included[i] == plan.want[i].version
  }

  /** A fresh attempt: who asked for what and when, and nothing learnt yet. */
  predicate Fresh(a: Attempt, limits: Limits, env: Env) {
    && a.id == env.id && a.started == At(env.startNow - env.startNow % 1_000_000) && a.requestedModel == limits.model
    && a.model.None? && a.usage.None? && a.retryAfter.None? && a.stopReason.None? && a.errorKind.None?
  }

  /** Only the hot file of `fp` was written: the job with one more attempt, its status that attempt's state. */
  predicate Wrote(d: Dir, d': Dir, limits: Limits, plan: Plan, fp: string, env: Env, a: Attempt) {
    && d'.archive == d.archive && d'.conflicts == d.conflicts
    && fp in d'.hot && d'.hot[fp].Json? && !d'.hot[fp].extra && d'.hot == d.hot[fp := d'.hot[fp]]
    && OneMore(d, plan, fp, d'.hot[fp].job, a) && d'.hot[fp].job.status == a.state
    && Fresh(a, limits, env)
  }

  ghost predicate WroteAs(d: Dir, d': Dir, limits: Limits, plan: Plan, fp: string, env: Env, state: State, sent: bool) {
    exists a :: Wrote(d, d', limits, plan, fp, env, a) && a.state == state && a.sent == sent
      && (if state == Interrupted
          then a.finished == Some(At(env.endNow - env.endNow % 1_000_000)) && a.error == Some("not_sent")
          else a.finished.None? && a.error.None?)
  }

  /**
    A request leaves only with its attempt on disk as in flight and sent, after a write that had it as
    reserved and not sent.  When the second write fails it does not leave, and the attempt is never
    counted as sent: it is on disk as interrupted, or still as reserved if that write fails too.
  */
  lemma WhatDecideLeaves(d: Dir, limits: Limits, plan: Plan, fp: string, env: Env)
    requires Refusal(d, limits, plan, fp, env).None?
    ensures var r := Decide(d, limits, plan, fp, env);
      && |r.trail| == (if !env.firstSave then 0 else if env.secondSave || env.thirdSave then 2 else 1)
      && (env.firstSave ==> WroteAs(d, r.trail[0], limits, plan, fp, env, Reserved, false))
      && (env.firstSave && env.secondSave ==> WroteAs(d, r.trail[1], limits, plan, fp, env, InFlight, true))
      && (env.firstSave && !env.secondSave && env.thirdSave ==>
        WroteAs(d, r.trail[1], limits, plan, fp, env, Interrupted, false))
      && (if env.firstSave && env.secondSave
          then r.action == Send(env.id, r.action.job) && r.trail[1].hot[fp] == Json(Sealed(r.action.job), false)
          else r.action.Show? && (!env.firstSave ==> r.action.view == LedgerHttpView))
  {
    AdmissionMeaning(d, limits, plan, fp, env);
    UnusableIsCorrupt(d, fp);
    hide Refusal, Load, IsShown, ShownJob, Existing, Unusable, OwnBusyOrDone, Wrote, Base, PutHot, ReserveJob;
    hide LaunchJob, WithdrawJob, Sealed;
    AttemptsOfDecide(Existing(d, fp), fp, plan, limits, env);
    var base := Base(Existing(d, fp), fp, plan);
    var a := ReservedAttempt(env, limits);
    var b := a.(state := InFlight, sent := true);
    var c := a.(state := Interrupted, sent := false, usage := None, error := Some("not_sent"), errorKind := None,
                finished := Some(At(Stamp(env.endNow))));
    var d1 := PutHot(d, fp, base.(attempts := base.attempts + [a]));
    WroteOne(d, d, limits, plan, fp, env, a);
    WroteOne(d, d1, limits, plan, fp, env, b);
    WroteOne(d, d1, limits, plan, fp, env, c);
    PutShows(d1, fp, base.(attempts := base.attempts + [b]));
    PutShows(d, fp, base.(attempts := base.attempts + [a]));
  }

  lemma PutShows(d: Dir, fp: string, job: Job)
    ensures fp in PutHot(d, fp, job).hot && PutHot(d, fp, job).hot[fp] == Json(Sealed(job), false)
  {
  }

  lemma WroteOne(d: Dir, d0: Dir, limits: Limits, plan: Plan, fp: string, env: Env, a: Attempt)
    requires !Unusable(d, fp) && Fresh(a, limits, env)
    requires d0 == d || exists job :: d0 == PutHot(d, fp, job)
    ensures var base := Base(Existing(d, fp), fp, plan);
      Wrote(d, PutHot(d0, fp, base.(attempts := base.attempts + [a])), limits, plan, fp, env, a)
  {
    hide Unusable, Existing, Base, Fresh, OneMore, IsShown, ShownJob;
    OneMoreWritten(d, plan, fp, a);
  }

  lemma OneMoreWritten(d: Dir, plan: Plan, fp: string, a: Attempt)
    requires !Unusable(d, fp)
    ensures var base := Base(Existing(d, fp), fp, plan);
      OneMore(d, plan, fp, Sealed(base.(attempts := base.attempts + [a])), a)
  {
    BaseIsShown(d, plan, fp);
  }

  lemma BaseIsShown(d: Dir, plan: Plan, fp: string)
    requires !Unusable(d, fp)
    ensures if IsShown(d, fp) then Base(Existing(d, fp), fp, plan) == ShownJob(d, fp)
            else Base(Existing(d, fp), fp, plan) == BlankJob(fp, plan)
  {
  }

  // ---------------------------------------------------------------- never twice at once

  predicate PartOf(p: Plan, q: Plan) { p.scope == q.scope && forall w :: w in p.want ==> w in q.want }

  /** Both sends still wait for their replies. */
  predicate BothWait(s: Sys, a: int, b: int) {
    0 <= a < b < |s.log| && (s.log[a].fp, s.log[a].id) in s.live && (s.log[b].fp, s.log[b].id) in s.live
  }

  ghost predicate NoneAlike(origin: string -> Plan, s: Sys) {
    forall a, b :: BothWait(s, a, b) && origin(s.log[b].fp).want != [] ==>
      !PartOf(origin(s.log[b].fp), origin(s.log[a].fp))
  }

  lemma WaitingIsAwaited(origin: string -> Plan, caps: Caps, s: Sys, limits: Limits, fp: string, env: Env, a: nat)
    requires SysInv(origin, caps, s) && env.retryNow <= env.blockNow
    requires Decide(s.dir, limits, origin(fp), fp, env).action.Send? && origin(fp).want != []
    requires a < |s.log| && (s.log[a].fp, s.log[a].id) in s.live
    ensures !PartOf(origin(fp), origin(s.log[a].fp))
  {
    hide Decide, HasRoom, AnsweredBy;
    SendExactly(s.dir, limits, origin(fp), fp, env);
    hide AwaitedFrom;
    var g := s.log[a].fp;
    assert Waiting(s.dir, g, s.log[a].id);
    assert HotOk(origin, caps.attempts, s.dir.hot[g].job, g, s.used, s.clock);
    assert IsShown(s.dir, g) && UnderWay(ShownJob(s.dir, g));
    if PartOf(origin(fp), origin(g)) {
      PartIsIncluded(ShownJob(s.dir, g), origin(fp), origin(g));
      WhenAwaited(s.dir, origin(fp), fp, g);
    }
  }

  lemma PartIsIncluded(job: Job, p: Plan, q: Plan)
    requires q == Plan(job.scope, job.source) && PartOf(p, q)
    ensures Includes(job, p)
  {
  }

  lemma WhenAwaited(d: Dir, plan: Plan, fp: string, g: string)
    requires plan.want != [] && g != fp && IsShown(d, g) && UnderWay(ShownJob(d, g)) && Includes(ShownJob(d, g), plan)
    ensures AwaitedFrom(d, plan, fp, g)
  {
  }

  lemma NoneAlikeStep(origin: string -> Plan, caps: Caps, s: Sys, step: Step)
    requires SysInv(origin, caps, s) && Enabled(origin, caps, s, step) && NoneAlike(origin, s)
    ensures NoneAlike(origin, Apply(origin, s, step))
  {
    hide Decide, Finish, PruneItem, SettleDir, SysInv, PartOf;
    var s' := Apply(origin, s, step);
    forall a, b | BothWait(s', a, b) && origin(s'.log[b].fp).want != []
      ensures !PartOf(origin(s'.log[b].fp), origin(s'.log[a].fp))
    {
      if b < |s.log| {
        if step.DecideStep? {
          FreshId(origin, caps, s, step.asked, step.env.id, a);
          FreshId(origin, caps, s, step.asked, step.env.id, b);
        }
        assert BothWait(s, a, b);
      } else {
        assert s.log[a] == s'.log[a];
        FreshId(origin, caps, s, step.asked, step.env.id, a);
        WaitingIsAwaited(origin, caps, s, step.limits, step.asked, step.env, a);
      }
    }
  }

  lemma FreshId(origin: string -> Plan, caps: Caps, s: Sys, fp: string, id: string, a: nat)
    requires SysInv(origin, caps, s) && id !in s.used && a < |s.log|
    ensures s.log[a].id != id
  {
  }

  /**
    In every run, of two requests that both wait for their replies the later one never asks only for what
    the earlier one is already translating.
  */
  lemma {:induction false} NeverTwiceAtOnce(origin: string -> Plan, caps: Caps, states: seq<Sys>, steps: seq<Step>,
                                            i: nat)
    requires Run(origin, caps, states, steps) && i < |states|
    ensures NoneAlike(origin, states[i])
  {
    hide SysInv, Apply, Enabled, Init, NoneAlike;
    if i == 0 {
      NothingWaits(origin, states[0]);
    } else {
      NeverTwiceAtOnce(origin, caps, states, steps, i - 1);
      RunHolds(origin, caps, states, steps, i - 1);
      NoneAlikeStep(origin, caps, states[i - 1], steps[i - 1]);
    }
  }

  lemma NothingWaits(origin: string -> Plan, s: Sys)
    requires Init(s)
    ensures NoneAlike(origin, s)
  {
  }
}
