/**
  Whole runs of the ledger: requests, replies, crashes between any two file writes, restarts and
  clean-up items in any order.  `DirInv` holds of every durable directory of every run.
*/
module LedgerRuns {
  import opened Prelude
  import opened LedgerModel
  import opened Ops = LedgerOps

  /**
    A request that really left the daemon, with the clock reading its attempt started at; the record keeps
    whole milliseconds.
  */
  datatype Sent = Sent(fp: string, id: string, start: int)

  /** Bounds every call of a run respects; zero promises nothing. */
  datatype Caps = Caps(inFlight: nat, perHour: nat, attempts: nat)

  /*
    `origin` maps a fingerprint to the plan it was computed from.  That there is such a map at all is
    what the canonical text and the hash are for: see `Canonical.FingerprintDeterminesPlan`, and
    `CanonicalCollisions` for the models of which it is not true.
  */

  // ---------------------------------------------------------------- one job

  predicate Open(a: Attempt) {
    (a.state.Reserved? || a.state.InFlight?) && a.finished.None?
  }

  predicate Ended(a: Attempt) {
    (a.state.Completed? || a.state.Failed? || a.state.Interrupted?) && a.finished.Some?
  }

  predicate AttemptOk(a: Attempt, clock: int) {
    && a.started.At? && a.started.t <= clock && a.started.t % MILLI == 0
    && (a.finished.Some? ==>
        a.finished.value.At? && a.started.t <= a.finished.value.t <= clock && a.finished.value.t % MILLI == 0)
    && (a.state.Reserved? ==> !a.sent)
    && (a.state.InFlight? || a.state.Completed? || a.state.Failed? ==> a.sent)
    && (Open(a) || Ended(a))
  }

  predicate DistinctIds(attempts: seq<Attempt>) {
    forall i, j :: 0 <= i < j < |attempts| ==> attempts[i].id != attempts[j].id
  }

  predicate IdsFrom(attempts: seq<Attempt>, used: set<string>) {
    forall i :: 0 <= i < |attempts| ==> attempts[i].id in used
  }

  predicate FileOk(origin: string -> Plan, job: Job, g: string, used: set<string>, clock: int) {
    && job.fingerprint == g && job.attempts != [] && job.status == LastState(job)
    && origin(g) == Plan(job.scope, job.source)
    && DistinctIds(job.attempts) && IdsFrom(job.attempts, used)
    && (forall i :: 0 <= i < |job.attempts| ==> AttemptOk(job.attempts[i], clock))
    && |job.included| == |job.source|
    && (LastState(job).Completed? ==> |job.sections| == |job.source|)
  }

  /** Single flight inside one job: only the last attempt can be open, and success ends the list. */
  predicate SingleFlight(job: Job) {
    forall i :: 0 <= i < |job.attempts| - 1 ==> Ended(job.attempts[i]) && !job.attempts[i].state.Completed?
  }

  /** After `cap` sends, the next send starts an hour or more after the previous sent attempt ended. */
  predicate SpacedAt(attempts: seq<Attempt>, cap: nat, j: int)
    requires 0 <= j < |attempts|
  {
    cap > 0 && attempts[j].sent && |SentSlots(attempts[..j])| >= cap ==>
      var prior := LastSent(attempts[..j]);
      && prior.Some? && prior.value.finished.Some? && prior.value.finished.value.At?
      && attempts[j].started.At? && attempts[j].started.t >= prior.value.finished.value.t + HOUR
  }

  predicate Spaced(job: Job, cap: nat) {
    forall j :: 0 <= j < |job.attempts| ==> SpacedAt(job.attempts, cap, j)
  }

  /** Each attempt starts after all before it have finished. */
  predicate InTurn(attempts: seq<Attempt>) {
    forall i, j :: 0 <= i < j < |attempts| ==> FinishedBefore(attempts[i], attempts[j].started)
  }

  predicate FinishedBefore(a: Attempt, w: When) {
    w.At? && a.finished.Some? && a.finished.value.At? && a.finished.value.t <= w.t
  }

  predicate HotOk(origin: string -> Plan, cap: nat, job: Job, g: string, used: set<string>, clock: int) {
    FileOk(origin, job, g, used, clock) && SingleFlight(job) && Spaced(job, cap) && InTurn(job.attempts)
  }

  predicate ColdOk(origin: string -> Plan, job: Job, g: string, used: set<string>, clock: int) {
    FileOk(origin, job, g, used, clock) && LastState(job).Completed?
  }

  /** An archived copy either contains the whole hot job or precedes it entirely. */
  predicate PairOk(cold: Job, hot: Job) {
    || (&& LastState(hot).Completed?
        && (forall i :: 0 <= i < |hot.attempts| ==> hot.attempts[i] in cold.attempts)
        && cold.sections == hot.sections && cold.summary == hot.summary)
    || (&& cold.sections == []
        && forall i, j :: 0 <= i < |hot.attempts| && 0 <= j < |cold.attempts| ==>
          hot.attempts[i].id != cold.attempts[j].id)
  }

  // ---------------------------------------------------------------- the directory

  function BusySet(hot: map<string, File>): set<string> {
    set g | g in hot && hot[g].Json? && Busy(hot[g].job)
  }

  ghost predicate HotInv(origin: string -> Plan, cap: nat, hot: map<string, File>, used: set<string>, clock: int) {
    forall g :: g in hot && hot[g].Json? ==> !hot[g].extra && HotOk(origin, cap, hot[g].job, g, used, clock)
  }

  ghost predicate ColdInv(origin: string -> Plan, archive: map<string, File>, used: set<string>, clock: int) {
    forall g :: g in archive && archive[g].Json? ==> !archive[g].extra && ColdOk(origin, archive[g].job, g, used, clock)
  }

  ghost predicate PairInv(d: Dir) {
    forall g :: g in d.hot && g in d.archive && d.hot[g].Json? && d.archive[g].Json? ==>
      PairOk(d.archive[g].job, d.hot[g].job)
  }

  predicate Records(attempts: seq<Attempt>, e: Sent) {
    exists i ::
      0 <= i < |attempts| && attempts[i].id == e.id && attempts[i].sent && attempts[i].started == At(Stamp(e.start))
  }

  predicate InFile(files: map<string, File>, e: Sent) {
    e.fp in files && files[e.fp].Json? && Records(files[e.fp].job.attempts, e)
  }

  /** Where a real send is written down: in the hot ledger, or archived and no longer counted. */
  predicate Placed(d: Dir, e: Sent, clock: int) {
    InFile(d.hot, e) || (InFile(d.archive, e) && Stamp(e.start) < clock - HOUR)
  }

  ghost predicate LogInv(d: Dir, log: seq<Sent>, used: set<string>, clock: int) {
    && (forall i :: 0 <= i < |log| ==> Placed(d, log[i], clock))
    && (forall i :: 0 <= i < |log| ==> log[i].id in used && log[i].start <= clock)
    && (forall i, j :: 0 <= i < j < |log| ==> log[i].id != log[j].id)
    && (forall i, j :: 0 <= i < j < |log| ==> log[i].start <= log[j].start)
  }

  ghost predicate DirInv(origin: string -> Plan, caps: Caps, d: Dir, log: seq<Sent>, used: set<string>, clock: int) {
    && HotInv(origin, caps.attempts, d.hot, used, clock)
    && ColdInv(origin, d.archive, used, clock)
    && PairInv(d)
    && |BusySet(d.hot)| <= caps.inFlight
    && LogInv(d, log, used, clock)
  }

  // ---------------------------------------------------------------- writing one hot file

  /** What a new version of a hot file keeps from the old one. */
  predicate Carries(before: seq<Attempt>, after: seq<Attempt>) {
    && |before| <= |after|
    && forall i :: 0 <= i < |before| ==>
      after[i].id == before[i].id && after[i].started == before[i].started && (before[i].sent ==> after[i].sent)
  }

  predicate MayReplace(d: Dir, fp: string, job: Job) {
    && (fp in d.hot ==> d.hot[fp].Json? && Carries(d.hot[fp].job.attempts, job.attempts))
    && (fp in d.archive && d.archive[fp].Json? ==> PairOk(d.archive[fp].job, job))
  }

  lemma SealedOk(job: Job)
    requires job.attempts != []
    ensures Sealed(job).attempts == job.attempts && Sealed(job).status == LastState(Sealed(job))
  {
  }

  /** Time passing and ids being drawn keep everything. */
  lemma DirInvGrows(origin: string -> Plan, caps: Caps, d: Dir, log: seq<Sent>, used: set<string>, clock: int,
                    used': set<string>, clock': int)
    requires DirInv(origin, caps, d, log, used, clock)
    requires used <= used' && clock <= clock'
    ensures DirInv(origin, caps, d, log, used', clock')
  {
  }

  lemma CarriesRecords(before: seq<Attempt>, after: seq<Attempt>, e: Sent)
    requires Carries(before, after) && Records(before, e)
    ensures Records(after, e)
  {
    var i :| 0 <= i < |before| && before[i].id == e.id && before[i].sent && before[i].started == At(Stamp(e.start));
    assert after[i].id == e.id;
  }

  lemma PutKeeps(origin: string -> Plan, caps: Caps, d: Dir, log: seq<Sent>, used: set<string>, clock: int, fp: string,
                 job: Job)
    requires DirInv(origin, caps, d, log, used, clock)
    requires HotOk(origin, caps.attempts, Sealed(job), fp, used, clock)
    requires MayReplace(d, fp, Sealed(job))
    requires |BusySet(PutHot(d, fp, job).hot)| <= caps.inFlight
    ensures DirInv(origin, caps, PutHot(d, fp, job), log, used, clock)
  {
    var d' := PutHot(d, fp, job);
    forall i | 0 <= i < |log| ensures Placed(d', log[i], clock) {
      assert Placed(d, log[i], clock);
      if InFile(d.hot, log[i]) && log[i].fp == fp {
        CarriesRecords(d.hot[fp].job.attempts, Sealed(job).attempts, log[i]);
      }
    }
  }

  /** Overwriting one file changes the busy set by at most that file. */
  lemma BusyAfterPut(d: Dir, fp: string, job: Job)
    requires job.attempts != []
    ensures var hot := PutHot(d, fp, job).hot;
      && BusySet(hot) == if Busy(job) then BusySet(d.hot) + {fp} else BusySet(d.hot) - {fp}
  {
  }

  // ---------------------------------------------------------------- decide

  predicate Monotone(env: Env, clock: int) {
    clock <= env.retryNow <= env.blockNow <= env.budgetNow <= env.startNow <= env.endNow
  }

  predicate Within(limits: Limits, caps: Caps) {
    && limits.maxInFlight <= caps.inFlight
    && (caps.perHour > 0 ==> 0 < limits.maxPerHour <= caps.perHour)
    && (caps.attempts > 0 ==> 0 < limits.maxAttempts <= caps.attempts)
  }

  /** What passing every test of `Refusal` means. */
  lemma AdmissionMeaning(d: Dir, limits: Limits, plan: Plan, fp: string, env: Env)
    requires Refusal(d, limits, plan, fp, env).None?
    ensures !Load(d, fp).Corrupt? && !OwnBusyOrDone(Existing(d, fp))
    ensures Existing(d, fp).Some? ==>
      !RetryBlocked(Existing(d, fp).value, env.retryNow)
        && AttemptsBlock(Existing(d, fp).value, limits, env.blockNow).None?
    ensures |BusyOthers(LedgerJobs(d), fp)| < limits.maxInFlight
    ensures limits.maxPerHour > 0 ==> |Spent(LedgerJobs(d), env.budgetNow)| < limits.maxPerHour
    ensures !CoveredSomewhere(d, plan)
  {
    hide Spent, CoveredSomewhere, CoveringBusy, AttemptsBlock, RetryBlocked, BusyOthers, LedgerJobs, Load;
  }

  lemma AdmissionFacts(origin: string -> Plan, caps: Caps, d: Dir, log: seq<Sent>, used: set<string>, clock: int,
                       limits: Limits, plan: Plan, fp: string, env: Env)
    requires DirInv(origin, caps, d, log, used, clock)
    requires Refusal(d, limits, plan, fp, env).None?
    ensures fp in d.hot ==> d.hot[fp].Json? && Existing(d, fp) == Some(d.hot[fp].job)
    ensures fp in d.hot ==> !LastState(d.hot[fp].job).Completed? && !Busy(d.hot[fp].job)
    ensures fp !in d.hot ==> Existing(d, fp).None?
    ensures fp !in d.hot && fp in d.archive && d.archive[fp].Json? ==> d.archive[fp].job.sections == []
    ensures |BusySet(d.hot)| < limits.maxInFlight
  {
    hide Refusal;
    AdmissionMeaning(d, limits, plan, fp, env);
    BusyCounted(origin, caps.attempts, d, fp, used, clock);
  }

  lemma BusyCounted(origin: string -> Plan, cap: nat, d: Dir, fp: string, used: set<string>, clock: int)
    requires HotInv(origin, cap, d.hot, used, clock)
    requires fp in d.hot && d.hot[fp].Json? ==> !Busy(d.hot[fp].job)
    ensures |BusySet(d.hot)| <= |BusyOthers(LedgerJobs(d), fp)|
  {
    var jobs := LedgerJobs(d);
    forall g | g in BusySet(d.hot) ensures g in BusyOthers(jobs, fp) {
      assert g in HotJobs(d) && jobs[g] == d.hot[g].job;
    }
    SubsetBounds(BusySet(d.hot), BusyOthers(jobs, fp));
  }

  lemma StampFacts(t: int, u: int)
    requires t <= u
    ensures Stamp(t) <= t < Stamp(t) + MILLI && Stamp(t) % MILLI == 0 && Stamp(t) <= Stamp(u)
  {
  }

  /** Flooring to a millisecond never drops below a whole millisecond already reached. */
  lemma StampAbove(m: int, t: int)
    requires m % MILLI == 0 && m <= t
    ensures m <= Stamp(t)
  {
    assert m / MILLI * MILLI == m && t / MILLI * MILLI == Stamp(t);
  }

  lemma {:induction false} LastSentFound(attempts: seq<Attempt>)
    ensures LastSent(attempts).Some? ==> LastSent(attempts).value in attempts && LastSent(attempts).value.sent
    ensures SentSlots(attempts) != {} ==> LastSent(attempts).Some?
  {
    if attempts != [] && !Last(attempts).sent {
      var init := attempts[..|attempts| - 1];
      LastSentFound(init);
      if i :| i in SentSlots(attempts) {
        assert i in SentSlots(init);
      }
    }
  }

  /** Appending an attempt: what the reservation, its launch and its withdrawal share. */
  lemma AppendedOk(origin: string -> Plan, cap: nat, base: Job, fp: string, a: Attempt, used: set<string>, clock: int)
    requires base.attempts == [] ||
      (HotOk(origin, cap, base, fp, used, clock) && !Busy(base) && !LastState(base).Completed?)
    requires base.attempts == [] ==>
      base.fingerprint == fp && origin(fp) == Plan(base.scope, base.source) && |base.included| == |base.source|
    requires AttemptOk(a, clock) && !a.state.Completed? && a.id in used
    requires forall i :: 0 <= i < |base.attempts| ==> base.attempts[i].id != a.id
    requires SpacedAt(base.attempts + [a], cap, |base.attempts|)
    requires forall i :: 0 <= i < |base.attempts| ==> FinishedBefore(base.attempts[i], a.started)
    ensures HotOk(origin, cap, Sealed(base.(attempts := base.attempts + [a])), fp, used, clock)
  {
    var job := Sealed(base.(attempts := base.attempts + [a]));
    var n := |base.attempts|;
    forall i | 0 <= i < n ensures Ended(job.attempts[i]) && !job.attempts[i].state.Completed? {
      assert job.attempts[i] == base.attempts[i];
      assert AttemptOk(base.attempts[i], clock);
    }
    forall j | 0 <= j <= n ensures SpacedAt(job.attempts, cap, j) {
      if j < n {
        assert SpacedAt(base.attempts, cap, j);
        SpacedAppend(base.attempts, a, cap, j);
      }
    }
    hide SpacedAt;
  }

  /** In a job with no open attempt every attempt has finished by any later start. */
  lemma AllEnded(origin: string -> Plan, cap: nat, base: Job, fp: string, used: set<string>, clock: int, startNow: int)
    requires base.attempts == [] || (HotOk(origin, cap, base, fp, used, clock) && !Busy(base))
    requires clock <= startNow
    ensures forall i :: 0 <= i < |base.attempts| ==> FinishedBefore(base.attempts[i], At(Stamp(startNow)))
  {
    hide Spaced;
    forall i | 0 <= i < |base.attempts| ensures FinishedBefore(base.attempts[i], At(Stamp(startNow))) {
      var a := base.attempts[i];
      assert AttemptOk(a, clock) && Ended(a);
      StampAbove(a.finished.value.t, startNow);
    }
  }

  lemma SpacedAppend(attempts: seq<Attempt>, a: Attempt, cap: nat, j: nat)
    requires j < |attempts| && SpacedAt(attempts, cap, j)
    ensures SpacedAt(attempts + [a], cap, j)
  {
    assert (attempts + [a])[..j] == attempts[..j];
  }

  lemma LaunchIsAppend(base: Job, a: Attempt, b: Attempt)
    ensures SetLast(base.(attempts := base.attempts + [a]), b) == base.(attempts := base.attempts + [b])
  {
    assert (base.attempts + [a])[..|base.attempts|] == base.attempts;
  }

  /** The attempt cap, at the moment a reservation is marked sent. */
  lemma LaunchSpaced(origin: string -> Plan, cap: nat, base: Job, fp: string, used: set<string>, clock: int,
                     limits: Limits, env: Env, a: Attempt)
    requires base.attempts == []
      || (HotOk(origin, cap, base, fp, used, clock) && !Busy(base) && !LastState(base).Completed?)
    requires base.attempts != [] ==>
      !RetryBlocked(base, env.retryNow) && AttemptsBlock(base, limits, env.blockNow).None?
    requires cap > 0 ==> 0 < limits.maxAttempts <= cap
    requires Monotone(env, clock)
    requires a.started == At(Stamp(env.startNow))
    ensures SpacedAt(base.attempts + [a], cap, |base.attempts|)
  {
    var before := base.attempts;
    assert (before + [a])[..|before|] == before;
    if cap > 0 && |SentSlots(before)| >= cap {
      var ended := PriorEnded(origin, cap, base, fp, used, clock);
      RetryStaysOpen(base, env.retryNow, env.blockNow);
      assert ended + HOUR <= env.blockNow;
      StampAbove(ended + HOUR, env.startNow);
    }
  }

  lemma PriorEnded(origin: string -> Plan, cap: nat, base: Job, fp: string, used: set<string>, clock: int)
    returns (ended: int)
    requires HotOk(origin, cap, base, fp, used, clock) && !Busy(base) && SentSlots(base.attempts) != {}
    ensures LastSent(base.attempts).Some? && LastSent(base.attempts).value.finished == Some(At(ended))
    ensures (ended + HOUR) % MILLI == 0
  {
    LastSentFound(base.attempts);
    var p := LastSent(base.attempts).value;
    var i :| 0 <= i < |base.attempts| && base.attempts[i] == p;
    assert AttemptOk(p, clock);
    assert Ended(p);
    ended := p.finished.value.t;
    AlignedHour(ended);
  }

  lemma AlignedHour(t: int)
    requires t % MILLI == 0
    ensures (t + HOUR) % MILLI == 0
  {
  }

  /** A back-off that has run out does not come back. */
  lemma RetryStaysOpen(job: Job, now: int, later: int)
    requires now <= later && !RetryBlocked(job, now)
    ensures !RetryBlocked(job, later)
  {
    StampFacts(now, later);
  }

  lemma AttemptsOfDecide(existing: Option<Job>, fp: string, plan: Plan, limits: Limits, env: Env)
    ensures var base := Base(existing, fp, plan);
      var job1 := ReserveJob(existing, fp, plan, limits, env);
      var a := ReservedAttempt(env, limits);
      && job1 == base.(attempts := base.attempts + [a])
      && LaunchJob(job1) == base.(attempts := base.attempts + [a.(state := InFlight, sent := true)])
      && WithdrawJob(LaunchJob(job1), env.endNow) == base.(attempts := base.attempts + [
          a.(state := Interrupted, sent := false, usage := None, error := Some("not_sent"), errorKind := None,
             finished := Some(At(Stamp(env.endNow))))])
  {
    var base := Base(existing, fp, plan);
    var a := ReservedAttempt(env, limits);
    LaunchIsAppend(base, a, a.(state := InFlight, sent := true));
    LaunchIsAppend(base, a.(state := InFlight, sent := true),
                   Last(WithdrawJob(LaunchJob(ReserveJob(existing, fp, plan, limits, env)), env.endNow).attempts));
  }

  /** A version of the job under reservation: what was there, followed by attempt `a`. */
  function Reserving(d: Dir, fp: string, plan: Plan, a: Attempt): Job {
    var base := Base(Existing(d, fp), fp, plan);
    base.(attempts := base.attempts + [a])
  }

  ghost predicate Admitted(origin: string -> Plan, caps: Caps, d: Dir, log: seq<Sent>, used: set<string>, clock: int,
                           limits: Limits, plan: Plan, fp: string, env: Env) {
    && DirInv(origin, caps, d, log, used, clock)
    && Within(limits, caps) && Monotone(env, clock) && env.id !in used && origin(fp) == plan
    && Refusal(d, limits, plan, fp, env).None?
  }

  predicate TailOf(a: Attempt, env: Env) {
    a.id == env.id && a.started == At(Stamp(env.startNow)) && !a.state.Completed? && AttemptOk(a, env.endNow)
  }

  lemma ReservingOk(origin: string -> Plan, caps: Caps, d: Dir, log: seq<Sent>, used: set<string>, clock: int,
                    limits: Limits, plan: Plan, fp: string, env: Env, a: Attempt)
    requires Admitted(origin, caps, d, log, used, clock, limits, plan, fp, env) && TailOf(a, env)
    ensures HotOk(origin, caps.attempts, Sealed(Reserving(d, fp, plan, a)), fp, used + {env.id}, env.endNow)
  {
    hide Refusal;
    AdmissionFacts(origin, caps, d, log, used, clock, limits, plan, fp, env);
    AdmissionMeaning(d, limits, plan, fp, env);
    var base := Base(Existing(d, fp), fp, plan);
    LaunchSpaced(origin, caps.attempts, base, fp, used, clock, limits, env, a);
    if base.attempts != [] {
      HotOkGrows(origin, caps.attempts, base, fp, used, clock, used + {env.id}, env.endNow);
    }
    AllEnded(origin, caps.attempts, base, fp, used, clock, env.startNow);
    AppendedOk(origin, caps.attempts, base, fp, a, used + {env.id}, env.endNow);
  }

  lemma HotOkGrows(origin: string -> Plan, cap: nat, job: Job, g: string, used: set<string>, clock: int,
                   used': set<string>, clock': int)
    requires HotOk(origin, cap, job, g, used, clock) && used <= used' && clock <= clock'
    ensures HotOk(origin, cap, job, g, used', clock')
  {
  }

  /** The first write of a reservation, over the directory it was admitted in. */
  lemma FirstWriteKeeps(origin: string -> Plan, caps: Caps, d: Dir, log: seq<Sent>, used: set<string>, clock: int,
                        limits: Limits, plan: Plan, fp: string, env: Env, a: Attempt)
    requires Admitted(origin, caps, d, log, used, clock, limits, plan, fp, env) && TailOf(a, env)
    ensures DirInv(origin, caps, PutHot(d, fp, Reserving(d, fp, plan, a)), log, used + {env.id}, env.endNow)
    ensures |BusySet(d.hot) + {fp}| <= caps.inFlight
  {
    hide Refusal;
    var job := Reserving(d, fp, plan, a);
    ReservingOk(origin, caps, d, log, used, clock, limits, plan, fp, env, a);
    AdmissionFacts(origin, caps, d, log, used, clock, limits, plan, fp, env);
    BusyAfterPut(d, fp, job);
    SubsetBounds(BusySet(PutHot(d, fp, job).hot), BusySet(d.hot) + {fp});
    DirInvGrows(origin, caps, d, log, used, clock, used + {env.id}, env.endNow);
    assert MayReplace(d, fp, Sealed(job)) by {
      ReservingReplaces(origin, caps, d, log, used, clock, limits, plan, fp, env, a);
    }
    PutKeeps(origin, caps, d, log, used + {env.id}, env.endNow, fp, job);
  }

  lemma ReservingReplaces(origin: string -> Plan, caps: Caps, d: Dir, log: seq<Sent>, used: set<string>, clock: int,
                          limits: Limits, plan: Plan, fp: string, env: Env, a: Attempt)
    requires Admitted(origin, caps, d, log, used, clock, limits, plan, fp, env) && TailOf(a, env)
    ensures MayReplace(d, fp, Sealed(Reserving(d, fp, plan, a)))
  {
    hide Refusal;
    AdmissionFacts(origin, caps, d, log, used, clock, limits, plan, fp, env);
    var job := Reserving(d, fp, plan, a);
    if fp in d.archive && d.archive[fp].Json? {
      var cold := d.archive[fp].job;
      assert ColdOk(origin, cold, fp, used, clock);
      if fp in d.hot {
        assert PairOk(cold, d.hot[fp].job);
      }
      assert PairOk(cold, Sealed(job));
    }
  }

  lemma BusyAfterTwo(d: Dir, fp: string, first: Job, second: Job)
    ensures |BusySet(PutHot(PutHot(d, fp, first), fp, second).hot)| <= |BusySet(d.hot) + {fp}|
  {
    SubsetBounds(BusySet(PutHot(PutHot(d, fp, first), fp, second).hot), BusySet(d.hot) + {fp});
  }

  lemma ReservingCarries(d: Dir, fp: string, plan: Plan, a: Attempt, b: Attempt)
    requires b.id == a.id && b.started == a.started && !a.sent
    ensures Carries(Sealed(Reserving(d, fp, plan, a)).attempts, Sealed(Reserving(d, fp, plan, b)).attempts)
  {
    hide Existing, Base;
    SealedOk(Reserving(d, fp, plan, a));
    SealedOk(Reserving(d, fp, plan, b));
  }

  lemma ReplacesAfterPut(d: Dir, fp: string, first: Job, second: Job)
    requires MayReplace(d, fp, Sealed(second)) && Carries(Sealed(first).attempts, Sealed(second).attempts)
    ensures MayReplace(PutHot(d, fp, first), fp, Sealed(second))
  {
  }

  /** A later write replaces the tail attempt only. */
  lemma NextWriteKeeps(origin: string -> Plan, caps: Caps, d: Dir, log: seq<Sent>, used: set<string>, clock: int,
                       limits: Limits, plan: Plan, fp: string, env: Env, a: Attempt, b: Attempt)
    requires Admitted(origin, caps, d, log, used, clock, limits, plan, fp, env)
    requires TailOf(a, env) && TailOf(b, env) && !a.sent
    ensures DirInv(origin, caps, PutHot(PutHot(d, fp, Reserving(d, fp, plan, a)), fp, Reserving(d, fp, plan, b)), log,
                   used + {env.id}, env.endNow)
  {
    hide Refusal, DirInv, HotOk, Admitted, BusySet, PutHot, MayReplace, Reserving;
    var d1 := PutHot(d, fp, Reserving(d, fp, plan, a));
    var job := Reserving(d, fp, plan, b);
    FirstWriteKeeps(origin, caps, d, log, used, clock, limits, plan, fp, env, a);
    ReservingOk(origin, caps, d, log, used, clock, limits, plan, fp, env, b);
    BusyAfterTwo(d, fp, Reserving(d, fp, plan, a), job);
    ReservingReplaces(origin, caps, d, log, used, clock, limits, plan, fp, env, b);
    ReservingCarries(d, fp, plan, a, b);
    ReplacesAfterPut(d, fp, Reserving(d, fp, plan, a), job);
    PutKeeps(origin, caps, d1, log, used + {env.id}, env.endNow, fp, job);
  }

  /** Every durable state a reservation passes through is sound, whether or not it is ever completed. */
  lemma DecideKeeps(origin: string -> Plan, caps: Caps, d: Dir, log: seq<Sent>, used: set<string>, clock: int,
                    limits: Limits, plan: Plan, fp: string, env: Env)
    requires DirInv(origin, caps, d, log, used, clock)
    requires Within(limits, caps) && Monotone(env, clock) && env.id !in used && origin(fp) == plan
    ensures forall i :: 0 <= i < |Decide(d, limits, plan, fp, env).trail| ==>
      DirInv(origin, caps, Decide(d, limits, plan, fp, env).trail[i], log, used + {env.id}, env.endNow)
  {
    hide Refusal, DirInv, Existing, BlankJob;
    var trail := Decide(d, limits, plan, fp, env).trail;
    if trail != [] {
      AttemptsOfDecide(Existing(d, fp), fp, plan, limits, env);
      StampFacts(env.startNow, env.endNow);
      StampFacts(env.endNow, env.endNow);
      var a := ReservedAttempt(env, limits);
      FirstWriteKeeps(origin, caps, d, log, used, clock, limits, plan, fp, env, a);
      if |trail| == 2 {
        var b := if env.secondSave then a.(state := InFlight, sent := true) else
          a.(state := Interrupted, sent := false, usage := None, error := Some("not_sent"), errorKind := None,
             finished := Some(At(Stamp(env.endNow))));
        NextWriteKeeps(origin, caps, d, log, used, clock, limits, plan, fp, env, a, b);
      }
    }
  }

  // ---------------------------------------------------------------- the hourly budget

  /** The sends that started within `length` of `from`. */
  function Window(log: seq<Sent>, from: int, length: int): set<int> {
    set i | 0 <= i < |log| && from <= log[i].start < from + length
  }

  /** The same for the recorded starts. */
  function RecordedWindow(log: seq<Sent>, from: int, length: int): set<int> {
    set i | 0 <= i < |log| && from <= Stamp(log[i].start) < from + length
  }

  /** An hour less what flooring a start to its millisecond can hide. */
  const SAFE_WINDOW: int := HOUR - MILLI + 2

  ghost predicate BudgetInv(log: seq<Sent>, perHour: nat) {
    perHour > 0 ==> forall w :: |Window(log, w, SAFE_WINDOW)| <= perHour && |RecordedWindow(log, w, HOUR)| <= perHour
  }

  function Recent(log: seq<Sent>, now: int): set<int> {
    set i | 0 <= i < |log| && Stamp(log[i].start) >= now - HOUR
  }

  ghost function SlotOf(files: map<string, File>, e: Sent): (slot: (string, int))
    requires InFile(files, e)
    ensures slot.0 == e.fp && 0 <= slot.1 < |files[e.fp].job.attempts|
    ensures var a := files[e.fp].job.attempts[slot.1]; a.id == e.id && a.sent && a.started == At(Stamp(e.start))
  {
    var attempts := files[e.fp].job.attempts;
    var i :| 0 <= i < |attempts| && attempts[i].id == e.id && attempts[i].sent
      && attempts[i].started == At(Stamp(e.start));
    (e.fp, i)
  }

  /** The ledger never under-counts: every real send recorded within the last hour is one of the spent attempts. */
  lemma RecentAreSpent(origin: string -> Plan, caps: Caps, d: Dir, log: seq<Sent>, used: set<string>, clock: int,
                       now: int)
    requires DirInv(origin, caps, d, log, used, clock) && clock <= now
    ensures |Recent(log, now)| <= |Spent(LedgerJobs(d), now)|
    ensures forall i :: 0 <= i < |log| && log[i].start > now - SAFE_WINDOW ==> i in Recent(log, now)
  {
    hide HotInv, ColdInv, PairInv, BusySet, LedgerJobs, Spent, InFile;
    forall i | 0 <= i < |log| && log[i].start > now - SAFE_WINDOW ensures i in Recent(log, now) {
      SafelyRecent(log[i].start, now);
    }
    var recent := Recent(log, now);
    forall i | i in recent ensures InFile(d.hot, log[i]) {
      assert Placed(d, log[i], clock);
    }
    var f := map i | i in recent :: SlotOf(d.hot, log[i]);
    forall i | i in recent ensures f[i] in Spent(LedgerJobs(d), now) {
      SlotIsSpent(origin, caps.attempts, d, used, clock, log[i], now);
    }
    SlotsDiffer(d.hot, log, recent);
    InjectionBounds(recent, Spent(LedgerJobs(d), now), f);
  }

  lemma SlotIsSpent(origin: string -> Plan, cap: nat, d: Dir, used: set<string>, clock: int, e: Sent, now: int)
    requires HotInv(origin, cap, d.hot, used, clock) && InFile(d.hot, e) && Stamp(e.start) >= now - HOUR
    ensures SlotOf(d.hot, e) in Spent(LedgerJobs(d), now)
  {
    assert e.fp in HotJobs(d) && LedgerJobs(d)[e.fp] == d.hot[e.fp].job;
  }

  lemma SlotsDiffer(files: map<string, File>, log: seq<Sent>, some: set<int>)
    requires forall i :: i in some ==> 0 <= i < |log| && InFile(files, log[i])
    requires forall i, j :: 0 <= i < j < |log| ==> log[i].id != log[j].id
    ensures forall i, j :: i in some && j in some && i != j ==> SlotOf(files, log[i]) != SlotOf(files, log[j])
  {
  }

  /** A send that started within the safe window before `now` is recorded as less than an hour old, so it is counted. */
  lemma SafelyRecent(start: int, now: int)
    ensures start > now - SAFE_WINDOW ==> Stamp(start) >= now - HOUR
  {
    StampFacts(start, start);
  }

  lemma AlignedGap(x: int, y: int)
    requires x % MILLI == 0 && y % MILLI == 0 && x > y
    ensures x >= y + MILLI
  {
  }

  /** A start recorded less than an hour before this one was still counted when the budget was read. */
  lemma StillCounted(recorded: int, now: int, budgetNow: int)
    requires recorded % MILLI == 0 && recorded > Stamp(now) - HOUR && budgetNow <= now
    ensures recorded >= budgetNow - HOUR
  {
    StampFacts(now, now);
    AlignedGap(recorded, Stamp(now) - HOUR);
  }

  lemma BudgetKept(origin: string -> Plan, caps: Caps, d: Dir, log: seq<Sent>, used: set<string>, clock: int,
                   limits: Limits, plan: Plan, fp: string, env: Env)
    requires DirInv(origin, caps, d, log, used, clock) && BudgetInv(log, caps.perHour)
    requires Within(limits, caps) && Monotone(env, clock)
    requires Refusal(d, limits, plan, fp, env).None?
    ensures BudgetInv(log + [Sent(fp, env.id, env.startNow)], caps.perHour)
  {
    hide DirInv, Refusal, Window, RecordedWindow, Recent;
    AdmissionMeaning(d, limits, plan, fp, env);
    var grown := log + [Sent(fp, env.id, env.startNow)];
    RecentAreSpent(origin, caps, d, log, used, clock, env.budgetNow);
    assert grown[..|log|] == log;
    forall w ensures caps.perHour > 0 ==>
      |Window(grown, w, SAFE_WINDOW)| <= caps.perHour && |RecordedWindow(grown, w, HOUR)| <= caps.perHour
    {
      if caps.perHour > 0 {
        WindowKept(log, grown, w, env.budgetNow, caps.perHour);
        RecordedWindowKept(log, grown, w, env.budgetNow, caps.perHour);
      }
    }
  }

  predicate Extends(log: seq<Sent>, grown: seq<Sent>, budgetNow: int) {
    |grown| == |log| + 1 && grown[..|log|] == log && budgetNow <= Last(grown).start
  }

  /** The new send shares a window only with sends the budget has just counted. */
  lemma WindowKept(log: seq<Sent>, grown: seq<Sent>, w: int, budgetNow: int, perHour: nat)
    requires Extends(log, grown, budgetNow) && |Recent(log, budgetNow)| < perHour
      && |Window(log, w, SAFE_WINDOW)| <= perHour
    ensures |Window(grown, w, SAFE_WINDOW)| <= perHour
  {
    if |log| in Window(grown, w, SAFE_WINDOW) {
      forall i | i in Window(grown, w, SAFE_WINDOW) ensures i in Recent(log, budgetNow) + {|log|} {
        if i < |log| {
          assert log[i] == grown[i];
          SafelyRecent(log[i].start, budgetNow);
        }
      }
      SubsetBounds(Window(grown, w, SAFE_WINDOW), Recent(log, budgetNow) + {|log|});
    } else {
      forall i | i in Window(grown, w, SAFE_WINDOW) ensures i in Window(log, w, SAFE_WINDOW) {
        assert grown[i] == log[i];
      }
      SubsetBounds(Window(grown, w, SAFE_WINDOW), Window(log, w, SAFE_WINDOW));
    }
  }

  lemma RecordedWindowKept(log: seq<Sent>, grown: seq<Sent>, w: int, budgetNow: int, perHour: nat)
    requires Extends(log, grown, budgetNow) && |Recent(log, budgetNow)| < perHour
      && |RecordedWindow(log, w, HOUR)| <= perHour
    ensures |RecordedWindow(grown, w, HOUR)| <= perHour
  {
    if |log| in RecordedWindow(grown, w, HOUR) {
      forall i | i in RecordedWindow(grown, w, HOUR) ensures i in Recent(log, budgetNow) + {|log|} {
        if i < |log| {
          assert log[i] == grown[i];
          StampFacts(log[i].start, log[i].start);
          StillCounted(Stamp(log[i].start), Last(grown).start, budgetNow);
        }
      }
      SubsetBounds(RecordedWindow(grown, w, HOUR), Recent(log, budgetNow) + {|log|});
    } else {
      forall i | i in RecordedWindow(grown, w, HOUR) ensures i in RecordedWindow(log, w, HOUR) {
        assert grown[i] == log[i];
      }
      SubsetBounds(RecordedWindow(grown, w, HOUR), RecordedWindow(log, w, HOUR));
    }
  }

  // ---------------------------------------------------------------- finish

  /** An attempt this process still waits for. */
  predicate Waiting(d: Dir, fp: string, id: string) {
    && fp in d.hot && d.hot[fp].Json? && d.hot[fp].job.attempts != []
    && Last(d.hot[fp].job.attempts).id == id && Last(d.hot[fp].job.attempts).state.InFlight?
  }

  lemma FillAttemptOk(a: Attempt, reply: Reply, included: seq<string>, n: nat, clock: int, now: int)
    requires AttemptOk(a, clock) && a.state.InFlight? && clock <= now
    ensures var (b, out) := FillAttempt(a, reply, included, n, now);
      && AttemptOk(b, now) && Ended(b) && b.id == a.id && b.started == a.started && b.sent
      && (b.state.Completed? <==> out.Some?)
      && (out.Some? ==> |out.value.sections| == |included| && forall i :: 0 <= i < |included| ==>
          out.value.sections[i].version == included[i])
  {
    StampFacts(now, now);
    assert a.started.t <= Stamp(now);
  }

  /**
    A reply worth keeping: three to five summary lines and one section per requested version, in order, none
    of them blank.
  */
  predicate Usable(out: ModelOut, included: seq<string>) {
    && 3 <= |out.summary| <= 5 && (forall i :: 0 <= i < |out.summary| ==> !Blank(out.summary[i]))
    && |out.sections| == |included|
    && forall i :: 0 <= i < |included| ==> out.sections[i].version == included[i] && !Blank(out.sections[i].body)
  }

  /**
    An attempt completes exactly on a usable reply that ended its turn and reports both token counts;
    anything else fails it and holds the job back for between a second and an hour.
  */
  lemma ReplyDecides(a: Attempt, reply: Reply, included: seq<string>, n: nat, now: int)
    ensures var (b, out) := FillAttempt(a, reply, included, n, now);
      (b.state.Completed? && out.Some?) <==>
        (reply.Answer? && reply.stop == Some("end_turn")
         && reply.usage.Some? && reply.usage.value.input.Some? && reply.usage.value.output.Some?
         && reply.content.Some? && Usable(reply.content.value, included) && out == reply.content)
    ensures var (b, out) := FillAttempt(a, reply, included, n, now);
      !b.state.Completed? ==>
        b.state.Failed? && out.None? && b.retryAfter.Some? && b.retryAfter.value.At?
        && Stamp(now + SECOND) <= b.retryAfter.value.t <= now + HOUR
  {
    var (b, out) := FillAttempt(a, reply, included, n, now);
    if reply.Answer? && reply.content.Some? {
      ValidIsUsable(reply.content.value, included);
    }
    hide ValidateModel, Usable;
    StampFacts(now + SECOND, now + SECOND);
    if !b.state.Completed? {
      var wait := if reply.RateLimited? then RetryAfterSeconds(reply.retryAfter) else BackoffSeconds(n);
      assert 1 <= wait <= 3600;
      StampMonotone(now + SECOND, now + wait * SECOND);
    }
  }

  lemma StampMonotone(t: int, u: int)
    requires t <= u
    ensures Stamp(t) <= Stamp(u) <= u
  {
  }

  lemma ValidIsUsable(out: ModelOut, included: seq<string>)
    ensures ValidateModel(Some(out), included).None? <==> Usable(out, included)
  {
    hide Blank;
    assert (exists s :: s in out.summary && Blank(s)) <==> exists i :: 0 <= i < |out.summary| && Blank(out.summary[i]);
  }

  lemma FindLast(attempts: seq<Attempt>, id: string)
    requires attempts != [] && DistinctIds(attempts) && Last(attempts).id == id
    ensures FindAttempt(attempts, id) == Some(|attempts| - 1)
  {
    assert Last(attempts) in attempts;
  }

  /** Replacing the open last attempt by a closed version of itself. */
  lemma ClosedOk(origin: string -> Plan, cap: nat, job: Job, fp: string, b: Attempt, summary: seq<string>,
                 sections: seq<Section>,
                 used: set<string>, clock: int, now: int)
    requires HotOk(origin, cap, job, fp, used, clock) && clock <= now && Busy(job)
    requires AttemptOk(b, now) && Ended(b) && b.id == Last(job.attempts).id && b.started == Last(job.attempts).started
    requires b.sent == Last(job.attempts).sent
    requires b.state.Completed? ==> |sections| == |job.source|
    ensures HotOk(origin, cap, Sealed(SetLast(job, b).(summary := summary, sections := sections)), fp, used, now)
  {
    var n := |job.attempts| - 1;
    var done := Sealed(SetLast(job, b).(summary := summary, sections := sections));
    assert done.attempts[..n] == job.attempts[..n];
    forall j | 0 <= j <= n ensures SpacedAt(done.attempts, cap, j) {
      assert SpacedAt(job.attempts, cap, j);
      assert done.attempts[..j] == job.attempts[..j];
    }
  }

  lemma ClosePutKeeps(origin: string -> Plan, caps: Caps, d: Dir, log: seq<Sent>, used: set<string>, clock: int,
                      fp: string, b: Attempt, summary: seq<string>, sections: seq<Section>, now: int)
    requires DirInv(origin, caps, d, log, used, clock) && clock <= now
    requires fp in d.hot && d.hot[fp].Json? && Busy(d.hot[fp].job)
    requires AttemptOk(b, now) && Ended(b)
    requires var a := Last(d.hot[fp].job.attempts); b.id == a.id && b.started == a.started && b.sent == a.sent
    requires b.state.Completed? ==> |sections| == |d.hot[fp].job.source|
    ensures DirInv(origin, caps, PutHot(d, fp, SetLast(d.hot[fp].job, b).(summary := summary, sections := sections)),
                   log, used, now)
  {
    var open := d.hot[fp].job;
    var job := SetLast(open, b).(summary := summary, sections := sections);
    ClosedOk(origin, caps.attempts, open, fp, b, summary, sections, used, clock, now);
    DirInvGrows(origin, caps, d, log, used, clock, used, now);
    BusyAfterPut(d, fp, job);
    SubsetBounds(BusySet(PutHot(d, fp, job).hot), BusySet(d.hot));
    assert MayReplace(d, fp, Sealed(job)) by {
      if fp in d.archive && d.archive[fp].Json? {
        assert PairOk(d.archive[fp].job, open);
        forall i | 0 <= i < |job.attempts| ensures job.attempts[i].id == open.attempts[i].id {
        }
      }
    }
    PutKeeps(origin, caps, d, log, used, now, fp, job);
  }

  /** `finish` on a waiting attempt closes the last attempt and nothing else. */
  lemma FinishIsClose(job: Job, reply: Reply, clock: int, now: int)
    requires job.attempts != [] && AttemptOk(Last(job.attempts), clock) && Last(job.attempts).state.InFlight?
      && clock <= now
    ensures var n := |job.attempts| - 1;
      var done := FinishJob(job, n, reply, now);
      var b := Last(done.attempts);
      && done == SetLast(job, b).(summary := done.summary, sections := done.sections)
      && AttemptOk(b, now) && Ended(b) && b.sent
      && b.id == Last(job.attempts).id && b.started == Last(job.attempts).started
      && (b.state.Completed? ==> |done.sections| == |job.included|)
  {
    var n := |job.attempts| - 1;
    var sent := if SentCount(job) == 0 then 1 else SentCount(job);
    FillAttemptOk(job.attempts[n], reply, job.included, sent, clock, now);
    var b := FillAttempt(job.attempts[n], reply, job.included, sent, now).0;
    assert job.attempts[n := b] == job.attempts[..n] + [b];
  }

  lemma FinishKeeps(origin: string -> Plan, caps: Caps, d: Dir, log: seq<Sent>, used: set<string>, clock: int,
                    fp: string, id: string, reply: Reply, now: int, saved: bool)
    requires DirInv(origin, caps, d, log, used, clock) && clock <= now && Waiting(d, fp, id)
    ensures DirInv(origin, caps, Final(d, Finish(d, fp, id, reply, now, saved)), log, used, now)
  {
    if saved {
      var job := d.hot[fp].job;
      assert HotOk(origin, caps.attempts, job, fp, used, clock);
      FindLast(job.attempts, id);
      FinishIsClose(job, reply, clock, now);
      var done := FinishJob(job, |job.attempts| - 1, reply, now);
      ClosePutKeeps(origin, caps, d, log, used, clock, fp, Last(done.attempts), done.summary, done.sections, now);
    } else {
      DirInvGrows(origin, caps, d, log, used, clock, used, now);
    }
  }

  // ---------------------------------------------------------------- settle

  lemma SettleOneKeeps(origin: string -> Plan, caps: Caps, d: Dir, log: seq<Sent>, used: set<string>, clock: int,
                       g: string, now: int)
    requires DirInv(origin, caps, d, log, used, clock) && clock <= now
    requires g in d.hot && NeedsSettle(d.hot[g], g)
    ensures DirInv(origin, caps, PutHot(d, g, SettleJob(d.hot[g].job, now)), log, used, now)
  {
    var job := d.hot[g].job;
    var b := Last(SettleJob(job, now).attempts);
    StampFacts(now, now);
    assert AttemptOk(Last(job.attempts), clock);
    ClosePutKeeps(origin, caps, d, log, used, clock, g, b, job.summary, job.sections, now);
  }

  lemma {:induction false} SettleKeeps(origin: string -> Plan, caps: Caps, d: Dir, log: seq<Sent>, used: set<string>,
                                       clock: int,
                                       saved: set<string>, at: string -> int, until: int)
    requires DirInv(origin, caps, d, log, used, clock) && clock <= until
    requires saved <= d.hot.Keys
    requires forall g :: g in saved ==> clock <= at(g) <= until
    ensures DirInv(origin, caps, SettleDir(d, saved, at), log, used, until)
  {
    if saved == {} {
      SettleNothing(d, at);
      DirInvGrows(origin, caps, d, log, used, clock, used, until);
    } else {
      // the file settled last is the one with the latest reading
      var g := LatestOf(saved, at);
      var rest := saved - {g};
      assert saved == rest + {g};
      SettleKeeps(origin, caps, d, log, used, clock, rest, at, at(g));
      SettleOne(d, rest, g, at);
      if NeedsSettle(d.hot[g], g) {
        SettleOneKeeps(origin, caps, SettleDir(d, rest, at), log, used, at(g), g, at(g));
      }
      DirInvGrows(origin, caps, SettleDir(d, saved, at), log, used, at(g), used, until);
    }
  }

  ghost function LatestOf(s: set<string>, at: string -> int): (g: string)
    requires s != {}
    ensures g in s && forall h :: h in s ==> at(h) <= at(g)
  {
    var x :| x in s;
    if s == {x} then x
    else
      var y := LatestOf(s - {x}, at);
      if at(x) <= at(y) then y else x
  }

  // ---------------------------------------------------------------- prune

  lemma {:induction false} MergeKnown(base: seq<Attempt>, extra: seq<Attempt>)
    requires DistinctIds(base) && forall i :: 0 <= i < |extra| ==> extra[i] in base
    ensures MergeAttempts(base, extra) == Some(base)
  {
    if extra != [] {
      MergeKnown(base, extra[1..]);
    }
  }

  lemma {:induction false} MergeNew(base: seq<Attempt>, extra: seq<Attempt>)
    requires DistinctIds(extra)
    requires forall i, j :: 0 <= i < |base| && 0 <= j < |extra| ==> base[i].id != extra[j].id
    ensures MergeAttempts(base, extra) == Some(base + extra)
    decreases |extra|
  {
    if extra == [] {
      assert base + extra == base;
    } else {
      MergeNew(base + [extra[0]], extra[1..]);
      assert base + [extra[0]] + extra[1..] == base + extra;
    }
  }

  /** What the archive holds once `hot` has been merged over `base`. */
  function Merged(base: Job, hot: Job): Job {
    var m := MergeAttempts(base.attempts, hot.attempts);
    Sealed(ArchiveBase(base, hot).(attempts := if m.Some? then m.value else base.attempts, status := hot.status))
  }

  function ArchiveBaseOf(d: Dir, hot: Job): Job {
    if hot.fingerprint in d.archive && d.archive[hot.fingerprint].Json? then d.archive[hot.fingerprint].job else hot
  }

  ghost predicate Prunable(origin: string -> Plan, caps: Caps, d: Dir, log: seq<Sent>, used: set<string>, clock: int,
                           fp: string, now: int) {
    && DirInv(origin, caps, d, log, used, clock) && now <= clock
    && ValidFingerprint(fp) && fp in d.hot && d.hot[fp].Json? && Eligible(d.hot[fp].job, now)
  }

  /** In a run the merge never conflicts, loses nothing, and carries the hot job's answer. */
  lemma MergedOk(origin: string -> Plan, caps: Caps, d: Dir, log: seq<Sent>, used: set<string>, clock: int, fp: string,
                 now: int)
    requires Prunable(origin, caps, d, log, used, clock, fp, now)
    ensures var hot := d.hot[fp].job;
      var base := ArchiveBaseOf(d, hot);
      var m := Merged(base, hot);
      && MergeAttempts(base.attempts, hot.attempts).Some?
      && ColdOk(origin, m, fp, used, clock)
      && (forall i :: 0 <= i < |hot.attempts| ==> hot.attempts[i] in m.attempts)
      && (forall i :: 0 <= i < |base.attempts| ==> base.attempts[i] in m.attempts)
      && m.sections == hot.sections && m.summary == hot.summary && m.scope == hot.scope && m.source == hot.source
  {
    var hot := d.hot[fp].job;
    var base := ArchiveBaseOf(d, hot);
    assert HotOk(origin, caps.attempts, hot, fp, used, clock);
    assert FileOk(origin, base, fp, used, clock);
    assert Plan(base.scope, base.source) == Plan(hot.scope, hot.source);
    if forall i :: 0 <= i < |hot.attempts| ==> hot.attempts[i] in base.attempts {
      MergeKnown(base.attempts, hot.attempts);
      if base != hot {
        assert ColdOk(origin, base, fp, used, clock);
        assert PairOk(base, hot);
        assert hot.attempts[0] in base.attempts;
      }
    } else {
      assert ColdOk(origin, base, fp, used, clock) && PairOk(base, hot);
      MergeNew(base.attempts, hot.attempts);
      MergedNewOk(origin, caps, base, hot, fp, used, clock);
    }
  }

  lemma MergedNewOk(origin: string -> Plan, caps: Caps, base: Job, hot: Job, fp: string, used: set<string>, clock: int)
    requires HotOk(origin, caps.attempts, hot, fp, used, clock) && LastState(hot).Completed?
    requires ColdOk(origin, base, fp, used, clock) && base.sections == []
    requires base.scope == hot.scope && base.source == hot.source
    requires forall i, j :: 0 <= i < |hot.attempts| && 0 <= j < |base.attempts| ==>
      hot.attempts[i].id != base.attempts[j].id
    requires MergeAttempts(base.attempts, hot.attempts) == Some(base.attempts + hot.attempts)
    ensures var m := Merged(base, hot);
      && m.attempts == base.attempts + hot.attempts && ColdOk(origin, m, fp, used, clock)
      && m.sections == hot.sections && m.summary == hot.summary && m.scope == hot.scope && m.source == hot.source
      && (forall i :: 0 <= i < |hot.attempts| ==> hot.attempts[i] in m.attempts)
      && (forall i :: 0 <= i < |base.attempts| ==> base.attempts[i] in m.attempts)
  {
    hide Spaced, InTurn, SingleFlight;
    var m := Merged(base, hot);
    forall i | 0 <= i < |hot.attempts| ensures hot.attempts[i] in m.attempts {
      assert m.attempts[|base.attempts| + i] == hot.attempts[i];
    }
    forall i | 0 <= i < |base.attempts| ensures base.attempts[i] in m.attempts {
      assert m.attempts[i] == base.attempts[i];
    }
  }

  function WithArchive(d: Dir, fp: string, m: Job): Dir {
    d.(archive := d.archive[fp := Json(m, false)])
  }

  lemma ArchivePutKeeps(origin: string -> Plan, caps: Caps, d: Dir, log: seq<Sent>, used: set<string>, clock: int,
                        fp: string, now: int)
    requires Prunable(origin, caps, d, log, used, clock, fp, now)
    requires fp in d.archive ==> d.archive[fp].Json?
    ensures var hot := d.hot[fp].job;
      var m := Merged(ArchiveBaseOf(d, hot), hot);
      DirInv(origin, caps, WithArchive(d, fp, m), log, used, clock) && PairOk(m, hot)
        && (forall i :: 0 <= i < |hot.attempts| ==> hot.attempts[i] in m.attempts)
  {
    var hot := d.hot[fp].job;
    var base := ArchiveBaseOf(d, hot);
    var m := Merged(base, hot);
    MergedOk(origin, caps, d, log, used, clock, fp, now);
    var d' := WithArchive(d, fp, m);
    forall i | 0 <= i < |log| ensures Placed(d', log[i], clock) {
      assert Placed(d, log[i], clock);
      if !InFile(d.hot, log[i]) && log[i].fp == fp {
        MemberRecords(base.attempts, m.attempts, log[i]);
      }
    }
  }

  lemma MemberRecords(before: seq<Attempt>, after: seq<Attempt>, e: Sent)
    requires Records(before, e) && forall i :: 0 <= i < |before| ==> before[i] in after
    ensures Records(after, e)
  {
    var i :| 0 <= i < |before| && before[i].id == e.id && before[i].sent && before[i].started == At(Stamp(e.start));
    var k :| 0 <= k < |after| && after[k] == before[i];
    assert after[k].id == e.id;
  }

  function WithoutHot(d: Dir, fp: string): Dir { d.(hot := d.hot - {fp}) }

  lemma RemoveKeeps(origin: string -> Plan, caps: Caps, d: Dir, log: seq<Sent>, used: set<string>, clock: int,
                    fp: string, now: int)
    requires Prunable(origin, caps, d, log, used, clock, fp, now)
    requires fp in d.archive && d.archive[fp].Json?
    requires forall i :: 0 <= i < |d.hot[fp].job.attempts| ==> d.hot[fp].job.attempts[i] in d.archive[fp].job.attempts
    ensures DirInv(origin, caps, WithoutHot(d, fp), log, used, clock)
  {
    var d' := WithoutHot(d, fp);
    var hot := d.hot[fp].job;
    SubsetBounds(BusySet(d'.hot), BusySet(d.hot));
    forall i | 0 <= i < |log| ensures Placed(d', log[i], clock) {
      assert Placed(d, log[i], clock);
      if InFile(d.hot, log[i]) && log[i].fp == fp {
        MemberRecords(hot.attempts, d.archive[fp].job.attempts, log[i]);
        var k :| 0 <= k < |hot.attempts| && hot.attempts[k].id == log[i].id && hot.attempts[k].sent
          && hot.attempts[k].started == At(Stamp(log[i].start));
        assert AttemptOlderThanAnHour(hot.attempts[k], now);
      }
    }
  }

  /** The steps a justified deletion takes, in terms of the two writes above. */
  lemma PruneItemShape(origin: string -> Plan, caps: Caps, d: Dir, log: seq<Sent>, used: set<string>, clock: int,
                       fp: string, keeper: Option<string>, now: int, io: PruneIo)
    requires DirInv(origin, caps, d, log, used, clock) && now <= clock
    ensures var trail := PruneItem(d, fp, keeper, now, io).trail;
      trail != [] ==>
        && Prunable(origin, caps, d, log, used, clock, fp, now)
        && (fp in d.archive ==> d.archive[fp].Json?)
        && var d1 := WithArchive(d, fp, Merged(ArchiveBaseOf(d, d.hot[fp].job), d.hot[fp].job));
          trail == if io.unlink then [d1, WithoutHot(d1, fp)] else [d1]
  {
    if PruneItem(d, fp, keeper, now, io).trail != [] {
      MergedOk(origin, caps, d, log, used, clock, fp, now);
    }
  }

  lemma PruneItemKeeps(origin: string -> Plan, caps: Caps, d: Dir, log: seq<Sent>, used: set<string>, clock: int,
                       fp: string, keeper: Option<string>, now: int, io: PruneIo)
    requires DirInv(origin, caps, d, log, used, clock) && now <= clock
    ensures forall i :: 0 <= i < |PruneItem(d, fp, keeper, now, io).trail| ==>
      DirInv(origin, caps, PruneItem(d, fp, keeper, now, io).trail[i], log, used, clock)
  {
    PruneItemShape(origin, caps, d, log, used, clock, fp, keeper, now, io);
    var trail := PruneItem(d, fp, keeper, now, io).trail;
    if trail != [] {
      ArchivePutKeeps(origin, caps, d, log, used, clock, fp, now);
      RemoveKeeps(origin, caps, trail[0], log, used, clock, fp, now);
    }
  }
}
