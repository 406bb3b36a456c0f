/**
  The daemon as a transition system over the ledger: requests, replies, clean-up items, crashes that
  cut a gate section after any of its writes, and the settling that follows a restart.
*/
module LedgerSystem {
  import opened Prelude
  import opened LedgerModel
  import opened Ops = LedgerOps
  import opened LedgerRuns
  import opened LedgerAnswers

  /** `live` holds the sends whose reply this process still waits for; `log` is every real send so far. */
  datatype Sys = Sys(dir: Dir, live: set<(string, string)>, settled: bool, log: seq<Sent>, clock: int,
                     used: set<string>)

  /** `crash` is the number of writes that became durable before the process died. */
  datatype Step =
    | DecideStep(limits: Limits, asked: string, env: Env, crash: Option<nat>)
    | FinishStep(fp: string, id: string, reply: Reply, finishNow: int, saved: bool)
    | PruneStep(pruneFp: string, keeper: Option<string>, pruneNow: int, io: PruneIo, pruneCrash: Option<nat>)
    | SettleStep(settled: set<string>, at: string -> int, until: int, completes: bool)
    | CrashStep
    | TickStep(now: int)

  function Durable(d: Dir, trail: seq<Dir>, crash: Option<nat>): Dir {
    if crash.None? || crash.value > |trail| then Final(d, trail) else Final(d, trail[..crash.value])
  }

  predicate Enabled(origin: string -> Plan, caps: Caps, s: Sys, step: Step) {
    match step
    case DecideStep(limits, fp, env, _) => s.settled && Within(limits, caps) && Monotone(env, s.clock)
      && env.id !in s.used
    case FinishStep(fp, id, _, now, _) => (fp, id) in s.live && s.clock <= now
    case PruneStep(_, _, now, _, _) => now <= s.clock
    case SettleStep(done, at, until, _) =>
      !s.settled && s.clock <= until && done <= s.dir.hot.Keys && forall g :: g in done ==> s.clock <= at(g) <= until
    case CrashStep => true
    case TickStep(now) => s.clock <= now
  }

  function Died(s: Sys): Sys { s.(live := {}, settled := false) }

  function Apply(origin: string -> Plan, s: Sys, step: Step): Sys {
    match step
    case DecideStep(limits, fp, env, crash) =>
      var r := Decide(s.dir, limits, origin(fp), fp, env);
      var s1 := s.(dir := Durable(s.dir, r.trail, crash), used := s.used + {env.id}, clock := env.endNow);
      if crash.Some? then Died(s1)
      else if r.action.Send? then s1.(live := s.live + {(fp, env.id)}, log := s.log + [Sent(fp, env.id, env.startNow)])
      else s1
    case FinishStep(fp, id, reply, now, saved) =>
      s.(dir := Final(s.dir, Finish(s.dir, fp, id, reply, now, saved)), live := s.live - {(fp, id)}, clock := now)
    case PruneStep(fp, keeper, now, io, crash) =>
      var s1 := s.(dir := Durable(s.dir, PruneItem(s.dir, fp, keeper, now, io).trail, crash));
      if crash.Some? then Died(s1) else s1
    case SettleStep(done, at, until, completes) =>
      s.(dir := SettleDir(s.dir, done, at), settled := completes, clock := until)
    case CrashStep => Died(s)
    case TickStep(now) => s.(clock := now)
  }

  /** A directory with no readable ledger file in it, at any time. */
  predicate Init(s: Sys) {
    && (forall g :: g in s.dir.hot ==> s.dir.hot[g].Garbage?)
    && (forall g :: g in s.dir.archive ==> s.dir.archive[g].Garbage?)
    && s.live == {} && !s.settled && s.log == [] && s.used == {}
  }

  ghost predicate Run(origin: string -> Plan, caps: Caps, states: seq<Sys>, steps: seq<Step>) {
    && |states| == |steps| + 1 && Init(states[0])
    && forall i :: 0 <= i < |steps| ==>
      Enabled(origin, caps, states[i], steps[i]) && states[i + 1] == Apply(origin, states[i], steps[i])
  }

  ghost predicate SysInv(origin: string -> Plan, caps: Caps, s: Sys) {
    && DirInv(origin, caps, s.dir, s.log, s.used, s.clock)
    && BudgetInv(s.log, caps.perHour)
    && (forall x :: x in s.live ==> Waiting(s.dir, x.0, x.1))
    && (!s.settled ==> s.live == {})
  }

  lemma InitHolds(origin: string -> Plan, caps: Caps, s: Sys)
    requires Init(s)
    ensures SysInv(origin, caps, s)
  {
    assert BusySet(s.dir.hot) == {};
    forall w ensures |Window(s.log, w, SAFE_WINDOW)| == 0 && |RecordedWindow(s.log, w, HOUR)| == 0 {
      assert Window(s.log, w, SAFE_WINDOW) == {} && RecordedWindow(s.log, w, HOUR) == {};
    }
  }

  /** What the second save of a reservation leaves on disk. */
  lemma SentRecorded(d: Dir, limits: Limits, plan: Plan, fp: string, env: Env)
    requires Decide(d, limits, plan, fp, env).action.Send?
    ensures InFile(Final(d, Decide(d, limits, plan, fp, env).trail).hot, Sent(fp, env.id, env.startNow))
    ensures Waiting(Final(d, Decide(d, limits, plan, fp, env).trail), fp, env.id)
    ensures Refusal(d, limits, plan, fp, env).None? && |Decide(d, limits, plan, fp, env).trail| == 2
  {
    AttemptsOfDecide(Existing(d, fp), fp, plan, limits, env);
    var attempts := Final(d, Decide(d, limits, plan, fp, env).trail).hot[fp].job.attempts;
    assert attempts[|attempts| - 1].id == env.id;
  }

  lemma LogGrows(d: Dir, log: seq<Sent>, used: set<string>, clock: int, id: string, e: Sent)
    requires LogInv(d, log, used + {id}, clock) && InFile(d.hot, e)
    requires forall i :: 0 <= i < |log| ==> log[i].id in used
    requires id !in used && e.id == id && e.start <= clock
    requires forall i :: 0 <= i < |log| ==> log[i].start <= e.start
    ensures LogInv(d, log + [e], used + {id}, clock)
  {
  }

  /** A sent attempt is logged at the moment the request leaves, after its second save. */
  lemma SendLogged(origin: string -> Plan, caps: Caps, s: Sys, limits: Limits, fp: string, env: Env)
    requires SysInv(origin, caps, s) && Enabled(origin, caps, s, DecideStep(limits, fp, env, None))
    requires Decide(s.dir, limits, origin(fp), fp, env).action.Send?
    ensures SysInv(origin, caps, Apply(origin, s, DecideStep(limits, fp, env, None)))
  {
    hide Decide, Refusal, HotInv, ColdInv, PairInv, BudgetInv, InFile, Placed, Waiting;
    var plan := origin(fp);
    var trail := Decide(s.dir, limits, plan, fp, env).trail;
    var e := Sent(fp, env.id, env.startNow);
    SentRecorded(s.dir, limits, plan, fp, env);
    DecideKeeps(origin, caps, s.dir, s.log, s.used, s.clock, limits, plan, fp, env);
    assert DirInv(origin, caps, trail[1], s.log, s.used + {env.id}, env.endNow);
    BudgetKept(origin, caps, s.dir, s.log, s.used, s.clock, limits, plan, fp, env);
    StampFacts(env.startNow, env.endNow);
    LogGrows(trail[1], s.log, s.used, env.endNow, env.id, e);
    LiveAfterPut(origin, caps, s, limits, fp, env);
  }

  lemma LiveAfterPut(origin: string -> Plan, caps: Caps, s: Sys, limits: Limits, fp: string, env: Env)
    requires SysInv(origin, caps, s)
    ensures forall x :: x in s.live ==>
      Waiting(Final(s.dir, Decide(s.dir, limits, origin(fp), fp, env).trail), x.0, x.1)
  {
    var plan := origin(fp);
    if Decide(s.dir, limits, plan, fp, env).trail != [] {
      AdmissionFacts(origin, caps, s.dir, s.log, s.used, s.clock, limits, plan, fp, env);
      forall x | x in s.live ensures x.0 != fp {
        assert Waiting(s.dir, x.0, x.1);
      }
    }
  }

  lemma DurableOf(d: Dir, trail: seq<Dir>, crash: Option<nat>)
    ensures Durable(d, trail, crash) == d || exists i :: 0 <= i < |trail| && Durable(d, trail, crash) == trail[i]
  {
    var k := if crash.None? || crash.value > |trail| then |trail| else crash.value;
    assert trail[..|trail|] == trail;
    if k > 0 {
      assert Durable(d, trail, crash) == trail[k - 1];
    }
  }

  lemma DecideStepHolds(origin: string -> Plan, caps: Caps, s: Sys, limits: Limits, fp: string, env: Env,
                        crash: Option<nat>)
    requires SysInv(origin, caps, s) && Enabled(origin, caps, s, DecideStep(limits, fp, env, crash))
    ensures SysInv(origin, caps, Apply(origin, s, DecideStep(limits, fp, env, crash)))
  {
    var plan := origin(fp);
    var r := Decide(s.dir, limits, plan, fp, env);
    if crash.None? && r.action.Send? {
      SendLogged(origin, caps, s, limits, fp, env);
    } else {
      DecideKeeps(origin, caps, s.dir, s.log, s.used, s.clock, limits, plan, fp, env);
      DirInvGrows(origin, caps, s.dir, s.log, s.used, s.clock, s.used + {env.id}, env.endNow);
      DurableOf(s.dir, r.trail, crash);
      LiveAfterPut(origin, caps, s, limits, fp, env);
    }
  }

  lemma FinishStepHolds(origin: string -> Plan, caps: Caps, s: Sys, step: Step)
    requires SysInv(origin, caps, s) && Enabled(origin, caps, s, step) && step.FinishStep?
    ensures SysInv(origin, caps, Apply(origin, s, step))
  {
    assert Waiting(s.dir, step.fp, step.id);
    FinishKeeps(origin, caps, s.dir, s.log, s.used, s.clock, step.fp, step.id, step.reply, step.finishNow, step.saved);
    forall x | x in s.live - {(step.fp, step.id)} ensures Waiting(Apply(origin, s, step).dir, x.0, x.1) {
      assert Waiting(s.dir, x.0, x.1);
      assert x == (x.0, x.1);
    }
  }

  lemma PruneStepHolds(origin: string -> Plan, caps: Caps, s: Sys, step: Step)
    requires SysInv(origin, caps, s) && Enabled(origin, caps, s, step) && step.PruneStep?
    ensures SysInv(origin, caps, Apply(origin, s, step))
  {
    hide DirInv;
    var trail := PruneItem(s.dir, step.pruneFp, step.keeper, step.pruneNow, step.io).trail;
    PruneItemKeeps(origin, caps, s.dir, s.log, s.used, s.clock, step.pruneFp, step.keeper, step.pruneNow, step.io);
    PruneItemShape(origin, caps, s.dir, s.log, s.used, s.clock, step.pruneFp, step.keeper, step.pruneNow, step.io);
    DurableOf(s.dir, trail, step.pruneCrash);
    forall x | x in s.live ensures Waiting(Durable(s.dir, trail, step.pruneCrash), x.0, x.1) {
      assert Waiting(s.dir, x.0, x.1);
    }
  }

  lemma StepHolds(origin: string -> Plan, caps: Caps, s: Sys, step: Step)
    requires SysInv(origin, caps, s) && Enabled(origin, caps, s, step)
    ensures SysInv(origin, caps, Apply(origin, s, step))
  {
    hide Decide, PruneItem, Finish, DirInv;
    match step
    case DecideStep(limits, fp, env, crash) => DecideStepHolds(origin, caps, s, limits, fp, env, crash);
    case FinishStep(_, _, _, _, _) => FinishStepHolds(origin, caps, s, step);
    case PruneStep(_, _, _, _, _) => PruneStepHolds(origin, caps, s, step);
    case SettleStep(done, at, until, _) => SettleKeeps(origin, caps, s.dir, s.log, s.used, s.clock, done, at, until);
    case CrashStep =>
    case TickStep(now) => DirInvGrows(origin, caps, s.dir, s.log, s.used, s.clock, s.used, now);
  }

  lemma {:induction false} RunHolds(origin: string -> Plan, caps: Caps, states: seq<Sys>, steps: seq<Step>, i: nat)
    requires Run(origin, caps, states, steps) && i < |states|
    ensures SysInv(origin, caps, states[i])
  {
    hide SysInv, Apply, Enabled, Init;
    if i == 0 {
      InitHolds(origin, caps, states[0]);
    } else {
      RunHolds(origin, caps, states, steps, i - 1);
      StepHolds(origin, caps, states[i - 1], steps[i - 1]);
    }
  }

  // ---------------------------------------------------------------- what every run guarantees

  /**
    No half-open window an hour less 999,998 ns long holds the start of more real sends than the hourly
    cap, restarts and clean-up included; nor does any half-open hour of the recorded starts.
  */
  lemma HourlyBudgetHolds(origin: string -> Plan, caps: Caps, states: seq<Sys>, steps: seq<Step>, i: nat, from: int)
    requires Run(origin, caps, states, steps) && i < |states| && caps.perHour > 0
    ensures |Window(states[i].log, from, SAFE_WINDOW)| <= caps.perHour
    ensures |RecordedWindow(states[i].log, from, HOUR)| <= caps.perHour
  {
    hide Run;
    RunHolds(origin, caps, states, steps, i);
  }

  /** At most `inFlight` jobs are open, in each of them only the last attempt is, and success ends a job. */
  lemma SingleFlightHolds(origin: string -> Plan, caps: Caps, states: seq<Sys>, steps: seq<Step>, i: nat)
    requires Run(origin, caps, states, steps) && i < |states|
    ensures |BusySet(states[i].dir.hot)| <= caps.inFlight
    ensures forall g :: g in states[i].dir.hot && states[i].dir.hot[g].Json? ==> SingleFlight(states[i].dir.hot[g].job)
  {
    hide Run;
    RunHolds(origin, caps, states, steps, i);
    forall g | g in states[i].dir.hot && states[i].dir.hot[g].Json? ensures SingleFlight(states[i].dir.hot[g].job) {
      assert HotOk(origin, caps.attempts, states[i].dir.hot[g].job, g, states[i].used, states[i].clock);
    }
  }

  /** Every real send has its own durable sent attempt, wherever crashes fell. */
  lemma SendsAreDurable(origin: string -> Plan, caps: Caps, states: seq<Sys>, steps: seq<Step>, i: nat, j: nat, k: nat)
    requires Run(origin, caps, states, steps) && i < |states|
    requires j < |states[i].log| && k < |states[i].log|
    ensures InFile(states[i].dir.hot, states[i].log[j]) || InFile(states[i].dir.archive, states[i].log[j])
    ensures j != k ==> states[i].log[j].id != states[i].log[k].id
  {
    hide Run;
    RunHolds(origin, caps, states, steps, i);
    assert Placed(states[i].dir, states[i].log[j], states[i].clock);
  }

  /** Past the attempt cap, a sent attempt starts an hour or more after the sent attempt before it ended. */
  lemma AttemptSpacingHolds(origin: string -> Plan, caps: Caps, states: seq<Sys>, steps: seq<Step>, i: nat, g: string,
                            j: nat)
    requires Run(origin, caps, states, steps) && i < |states|
    requires g in states[i].dir.hot && states[i].dir.hot[g].Json? && j < |states[i].dir.hot[g].job.attempts|
    ensures SpacedAt(states[i].dir.hot[g].job.attempts, caps.attempts, j)
  {
    hide Run;
    RunHolds(origin, caps, states, steps, i);
    assert HotOk(origin, caps.attempts, states[i].dir.hot[g].job, g, states[i].used, states[i].clock);
  }

  // ---------------------------------------------------------------- spacing of sends

  /** The real sends of one fingerprint so far. */
  function SendsOf(log: seq<Sent>, fp: string): set<int> {
    set k | 0 <= k < |log| && log[k].fp == fp
  }

  /** The send `e` is on record as finished by time `t`. */
  predicate FinishedBy(d: Dir, e: Sent, t: int) {
    && e.fp in d.hot && d.hot[e.fp].Json?
    && exists i :: 0 <= i < |d.hot[e.fp].job.attempts| && EndedAs(d.hot[e.fp].job.attempts[i], e, t)
  }

  predicate EndedAs(a: Attempt, e: Sent, t: int) { a.id == e.id && a.sent && FinishedBefore(a, At(t)) }

  /** While a non-empty request can still be sent, all its sends are in its hot job. */
  lemma SendsAreHot(origin: string -> Plan, caps: Caps, d: Dir, log: seq<Sent>, used: set<string>, clock: int,
                    limits: Limits, fp: string, env: Env, e: Sent)
    requires DirInv(origin, caps, d, log, used, clock) && e in log && e.fp == fp
    requires Refusal(d, limits, origin(fp), fp, env).None? && origin(fp).want != []
    ensures InFile(d.hot, e)
  {
    hide Refusal;
    AdmissionFacts(origin, caps, d, log, used, clock, limits, origin(fp), fp, env);
    var k :| 0 <= k < |log| && log[k] == e;
    assert Placed(d, e, clock);
    if fp in d.archive && d.archive[fp].Json? {
      assert false;
    }
  }

  /** An admitted job that has used up its attempts starts an hour or more after each of them ended. */
  lemma AllEndedAnHourAgo(origin: string -> Plan, cap: nat, job: Job, fp: string, used: set<string>, clock: int,
                          limits: Limits, env: Env, k: nat)
    requires HotOk(origin, cap, job, fp, used, clock) && !Busy(job) && !LastState(job).Completed?
    requires !RetryBlocked(job, env.retryNow) && AttemptsBlock(job, limits, env.blockNow).None?
    requires 0 < limits.maxAttempts <= cap && Monotone(env, clock) && |SentSlots(job.attempts)| >= cap
    requires k < |job.attempts| && job.attempts[k].sent
    ensures FinishedBefore(job.attempts[k], At(env.startNow - HOUR))
  {
    hide Spaced, InTurn;
    var ended := PriorEnded(origin, cap, job, fp, used, clock);
    RetryStaysOpen(job, env.retryNow, env.blockNow);
    LastSentIsLatest(job.attempts, k);
    var p := LastSent(job.attempts).value;
    var last :| k <= last < |job.attempts| && job.attempts[last] == p;
    if k < last {
      assert InTurn(job.attempts) && AttemptOk(p, clock);
      InTurnAt(job.attempts, k, last);
    }
  }

  lemma InTurnAt(attempts: seq<Attempt>, i: nat, j: nat)
    requires InTurn(attempts) && i < j < |attempts|
    ensures FinishedBefore(attempts[i], attempts[j].started)
  {
  }

  lemma {:induction false} LastSentIsLatest(attempts: seq<Attempt>, k: nat)
    requires k < |attempts| && attempts[k].sent
    ensures LastSent(attempts).Some? && exists last ::
      k <= last < |attempts| && attempts[last] == LastSent(attempts).value
  {
    var n := |attempts| - 1;
    if Last(attempts).sent {
      assert attempts[n] == LastSent(attempts).value;
    } else {
      LastSentIsLatest(attempts[..n], k);
      var last :| k <= last < n && attempts[..n][last] == LastSent(attempts[..n]).value;
      assert attempts[last] == LastSent(attempts).value;
    }
  }

  lemma SendsAreSlots(d: Dir, log: seq<Sent>, fp: string)
    requires fp in d.hot && d.hot[fp].Json? && forall k :: k in SendsOf(log, fp) ==> InFile(d.hot, log[k])
    requires forall i, j :: 0 <= i < j < |log| ==> log[i].id != log[j].id
    ensures |SendsOf(log, fp)| <= |SentSlots(d.hot[fp].job.attempts)|
  {
    var f := map k | k in SendsOf(log, fp) :: SlotOf(d.hot, log[k]).1;
    InjectionBounds(SendsOf(log, fp), SentSlots(d.hot[fp].job.attempts), f);
  }

  /**
    Once the cap of real sends of a non-empty request is spent, over any reads, sends, clean-up and
    restarts, the next one starts an hour or more after every one of them had finished.
  */
  lemma SendsAreSpaced(origin: string -> Plan, caps: Caps, states: seq<Sys>, steps: seq<Step>, i: nat, k: nat)
    requires Run(origin, caps, states, steps) && i < |steps| && caps.attempts > 0
    requires |states[i + 1].log| > |states[i].log|
    requires origin(Last(states[i + 1].log).fp).want != []
    requires |SendsOf(states[i].log, Last(states[i + 1].log).fp)| >= caps.attempts
    requires k in SendsOf(states[i].log, Last(states[i + 1].log).fp)
    ensures FinishedBy(states[i].dir, states[i].log[k], Last(states[i + 1].log).start - HOUR)
  {
    hide Decide, Finish, PruneItem, DirInv, BudgetInv, Init;
    var s, step := states[i], steps[i];
    assert states[i + 1] == Apply(origin, s, step) && Enabled(origin, caps, s, step);
    hide Run;
    RunHolds(origin, caps, states, steps, i);
    SpacedStep(origin, caps, s, step.limits, step.asked, step.env, k);
  }

  lemma SpacedStep(origin: string -> Plan, caps: Caps, s: Sys, limits: Limits, fp: string, env: Env, k: nat)
    requires SysInv(origin, caps, s) && Within(limits, caps) && Monotone(env, s.clock) && caps.attempts > 0
    requires Decide(s.dir, limits, origin(fp), fp, env).action.Send? && origin(fp).want != []
    requires |SendsOf(s.log, fp)| >= caps.attempts && k in SendsOf(s.log, fp)
    ensures FinishedBy(s.dir, s.log[k], env.startNow - HOUR)
  {
    hide Decide, Refusal, BudgetInv, Spaced, InTurn, FileOk, SingleFlight;
    SentRecorded(s.dir, limits, origin(fp), fp, env);
    AdmissionFacts(origin, caps, s.dir, s.log, s.used, s.clock, limits, origin(fp), fp, env);
    AdmissionMeaning(s.dir, limits, origin(fp), fp, env);
    forall j | j in SendsOf(s.log, fp) ensures InFile(s.dir.hot, s.log[j]) {
      SendsAreHot(origin, caps, s.dir, s.log, s.used, s.clock, limits, fp, env, s.log[j]);
    }
    assert InFile(s.dir.hot, s.log[k]);
    SendsAreSlots(s.dir, s.log, fp);
    var job := s.dir.hot[fp].job;
    var at := SlotOf(s.dir.hot, s.log[k]).1;
    AllEndedAnHourAgo(origin, caps.attempts, job, fp, s.used, s.clock, limits, env, at);
    assert EndedAs(job.attempts[at], s.log[k], env.startNow - HOUR);
  }

  // ---------------------------------------------------------------- results last for ever

  /** Every result served from `d` is served unchanged from `d'`. */
  ghost predicate StillServed(d: Dir, d': Dir) {
    forall g :: FinishedAt(d, g).Some? ==> FinishedAt(d', g) == FinishedAt(d, g)
  }

  lemma PutServes(d: Dir, fp: string, job: Job)
    requires FinishedAt(d, fp).None?
    ensures StillServed(d, PutHot(d, fp, job))
  {
  }

  lemma DecideServes(origin: string -> Plan, caps: Caps, s: Sys, limits: Limits, fp: string, env: Env, i: nat)
    requires SysInv(origin, caps, s) && i < |Decide(s.dir, limits, origin(fp), fp, env).trail|
    ensures StillServed(s.dir, Decide(s.dir, limits, origin(fp), fp, env).trail[i])
  {
    hide Decide, Refusal;
    var trail := Decide(s.dir, limits, origin(fp), fp, env).trail;
    DecideWritesOneFile(s.dir, limits, origin(fp), fp, env, i, fp + "x");
    AdmissionFacts(origin, caps, s.dir, s.log, s.used, s.clock, limits, origin(fp), fp, env);
    forall g | FinishedAt(s.dir, g).Some? ensures FinishedAt(trail[i], g) == FinishedAt(s.dir, g) {
      DecideWritesOneFile(s.dir, limits, origin(fp), fp, env, i, g);
    }
  }

  lemma FinishServes(origin: string -> Plan, caps: Caps, s: Sys, fp: string, id: string, reply: Reply, now: int,
                     saved: bool)
    requires SysInv(origin, caps, s) && (fp, id) in s.live
    ensures StillServed(s.dir, Final(s.dir, Finish(s.dir, fp, id, reply, now, saved)))
  {
    hide FinishJob;
    assert Waiting(s.dir, fp, id);
    assert HotOk(origin, caps.attempts, s.dir.hot[fp].job, fp, s.used, s.clock);
    var job := s.dir.hot[fp].job;
    FindLast(job.attempts, id);
    PutServes(s.dir, fp, FinishJob(job, |job.attempts| - 1, reply, now));
  }

  lemma SettleServes(d: Dir, saved: set<string>, at: string -> int)
    ensures StillServed(d, SettleDir(d, saved, at))
  {
    forall g | FinishedAt(d, g).Some? ensures FinishedAt(SettleDir(d, saved, at), g) == FinishedAt(d, g) {
      assert g in d.hot && LoadFile(d.hot[g], g).Found? ==> SettleDir(d, saved, at).hot[g] == d.hot[g];
    }
  }

  lemma DecideStepServes(origin: string -> Plan, caps: Caps, s: Sys, limits: Limits, fp: string, env: Env,
                         crash: Option<nat>)
    requires SysInv(origin, caps, s)
    ensures StillServed(s.dir, Durable(s.dir, Decide(s.dir, limits, origin(fp), fp, env).trail, crash))
  {
    hide Decide, FinishedAt, SysInv;
    var trail := Decide(s.dir, limits, origin(fp), fp, env).trail;
    DurableOf(s.dir, trail, crash);
    forall i | 0 <= i < |trail| ensures StillServed(s.dir, trail[i]) {
      DecideServes(origin, caps, s, limits, fp, env, i);
    }
  }

  lemma PruneStepServes(origin: string -> Plan, caps: Caps, s: Sys, fp: string, keeper: Option<string>, now: int,
                        io: PruneIo, crash: Option<nat>)
    requires SysInv(origin, caps, s) && now <= s.clock
    ensures StillServed(s.dir, Durable(s.dir, PruneItem(s.dir, fp, keeper, now, io).trail, crash))
  {
    hide PruneItem, FinishedAt, DirInv, SameAnswers;
    var trail := PruneItem(s.dir, fp, keeper, now, io).trail;
    DurableOf(s.dir, trail, crash);
    forall i | 0 <= i < |trail| ensures StillServed(s.dir, trail[i]) {
      PruneKeepsAnswers(origin, caps, s.dir, s.log, s.used, s.clock, fp, keeper, now, io, i);
      SameServes(s.dir, trail[i]);
    }
  }

  lemma StepServes(origin: string -> Plan, caps: Caps, s: Sys, step: Step)
    requires SysInv(origin, caps, s) && Enabled(origin, caps, s, step)
    ensures StillServed(s.dir, Apply(origin, s, step).dir)
  {
    hide Decide, PruneItem, Finish, SettleDir, FinishedAt, SysInv, Durable;
    match step
    case DecideStep(limits, fp, env, crash) => DecideStepServes(origin, caps, s, limits, fp, env, crash);
    case FinishStep(fp, id, reply, now, saved) => FinishServes(origin, caps, s, fp, id, reply, now, saved);
    case PruneStep(fp, keeper, now, io, crash) => PruneStepServes(origin, caps, s, fp, keeper, now, io, crash);
    case SettleStep(saved, at, _, _) => SettleServes(s.dir, saved, at);
    case CrashStep =>
    case TickStep(_) =>
  }

  lemma SameServes(d: Dir, d': Dir)
    requires SameAnswers(d, d')
    ensures StillServed(d, d')
  {
    forall g | FinishedAt(d, g).Some? ensures FinishedAt(d', g) == FinishedAt(d, g) {
      FinishedPointwise(d, g);
      FinishedPointwise(d', g);
    }
  }

  /** A finished translation is never lost and never changes, over any later part of any run. */
  lemma {:induction false} ResultsLast(origin: string -> Plan, caps: Caps, states: seq<Sys>, steps: seq<Step>, i: nat,
                                       j: nat)
    requires Run(origin, caps, states, steps) && i <= j < |states|
    ensures StillServed(states[i].dir, states[j].dir)
  {
    hide SysInv, Apply, Enabled, FinishedAt, Init;
    if i < j {
      ResultsLast(origin, caps, states, steps, i, j - 1);
      RunHolds(origin, caps, states, steps, j - 1);
      StepServes(origin, caps, states[j - 1], steps[j - 1]);
    }
  }

  /** Hence a request covered once stays covered, and `decide` never pays for it again. */
  lemma CoveredStaysCovered(origin: string -> Plan, caps: Caps, states: seq<Sys>, steps: seq<Step>, i: nat, j: nat,
                            plan: Plan, limits: Limits, fp: string, env: Env)
    requires Run(origin, caps, states, steps) && i <= j < |states|
    requires CoveredSomewhere(states[i].dir, plan)
    ensures CoveredSomewhere(states[j].dir, plan)
    ensures !Decide(states[j].dir, limits, plan, fp, env).action.Send?
  {
    hide FinishedAt, Apply, Enabled, SysInv, Init, CoveredSomewhere, ServedCovers, Run, Decide;
    ResultsLast(origin, caps, states, steps, i, j);
    CoveredFromFinished(states[i].dir, plan);
    CoveredFromFinished(states[j].dir, plan);
    var g :| g in Finished(states[i].dir) && ServedCovers(Finished(states[i].dir)[g], plan);
    FinishedPointwise(states[i].dir, g);
    FinishedPointwise(states[j].dir, g);
    assert ServedCovers(Finished(states[j].dir)[g], plan);
    CoveredIsNotSent(states[j].dir, limits, plan, fp, env);
  }

  lemma CoveredIsNotSent(d: Dir, limits: Limits, plan: Plan, fp: string, env: Env)
    requires CoveredSomewhere(d, plan)
    ensures !Decide(d, limits, plan, fp, env).action.Send?
  {
    hide ReserveJob, LaunchJob, WithdrawJob, PutHot, Existing;
  }
}
