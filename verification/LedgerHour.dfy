/**
  How long an hour the hourly cap covers.  An attempt records the millisecond it started in, so the
  budget may take a start for up to 999,999 ns older than it is.
*/
module LedgerHour {
  import opened Prelude
  import opened LedgerModel
  import opened Ops = LedgerOps
  import opened LedgerRuns
  import opened LedgerSystem

  /** No run ever starts more than the cap of sends within this length of time. */
  ghost predicate CapCovers(length: int) {
    forall origin: string -> Plan, caps: Caps, states: seq<Sys>, steps: seq<Step>, i: nat, from: int ::
      Run(origin, caps, states, steps) && i < |states| && caps.perHour > 0
      ==> |Window(states[i].log, from, length)| <= caps.perHour
  }

  /** The cap covers every half-open window up to an hour less 999,998 ns, and none longer. */
  lemma CapCoversExactly(length: int)
    ensures CapCovers(length) <==> length <= SAFE_WINDOW
  {
    if length <= SAFE_WINDOW {
      ShorterIsCovered(length);
    } else {
      var origin, caps, states, steps := OverspendingRun();
      var from := states[3].log[0].start;
      assert {0, 1} <= Window(states[3].log, from, length);
      SubsetBounds({0, 1}, Window(states[3].log, from, length));
    }
  }

  lemma ShorterIsCovered(length: int)
    requires length <= SAFE_WINDOW
    ensures CapCovers(length)
  {
    hide Run;
    forall origin: string -> Plan, caps: Caps, states: seq<Sys>, steps: seq<Step>, i: nat, from: int |
      Run(origin, caps, states, steps) && i < |states| && caps.perHour > 0
      ensures |Window(states[i].log, from, length)| <= caps.perHour
    {
      HourlyBudgetHolds(origin, caps, states, steps, i, from);
      SubsetBounds(Window(states[i].log, from, length), Window(states[i].log, from, SAFE_WINDOW));
    }
  }

  // ---------------------------------------------------------------- a run at the edge

  /** Two unrelated requests. */
  function TwoPlans(): string -> Plan { fp => Plan(fp, [Source("1", fp)]) }

  function EdgeLimits(): Limits { Limits(2, 1, 0, "m") }

  function EdgeEnv(id: string, t: int): Env { Env(true, true, id, t, t, t, t, t, true, true, true) }

  const EARLY := MILLI - 1
  const LATE := HOUR + 1

  const EMPTY := Dir(map[], map[], map[])

  lemma EmptyAdmits()
    ensures Refusal(EMPTY, EdgeLimits(), TwoPlans()("a"), "a", EdgeEnv("i1", EARLY)).None?
  {
    assert HotJobs(EMPTY) == map[] && ColdJobs(EMPTY) == map[];
    assert LedgerJobs(EMPTY) == map[];
    assert Spent(LedgerJobs(EMPTY), EARLY) == {};
    assert BusyOthers(LedgerJobs(EMPTY), "a") == {};
  }

  /** The directory with the first request in flight. */
  function OneOpen(): Dir {
    var a := ReservedAttempt(EdgeEnv("i1", EARLY), EdgeLimits()).(state := InFlight, sent := true);
    Dir(map["a" := Json(Sealed(BlankJob("a", TwoPlans()("a")).(attempts := [a])), false)], map[], map[])
  }

  lemma FirstSends()
    ensures var r := Decide(EMPTY, EdgeLimits(), TwoPlans()("a"), "a", EdgeEnv("i1", EARLY));
      r.action.Send? && Final(EMPTY, r.trail) == OneOpen()
  {
    hide Refusal;
    EmptyAdmits();
    var r := Decide(EMPTY, EdgeLimits(), TwoPlans()("a"), "a", EdgeEnv("i1", EARLY));
    var blank := BlankJob("a", TwoPlans()("a"));
    var a := ReservedAttempt(EdgeEnv("i1", EARLY), EdgeLimits());
    LaunchIsAppend(blank, a, a.(state := InFlight, sent := true));
    assert Existing(EMPTY, "a").None?;
    var job := LaunchJob(ReserveJob(None, "a", TwoPlans()("a"), EdgeLimits(), EdgeEnv("i1", EARLY)));
    assert job.attempts == [a.(state := InFlight, sent := true)];
    assert job == blank.(attempts := job.attempts);
    assert r.trail[1].hot == OneOpen().hot;
  }

  lemma OneOpenAdmits()
    ensures Refusal(OneOpen(), EdgeLimits(), TwoPlans()("b"), "b", EdgeEnv("i2", LATE)).None?
  {
    var d := OneOpen();
    var job := d.hot["a"].job;
    assert HotJobs(d) == map["a" := job] && ColdJobs(d) == map[];
    assert LedgerJobs(d) == map["a" := job];
    assert Spent(LedgerJobs(d), LATE) == {};
    assert BusyOthers(LedgerJobs(d), "b") <= {"a"};
    SubsetBounds(BusyOthers(LedgerJobs(d), "b"), {"a"});
    assert !SameSources(job, TwoPlans()("b"));
  }

  lemma SecondSends()
    ensures Decide(OneOpen(), EdgeLimits(), TwoPlans()("b"), "b", EdgeEnv("i2", LATE)).action.Send?
  {
    hide Refusal, ReserveJob, LaunchJob, WithdrawJob, PutHot, Existing;
    OneOpenAdmits();
  }

  function Start(): Sys { Sys(EMPTY, {}, false, [], 0, {}) }

  function Ready(): Sys { Start().(settled := true) }

  function Waiting1(): Sys { Sys(OneOpen(), {("a", "i1")}, true, [Sent("a", "i1", EARLY)], EARLY, {"i1"}) }

  function Settle(): Step { SettleStep({}, (g: string) => 0, 0, true) }

  function Ask(fp: string, id: string, t: int): Step { DecideStep(EdgeLimits(), fp, EdgeEnv(id, t), None) }

  lemma StartSettles()
    ensures Enabled(TwoPlans(), Caps(2, 1, 0), Start(), Settle()) && Apply(TwoPlans(), Start(), Settle()) == Ready()
  {
    SettleNothing(EMPTY, Settle().at);
  }

  lemma FirstStep()
    ensures Enabled(TwoPlans(), Caps(2, 1, 0), Ready(), Ask("a", "i1", EARLY))
    ensures Apply(TwoPlans(), Ready(), Ask("a", "i1", EARLY)) == Waiting1()
  {
    hide Decide, OneOpen;
    FirstSends();
  }

  lemma SecondStep()
    ensures Enabled(TwoPlans(), Caps(2, 1, 0), Waiting1(), Ask("b", "i2", LATE))
    ensures Apply(TwoPlans(), Waiting1(), Ask("b", "i2", LATE)).log == [Sent("a", "i1", EARLY), Sent("b", "i2", LATE)]
  {
    hide Decide, OneOpen;
    SecondSends();
  }

  /**
    With a cap of one, a request that starts in the last nanosecond of a millisecond and another a
    nanosecond past the recorded hour are both sent: 999,998 ns less than an hour apart.
  */
  lemma OverspendingRun() returns (origin: string -> Plan, caps: Caps, states: seq<Sys>, steps: seq<Step>)
    ensures Run(origin, caps, states, steps) && |states| == 4 && caps.perHour == 1
    ensures |states[3].log| == 2 && states[3].log[1].start - states[3].log[0].start == SAFE_WINDOW == HOUR - 999_998
  {
    hide Apply, Enabled, Waiting1;
    origin, caps := TwoPlans(), Caps(2, 1, 0);
    StartSettles();
    FirstStep();
    SecondStep();
    steps := [Settle(), Ask("a", "i1", EARLY), Ask("b", "i2", LATE)];
    states := [Start(), Ready(), Waiting1(), Apply(origin, Waiting1(), steps[2])];
  }
}
