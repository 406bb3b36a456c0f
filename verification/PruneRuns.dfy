/**
  `run_prune` beside everything else: a scan in batches with the gate free in between, a plan made
  from that stale snapshot, and deletions re-justified one by one while requests and replies go on.
*/
module PruneRuns {
  import opened Prelude
  import opened LedgerModel
  import opened Ops = LedgerOps
  import opened LedgerRuns
  import opened LedgerSystem
  import opened PrunePlan

  datatype Phase =
    | Idle
    | Scanning(seen: set<string>, snaps: seq<Job>)
    | Applying(snaps: seq<Job>, planNow: int, next: nat)

  datatype Daemon = Daemon(sys: Sys, phase: Phase)

  datatype Move =
    | Elsewhere(step: Step)
    | Begin
    | Scan(names: seq<string>)
    | MakePlan(now: int)
    | ApplyNext(applyNow: int, io: PruneIo, crash: Option<nat>)
    | End

  predicate DistinctSeq(names: seq<string>) { forall i, j :: 0 <= i < j < |names| ==> names[i] != names[j] }

  /** One batch of directory entries, read under the gate; unreadable and foreign files are passed over. */
  function Snap(hot: map<string, File>, names: seq<string>): seq<Job> {
    if names == [] then []
    else
      var init := Snap(hot, names[..|names| - 1]);
      match LoadForPrune(hot, Last(names))
      case Found(job) => init + [job]
      case Missing => init
      case Corrupt => init
  }

  function PlannedItems(phase: Phase): seq<Item> {
    if phase.Applying? then Items(phase.snaps, phase.planNow) else []
  }

  predicate MayApply(d: Daemon) { d.phase.Applying? && d.phase.next < |PlannedItems(d.phase)| }

  predicate MayMove(origin: string -> Plan, caps: Caps, d: Daemon, m: Move) {
    match m
    case Elsewhere(step) => !step.PruneStep? && Enabled(origin, caps, d.sys, step)
    case Begin => d.phase.Idle?
    case Scan(names) =>
      && d.phase.Scanning? && |names| <= SCAN_BATCH_LIMIT && DistinctSeq(names)
      && forall n :: n in names ==> n !in d.phase.seen
    case MakePlan(_) => d.phase.Scanning?
    case ApplyNext(now, _, _) => MayApply(d) && now <= d.sys.clock
    case End => d.phase.Applying? && d.phase.next == |PlannedItems(d.phase)|
  }

  /** One planned deletion, which the process may not survive. */
  function ItemStep(d: Daemon, now: int, io: PruneIo, crash: Option<nat>): Step
    requires MayApply(d)
  {
    var item := PlannedItems(d.phase)[d.phase.next];
    PruneStep(item.fp, item.keeper, now, io, crash)
  }

  function Moved(origin: string -> Plan, caps: Caps, d: Daemon, m: Move): Daemon
    requires MayMove(origin, caps, d, m)
  {
    match m
    case Elsewhere(step) =>
      // a restart forgets the clean-up in progress
      var sys := Apply(origin, d.sys, step);
      Daemon(sys, if step.CrashStep? || (step.DecideStep? && step.crash.Some?) then Idle else d.phase)
    case Begin => d.(phase := Scanning({}, []))
    case Scan(names) =>
      d.(phase := Scanning(d.phase.seen + (set n | n in names), d.phase.snaps + Snap(d.sys.dir.hot, names)))
    case MakePlan(now) => d.(phase := Applying(d.phase.snaps, now, 0))
    case ApplyNext(now, io, crash) =>
      var phase := if crash.Some? then Idle else d.phase.(next := d.phase.next + 1);
      Daemon(Apply(origin, d.sys, ItemStep(d, now, io, crash)), phase)
    case End => d.(phase := Idle)
  }

  ghost predicate DaemonRun(origin: string -> Plan, caps: Caps, states: seq<Daemon>, moves: seq<Move>) {
    && |states| == |moves| + 1 && Init(states[0].sys) && states[0].phase.Idle?
    && forall i :: 0 <= i < |moves| ==>
      MayMove(origin, caps, states[i], moves[i]) && states[i + 1] == Moved(origin, caps, states[i], moves[i])
  }

  /** The snapshot job is still exactly the hot file. */
  predicate Intact(hot: map<string, File>, j: Job) {
    j.fingerprint in hot && hot[j.fingerprint] == Json(j, false)
  }

  ghost predicate Target(items: seq<Item>, fp: string) {
    exists a :: a in items && a.fp == fp
  }

  /** Finished jobs of the snapshot that this run does not delete are untouched. */
  ghost predicate PhaseInv(d: Daemon) {
    match d.phase
    case Idle => true
    case Scanning(seen, snaps) =>
      && DistinctNames(snaps)
      && (forall j :: j in snaps ==> j.fingerprint in seen)
      && (forall j :: j in snaps && FinishedStatus(j) ==> Intact(d.sys.dir.hot, j))
    case Applying(snaps, now, _) =>
      && DistinctNames(snaps)
      && (forall j :: j in snaps && FinishedStatus(j) && !Target(Items(snaps, now), j.fingerprint) ==>
          Intact(d.sys.dir.hot, j))
  }

  lemma DecideTouchesItsJob(d: Dir, limits: Limits, plan: Plan, fp: string, env: Env, crash: Option<nat>, g: string)
    requires g in d.hot && g != fp
    ensures var d' := Durable(d, Decide(d, limits, plan, fp, env).trail, crash);
      g in d'.hot && d'.hot[g] == d.hot[g]
  {
    hide Decide, Durable;
    var trail := Decide(d, limits, plan, fp, env).trail;
    DurableOf(d, trail, crash);
    forall i | 0 <= i < |trail| ensures g in trail[i].hot && trail[i].hot[g] == d.hot[g] {
      DecideWritesOneFile(d, limits, plan, fp, env, i, g);
    }
  }

  /** Nothing but clean-up touches a finished hot job. */
  lemma FinishedIsStable(origin: string -> Plan, caps: Caps, s: Sys, step: Step, g: string)
    requires SysInv(origin, caps, s) && Enabled(origin, caps, s, step) && !step.PruneStep?
    requires g in s.dir.hot && s.dir.hot[g].Json? && LastState(s.dir.hot[g].job).Completed?
    ensures g in Apply(origin, s, step).dir.hot && Apply(origin, s, step).dir.hot[g] == s.dir.hot[g]
  {
    hide Decide, Refusal, PruneItem;
    if step.DecideStep? {
      var fp := step.asked;
      var trail := Decide(s.dir, step.limits, origin(fp), fp, step.env).trail;
      if trail == [] {
        DurableOf(s.dir, trail, step.crash);
      } else {
        DecideWritesOneFile(s.dir, step.limits, origin(fp), fp, step.env, 0, fp + "x");
        AdmissionFacts(origin, caps, s.dir, s.log, s.used, s.clock, step.limits, origin(fp), fp, step.env);
        DecideTouchesItsJob(s.dir, step.limits, origin(fp), fp, step.env, step.crash, g);
      }
    } else if step.FinishStep? {
      assert Waiting(s.dir, step.fp, step.id);
    }
  }

  lemma PruneTouchesItsTarget(origin: string -> Plan, caps: Caps, s: Sys, step: Step, g: string)
    requires SysInv(origin, caps, s) && Enabled(origin, caps, s, step) && step.PruneStep?
    requires g in s.dir.hot && g != step.pruneFp
    ensures g in Apply(origin, s, step).dir.hot && Apply(origin, s, step).dir.hot[g] == s.dir.hot[g]
  {
    hide PruneItem, DirInv;
    var trail := PruneItem(s.dir, step.pruneFp, step.keeper, step.pruneNow, step.io).trail;
    PruneItemShape(origin, caps, s.dir, s.log, s.used, s.clock, step.pruneFp, step.keeper, step.pruneNow, step.io);
    DurableOf(s.dir, trail, step.pruneCrash);
  }

  lemma {:induction false} SnapMeaning(hot: map<string, File>, names: seq<string>)
    requires DistinctSeq(names)
    ensures forall j :: j in Snap(hot, names) ==> j.fingerprint in names && LoadForPrune(hot, j.fingerprint) == Found(j)
    ensures DistinctNames(Snap(hot, names))
  {
    if names != [] {
      var init := names[..|names| - 1];
      SnapMeaning(hot, init);
      assert names == init + [Last(names)];
      var s := Snap(hot, init);
      forall i | 0 <= i < |s| ensures s[i].fingerprint != Last(names) {
        assert s[i] in s;
        var k :| 0 <= k < |init| && init[k] == s[i].fingerprint;
        assert names[k] == init[k];
      }
    }
  }

  lemma ScanHolds(origin: string -> Plan, caps: Caps, d: Daemon, names: seq<string>)
    requires SysInv(origin, caps, d.sys) && PhaseInv(d) && MayMove(origin, caps, d, Scan(names))
    ensures PhaseInv(Moved(origin, caps, d, Scan(names)))
  {
    var hot := d.sys.dir.hot;
    var batch := Snap(hot, names);
    SnapMeaning(hot, names);
    var snaps := d.phase.snaps + batch;
    forall i, j | 0 <= i < j < |snaps| ensures snaps[i].fingerprint != snaps[j].fingerprint {
      if i < |d.phase.snaps| <= j {
        assert snaps[i] in d.phase.snaps && snaps[j] in batch;
      }
    }
    forall j | j in snaps && FinishedStatus(j) ensures Intact(hot, j) {
      if j in batch {
        assert LoadForPrune(hot, j.fingerprint) == Found(j);
      }
    }
  }

  /** While a plan is applied, crash or not, no move touches a finished job of its snapshot that it does not delete. */
  lemma UntargetedStays(origin: string -> Plan, caps: Caps, d: Daemon, m: Move, j: Job)
    requires SysInv(origin, caps, d.sys) && PhaseInv(d) && d.phase.Applying? && MayMove(origin, caps, d, m)
    requires j in d.phase.snaps && FinishedStatus(j) && !Target(PlannedItems(d.phase), j.fingerprint)
    ensures Intact(Moved(origin, caps, d, m).sys.dir.hot, j)
  {
    hide SysInv, Apply, Items, Snap;
    match m
    case Elsewhere(step) => FinishedIsStable(origin, caps, d.sys, step, j.fingerprint);
    case ApplyNext(now, io, crash) =>
      assert PlannedItems(d.phase)[d.phase.next] in PlannedItems(d.phase);
      PruneTouchesItsTarget(origin, caps, d.sys, ItemStep(d, now, io, crash), j.fingerprint);
    case End =>
  }

  lemma MoveHolds(origin: string -> Plan, caps: Caps, d: Daemon, m: Move)
    requires SysInv(origin, caps, d.sys) && PhaseInv(d) && MayMove(origin, caps, d, m)
    ensures SysInv(origin, caps, Moved(origin, caps, d, m).sys) && PhaseInv(Moved(origin, caps, d, m))
  {
    hide SysInv, Apply, Items, Snap;
    match m
    case Elsewhere(step) =>
      StepHolds(origin, caps, d.sys, step);
      forall j: Job | FinishedStatus(j) && Intact(d.sys.dir.hot, j)
        ensures Intact(Apply(origin, d.sys, step).dir.hot, j)
      {
        FinishedIsStable(origin, caps, d.sys, step, j.fingerprint);
      }
    case Begin =>
    case Scan(names) => ScanHolds(origin, caps, d, names);
    case MakePlan(_) =>
    case ApplyNext(now, io, crash) =>
      StepHolds(origin, caps, d.sys, ItemStep(d, now, io, crash));
      forall j | j in d.phase.snaps && FinishedStatus(j) && !Target(PlannedItems(d.phase), j.fingerprint)
        ensures Intact(Moved(origin, caps, d, m).sys.dir.hot, j)
      {
        UntargetedStays(origin, caps, d, m, j);
      }
    case End =>
  }

  lemma {:induction false} DaemonHolds(origin: string -> Plan, caps: Caps, states: seq<Daemon>, moves: seq<Move>,
                                       i: nat)
    requires DaemonRun(origin, caps, states, moves) && i < |states|
    ensures SysInv(origin, caps, states[i].sys) && PhaseInv(states[i])
  {
    hide SysInv, Moved, MayMove, Init;
    if i == 0 {
      InitHolds(origin, caps, states[0].sys);
    } else {
      DaemonHolds(origin, caps, states, moves, i - 1);
      MoveHolds(origin, caps, states[i - 1], moves[i - 1]);
    }
  }

  /** From state `i` to state `j` the same clean-up run is applying its plan. */
  ghost predicate SameRun(states: seq<Daemon>, i: nat, j: nat)
    requires i <= j < |states|
  {
    forall m :: i <= m <= j ==> states[m].phase.Applying?
  }

  lemma {:induction false} PlanIsFixed(origin: string -> Plan, caps: Caps, states: seq<Daemon>, moves: seq<Move>,
                                       i: nat, j: nat)
    requires DaemonRun(origin, caps, states, moves) && i <= j < |states| && SameRun(states, i, j)
    ensures states[j].phase.snaps == states[i].phase.snaps && states[j].phase.planNow == states[i].phase.planNow
  {
    hide Apply, PlannedItems, Snap;
    if i < j {
      PlanIsFixed(origin, caps, states, moves, i, j - 1);
      assert states[j] == Moved(origin, caps, states[j - 1], moves[j - 1]);
    }
  }

  /**
    A job deleted as covered is eligible and strictly covered at the moment of deletion, and its keeper
    is still in the hot ledger, unchanged and still covering it, in every state of that clean-up run and
    in the one it ends in, by finishing or by a crash.
  */
  lemma KeeperSurvives(origin: string -> Plan, caps: Caps, states: seq<Daemon>, moves: seq<Move>, i: nat, j: nat,
                       fp: string, keeper: string)
    requires DaemonRun(origin, caps, states, moves)
    requires i < j < |states| && SameRun(states, i, j - 1) && moves[i].ApplyNext?
    requires PlannedItems(states[i].phase)[states[i].phase.next] == Item(fp, Some(keeper))
    requires fp in states[i].sys.dir.hot && fp !in states[i + 1].sys.dir.hot
    ensures states[i].sys.dir.hot[fp].Json? && Eligible(states[i].sys.dir.hot[fp].job, moves[i].applyNow)
    ensures keeper in states[i].sys.dir.hot && keeper in states[j].sys.dir.hot
    ensures states[j].sys.dir.hot[keeper] == states[i].sys.dir.hot[keeper]
    ensures states[j].sys.dir.hot[keeper].Json?
      && StrictlyCovered(states[i].sys.dir.hot[fp].job, states[j].sys.dir.hot[keeper].job)
  {
    hide Items, DistinctNames, SysInv, Init, Snap, Moved;
    var d := states[i];
    var items := PlannedItems(d.phase);
    DaemonHolds(origin, caps, states, moves, i);
    DaemonHolds(origin, caps, states, moves, j - 1);
    PlanIsFixed(origin, caps, states, moves, i, j - 1);
    assert items[d.phase.next] in items;
    var w := KeeperOf(d, Item(fp, Some(keeper)));
    UntargetedStays(origin, caps, states[j - 1], moves[j - 1], w);
    assert states[i + 1] == Moved(origin, caps, d, moves[i]);
    ApplyMoves(origin, caps, d, moves[i]);
    DeletionWrites(origin, d.sys, ItemStep(d, moves[i].applyNow, moves[i].io, moves[i].crash));
    DeletionJustified(d.sys.dir, fp, keeper, moves[i].applyNow, moves[i].io);
  }

  /** The keeper of a planned deletion: a finished job of the snapshot that the plan does not delete. */
  lemma KeeperOf(d: Daemon, item: Item) returns (w: Job)
    requires PhaseInv(d) && d.phase.Applying? && item in PlannedItems(d.phase) && item.keeper.Some?
    ensures w in d.phase.snaps && w.fingerprint == item.keeper.value && FinishedStatus(w)
    ensures !Target(PlannedItems(d.phase), w.fingerprint) && Intact(d.sys.dir.hot, w)
  {
    hide Items, DistinctNames;
    var items := PlannedItems(d.phase);
    KeepersAreNotTargets(d.phase.snaps, d.phase.planNow, item, item);
    w :| w in d.phase.snaps && w.fingerprint == item.keeper.value && FinishedStatus(w);
    forall a | a in items ensures a.fp != w.fingerprint {
      KeepersAreNotTargets(d.phase.snaps, d.phase.planNow, a, item);
    }
  }

  lemma ApplyMoves(origin: string -> Plan, caps: Caps, d: Daemon, m: Move)
    requires m.ApplyNext? && MayApply(d) && MayMove(origin, caps, d, m)
    ensures Moved(origin, caps, d, m).sys == Apply(origin, d.sys, ItemStep(d, m.applyNow, m.io, m.crash))
  {
    hide Items, Apply, Enabled;
  }

  lemma DeletionWrites(origin: string -> Plan, s: Sys, step: Step)
    requires step.PruneStep? && Apply(origin, s, step).dir != s.dir
    ensures PruneItem(s.dir, step.pruneFp, step.keeper, step.pruneNow, step.io).trail != []
  {
    hide PruneItem;
    DurableOf(s.dir, PruneItem(s.dir, step.pruneFp, step.keeper, step.pruneNow, step.io).trail, step.pruneCrash);
  }

  /** What the gate has re-checked before it writes anything for a covered job. */
  lemma DeletionJustified(d: Dir, fp: string, keeper: string, now: int, io: PruneIo)
    requires PruneItem(d, fp, Some(keeper), now, io).trail != []
    ensures fp in d.hot && d.hot[fp].Json? && Eligible(d.hot[fp].job, now)
    ensures keeper in d.hot && d.hot[keeper].Json? && StrictlyCovered(d.hot[fp].job, d.hot[keeper].job)
  {
    hide Eligible, StrictlyCovered;
  }
}
