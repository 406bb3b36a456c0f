/**
  What each gate section of the ledger does, as functions from a directory to the trail of durable
  directories it leaves.  A crash leaves the directory as some prefix of the trail left it; a save
  that reports an error has changed nothing, because the write is a rename.
*/
module LedgerOps {
  import opened Prelude
  import opened LedgerModel

  /** The last durable state of a trail that started at `d`. */
  function Final(d: Dir, trail: seq<Dir>): Dir { if trail == [] then d else Last(trail) }

  function PutHot(d: Dir, fp: string, job: Job): Dir {
    d.(hot := d.hot[fp := Json(Sealed(job), false)])
  }

  function SetLast(job: Job, a: Attempt): Job
    requires job.attempts != []
  {
    job.(attempts := job.attempts[..|job.attempts| - 1] + [a])
  }

  // ---------------------------------------------------------------- decide

  datatype View =
    | LanguageView
    | LedgerView
    | LedgerHttpView
    | CoveredView
    | CoveringBusyView
    | JobView(job: Job, retryAt: Option<int>)
    | HourlyBudget
    | InFlightBudget
    | Unconfigured

  datatype Action = Show(view: View) | Send(attemptId: string, job: Job)

  /** What one call to `decide` reads from outside: configuration, clock readings, write results. */
  datatype Env = Env(
    languageOk: bool, keyOk: bool, id: string,
    retryNow: int, blockNow: int, budgetNow: int, startNow: int, endNow: int,
    firstSave: bool, secondSave: bool, thirdSave: bool)

  datatype Decision = Decision(trail: seq<Dir>, action: Action)

  function Existing(d: Dir, fp: string): Option<Job> {
    match Load(d, fp)
    case Found(job) => Some(job)
    case Missing => None
    case Corrupt => None
  }

  predicate OwnBusyOrDone(existing: Option<Job>) {
    existing.Some? && (LastState(existing.value).Completed? || Busy(existing.value))
  }

  /** Why no attempt is reserved, if it is not.  The order of the tests is the order of the code. */
  function Refusal(d: Dir, limits: Limits, plan: Plan, fp: string, env: Env): Option<View> {
    var existing := Existing(d, fp);
    if !env.languageOk then Some(LanguageView)
    else if Load(d, fp).Corrupt? then Some(LedgerView)
    else if !OwnBusyOrDone(existing) && CoveredSomewhere(d, plan) then Some(CoveredView)
    else if !OwnBusyOrDone(existing) && CoveringBusy(d, plan, fp) then Some(CoveringBusyView)
    else if existing.Some? && (OwnBusyOrDone(existing) || RetryBlocked(existing.value, env.retryNow)) then
      Some(JobView(existing.value, None))
    else if existing.Some? && AttemptsBlock(existing.value, limits, env.blockNow).Some? then
      Some(JobView(existing.value, AttemptsBlock(existing.value, limits, env.blockNow)))
    else if limits.maxPerHour > 0 && |Spent(LedgerJobs(d), env.budgetNow)| >= limits.maxPerHour then Some(HourlyBudget)
    else if |BusyOthers(LedgerJobs(d), fp)| >= limits.maxInFlight then Some(InFlightBudget)
    else if !env.keyOk then Some(Unconfigured)
    else None
  }

  function BlankJob(fp: string, plan: Plan): Job {
    Job(fp, Reserved, [], [], [], seq(|plan.want|, i requires 0 <= i < |plan.want| => plan.want[i].version),
        plan.scope, plan.want)
  }

  function ReservedAttempt(env: Env, limits: Limits): Attempt {
    Attempt(env.id, At(Stamp(env.startNow)), None, Reserved, None, None, limits.model, None, None, None, None, false)
  }

  function Base(existing: Option<Job>, fp: string, plan: Plan): Job {
    if existing.Some? then existing.value else BlankJob(fp, plan)
  }

  function ReserveJob(existing: Option<Job>, fp: string, plan: Plan, limits: Limits, env: Env): (job: Job)
    ensures job.attempts != []
  {
    var base := Base(existing, fp, plan);
    base.(attempts := base.attempts + [ReservedAttempt(env, limits)])
  }

  function LaunchJob(job: Job): (launched: Job)
    requires job.attempts != []
    ensures launched.attempts != []
  {
    SetLast(job, Last(job.attempts).(state := InFlight, sent := true))
  }

  function WithdrawJob(job: Job, endNow: int): Job
    requires job.attempts != []
  {
    SetLast(job, Last(job.attempts).(
      state := Interrupted, sent := false, usage := None, error := Some("not_sent"), errorKind := None,
      finished := Some(At(Stamp(endNow)))))
  }

  /** Reserve, save, mark as sent, save, and only then send. */
  function Decide(d: Dir, limits: Limits, plan: Plan, fp: string, env: Env): Decision {
    match Refusal(d, limits, plan, fp, env)
    case Some(view) => Decision([], Show(view))
    case None =>
      var job1 := ReserveJob(Existing(d, fp), fp, plan, limits, env);
      if !env.firstSave then Decision([], Show(LedgerHttpView))
      else
        var d1 := PutHot(d, fp, job1);
        var job2 := LaunchJob(job1);
        if env.secondSave then Decision([d1, PutHot(d1, fp, job2)], Send(env.id, job2))
        else
          var job3 := WithdrawJob(job2, env.endNow);
          Decision(if env.thirdSave then [d1, PutHot(d1, fp, job3)] else [d1], Show(JobView(job3, None)))
  }

  /** A reservation writes one hot file and nothing else. */
  lemma DecideWritesOneFile(d: Dir, limits: Limits, plan: Plan, fp: string, env: Env, i: nat, g: string)
    requires i < |Decide(d, limits, plan, fp, env).trail| && g != fp
    ensures var t := Decide(d, limits, plan, fp, env).trail[i];
      && t.archive == d.archive && t.conflicts == d.conflicts
      && (g in t.hot <==> g in d.hot) && (g in d.hot ==> t.hot[g] == d.hot[g])
    ensures Refusal(d, limits, plan, fp, env).None?
  {
    hide Refusal, Existing, ReserveJob, LaunchJob, WithdrawJob, Sealed;
  }

  // ---------------------------------------------------------------- finish

  datatype ModelOut = ModelOut(summary: seq<string>, sections: seq<Section>)

  /** The client's result; `content` is the reply parsed against the output schema, if it parses. */
  datatype Reply =
    | Timeout
    | RateLimited(retryAfter: Option<nat>, usage: Option<Usage>)
    | HttpError(usage: Option<Usage>)
    | Answer(stop: Option<string>, model: Option<string>, usage: Option<Usage>, content: Option<ModelOut>)

  function TakenUsage(usage: Option<Usage>): Option<Usage> {
    if usage.Some? && usage.value.input.Some? && usage.value.output.Some? then usage else None
  }

  function BackoffSeconds(n: nat): int {
    if n <= 1 then 60 else if n == 2 then 300 else if n == 3 then 1800 else 3600
  }

  /** A missing or unreadable header waits 15 seconds; a number is clamped to an hour. */
  function RetryAfterSeconds(raw: Option<nat>): int {
    match raw
    case None => 15
    case Some(n) => if n < 1 then 1 else if n > 3600 then 3600 else n
  }

  function ShortStop(raw: string): string {
    if raw in {"max_tokens", "refusal", "end_turn", "stop"} then raw else "stop"
  }

  function ValidateModel(content: Option<ModelOut>, included: seq<string>): (problem: Option<string>) {
    if content.None? then Some("schema")
    else
      var out := content.value;
      if !(3 <= |out.summary| <= 5) || exists s :: s in out.summary && Blank(s) then Some("summary")
      else if |out.sections| != |included| then Some("sections")
      else if exists i ::
        0 <= i < |included| && (out.sections[i].version != included[i] || Blank(out.sections[i].body)) then
        Some("sections")
      else None
  }

  function FailAttempt(a: Attempt, kind: string, error: string, usage: Option<Usage>, retryAfter: int): Attempt {
    a.(state := Failed, errorKind := Some(kind), error := Some(error), usage := usage,
       retryAfter := Some(At(Stamp(retryAfter))))
  }

  function FillAttempt(a: Attempt, reply: Reply, included: seq<string>, sentCount: nat, now: int)
    : (Attempt, Option<ModelOut>)
  {
    var ended := a.(finished := Some(At(Stamp(now))));
    var backoff := now + BackoffSeconds(sentCount) * SECOND;
    match reply
    case Timeout => (FailAttempt(ended, "timeout", "timeout", None, backoff), None)
    case RateLimited(after, usage) =>
      (FailAttempt(ended, "rate_limited", "rate_limited", TakenUsage(usage), now + RetryAfterSeconds(after) * SECOND),
       None)
    case HttpError(usage) => (FailAttempt(ended, "http", "http", TakenUsage(usage), backoff), None)
    case Answer(stop, model, usage, content) =>
      var told := ended.(model := model, stopReason := if stop.Some? then Some(ShortStop(stop.value)) else None);
      if stop != Some("end_turn") then
        (FailAttempt(told, "bad_format", ShortStop(if stop.Some? then stop.value else "stop"), TakenUsage(usage),
                     backoff), None)
      else if TakenUsage(usage).None? then
        (FailAttempt(told, "bad_format", "missing_usage", None, backoff), None)
      else match ValidateModel(content, included)
        case Some(code) => (FailAttempt(told, "bad_format", code, TakenUsage(usage), backoff), None)
        case None =>
          (told.(state := Completed, errorKind := None, error := None, usage := TakenUsage(usage), retryAfter := None),
           content)
  }

  /** The position of the first attempt with this id. */
  function FindAttempt(attempts: seq<Attempt>, id: string): (found: Option<nat>)
    ensures found.Some? ==> found.value < |attempts| && attempts[found.value].id == id
    ensures found.Some? ==> forall i :: 0 <= i < found.value ==> attempts[i].id != id
    ensures found.None? ==> forall a :: a in attempts ==> a.id != id
  {
    if attempts == [] then None
    else if attempts[0].id == id then Some(0)
    else match FindAttempt(attempts[1..], id)
      case None => None
      case Some(i) => Some(i + 1)
  }

  function FinishJob(job: Job, k: nat, reply: Reply, now: int): Job
    requires k < |job.attempts|
  {
    var sent := if SentCount(job) == 0 then 1 else SentCount(job);
    var (a, produced) := FillAttempt(job.attempts[k], reply, job.included, sent, now);
    var filled := job.(attempts := job.attempts[k := a]);
    if produced.Some? then filled.(summary := produced.value.summary, sections := produced.value.sections) else filled
  }

  function Finish(d: Dir, fp: string, id: string, reply: Reply, now: int, saved: bool): seq<Dir> {
    match Load(d, fp)
    case Found(job) =>
      (match FindAttempt(job.attempts, id)
       case Some(k) => if saved then [PutHot(d, fp, FinishJob(job, k, reply, now))] else []
       case None => [])
    case Missing => []
    case Corrupt => []
  }

  // ---------------------------------------------------------------- settle

  predicate NeedsSettle(file: File, fp: string) {
    LoadFile(file, fp).Found? && Busy(LoadFile(file, fp).job)
  }

  function SettleJob(job: Job, now: int): Job
    requires job.attempts != []
  {
    var a := Last(job.attempts);
    SetLast(job, a.(
      state := Interrupted, usage := None, sent := a.state.InFlight?,
      error := Some(if a.state.InFlight? then "restart" else "not_sent"), errorKind := None,
      finished := Some(At(Stamp(now)))))
  }

  /** The directory once the files named in `saved` have been settled; `at` gives each file's clock reading. */
  function SettleDir(d: Dir, saved: set<string>, at: string -> int): Dir {
    d.(hot := map g | g in d.hot ::
      if g in saved && NeedsSettle(d.hot[g], g) then Json(Sealed(SettleJob(d.hot[g].job, at(g))), false) else d.hot[g])
  }

  lemma SettleNothing(d: Dir, at: string -> int)
    ensures SettleDir(d, {}, at) == d
  {
    assert SettleDir(d, {}, at).hot == d.hot;
  }

  lemma SettleOne(d: Dir, saved: set<string>, g: string, at: string -> int)
    requires g in d.hot && g !in saved
    ensures SettleDir(d, saved, at).hot[g] == d.hot[g]
    ensures !NeedsSettle(d.hot[g], g) ==> SettleDir(d, saved + {g}, at) == SettleDir(d, saved, at)
    ensures NeedsSettle(d.hot[g], g) ==>
      SettleDir(d, saved + {g}, at) == PutHot(SettleDir(d, saved, at), g, SettleJob(d.hot[g].job, at(g)))
  {
    var a, b := SettleDir(d, saved + {g}, at), SettleDir(d, saved, at);
    if NeedsSettle(d.hot[g], g) {
      assert a.hot == PutHot(b, g, SettleJob(d.hot[g].job, at(g))).hot;
    } else {
      assert a.hot == b.hot;
    }
  }

  // ---------------------------------------------------------------- archive and prune

  /** Base attempts followed by the new ones it lacks; `None` when one id carries two payloads. */
  function MergeAttempts(base: seq<Attempt>, extra: seq<Attempt>): Option<seq<Attempt>>
    decreases |extra|
  {
    if extra == [] then Some(base)
    else match FindAttempt(base, extra[0].id)
      case Some(i) => if base[i] == extra[0] then MergeAttempts(base, extra[1..]) else None
      case None => MergeAttempts(base + [extra[0]], extra[1..])
  }

  datatype Archived = Archived(dir: Dir, ok: bool, ops: nat)

  /** An archive that only kept spend metadata takes the translation from the hot job. */
  function ArchiveBase(base: Job, job: Job): Job {
    if base.sections == [] then base.(summary := job.summary, sections := job.sections, source := job.source) else base
  }

  function ConflictJob(job: Job): Job { job.(summary := [], sections := [], source := []) }

  function ArchiveJob(d: Dir, job: Job, conflictSave: bool, archiveSave: bool): Archived {
    var fp := job.fingerprint;
    if !ValidFingerprint(fp) then Archived(d, false, 0)
    else match LoadForPrune(d.archive, fp)
      case Corrupt => Archived(d, false, 1)
      case Missing => ArchiveOnto(d, job, job, conflictSave, archiveSave)
      case Found(base) => ArchiveOnto(d, base, job, conflictSave, archiveSave)
  }

  function ArchiveOnto(d: Dir, base: Job, job: Job, conflictSave: bool, archiveSave: bool): Archived {
    match MergeAttempts(base.attempts, job.attempts)
    case None =>
      var c := ConflictJob(job);
      if c in d.conflicts then Archived(d, false, 2)
      else Archived(if conflictSave then d.(conflicts := d.conflicts[c := Sealed(c)]) else d, false, 3)
    case Some(attempts) =>
      var merged := ArchiveBase(base, job).(attempts := attempts, status := job.status);
      if archiveSave then Archived(d.(archive := d.archive[job.fingerprint := Json(Sealed(merged), false)]), true, 2)
      else Archived(d, false, 2)
  }

  datatype PruneIo = PruneIo(conflictSave: bool, archiveSave: bool, unlink: bool)

  datatype Pruned = Pruned(trail: seq<Dir>, ops: nat, removed: bool)

  /** Everything re-read under the gate that must hold before one planned deletion goes ahead. */
  predicate StillJustified(d: Dir, fp: string, keeper: Option<string>, now: int) {
    && ValidFingerprint(fp) && (keeper.Some? ==> ValidFingerprint(keeper.value))
    && LoadForPrune(d.hot, fp).Found?
    && var job := LoadForPrune(d.hot, fp).job;
      && Eligible(job, now)
      && (keeper.Some? ==>
          LoadForPrune(d.hot, keeper.value).Found? && StrictlyCovered(job, LoadForPrune(d.hot, keeper.value).job))
      && (keeper.None? ==> Expired(job, now))
  }

  /** File operations spent deciding not to delete. */
  function RefusalOps(d: Dir, fp: string, keeper: Option<string>, now: int): nat {
    if !ValidFingerprint(fp) || (keeper.Some? && !ValidFingerprint(keeper.value)) then 0
    else if !LoadForPrune(d.hot, fp).Found? || !Eligible(LoadForPrune(d.hot, fp).job, now) then 1
    else if keeper.Some? then 2 else 1
  }

  function PruneItem(d: Dir, fp: string, keeper: Option<string>, now: int, io: PruneIo): Pruned {
    if !StillJustified(d, fp, keeper, now) then Pruned([], RefusalOps(d, fp, keeper, now), false)
    else
      var spent := if keeper.Some? then 2 else 1;
      var kept := ArchiveJob(d, LoadForPrune(d.hot, fp).job, io.conflictSave, io.archiveSave);
      if !kept.ok then Pruned(if kept.dir == d then [] else [kept.dir], spent + kept.ops, false)
      else if io.unlink then Pruned([kept.dir, kept.dir.(hot := kept.dir.hot - {fp})], spent + kept.ops + 1, true)
      else Pruned([kept.dir], spent + kept.ops + 1, false)
  }

  datatype Item = Item(fp: string, keeper: Option<string>)

  datatype Batch = Batch(trail: seq<Dir>, visited: nat, ops: nat, removed: nat)

  const SCAN_BATCH_LIMIT := 200

  /** One gate section of deletions, item after item, each on what the previous ones left. */
  function PruneBatch(d: Dir, items: seq<Item>, now: int, io: int -> PruneIo): (b: Batch)
    ensures b.visited == |items|
    ensures b.ops <= 5 * |items|
  {
    if items == [] then Batch([], 0, 0, 0)
    else
      var k := |items| - 1;
      var before := PruneBatch(d, items[..k], now, io);
      var p := PruneItem(Final(d, before.trail), items[k].fp, items[k].keeper, now, io(k));
      Batch(before.trail + p.trail, before.visited + 1, before.ops + p.ops, before.removed + if p.removed then 1 else 0)
  }

  lemma FinalOfConcat(d: Dir, a: seq<Dir>, b: seq<Dir>)
    ensures Final(d, a + b) == Final(Final(d, a), b)
  {
    if b == [] {
      assert a + b == a;
    }
  }
}
