/**
  The changelog-translation ledger as data: attempts, jobs, the hot ledger directory and its
  archive, and the questions the daemon asks of them.  Instants are nanoseconds; everything the
  daemon writes itself goes through `Stamp`, because its clock text keeps milliseconds only.
*/
module LedgerModel {
  import opened Prelude

  const MILLI: int := 1_000_000
  const SECOND: int := 1000 * MILLI
  const HOUR: int := 3600 * SECOND
  const THIRTY_DAYS: int := 720 * HOUR

  function Stamp(t: int): int { t - t % MILLI }

  /** A timestamp read back from disk, which may not parse. */
  datatype When = Garbled | At(t: int)

  datatype State = Reserved | InFlight | Completed | Failed | Interrupted | Other(name: string)

  datatype Usage = Usage(input: Option<int>, output: Option<int>, cacheCreation: Option<int>, cacheRead: Option<int>)

  datatype Attempt = Attempt(
    id: string, started: When, finished: Option<When>, state: State,
    errorKind: Option<string>, error: Option<string>, requestedModel: string, model: Option<string>,
    usage: Option<Usage>, retryAfter: Option<When>, stopReason: Option<string>, sent: bool)

  datatype Section = Section(version: string, body: string)

  datatype Source = Source(version: string, hash: string)

  datatype Job = Job(
    fingerprint: string, status: State, attempts: seq<Attempt>,
    summary: seq<string>, sections: seq<Section>, included: seq<string>,
    scope: string, source: seq<Source>)

  /** `extra` marks a field this daemon does not know: `load` ignores it, clean-up refuses it. */
  datatype File = Json(job: Job, extra: bool) | Garbage

  /** `conflicts` is keyed by the content whose hash names the conflict file. */
  datatype Dir = Dir(hot: map<string, File>, archive: map<string, File>, conflicts: map<Job, Job>)

  datatype Loaded = Found(job: Job) | Missing | Corrupt

  /** What one request asks for: its settings and, per included section, version and body hash. */
  datatype Plan = Plan(scope: string, want: seq<Source>)

  datatype Limits = Limits(maxInFlight: nat, maxPerHour: nat, maxAttempts: nat, model: string)

  function LastState(job: Job): State {
    if job.attempts == [] then Failed else Last(job.attempts).state
  }

  predicate Busy(job: Job) { LastState(job).Reserved? || LastState(job).InFlight? }

  /** What `save` writes: the status field always mirrors the last attempt. */
  function Sealed(job: Job): Job {
    if job.attempts == [] then job else job.(status := LastState(job))
  }

  predicate Reusable(job: Job) { LastState(job).Completed? && job.sections != [] }

  function LoadFile(file: File, fp: string): Loaded {
    match file
    case Garbage => Corrupt
    case Json(job, _) => if job.fingerprint == fp then Found(job) else Corrupt
  }

  /** Reading a hot path falls back to an archived finished result. */
  function Load(d: Dir, fp: string): Loaded {
    if fp in d.hot then LoadFile(d.hot[fp], fp)
    else if fp !in d.archive then Missing
    else match LoadFile(d.archive[fp], fp)
      case Found(job) => if Reusable(job) then Found(job) else Missing
      case Missing => Missing
      case Corrupt => Corrupt
  }

  predicate HexDigit(c: char) { '0' <= c <= '9' || 'a' <= c <= 'f' }

  predicate ValidFingerprint(fp: string) { |fp| == 64 && forall c :: c in fp ==> HexDigit(c) }

  function LoadForPrune(files: map<string, File>, fp: string): Loaded {
    if fp !in files then Missing
    else match files[fp]
      case Garbage => Corrupt
      case Json(job, extra) =>
        if extra || !ValidFingerprint(job.fingerprint) || job.fingerprint != fp then Corrupt else Found(job)
  }

  function HotJobs(d: Dir): map<string, Job> {
    map g | g in d.hot && LoadFile(d.hot[g], g).Found? :: LoadFile(d.hot[g], g).job
  }

  function ColdJobs(d: Dir): map<string, Job> {
    map g | g in d.archive && LoadFile(d.archive[g], g).Found? && Reusable(LoadFile(d.archive[g], g).job)
      :: LoadFile(d.archive[g], g).job
  }

  /** Every readable hot job, plus the archived finished results no hot job shadows. */
  function LedgerJobs(d: Dir): map<string, Job> { ColdJobs(d) + HotJobs(d) }

  // ---------------------------------------------------------------- budgets

  function SentSlots(attempts: seq<Attempt>): set<int> {
    set i | 0 <= i < |attempts| && attempts[i].sent
  }

  function SentCount(job: Job): nat { |SentSlots(job.attempts)| }

  predicate ClearlyOlderThanAnHour(a: Attempt, now: int) {
    a.started.At? && now - a.started.t > HOUR
  }

  predicate Spends(a: Attempt, now: int) { a.sent && !ClearlyOlderThanAnHour(a, now) }

  /** All attempts that still count against the hourly budget; the daemon sums them job by job. */
  function Spent(jobs: map<string, Job>, now: int): set<(string, int)> {
    set g, i | g in jobs && 0 <= i < |jobs[g].attempts| && Spends(jobs[g].attempts[i], now) :: (g, i)
  }

  function BusyOthers(jobs: map<string, Job>, fp: string): set<string> {
    set g | g in jobs && g != fp && Busy(jobs[g])
  }

  function LastSent(attempts: seq<Attempt>): Option<Attempt> {
    if attempts == [] then None
    else if Last(attempts).sent then Some(Last(attempts))
    else LastSent(attempts[..|attempts| - 1])
  }

  function AttemptsRetryAt(job: Job, now: int): int {
    match LastSent(job.attempts)
    case None => now
    case Some(a) =>
      match (if a.finished.Some? then a.finished.value else a.started)
      case At(t) => t + HOUR
      case Garbled => now
  }

  predicate RetryBlocked(job: Job, now: int) {
    && job.attempts != []
    && var a := Last(job.attempts);
      && !a.state.Completed? && !a.state.Reserved? && !a.state.InFlight?
      && a.retryAfter.Some?
      && (a.retryAfter.value.At? ==> a.retryAfter.value.t > Stamp(now))
  }

  function AttemptsBlock(job: Job, limits: Limits, now: int): Option<int> {
    if LastState(job).Completed? || Busy(job) || RetryBlocked(job, now) then None
    else if limits.maxAttempts == 0 || SentCount(job) < limits.maxAttempts then None
    else if AttemptsRetryAt(job, now) > now then Some(AttemptsRetryAt(job, now))
    else None
  }

  // ---------------------------------------------------------------- reuse

  predicate SameSources(job: Job, plan: Plan) {
    job.scope == plan.scope && forall w :: w in plan.want ==> w in job.source
  }

  predicate HasSection(job: Job, version: string) {
    exists s :: s in job.sections && s.version == version
  }

  /** A finished job that can answer the whole request. */
  predicate Covers(job: Job, plan: Plan) {
    && LastState(job).Completed? && SameSources(job, plan)
    && forall w :: w in plan.want ==> HasSection(job, w.version)
  }

  predicate CoveredSomewhere(d: Dir, plan: Plan) {
    plan.want != [] && exists g :: g in LedgerJobs(d) && Covers(LedgerJobs(d)[g], plan)
  }

  predicate CoveringBusy(d: Dir, plan: Plan, fp: string) {
    && plan.want != []
    && exists g :: g in LedgerJobs(d) && g != fp && Busy(LedgerJobs(d)[g]) && SameSources(LedgerJobs(d)[g], plan)
  }

  // ---------------------------------------------------------------- retention

  function SourceSet(job: Job): set<Source> { set s | s in job.source }

  predicate KnownFinal(s: State) { s.Completed? || s.Interrupted? || s.Failed? }

  predicate AttemptOlderThanAnHour(a: Attempt, now: int) {
    && KnownFinal(a.state)
    && a.started.At? && a.started.t < now - HOUR && a.started.t <= now
    && a.finished.Some? && a.finished.value.At?
    && a.finished.value.t < now - HOUR && a.finished.value.t <= now && a.finished.value.t >= a.started.t
    && (a.retryAfter.Some? ==> a.retryAfter.value.At? && a.retryAfter.value.t < now)
  }

  predicate Eligible(job: Job, now: int) {
    && job.status.Completed? && LastState(job).Completed? && job.attempts != []
    && forall a :: a in job.attempts ==> AttemptOlderThanAnHour(a, now)
  }

  predicate Expired(job: Job, now: int) {
    forall a :: a in job.attempts ==>
      && a.started.At? && a.started.t < now - THIRTY_DAYS
      && a.finished.Some? && a.finished.value.At? && a.finished.value.t < now - THIRTY_DAYS
  }

  predicate Blank(s: string) { forall c :: c in s ==> UnicodeSpace(c) }

  predicate HasText(job: Job, version: string) {
    exists s :: s in job.sections && s.version == version && !Blank(s.body)
  }

  predicate FinishedStatus(job: Job) { job.status.Completed? && LastState(job).Completed? }

  predicate StrictlyCovered(candidate: Job, coverer: Job) {
    && candidate.fingerprint != coverer.fingerprint
    && candidate.scope != "" && candidate.scope == coverer.scope
    && FinishedStatus(coverer)
    && SourceSet(candidate) != {} && SourceSet(candidate) <= SourceSet(coverer)
    && |SourceSet(candidate)| < |SourceSet(coverer)|
    && forall s :: s in candidate.source ==> HasText(coverer, s.version)
  }

  /** Waiting only makes a job more removable: a reading taken before the gate stays sound after it. */
  lemma EligibleStays(job: Job, now: int, later: int)
    requires now <= later
    requires Eligible(job, now)
    ensures Eligible(job, later)
    ensures Expired(job, now) ==> Expired(job, later)
  {
    forall a | a in job.attempts ensures AttemptOlderThanAnHour(a, later) {
      assert AttemptOlderThanAnHour(a, now);
    }
  }

  /** Retention and budget agree to the nanosecond: no attempt of an eligible job is still counted. */
  lemma EligibleSpendsNothing(job: Job, now: int, later: int)
    requires now <= later
    requires Eligible(job, now)
    ensures forall a :: a in job.attempts ==> !Spends(a, later)
  {
    forall a | a in job.attempts ensures !Spends(a, later) {
      assert AttemptOlderThanAnHour(a, now);
    }
  }

  /** Strict coverage composes, which is what lets a largest witness be kept for ever. */
  lemma CoverageComposes(a: Job, b: Job, c: Job)
    requires StrictlyCovered(a, b) && StrictlyCovered(b, c)
    requires a.fingerprint != c.fingerprint
    ensures StrictlyCovered(a, c)
  {
    forall s | s in a.source ensures HasText(c, s.version) {
      assert s in SourceSet(a);
      assert s in SourceSet(b);
      assert s in b.source;
    }
  }

  /** A covered job can lose its file without losing an answer: the coverer serves the same plans. */
  lemma CovererServes(candidate: Job, coverer: Job, plan: Plan)
    requires StrictlyCovered(candidate, coverer)
    requires Covers(candidate, plan)
    ensures Covers(coverer, plan)
  {
    forall w | w in plan.want ensures w in coverer.source && HasSection(coverer, w.version) {
      assert w in SourceSet(candidate);
      assert w in SourceSet(coverer);
      assert HasText(coverer, w.version);
      var s :| s in coverer.sections && s.version == w.version && !Blank(s.body);
    }
  }
}
