/**
  What a reply and a restart leave, said of the files alone: which attempt is closed and how, what is
  stored, for how long the job waits, and that nothing else changes.
*/
module LedgerReplies {
  import opened Prelude
  import opened LedgerModel
  import opened Ops = LedgerOps
  import opened LedgerRuns
  import opened LedgerMeaning

  function Floor(t: int): int { t - t % 1_000_000 }

  /** A reply that ended its turn, reports both token counts and has 3 to 5 summary lines and every section. */
  predicate Good(reply: Reply, included: seq<string>) {
    && reply.Answer? && reply.stop == Some("end_turn")
    && reply.usage.Some? && reply.usage.value.input.Some? && reply.usage.value.output.Some?
    && reply.content.Some? && WellFormed(reply.content.value, included)
  }

  predicate WellFormed(out: ModelOut, included: seq<string>) {
    && GoodSummary(out.summary) && |out.sections| == |included|
    && forall i :: 0 <= i < |included| ==> out.sections[i].version == included[i] && !Empty(out.sections[i].body)
  }

  /** Nothing that shows. */
  predicate Empty(s: string) { forall c :: c in s ==> UnicodeSpace(c) }

  /** The wait after a failure, in seconds: what the server asked for within an hour, or by the number of sends. */
  predicate WaitIs(reply: Reply, sends: nat, seconds: int) {
    if reply.RateLimited? then
      seconds == match reply.retryAfter
                 case None => 15
                 case Some(n) => Min(Max(n, 1), 3600)
    else
      && (sends <= 1 ==> seconds == 60) && (sends == 2 ==> seconds == 300) && (sends == 3 ==> seconds == 1800)
      && (sends >= 4 ==> seconds == 3600)
  }

  function Min(a: int, b: int): int { if a <= b then a else b }

  predicate KindIs(reply: Reply, kind: string) {
    match reply
    case Timeout => kind == "timeout"
    case RateLimited(_, _) => kind == "rate_limited"
    case HttpError(_) => kind == "http"
    case Answer(_, _, _, _) => kind == "bad_format"
  }

  /** The error of a failed reply: the kind, or for an answer the first thing wrong with it. */
  predicate ErrorIs(reply: Reply, error: string) {
    match reply
    case Timeout => error == "timeout"
    case RateLimited(_, _) => error == "rate_limited"
    case HttpError(_) => error == "http"
    case Answer(stop, _, usage, content) =>
      if stop != Some("end_turn") then
        error == if stop == Some("max_tokens") || stop == Some("refusal") then stop.value else "stop"
      else if usage.None? || usage.value.input.None? || usage.value.output.None? then error == "missing_usage"
      else if content.None? then error == "schema"
      else error == if GoodSummary(content.value.summary) then "sections" else "summary"
  }

  predicate GoodSummary(summary: seq<string>) { 3 <= |summary| <= 5 && forall s :: s in summary ==> !Empty(s) }

  /** Both token counts, or nothing. */
  predicate UsageKept(given: Option<Usage>, kept: Option<Usage>) {
    kept == if given.Some? && given.value.input.Some? && given.value.output.Some? then given else None
  }

  function UsageOf(reply: Reply): Option<Usage> { if reply.Timeout? then None else reply.usage }

  /** The attempt `a` closed by the reply: as completed, or as failed and to be retried no earlier than the wait. */
  predicate ClosedBy(a: Attempt, b: Attempt, reply: Reply, included: seq<string>, sends: nat, now: int) {
    && b.id == a.id && b.started == a.started && b.sent == a.sent && b.requestedModel == a.requestedModel
    && b.finished == Some(At(Floor(now))) && UsageKept(UsageOf(reply), b.usage)
    && (reply.Answer? ==> b.model == reply.model && StopKept(reply.stop, b.stopReason))
    && (!reply.Answer? ==> b.model == a.model && b.stopReason == a.stopReason)
    && if Good(reply, included) then
         b.state == Completed && b.errorKind.None? && b.error.None? && b.retryAfter.None?
       else
         && b.state == Failed && b.errorKind.Some? && KindIs(reply, b.errorKind.value)
         && b.error.Some? && ErrorIs(reply, b.error.value)
         && exists seconds :: 1 <= seconds <= 3600 && WaitIs(reply, sends, seconds)
              && b.retryAfter == Some(At(Floor(now + seconds * 1_000_000_000)))
  }

  /** Only the four reasons the daemon knows are kept by name. */
  predicate StopKept(given: Option<string>, kept: Option<string>) {
    && kept.Some? == given.Some?
    && (given.Some? ==>
        kept.value == if given.value in ["end_turn", "max_tokens", "refusal"] then given.value else "stop")
  }

  lemma UsableIsWellFormed(out: ModelOut, included: seq<string>)
    ensures ValidateModel(Some(out), included).None? <==> WellFormed(out, included)
    ensures !WellFormed(out, included) ==>
      ValidateModel(Some(out), included) == Some(if GoodSummary(out.summary) then "sections" else "summary")
  {
    hide UnicodeSpace;
    assert forall s :: Blank(s) <==> Empty(s);
    hide Blank, Empty;
  }

  lemma GoodExactly(reply: Reply, included: seq<string>)
    requires reply.Answer?
    ensures Good(reply, included) <==>
      reply.stop == Some("end_turn") && TakenUsage(reply.usage).Some? && ValidateModel(reply.content, included).None?
    ensures !Good(reply, included) ==>
      ErrorIs(reply, if reply.stop != Some("end_turn") then ShortStop(Or(reply.stop, "stop"))
                     else if TakenUsage(reply.usage).None? then "missing_usage"
                     else Or(ValidateModel(reply.content, included), ""))
  {
    if reply.content.Some? {
      UsableIsWellFormed(reply.content.value, included);
    }
    hide WellFormed;
  }

  function Or(o: Option<string>, other: string): string { if o.Some? then o.value else other }

  lemma StopIsKept(stop: Option<string>)
    ensures StopKept(stop, if stop.Some? then Some(ShortStop(stop.value)) else None)
  {
  }

  lemma WaitsAre(reply: Reply, sends: nat)
    ensures var seconds := if reply.RateLimited? then RetryAfterSeconds(reply.retryAfter) else BackoffSeconds(sends);
      1 <= seconds <= 3600 && WaitIs(reply, sends, seconds)
  {
  }

  lemma FillCloses(a: Attempt, reply: Reply, included: seq<string>, sends: nat, now: int)
    ensures var (b, out) := FillAttempt(a, reply, included, sends, now);
      && ClosedBy(a, b, reply, included, sends, now)
      && out == if Good(reply, included) then reply.content else None
  {
    var b := FillAttempt(a, reply, included, sends, now).0;
    WaitsAre(reply, sends);
    hide WaitIs, RetryAfterSeconds, BackoffSeconds, ValidateModel, ShortStop, StopKept;
    var seconds := if reply.RateLimited? then RetryAfterSeconds(reply.retryAfter) else BackoffSeconds(sends);
    assert Floor(now + seconds * SECOND) == Stamp(now + seconds * SECOND) && Floor(now) == Stamp(now);
    assert SECOND == 1_000_000_000;
    hide Floor, Stamp;
    if reply.Answer? {
      GoodExactly(reply, included);
      StopIsKept(reply.stop);
    }
    hide Good, ErrorIs;
    if !reply.Answer? {
      OtherErrors(reply, a, included, sends, now);
    }
    assert !reply.Answer? ==> !Good(reply, included) by {
      OnlyAnswersAreGood(reply, included);
    }
  }

  lemma OtherErrors(reply: Reply, a: Attempt, included: seq<string>, sends: nat, now: int)
    requires !reply.Answer?
    ensures var b := FillAttempt(a, reply, included, sends, now).0; b.error.Some? && ErrorIs(reply, b.error.value)
  {
  }

  lemma OnlyAnswersAreGood(reply: Reply, included: seq<string>)
    ensures Good(reply, included) ==> reply.Answer? && reply.content.Some?
  {
  }

  predicate FirstWithId(attempts: seq<Attempt>, id: string, k: int) {
    0 <= k < |attempts| && attempts[k].id == id && forall i :: 0 <= i < k ==> attempts[i].id != id
  }

  function Sends(job: Job): nat { |set i | 0 <= i < |job.attempts| && job.attempts[i].sent| }

  /** Only the hot file of `fp` changed: attempt `k` is closed, and a good reply's texts are the job's. */
  predicate Replied(d: Dir, d': Dir, fp: string, k: int, reply: Reply, now: int) {
    && IsShown(d, fp) && 0 <= k < |ShownJob(d, fp).attempts|
    && d'.archive == d.archive && d'.conflicts == d.conflicts
    && fp in d'.hot && d'.hot[fp].Json? && !d'.hot[fp].extra && d'.hot == d.hot[fp := d'.hot[fp]]
    && RepliedJob(ShownJob(d, fp), d'.hot[fp].job, k, reply, now)
  }

  predicate RepliedJob(job: Job, job': Job, k: int, reply: Reply, now: int)
    requires 0 <= k < |job.attempts|
  {
    && |job'.attempts| == |job.attempts|
    && (forall i :: 0 <= i < |job.attempts| && i != k ==> job'.attempts[i] == job.attempts[i])
    && ClosedBy(job.attempts[k], job'.attempts[k], reply, job.included, Max(Sends(job), 1), now)
    && job'.summary == (if Good(reply, job.included) then reply.content.value.summary else job.summary)
    && job'.sections == (if Good(reply, job.included) then reply.content.value.sections else job.sections)
    && job'.status == Last(job'.attempts).state
    && job'.fingerprint == job.fingerprint && job'.included == job.included && job'.scope == job.scope
    && job'.source == job.source
  }

  /**
    A reply makes one write, if it works: to the job that is shown, closing the first attempt with the id
    it answers.  Without such a job or attempt it makes none.
  */
  lemma WhatFinishLeaves(d: Dir, fp: string, id: string, reply: Reply, now: int, saved: bool)
    ensures var trail := Finish(d, fp, id, reply, now, saved);
      if saved && !Unusable(d, fp) && IsShown(d, fp) && exists a :: a in ShownJob(d, fp).attempts && a.id == id
      then |trail| == 1
        && exists k :: FirstWithId(ShownJob(d, fp).attempts, id, k) && Replied(d, trail[0], fp, k, reply, now)
      else trail == []
  {
    UnusableIsCorrupt(d, fp);
    if !Unusable(d, fp) {
      OwnJob(d, fp);
      if IsShown(d, fp) {
        var job := ShownJob(d, fp);
        hide IsShown, ShownJob, Unusable, ClosedBy, Good;
        match FindAttempt(job.attempts, id)
        case None =>
        case Some(k) =>
          assert FirstWithId(job.attempts, id, k) && job.attempts[k] in job.attempts;
          FinishIsReply(job, k, reply, now);
          if saved {
            assert Replied(d, PutHot(d, fp, FinishJob(job, k, reply, now)), fp, k, reply, now);
          }
      }
    }
  }

  lemma FinishIsReply(job: Job, k: nat, reply: Reply, now: int)
    requires k < |job.attempts|
    ensures RepliedJob(job, Sealed(FinishJob(job, k, reply, now)), k, reply, now)
  {
    hide ClosedBy, Good, FillAttempt;
    OnlyAnswersAreGood(reply, job.included);
    assert SentCount(job) == Sends(job);
    assert SentSlots(job.attempts) == set i | 0 <= i < |job.attempts| && job.attempts[i].sent;
    FillCloses(job.attempts[k], reply, job.included, Max(Sends(job), 1), now);
  }

  // ---------------------------------------------------------------- after a restart

  /** The open attempt is closed as interrupted: charged, as far as one can know, if it was in flight. */
  predicate Interrupts(a: Attempt, b: Attempt, now: int) {
    && b.state == Interrupted && b.sent == (a.state == InFlight)
    && b.error == Some(if a.state == InFlight then "restart" else "not_sent") && b.errorKind.None? && b.usage.None?
    && b.finished == Some(At(Floor(now)))
    && b.id == a.id && b.started == a.started && b.requestedModel == a.requestedModel && b.model == a.model
    && b.retryAfter == a.retryAfter && b.stopReason == a.stopReason
  }

  /** The job with its last attempt closed and nothing else changed. */
  predicate Settled(job: Job, job': Job, now: int)
    requires job.attempts != []
  {
    && |job'.attempts| == |job.attempts|
    && job'.attempts[..|job.attempts| - 1] == job.attempts[..|job.attempts| - 1]
    && Interrupts(Last(job.attempts), Last(job'.attempts), now)
    && job' == job.(attempts := job'.attempts, status := Interrupted)
  }

  lemma SettledExactly(job: Job, now: int)
    requires UnderWay(job)
    ensures Settled(job, Sealed(SettleJob(job, now)), now)
  {
  }

  /** Settling closes the last attempt of exactly the readable hot jobs under way whose write works. */
  lemma WhatSettlingLeaves(d: Dir, saved: set<string>, at: string -> int, g: string)
    ensures var d' := SettleDir(d, saved, at);
      && d'.archive == d.archive && d'.conflicts == d.conflicts && d'.hot.Keys == d.hot.Keys
      && (g in d.hot && !(g in saved && Readable(d.hot, g) && UnderWay(d.hot[g].job)) ==> d'.hot[g] == d.hot[g])
      && (g in saved && Readable(d.hot, g) && UnderWay(d.hot[g].job) ==>
        d'.hot[g].Json? && !d'.hot[g].extra && Settled(d.hot[g].job, d'.hot[g].job, at(g)))
  {
    if Readable(d.hot, g) && UnderWay(d.hot[g].job) {
      SettledExactly(d.hot[g].job, at(g));
    }
    hide SettleJob, Settled, Sealed;
  }
}
