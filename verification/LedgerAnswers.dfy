/**
  Clean-up never changes an answer.  `Finished` is everything the ledger can serve; a pruned job
  moves from the hot directory to the archive without changing it, at every durable step.
*/
module LedgerAnswers {
  import opened Prelude
  import opened LedgerModel
  import opened Ops = LedgerOps
  import opened LedgerRuns

  datatype Served = Served(scope: string, source: seq<Source>, summary: seq<string>, sections: seq<Section>)

  function Serve(job: Job): Served { Served(job.scope, job.source, job.summary, job.sections) }

  /** Every result that can be reused, by fingerprint. */
  function Finished(d: Dir): map<string, Served> {
    map g | g in LedgerJobs(d) && Reusable(LedgerJobs(d)[g]) :: Serve(LedgerJobs(d)[g])
  }

  /** The result an exact-fingerprint read returns, if it is a finished one. */
  function Exact(d: Dir, fp: string): Option<Served> {
    match Load(d, fp)
    case Found(job) => if Reusable(job) then Some(Serve(job)) else None
    case Missing => None
    case Corrupt => None
  }

  predicate ServedCovers(a: Served, plan: Plan) {
    && a.scope == plan.scope
    && forall w :: w in plan.want ==> w in a.source && exists s :: s in a.sections && s.version == w.version
  }

  ghost predicate SameAnswers(d: Dir, d': Dir) {
    Finished(d) == Finished(d') && forall g :: Exact(d, g) == Exact(d', g)
  }

  /** Coverage reuse of a non-empty request depends on the finished results alone. */
  lemma CoveredFromFinished(d: Dir, plan: Plan)
    ensures CoveredSomewhere(d, plan) <==>
      plan.want != [] && exists g :: g in Finished(d) && ServedCovers(Finished(d)[g], plan)
  {
    if CoveredSomewhere(d, plan) {
      var g :| g in LedgerJobs(d) && Covers(LedgerJobs(d)[g], plan);
      var job := LedgerJobs(d)[g];
      assert plan.want[0] in plan.want;
      assert HasSection(job, plan.want[0].version);
      assert g in Finished(d);
      forall w | w in plan.want ensures exists s :: s in job.sections && s.version == w.version {
        assert HasSection(job, w.version);
      }
      assert ServedCovers(Finished(d)[g], plan);
    }
    if plan.want != [] && exists g :: g in Finished(d) && ServedCovers(Finished(d)[g], plan) {
      var g :| g in Finished(d) && ServedCovers(Finished(d)[g], plan);
      assert Covers(LedgerJobs(d)[g], plan);
    }
  }

  /** `Finished` at one fingerprint: the hot job decides if it is readable, else the archive. */
  function FinishedAt(d: Dir, g: string): Option<Served> {
    if g in d.hot && LoadFile(d.hot[g], g).Found? then
      if Reusable(d.hot[g].job) then Some(Serve(d.hot[g].job)) else None
    else if g in d.archive && LoadFile(d.archive[g], g).Found? && Reusable(d.archive[g].job) then
      Some(Serve(d.archive[g].job))
    else None
  }

  lemma FinishedPointwise(d: Dir, g: string)
    ensures g in Finished(d) <==> FinishedAt(d, g).Some?
    ensures g in Finished(d) ==> Finished(d)[g] == FinishedAt(d, g).value
  {
    if g in HotJobs(d) {
      assert LedgerJobs(d)[g] == d.hot[g].job;
    } else if g in ColdJobs(d) {
      assert LedgerJobs(d)[g] == d.archive[g].job;
    }
  }

  lemma SameIfPointwise(d: Dir, d': Dir)
    requires forall g :: FinishedAt(d, g) == FinishedAt(d', g) && Exact(d, g) == Exact(d', g)
    ensures SameAnswers(d, d')
  {
    forall g
      ensures g in Finished(d) <==> g in Finished(d')
      ensures g in Finished(d) ==> Finished(d)[g] == Finished(d')[g]
    {
      FinishedPointwise(d, g);
      FinishedPointwise(d', g);
      assert FinishedAt(d, g) == FinishedAt(d', g);
    }
    assert Finished(d) == Finished(d');
  }

  lemma ArchivePutServes(d: Dir, fp: string, m: Job)
    requires fp in d.hot && LoadFile(d.hot[fp], fp).Found?
    ensures SameAnswers(d, WithArchive(d, fp, m))
  {
    SameIfPointwise(d, WithArchive(d, fp, m));
  }

  lemma RemoveServes(d: Dir, fp: string)
    requires fp in d.hot && fp in d.archive
    requires LoadFile(d.hot[fp], fp).Found? && LoadFile(d.archive[fp], fp).Found?
    requires LastState(d.hot[fp].job).Completed? && LastState(d.archive[fp].job).Completed?
    requires Serve(d.hot[fp].job) == Serve(d.archive[fp].job)
    ensures SameAnswers(d, WithoutHot(d, fp))
  {
    SameIfPointwise(d, WithoutHot(d, fp));
  }

  lemma MoveServes(origin: string -> Plan, caps: Caps, d: Dir, log: seq<Sent>, used: set<string>, clock: int,
                   fp: string, now: int)
    requires Prunable(origin, caps, d, log, used, clock, fp, now)
    ensures var d1 := WithArchive(d, fp, Merged(ArchiveBaseOf(d, d.hot[fp].job), d.hot[fp].job));
      SameAnswers(d, d1) && SameAnswers(d, WithoutHot(d1, fp))
  {
    var hot := d.hot[fp].job;
    var m := Merged(ArchiveBaseOf(d, hot), hot);
    MergedOk(origin, caps, d, log, used, clock, fp, now);
    assert HotOk(origin, caps.attempts, hot, fp, used, clock);
    ArchivePutServes(d, fp, m);
    RemoveServes(WithArchive(d, fp, m), fp);
  }

  /** Every durable state of one clean-up item gives the same answers as the directory it started from. */
  lemma PruneKeepsAnswers(origin: string -> Plan, caps: Caps, d: Dir, log: seq<Sent>, used: set<string>, clock: int,
                          fp: string, keeper: Option<string>, now: int, io: PruneIo, i: nat)
    requires DirInv(origin, caps, d, log, used, clock) && now <= clock
    requires i < |PruneItem(d, fp, keeper, now, io).trail|
    ensures SameAnswers(d, PruneItem(d, fp, keeper, now, io).trail[i])
  {
    hide PruneItem, SameAnswers, DirInv, Prunable, Merged;
    PruneItemShape(origin, caps, d, log, used, clock, fp, keeper, now, io);
    MoveServes(origin, caps, d, log, used, clock, fp, now);
  }

  /** Whatever could be answered before an item, by exact read or by coverage, still can be, and nothing new can. */
  lemma PruneKeepsReuse(origin: string -> Plan, caps: Caps, d: Dir, log: seq<Sent>, used: set<string>, clock: int,
                        fp: string, keeper: Option<string>, now: int, io: PruneIo, plan: Plan)
    requires DirInv(origin, caps, d, log, used, clock) && now <= clock
    ensures var d' := Final(d, PruneItem(d, fp, keeper, now, io).trail);
      && (CoveredSomewhere(d, plan) <==> CoveredSomewhere(d', plan))
      && (forall g :: Exact(d, g) == Exact(d', g))
  {
    hide PruneItem, CoveredSomewhere, Exact, Finished, ServedCovers;
    var d' := Final(d, PruneItem(d, fp, keeper, now, io).trail);
    var trail := PruneItem(d, fp, keeper, now, io).trail;
    if trail != [] {
      PruneKeepsAnswers(origin, caps, d, log, used, clock, fp, keeper, now, io, |trail| - 1);
    }
    CoveredFromFinished(d, plan);
    CoveredFromFinished(d', plan);
  }

  // ---------------------------------------------------------------- what a covered answer contains

  function FirstSection(sections: seq<Section>, version: string): Option<Section> {
    if sections == [] then None
    else if sections[0].version == version then Some(sections[0])
    else FirstSection(sections[1..], version)
  }

  lemma {:induction false} FirstSectionFound(sections: seq<Section>, version: string)
    ensures FirstSection(sections, version).Some? <==> exists s :: s in sections && s.version == version
    ensures FirstSection(sections, version).Some? ==>
      FirstSection(sections, version).value in sections && FirstSection(sections, version).value.version == version
  {
    if sections != [] {
      FirstSectionFound(sections[1..], version);
      if sections[0].version != version && exists s :: s in sections && s.version == version {
        var s :| s in sections && s.version == version;
        assert s in sections[1..];
      }
    }
  }

  /** The sections a coverage answer is built from, in the order of the request. */
  function CoveredSections(job: Job, want: seq<Source>): seq<Section> {
    if want == [] then []
    else
      var rest := CoveredSections(job, want[1..]);
      match FirstSection(job.sections, want[0].version)
      case Some(s) => [s] + rest
      case None => rest
  }

  /** A covered answer has exactly one section per requested version, in request order, none dropped. */
  lemma {:induction false} CoveredAnswerComplete(job: Job, plan: Plan, want: seq<Source>)
    requires Covers(job, plan) && forall w :: w in want ==> w in plan.want
    ensures |CoveredSections(job, want)| == |want|
    ensures forall i :: 0 <= i < |want| ==>
      CoveredSections(job, want)[i].version == want[i].version && CoveredSections(job, want)[i] in job.sections
  {
    if want != [] {
      assert want[0] in plan.want;
      assert HasSection(job, want[0].version);
      FirstSectionFound(job.sections, want[0].version);
      CoveredAnswerComplete(job, plan, want[1..]);
    }
  }
}
