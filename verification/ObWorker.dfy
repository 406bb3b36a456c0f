/**
  What the worker leaves behind: a running row is its own, and it never goes on to another or stands idle
  before it has handed that row on.
*/
module ObWorker {
  import opened Prelude
  import opened ObModel
  import opened ObDelivery
  import ObRuns

  /** Every running row is the one the worker is on, or was left by a worker that is gone. */
  ghost predicate OnlyItsOwn(w: World) { forall id :: RunsIn(w.t, id) ==> IsOn(w.worker, id) }

  predicate RunsIn(t: Tables, id: nat) { id in t.requests && t.requests[id].status == Running }

  predicate IsOn(worker: Worker, id: nat) { worker.Down? || (!worker.Idle? && worker.id == id) }

  lemma OnlyClaimsRun(t: Tables, op: ObRuns.Op, id: nat)
    requires ObRuns.Possible(t, op) && RunsIn(ObRuns.After(t, op), id)
    ensures RunsIn(t, id) || (op.Claim? && op.id == id)
    ensures !op.Recover?
  {
    hide BindUrl, ConversationUrl, BlankText, AddTurn, ProjectId;
    if (op.Finish? || op.RememberUrl?) && op.id in t.requests {
      ObRuns.BindKeepsRequests(t, t.requests[op.id], op.url, op.now);
    }
  }

  /** Whatever the worker's last look gave, writing the result takes its row out of running. */
  lemma ResultHandsOn(w: World, a: Act)
    requires Inv(w) && Enabled(w, a) && a.WriteResult?
    ensures !RunsIn(Do(w, a).t, w.worker.id)
  {
    hide NoResend, SentSince, BindUrl, ConversationUrl, BlankText, AddTurn, RememberUrl;
    InvMeans(w);
    var (id, op) := (w.worker.id, Result(w, a.readable, a.now));
    if op.Finish? {
      ObRuns.BindKeepsRequests(w.t, w.t.requests[id], op.url, a.now);
    }
  }

  lemma StepKeepsOwn(w: World, a: Act)
    requires Inv(w) && Enabled(w, a) && OnlyItsOwn(w)
    ensures OnlyItsOwn(Do(w, a))
  {
    hide Inv, ObRuns.After;
    var w' := Do(w, a);
    StepIsTransaction(w, a);
    var op := Transaction(w, a);
    if a.WriteResult? {
      ResultHandsOn(w, a);
    }
    forall id | RunsIn(w'.t, id) ensures IsOn(w'.worker, id) {
      if w'.t != w.t {
        OnlyClaimsRun(w.t, op, id);
      }
      if a.StartWorker? || a.RecoverOrphaned? {
        NoneAfterRecovery(w.t, id);
      }
    }
  }

  lemma NoneAfterRecovery(t: Tables, id: nat)
    ensures !RunsIn(Recover(t), id)
  {
  }

  /** In every reachable world an idle worker has left no row running, and a busy one only the row it is on. */
  lemma {:induction false} NothingIsLeftRunning(w: World, acts: seq<Act>, id: nat)
    requires Initial(w) && Runs(w, acts) && RunsIn(Final(w, acts).t, id)
    ensures IsOn(Final(w, acts).worker, id)
  {
    RunKeepsOwn(w, acts);
  }

  lemma {:induction false} RunKeepsOwn(w: World, acts: seq<Act>)
    requires Initial(w) && Runs(w, acts)
    ensures OnlyItsOwn(Final(w, acts))
  {
    hide Inv, OnlyItsOwn;
    if acts == [] {
      assert OnlyItsOwn(w) by {
        DownOwnsAll(w);
      }
    } else {
      RunKeepsOwn(w, acts[..|acts| - 1]);
      RunHolds(w, acts[..|acts| - 1]);
      StepKeepsOwn(Final(w, acts[..|acts| - 1]), Last(acts));
    }
  }

  lemma DownOwnsAll(w: World)
    requires w.worker.Down?
    ensures OnlyItsOwn(w)
  {
  }

  // ---------------------------------------------------------------- how a request ends

  /** A look gives the journal: the file can be read, and the store takes the url in it, if there is one. */
  predicate LookGives(w: World, id: nat, readable: bool, now: int) {
    readable && (id in w.journals && w.journals[id].url.Some? ==>
                 ObModel.RememberUrl(w.t, id, w.journals[id].url.value, now).Ok?)
  }

  predicate PerhapsSent(w: World, id: nat) {
    id in w.journals && (w.journals[id].phase == Dispatching || w.journals[id].phase == Sent)
  }

  /** The status a request is left in, by the look before the decision, and the look after an error. */
  function EndsAs(w: World, readable: bool, now: int): Status
    requires w.worker.Deciding?
  {
    var id := w.worker.id;
    var afterError :=
      if LookGives(w, id, readable, now) then if PerhapsSent(w, id) then Unknown else Failed
      else if id in w.journals then Unknown else Failed;
    if w.worker.seen.Unreadable? then afterError
    else if id in w.journals && w.journals[id].phase == Answered then
      if ObModel.Finish(w.t, id, w.journals[id].answer, UrlIn(w.journals[id]), Some(w.worker.token), now).Ok? then Done
      else afterError
    else if PerhapsSent(w, id) then Unknown
    else if w.worker.why.Busy? then Pending else Failed
  }

  /**
    When `operate` ends: done if the recorded answer is taken, unknown while the question may be out, back
    in the queue if the browser was busy before that, and else failed; after an error by one more look,
    where a journal that gives nothing counts as sent if it is there at all.
  */
  lemma ResultExactly(w: World, a: Act)
    requires Inv(w) && Enabled(w, a) && a.WriteResult?
    ensures StatusIs(Do(w, a).t, w.worker.id, EndsAs(w, a.readable, a.now))
    ensures Do(w, a).worker.Idle? && Do(w, a).journals == w.journals && Do(w, a).log == w.log
  {
    hide NoResend, SentSince, BindUrl, ConversationUrl, BlankText, AddTurn, RememberUrl;
    InvMeans(w);
    var (id, op) := (w.worker.id, Result(w, a.readable, a.now));
    if op.Finish? {
      ObRuns.BindKeepsRequests(w.t, w.t.requests[id], op.url, a.now);
    }
  }

  /** The look before it: what it gives, if it gives anything, is the journal as it is, and its url is recorded. */
  lemma LookExactly(w: World, a: Act)
    requires Enabled(w, a) && a.ReadJournal?
    ensures var (id, w') := (w.worker.id, Do(w, a));
      && w'.worker.Deciding? && w'.worker.id == id && w'.worker.token == w.worker.token && w'.worker.why == w.worker.why
      && w'.worker.seen == (if !LookGives(w, id, a.readable, a.now) then Unreadable
                            else Read(if id in w.journals then Some(w.journals[id]) else None))
      && w'.t == (if LookGives(w, id, a.readable, a.now) && id in w.journals && w.journals[id].url.Some?
                  then ObModel.RememberUrl(w.t, id, w.journals[id].url.value, a.now).tables else w.t)
      && w'.journals == w.journals && w'.log == w.log
  {
    hide RememberUrl;
  }

  /** A script is started with the row marked to rotate if that is due, and never with the mark taken away. */
  lemma LaunchExactly(w: World, a: Act)
    requires Enabled(w, a) && a.Launch?
    ensures var (id, w') := (w.worker.id, Do(w, a));
      && RunsIn(w.t, id) && !PerhapsSent(w, id) && (id in w.journals ==> w.journals[id].phase != Answered)
      && w'.t.(requests := w.t.requests) == w.t && w'.journals == w.journals && w'.log == w.log
      && w'.worker == Scripting(id, w.worker.token, Began)
      && var due := RotateDue(w.t, w.t.requests[id].project, a.rotateTurns, a.rotateAge, a.now);
        w'.t.requests == w.t.requests[id := w.t.requests[id].(rotate := w.t.requests[id].rotate || due)]
  {
    hide RotateDue;
  }
}
