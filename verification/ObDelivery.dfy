/**
  One worker, one collector, the operator's commands and the browser script over the OB store and
  its send journals, any of which may stop at any point.

  Two things are taken from the browser script: it makes `dispatching` durable before it clicks
  send, and once it or the worker that started it is gone it does nothing more.  worker.lock is the
  worker being up; browser.lock is `BrowserTaken`.
*/
module ObDelivery {
  import opened Prelude
  import opened ObModel
  import ObRuns

  datatype Phase = Opened | Preparing | Dispatching | Sent | Answered

  predicate MayHaveSent(p: Option<Phase>) { p == Some(Dispatching) || p == Some(Sent) }

  /** How far the running script has got. */
  datatype Stage = Began | Typed | Armed | Clicked | Waiting | Over

  datatype Why = Busy | NotRunning | Other

  /** A journal: how far the question got, the conversation it is in once known, and the answer once there is one. */
  datatype Entry = Entry(phase: Phase, url: Option<string>, answer: string)

  /**
    What a look at the journal gave.  A look fails if the file cannot be read, or if the store refuses its
    url; a worker that an error keeps from looking is as if its look had failed.
  */
  datatype Seen = Unreadable | Read(entry: Option<Entry>)

  datatype Worker =
    | Down
    | Idle
    | Entering(id: nat, token: string)
    | Locked(id: nat, token: string)
    | Scripting(id: nat, token: string, stage: Stage)
    | Returning(id: nat, token: string)
    | Settling(id: nat, token: string, why: Why)
    | Deciding(id: nat, token: string, why: Why, seen: Seen)

  datatype Collector = Away | Collecting(id: nat)

  datatype Event = Send(id: nat) | ConfirmedNotSent(id: nat)

  datatype World = World(t: Tables, journals: map<nat, Entry>, worker: Worker, collector: Collector, log: seq<Event>)

  function EntryOf(w: World, id: nat): Option<Entry> { if id in w.journals then Some(w.journals[id]) else None }

  function PhaseIn(e: Option<Entry>): Option<Phase> { if e.Some? then Some(e.value.phase) else None }

  function Journal(w: World, id: nat): Option<Phase> { PhaseIn(EntryOf(w, id)) }

  function UrlIn(e: Entry): string { if e.url.Some? then e.url.value else "" }

  /** A look records the journal's url first; it goes on only if the store takes it. */
  predicate UrlTakes(t: Tables, id: nat, e: Option<Entry>, now: int) {
    e.Some? && e.value.url.Some? ==> RememberUrl(t, id, e.value.url.value, now).Ok?
  }

  predicate BrowserTaken(w: World) {
    w.worker.Locked? || w.worker.Scripting? || w.worker.Returning? || w.collector.Collecting?
  }

  datatype Act =
    | Command(op: ObRuns.Op)
    | StartWorker
    | StopWorker
    | CrashWorker
    | RecoverOrphaned
    | ClaimNext(id: nat, token: string, now: int)
    | FindBusy
    | TakeBrowser
    | FinishFromJournal(now: int)
    | Launch(rotateTurns: int, rotateAge: int, now: int)
    | SaveOpened
    | SavePreparing(known: Option<string>)
    | SaveDispatching(known: Option<string>)
    | Click
    | SaveSent(url: string)
    | SaveAnswer(answer: string, url: string)
    | ScriptStops
    | GiveUp(why: Why)
    | Leave
    | ReadJournal(readable: bool, now: int)
    | WriteResult(readable: bool, now: int)
    | CollectStart(id: nat)
    | CollectAnswer(answer: string, url: string)
    | CollectFinish(now: int)
    | CollectStops
    | ResolveNotSent(id: nat)
    | ResolveCrashes(id: nat)

  /**
    The transactions other commands make, at any time and with any arguments; a url is recorded from a
    journal only.
  */
  predicate FreeOp(op: ObRuns.Op) {
    op.Submit? || op.Link? || op.RequestRotation? || op.RememberUrl? || op.Retry? || op.Reopen?
  }

  /** Whose journals are looked at: those of unknown rows, and the worker's own. */
  predicate LooksAt(w: World, id: nat) {
    || StatusIs(w.t, id, Unknown)
    || ((w.worker.Locked? || w.worker.Returning? || w.worker.Settling? || w.worker.Deciding?) && w.worker.id == id)
  }

  predicate MayCommand(w: World, op: ObRuns.Op) {
    && FreeOp(op) && ObRuns.Possible(w.t, op)
    && (op.RememberUrl? ==> LooksAt(w, op.id) && op.id in w.journals && w.journals[op.id].url == Some(op.url))
  }

  predicate Enabled(w: World, a: Act) {
    match a
    case Command(op) => MayCommand(w, op)
    case StartWorker => w.worker.Down?
    case StopWorker => w.worker.Idle?
    case CrashWorker => !w.worker.Down?
    case RecoverOrphaned => w.worker.Down?
    case ClaimNext(id, token, now) => w.worker.Idle? && token != "" && NextClaim(w.t, id, now)
    case FindBusy => w.worker.Entering? && BrowserTaken(w)
    case TakeBrowser => w.worker.Entering? && !BrowserTaken(w)
    case FinishFromJournal(_) => (w.worker.Locked? || w.worker.Returning?) && Journal(w, w.worker.id) == Some(Answered)
    case Launch(_, _, _) =>
      && w.worker.Locked? && OwnedBy(w.t, w.worker.id, Some(w.worker.token))
      && !MayHaveSent(Journal(w, w.worker.id)) && Journal(w, w.worker.id) != Some(Answered)
    case SaveOpened => w.worker.Scripting? && w.worker.stage.Began?
    case SavePreparing(_) => w.worker.Scripting? && w.worker.stage.Began?
    case SaveDispatching(_) => w.worker.Scripting? && w.worker.stage.Typed?
    case Click => w.worker.Scripting? && w.worker.stage.Armed?
    case SaveSent(_) => w.worker.Scripting? && w.worker.stage.Clicked?
    case SaveAnswer(_, _) => w.worker.Scripting? && w.worker.stage.Waiting?
    case ScriptStops => w.worker.Scripting?
    case GiveUp(why) => (w.worker.Entering? || w.worker.Locked? || w.worker.Returning?) && !why.Busy?
    case Leave => w.worker.Settling? && StatusIs(w.t, w.worker.id, Done)
    case ReadJournal(_, _) => w.worker.Settling? && !StatusIs(w.t, w.worker.id, Done)
    case WriteResult(_, _) => w.worker.Deciding?
    case CollectStart(id) => w.collector.Away? && !BrowserTaken(w) && StatusIs(w.t, id, Unknown)
    case CollectAnswer(_, _) => w.collector.Collecting? && w.collector.id in w.journals
    case CollectFinish(_) => w.collector.Collecting? && Journal(w, w.collector.id) == Some(Answered)
    case CollectStops => w.collector.Collecting?
    case ResolveNotSent(id) => !BrowserTaken(w) && StatusIs(w.t, id, Unknown)
    case ResolveCrashes(id) => !BrowserTaken(w) && StatusIs(w.t, id, Unknown)
  }

  predicate StatusIs(t: Tables, id: nat, s: Status) { id in t.requests && t.requests[id].status == s }

  /** The exception path looks again; a journal that cannot be read counts as sent if it is there at all. */
  function AfterError(w: World, readable: bool, now: int): Status
    requires w.worker.Deciding?
  {
    var e := EntryOf(w, w.worker.id);
    if (if LooksWell(w, readable, now) then MayHaveSent(PhaseIn(e)) else e.Some?) then Unknown else Failed
  }

  predicate LooksWell(w: World, readable: bool, now: int)
    requires w.worker.Deciding?
  {
    readable && UrlTakes(w.t, w.worker.id, EntryOf(w, w.worker.id), now)
  }

  /**
    How `operate` ends: with the answer on record, back in the queue, or in the status its looks at the
    journal call for.
  */
  function Result(w: World, readable: bool, now: int): ObRuns.Op
    requires w.worker.Deciding?
  {
    var (id, token) := (w.worker.id, Some(w.worker.token));
    match w.worker.seen
    case Unreadable => ObRuns.Fail(id, AfterError(w, readable, now), "", token, now)
    case Read(e) =>
      if PhaseIn(e) == Some(Answered) then
        if Finish(w.t, id, e.value.answer, UrlIn(e.value), token, now).Ok? then
          ObRuns.Finish(id, e.value.answer, UrlIn(e.value), token, now)
        else ObRuns.Fail(id, AfterError(w, readable, now), "", token, now)
      else if MayHaveSent(PhaseIn(e)) then ObRuns.Fail(id, Unknown, "", token, now)
      else if w.worker.why.Busy? then ObRuns.Requeue(id, "browser_busy", token)
      else ObRuns.Fail(id, Failed, "", token, now)
  }

  /** The answer on record for `id`, offered to the store. */
  function FinishOn(w: World, id: nat, token: Option<string>, now: int): ObRuns.Op
    requires id in w.journals
  {
    ObRuns.Finish(id, w.journals[id].answer, UrlIn(w.journals[id]), token, now)
  }

  /** The transaction of a look that reads. */
  function LookOp(w: World, readable: bool, now: int): ObRuns.Op
    requires w.worker.Settling?
  {
    var e := EntryOf(w, w.worker.id);
    if readable && e.Some? && e.value.url.Some? then ObRuns.RememberUrl(w.worker.id, e.value.url.value, now)
    else ObRuns.Reopen(now)
  }

  function Do(w: World, a: Act): World
    requires Enabled(w, a)
  {
    match a
    case Command(op) => w.(t := ObRuns.After(w.t, op))
    case StartWorker => w.(t := Recover(w.t), worker := Idle)
    case StopWorker => w.(worker := Down)
    case CrashWorker => w.(worker := Down)
    case RecoverOrphaned => w.(t := Recover(w.t))
    case ClaimNext(id, token, now) => w.(t := Claim(w.t, id, token), worker := Entering(id, token))
    case FindBusy => w.(worker := Settling(w.worker.id, w.worker.token, Busy))
    case TakeBrowser => w.(worker := Locked(w.worker.id, w.worker.token))
    case FinishFromJournal(now) =>
      w.(t := ObRuns.After(w.t, FinishOn(w, w.worker.id, Some(w.worker.token), now)),
         worker := Settling(w.worker.id, w.worker.token, Other))
    case Launch(turns, age, now) =>
      var rotate := !w.t.requests[w.worker.id].rotate
        && RotateDue(w.t, w.t.requests[w.worker.id].project, turns, age, now);
      w.(t := if rotate then ObRuns.After(w.t, ObRuns.MarkRotate(w.worker.id, true)) else w.t,
         worker := Scripting(w.worker.id, w.worker.token, Began))
    case SaveOpened => Save(w, Entry(Opened, None, AnswerIn(w)), Began)
    case SavePreparing(known) => Save(w, Entry(Preparing, known, AnswerIn(w)), Typed)
    case SaveDispatching(known) => Save(w, Entry(Dispatching, known, AnswerIn(w)), Armed)
    case Click => w.(worker := w.worker.(stage := Clicked), log := w.log + [Send(w.worker.id)])
    case SaveSent(url) => Save(w, Entry(Sent, Some(url), AnswerIn(w)), Waiting)
    case SaveAnswer(answer, url) => Save(w, Entry(Answered, Some(url), answer), Over)
    case ScriptStops => w.(worker := Returning(w.worker.id, w.worker.token))
    case GiveUp(why) => w.(worker := Settling(w.worker.id, w.worker.token, why))
    case Leave => w.(worker := Idle)
    case ReadJournal(readable, now) =>
      var e := EntryOf(w, w.worker.id);
      var seen := if readable && UrlTakes(w.t, w.worker.id, e, now) then Read(e) else Unreadable;
      w.(t := ObRuns.After(w.t, LookOp(w, readable, now)),
         worker := Deciding(w.worker.id, w.worker.token, w.worker.why, seen))
    case WriteResult(readable, now) => w.(t := ObRuns.After(w.t, Result(w, readable, now)), worker := Idle)
    case CollectStart(id) => w.(collector := Collecting(id))
    case CollectAnswer(answer, url) => w.(journals := w.journals[w.collector.id := Entry(Answered, Some(url), answer)])
    case CollectFinish(now) => w.(t := ObRuns.After(w.t, FinishOn(w, w.collector.id, None, now)))
    case CollectStops => w.(collector := Away)
    case ResolveNotSent(id) =>
      w.(t := ObRuns.After(w.t, ObRuns.Resolve(id, true)), journals := w.journals - {id},
         log := w.log + [ConfirmedNotSent(id)])
    case ResolveCrashes(id) => w.(journals := w.journals - {id}, log := w.log + [ConfirmedNotSent(id)])
  }

  /** A save keeps what it does not replace. */
  function AnswerIn(w: World): string
    requires w.worker.Scripting?
  {
    if w.worker.id in w.journals then w.journals[w.worker.id].answer else ""
  }

  function Save(w: World, e: Entry, stage: Stage): World
    requires w.worker.Scripting?
  {
    w.(journals := w.journals[w.worker.id := e], worker := w.worker.(stage := stage))
  }

  function Final(w: World, acts: seq<Act>): World
    requires Runs(w, acts)
    decreases |acts|, 1
  {
    if acts == [] then w else Do(Final(w, acts[..|acts| - 1]), Last(acts))
  }

  predicate Runs(w: World, acts: seq<Act>)
    decreases |acts|, 0
  {
    acts == [] || (Runs(w, acts[..|acts| - 1]) && Enabled(Final(w, acts[..|acts| - 1]), Last(acts)))
  }

  // ---------------------------------------------------------------- the log

  /** The question of `id` went out and nobody has since confirmed it did not. */
  predicate SentSince(log: seq<Event>, id: nat) {
    log != [] && (Last(log) == Send(id) || (Last(log) != ConfirmedNotSent(id) && SentSince(log[..|log| - 1], id)))
  }

  predicate NoResend(log: seq<Event>) {
    log == [] || (NoResend(log[..|log| - 1]) && (Last(log).Send? ==> !SentSince(log[..|log| - 1], Last(log).id)))
  }

  // ---------------------------------------------------------------- the invariant

  predicate Accounted(t: Tables, id: nat) {
    id in t.requests
      && (t.requests[id].status.Running? || t.requests[id].status.Unknown? || t.requests[id].status.Done?)
  }

  /** A journal that says the question may be out belongs to a request that is running, unknown or done. */
  predicate JournalsAccounted(w: World) {
    forall id :: id in w.journals && MayHaveSent(Journal(w, id)) ==> Accounted(w.t, id)
  }

  /** Whatever went out is on record in its journal. */
  ghost predicate SendsJournalled(w: World) {
    forall id :: SentSince(w.log, id) ==> MayHaveSent(Journal(w, id)) || Journal(w, id) == Some(Answered)
  }

  predicate StageMatches(w: World)
    requires w.worker.Scripting?
  {
    var j := Journal(w, w.worker.id);
    match w.worker.stage
    case Began => !MayHaveSent(j) && j != Some(Answered)
    case Typed => j == Some(Preparing)
    case Armed => j == Some(Dispatching) && !SentSince(w.log, w.worker.id)
    case Clicked => j == Some(Dispatching)
    case Waiting => j == Some(Sent)
    case Over => j == Some(Answered)
  }

  predicate WorkerSound(w: World) {
    match w.worker
    case Down => true
    case Idle => true
    case Settling(id, token, _) => OwnedBy(w.t, id, Some(token)) || StatusIs(w.t, id, Done)
    case Deciding(id, token, _, seen) => OwnedBy(w.t, id, Some(token)) && (seen.Read? ==> seen.entry == EntryOf(w, id))
    case Scripting(id, token, _) => OwnedBy(w.t, id, Some(token)) && StageMatches(w)
    case _ => OwnedBy(w.t, w.worker.id, Some(w.worker.token))
  }

  predicate CollectorSound(w: World) {
    w.collector.Collecting? ==>
      && (StatusIs(w.t, w.collector.id, Unknown) || StatusIs(w.t, w.collector.id, Done))
      && !w.worker.Locked? && !w.worker.Scripting? && !w.worker.Returning?
  }

  ghost predicate Inv(w: World) {
    JournalsAccounted(w) && SendsJournalled(w) && WorkerSound(w) && CollectorSound(w) && NoResend(w.log)
  }

  // ---------------------------------------------------------------- what a transaction does to a row

  predicate SameHold(r: Request, r': Request) { r'.status == r.status && r'.token == r.token }

  /** No row but those in `but` that is running, unknown or done changes status or token. */
  predicate Steady(t: Tables, t': Tables, but: set<nat>) {
    forall id :: id in t.requests && id !in but && Accounted(t, id) ==>
      id in t'.requests && SameHold(t.requests[id], t'.requests[id])
  }

  lemma CommandSteady(t: Tables, op: ObRuns.Op)
    requires FreeOp(op) && ObRuns.Possible(t, op)
    ensures Steady(t, ObRuns.After(t, op), {})
  {
    if op.RememberUrl? && op.id in t.requests {
      ObRuns.BindKeepsRequests(t, t.requests[op.id], op.url, op.now);
    }
    hide BindUrl;
  }

  lemma FinishSteady(t: Tables, id: nat, answer: string, url: string, token: Option<string>, now: int)
    ensures var t' := ObRuns.After(t, ObRuns.Finish(id, answer, url, token, now));
      Steady(t, t', {id}) && (t' != t ==> StatusIs(t', id, Done))
  {
    if id in t.requests {
      ObRuns.BindKeepsRequests(t, t.requests[id], url, now);
    }
    hide BindUrl;
  }

  lemma ResultSteady(w: World, readable: bool, now: int)
    requires WorkerSound(w) && w.worker.Deciding?
    ensures var t' := ObRuns.After(w.t, Result(w, readable, now));
      && Steady(w.t, t', {w.worker.id})
      && (MayHaveSent(Journal(w, w.worker.id)) ==>
          StatusIs(t', w.worker.id, Unknown) || StatusIs(t', w.worker.id, Done))
  {
    if w.worker.id in w.journals {
      var e := w.journals[w.worker.id];
      FinishSteady(w.t, w.worker.id, e.answer, UrlIn(e), Some(w.worker.token), now);
    }
    hide Finish, RememberUrl;
  }

  lemma LookSteady(w: World, readable: bool, now: int)
    requires w.worker.Settling?
    ensures Steady(w.t, ObRuns.After(w.t, LookOp(w, readable, now)), {})
  {
    hide BindUrl, RememberUrl;
    CommandSteady(w.t, LookOp(w, readable, now));
  }

  // ---------------------------------------------------------------- one step

  lemma TablesStep(w: World, w': World, but: set<nat>)
    requires Inv(w) && w'.journals == w.journals && w'.log == w.log && Steady(w.t, w'.t, but)
    requires forall id :: id in but && id in w.journals && MayHaveSent(Journal(w, id)) ==> Accounted(w'.t, id)
    ensures JournalsAccounted(w') && SendsJournalled(w') && NoResend(w'.log)
  {
  }

  predicate ScriptAct(a: Act) {
    a.SaveOpened? || a.SavePreparing? || a.SaveDispatching? || a.Click? || a.SaveSent? || a.SaveAnswer?
  }

  lemma LogStep(log: seq<Event>, e: Event)
    ensures forall id :: SentSince(log + [e], id) <==>
      e == Send(id) || (e != ConfirmedNotSent(id) && SentSince(log, id))
    ensures NoResend(log + [e]) <==> NoResend(log) && (e.Send? ==> !SentSince(log, e.id))
  {
    assert (log + [e])[..|log|] == log;
  }

  /** The script's own steps: the send is on record before it happens, and happens only if nothing is out yet. */
  lemma ScriptKeeps(w: World, a: Act)
    requires Inv(w) && Enabled(w, a) && ScriptAct(a)
    ensures Inv(Do(w, a))
  {
    hide NoResend, SentSince;
    var w' := Do(w, a);
    if a.Click? {
      LogStep(w.log, Send(w.worker.id));
    }
    assert forall id :: id != w.worker.id ==> Journal(w', id) == Journal(w, id);
  }

  lemma ResolveKeeps(w: World, a: Act)
    requires Inv(w) && Enabled(w, a) && (a.ResolveNotSent? || a.ResolveCrashes?)
    ensures Inv(Do(w, a))
  {
    hide NoResend, SentSince, JournalsAccounted, SendsJournalled, ObRuns.After;
    var w' := Do(w, a);
    ResolveSteady(w.t, a.id);
    ConfirmedLog(w, w', a.id);
    ResolvedRow(w, w', a.id);
  }

  lemma ResolveSteady(t: Tables, id: nat)
    ensures Steady(t, ObRuns.After(t, ObRuns.Resolve(id, true)), {id}) && Steady(t, t, {id})
  {
  }

  /** Setting a journal aside together with the operator's word keeps journals and log in step. */
  lemma ConfirmedLog(w: World, w': World, id: nat)
    requires Inv(w) && w'.journals == w.journals - {id} && w'.log == w.log + [ConfirmedNotSent(id)]
    requires Steady(w.t, w'.t, {id})
    ensures JournalsAccounted(w') && SendsJournalled(w') && NoResend(w'.log)
  {
    hide NoResend, SentSince, WorkerSound, CollectorSound;
    LogStep(w.log, ConfirmedNotSent(id));
    assert forall k :: k != id ==> EntryOf(w', k) == EntryOf(w, k);
    assert EntryOf(w', id) == None;
  }

  lemma ResolvedRow(w: World, w': World, id: nat)
    requires WorkerSound(w) && CollectorSound(w) && StatusIs(w.t, id, Unknown) && !BrowserTaken(w)
    requires w'.worker == w.worker && w'.collector == w.collector && w'.journals == w.journals - {id}
      && Steady(w.t, w'.t, {id})
    ensures WorkerSound(w') && CollectorSound(w')
  {
  }

  predicate TableMove(a: Act) { a.StartWorker? || a.RecoverOrphaned? || a.ClaimNext? }

  lemma TableMoveKeeps(w: World, a: Act)
    requires Inv(w) && Enabled(w, a) && TableMove(a)
    ensures Inv(Do(w, a))
  {
    hide NoResend, SentSince;
    var w' := Do(w, a);
    assert forall id :: Journal(w', id) == Journal(w, id);
    assert forall id :: Accounted(w.t, id) ==> Accounted(w'.t, id);
  }

  lemma LaunchKeeps(w: World, a: Act)
    requires Inv(w) && Enabled(w, a) && a.Launch?
    ensures Inv(Do(w, a))
  {
    hide NoResend, SentSince, JournalsAccounted, SendsJournalled, ObRuns.After, RotateDue;
    MarkSteady(w.t, w.worker.id);
    TablesStep(w, Do(w, a), {});
  }

  lemma MarkSteady(t: Tables, id: nat)
    ensures Steady(t, ObRuns.After(t, ObRuns.MarkRotate(id, true)), {}) && Steady(t, t, {})
  {
  }

  lemma CollectAnswerKeeps(w: World, a: Act)
    requires Inv(w) && Enabled(w, a) && a.CollectAnswer?
    ensures Inv(Do(w, a))
  {
    hide NoResend, SentSince;
    assert forall id :: id != w.collector.id ==> EntryOf(Do(w, a), id) == EntryOf(w, id);
  }

  predicate PureMove(a: Act) {
    || a.StopWorker? || a.CrashWorker? || a.FindBusy? || a.TakeBrowser? || a.ScriptStops? || a.GiveUp? || a.Leave?
    || a.CollectStart? || a.CollectStops?
  }

  /** The steps that only move the worker or the collector along. */
  lemma PureMoveKeeps(w: World, a: Act)
    requires Inv(w) && Enabled(w, a) && PureMove(a)
    ensures Inv(Do(w, a))
  {
    hide NoResend, SentSince;
    assert forall id :: Journal(Do(w, a), id) == Journal(w, id);
  }

  /** A command or a look: transactions that leave rows under way alone. */
  lemma LookKeeps(w: World, a: Act)
    requires Inv(w) && Enabled(w, a) && (a.Command? || a.ReadJournal?)
    ensures Inv(Do(w, a))
  {
    hide ObRuns.After, LookOp, UrlTakes, RememberUrl, NoResend, SentSince, JournalsAccounted, SendsJournalled;
    if a.Command? {
      CommandSteady(w.t, a.op);
    } else {
      LookSteady(w, a.readable, a.now);
    }
    TablesStep(w, Do(w, a), {});
  }

  predicate AnswerAct(a: Act) { a.FinishFromJournal? || a.CollectFinish? || a.WriteResult? }

  /** The transactions that end an attempt. */
  lemma AnswerKeeps(w: World, a: Act)
    requires Inv(w) && Enabled(w, a) && AnswerAct(a)
    ensures Inv(Do(w, a))
  {
    hide BindUrl, Finish, RememberUrl, NoResend, SentSince, JournalsAccounted, SendsJournalled;
    var id := if a.CollectFinish? then w.collector.id else w.worker.id;
    if a.WriteResult? {
      ResultSteady(w, a.readable, a.now);
    } else {
      var token := if a.CollectFinish? then None else Some(w.worker.token);
      FinishSteady(w.t, id, w.journals[id].answer, UrlIn(w.journals[id]), token, a.now);
    }
    TablesStep(w, Do(w, a), {id});
  }

  /** Every step keeps the invariant. */
  lemma StepKeeps(w: World, a: Act)
    requires Inv(w) && Enabled(w, a)
    ensures Inv(Do(w, a))
  {
    hide Inv, Do, Enabled;
    if a.Command? || a.ReadJournal? {
      LookKeeps(w, a);
    } else if AnswerAct(a) {
      AnswerKeeps(w, a);
    } else if a.ResolveNotSent? || a.ResolveCrashes? {
      ResolveKeeps(w, a);
    } else if a.CollectAnswer? {
      CollectAnswerKeeps(w, a);
    } else if a.Launch? {
      LaunchKeeps(w, a);
    } else if ScriptAct(a) {
      ScriptKeeps(w, a);
    } else if TableMove(a) {
      TableMoveKeeps(w, a);
    } else {
      PureMoveKeeps(w, a);
    }
  }

  // ---------------------------------------------------------------- whole runs

  predicate Initial(w: World) { w.journals == map[] && w.worker.Down? && w.collector.Away? && w.log == [] }

  lemma {:induction false} RunHolds(w: World, acts: seq<Act>)
    requires Initial(w) && Runs(w, acts)
    ensures Inv(Final(w, acts))
  {
    hide Inv;
    if acts == [] {
      InitialHolds(w);
    } else {
      RunHolds(w, acts[..|acts| - 1]);
      StepKeeps(Final(w, acts[..|acts| - 1]), Last(acts));
    }
  }

  lemma InitialHolds(w: World)
    requires Initial(w)
    ensures Inv(w)
  {
  }

  lemma {:induction false} SentUntilConfirmed(log: seq<Event>, i: nat)
    requires i < |log| && log[i].Send? && !SentSince(log, log[i].id)
    ensures exists k :: i < k < |log| && log[k] == ConfirmedNotSent(log[i].id)
  {
    var n := |log| - 1;
    if log[n] != ConfirmedNotSent(log[i].id) {
      assert i < n;
      SentUntilConfirmed(log[..n], i);
      var k :| i < k < n && log[..n][k] == ConfirmedNotSent(log[i].id);
      assert log[k] == ConfirmedNotSent(log[i].id);
    }
  }

  lemma {:induction false} NoResendAt(log: seq<Event>, j: nat)
    requires NoResend(log) && j < |log| && log[j].Send?
    ensures !SentSince(log[..j], log[j].id)
  {
    if j < |log| - 1 {
      NoResendAt(log[..|log| - 1], j);
      assert log[..|log| - 1][..j] == log[..j];
    }
  }

  /**
    At most once: whatever stops, is retried, recovered or collected, a question that went out goes
    out again only after the operator confirmed, in between, that it had not.
  */
  lemma SendsAreSeparated(w: World, acts: seq<Act>, i: nat, j: nat)
    requires Initial(w) && Runs(w, acts)
    requires i < j < |Final(w, acts).log| && Final(w, acts).log[i].Send?
      && Final(w, acts).log[j] == Final(w, acts).log[i]
    ensures exists k :: i < k < j && Final(w, acts).log[k] == ConfirmedNotSent(Final(w, acts).log[i].id)
  {
    RunHolds(w, acts);
    var log := Final(w, acts).log;
    NoResendAt(log, j);
    SentUntilConfirmed(log[..j], i);
    var k :| i < k < j && log[..j][k] == ConfirmedNotSent(log[i].id);
    assert log[k] == ConfirmedNotSent(log[i].id);
  }

  /** In every reachable world: a journal that may have sent is accounted for, and what went out is in its journal. */
  lemma DeliveryIsAccounted(w: World, acts: seq<Act>, id: nat)
    requires Initial(w) && Runs(w, acts)
    ensures MayHaveSent(Journal(Final(w, acts), id)) ==> Accounted(Final(w, acts).t, id)
    ensures SentSince(Final(w, acts).log, id)
      ==> MayHaveSent(Journal(Final(w, acts), id)) || Journal(Final(w, acts), id) == Some(Answered)
  {
    RunHolds(w, acts);
  }

  // ---------------------------------------------------------------- single steps

  /** `unknown` has two ways out: the operator's confirmation, back to pending, and a collected answer. */
  lemma UnknownWaitsForOperator(w: World, a: Act, id: nat)
    requires Inv(w) && Enabled(w, a) && StatusIs(w.t, id, Unknown)
    ensures var t' := Do(w, a).t;
      || StatusIs(t', id, Unknown)
      || (a == ResolveNotSent(id) && StatusIs(t', id, Pending) && id !in Do(w, a).journals)
      || (a.CollectFinish? && w.collector.id == id && Journal(w, id) == Some(Answered) && StatusIs(t', id, Done))
  {
    hide Finish, BindUrl, NoResend, SentSince;
    match a
    case Command(op) => CommandSteady(w.t, op);
    case FinishFromJournal(now) =>
      var e := w.journals[w.worker.id];
      FinishSteady(w.t, w.worker.id, e.answer, UrlIn(e), Some(w.worker.token), now);
    case CollectFinish(now) =>
      var e := w.journals[w.collector.id];
      FinishSteady(w.t, w.collector.id, e.answer, UrlIn(e), None, now);
    case ReadJournal(readable, now) => LookSteady(w, readable, now);
    case WriteResult(readable, now) => ResultSteady(w, readable, now);
    case _ =>
  }

  /**
    A request whose journal shows nothing was sent goes back to the queue or to `failed`, never to `unknown`:
    it blocks no one.
  */
  lemma UnsentStaysRetryable(w: World, a: Act)
    requires Inv(w) && Enabled(w, a) && a.WriteResult? && w.worker.seen.Read?
    requires !MayHaveSent(PhaseIn(w.worker.seen.entry)) && PhaseIn(w.worker.seen.entry) != Some(Answered)
    ensures StatusIs(Do(w, a).t, w.worker.id, if w.worker.why.Busy? then Pending else Failed)
  {
    hide Inv;
    assert WorkerSound(w) by {
      InvMeans(w);
    }
  }

  lemma InvMeans(w: World)
    requires Inv(w)
    ensures JournalsAccounted(w) && SendsJournalled(w) && WorkerSound(w) && CollectorSound(w)
  {
  }

  /** The store's transaction that a step makes; `Reopen`, which changes nothing, where it makes none. */
  function Transaction(w: World, a: Act): (op: ObRuns.Op)
    requires Enabled(w, a)
    ensures ObRuns.Possible(w.t, op)
  {
    match a
    case Command(op) => op
    case StartWorker => ObRuns.Recover
    case RecoverOrphaned => ObRuns.Recover
    case ClaimNext(id, token, now) => ObRuns.Claim(id, token, now)
    case FinishFromJournal(now) => FinishOn(w, w.worker.id, Some(w.worker.token), now)
    case Launch(turns, age, now) =>
      var job := w.t.requests[w.worker.id];
      if !job.rotate && RotateDue(w.t, job.project, turns, age, now) then ObRuns.MarkRotate(w.worker.id, true)
      else ObRuns.Reopen(0)
    case ReadJournal(readable, now) => LookOp(w, readable, now)
    case WriteResult(readable, now) => Result(w, readable, now)
    case CollectFinish(now) => FinishOn(w, w.collector.id, None, now)
    case ResolveNotSent(id) => ObRuns.Resolve(id, true)
    case _ => ObRuns.Reopen(0)
  }

  lemma StepIsTransaction(w: World, a: Act)
    requires Enabled(w, a)
    ensures Do(w, a).t == ObRuns.After(w.t, Transaction(w, a))
  {
    hide Finish, BindUrl, RememberUrl, Fail, RotateDue, ObModel.Retry, ObModel.Submit, ObModel.Link, Result, EntryOf;
  }

  /** So everything proved of the store's runs holds while worker, collector and operator interleave. */
  lemma {:induction false} TablesStaySound(w: World, acts: seq<Act>)
    requires ObRuns.Inv(w.t) && Runs(w, acts)
    ensures ObRuns.Inv(Final(w, acts).t) && ObRuns.Grows(w.t.conversations, Final(w, acts).t.conversations)
  {
    hide ObRuns.Inv;
    if acts != [] {
      var before := Final(w, acts[..|acts| - 1]);
      TablesStaySound(w, acts[..|acts| - 1]);
      StepIsTransaction(before, Last(acts));
      ObRuns.StepKeeps(before.t, Transaction(before, Last(acts)));
    }
  }
}
