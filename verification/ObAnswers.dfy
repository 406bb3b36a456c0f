/**
  What becomes of an answer that is on record.  `operate` looks at the journal before it decides, and a
  look records the journal's url first: so once a look has succeeded, the store takes the answer unless
  it is blank to the store.
*/
module ObAnswers {
  import opened Prelude
  import opened ObModel
  import opened ObDelivery
  import ObRuns

  /** After a look that succeeded, the journal's url is the live conversation of the worker's project. */
  predicate BoundOnceRead(w: World) {
    w.worker.Deciding? && w.worker.seen.Read? && w.worker.seen.entry.Some? && w.worker.seen.entry.value.url.Some? ==>
      Bound(w.t, w.worker.id, w.worker.seen.entry.value.url.value)
  }

  predicate Bound(t: Tables, id: nat, url: string) {
    ConversationUrl(url) && id in t.requests && ObRuns.Shows(t.conversations, t.requests[id].project, url)
  }

  /** An answer is saved together with the page it was read from. */
  predicate AnswersHaveUrls(w: World) {
    forall id :: id in w.journals && w.journals[id].phase.Answered? ==> w.journals[id].url.Some?
  }

  ghost predicate Tracked(w: World) {
    && Inv(w) && ObRuns.Inv(w.t) && BoundOnceRead(w) && AnswersHaveUrls(w)
    && (!w.worker.Down? && !w.worker.Idle? ==> w.worker.token != "")
  }

  lemma RememberBinds(t: Tables, id: nat, url: string, now: int)
    requires ObRuns.Inv(t) && RememberUrl(t, id, url, now).Ok?
    ensures Bound(RememberUrl(t, id, url, now).tables, id, url)
  {
    hide BindUrl, ConversationUrl, ObRuns.RequestInv, ObRuns.Owned, ObRuns.Current;
    var at := ObRuns.BindKeeps(t, id, url, now);
    var t' := RememberUrl(t, id, url, now).tables;
    ObRuns.LiveIsCurrent(t'.conversations, at, t.requests[id].project);
  }

  /** Binding what is live already changes nothing. */
  lemma BoundBindsToItself(t: Tables, id: nat, url: string, now: int)
    requires Bound(t, id, url)
    ensures BindUrl(t, t.requests[id], url, now) == Ok(t)
    ensures RememberUrl(t, id, url, now).Ok? && RememberUrl(t, id, url, now).tables.conversations == t.conversations
  {
  }

  lemma ShowsStays(t: Tables, op: ObRuns.Op, pid: string, url: string)
    requires ObRuns.Inv(t) && ObRuns.Possible(t, op) && ObRuns.Shows(t.conversations, pid, url)
    requires !ObRuns.Rotates(t, op, pid)
    ensures ObRuns.Shows(ObRuns.After(t, op).conversations, pid, url)
  {
    hide ObRuns.Inv, ObRuns.After;
    ObRuns.StepKeeps(t, op);
    ObRuns.LiveReplacedByRotation(t, op, pid);
  }

  /** While a worker decides, nobody but itself rotates its project. */
  lemma NobodyElseRotates(w: World, a: Act)
    requires Inv(w) && ObRuns.Inv(w.t) && Enabled(w, a) && w.worker.Deciding? && Do(w, a).worker == w.worker
    requires ObRuns.Rotates(w.t, Transaction(w, a), w.t.requests[w.worker.id].project)
    ensures (a.Command? && a.op.RememberUrl? && a.op.id == w.worker.id) || Do(w, a).t == w.t
  {
    hide NoResend, SentSince, BindUrl, ObRuns.ConversationInv;
    assert OwnedBy(w.t, w.worker.id, Some(w.worker.token));
  }

  lemma BoundStays(w: World, a: Act)
    requires Tracked(w) && Enabled(w, a) && w.worker.Deciding? && Do(w, a).worker == w.worker
    requires w.worker.seen.Read? && w.worker.seen.entry.Some? && w.worker.seen.entry.value.url.Some?
    ensures Bound(Do(w, a).t, w.worker.id, w.worker.seen.entry.value.url.value)
  {
    hide NoResend, SentSince, BindUrl, Inv, ObRuns.Inv, ConversationUrl, ObRuns.Shows, Finish, RememberUrl;
    var (id, url, op) := (w.worker.id, w.worker.seen.entry.value.url.value, Transaction(w, a));
    InvMeans(w);
    StepIsTransaction(w, a);
    ObRuns.DoneStepIsFinal(w.t, op, id);
    if ObRuns.Rotates(w.t, op, w.t.requests[id].project) {
      NobodyElseRotates(w, a);
      if Do(w, a).t != w.t {
        assert op.url == url;
        OwnLookChangesNothing(w.t, op);
      }
    } else {
      ShowsStays(w.t, op, w.t.requests[id].project, url);
    }
  }

  lemma OwnLookChangesNothing(t: Tables, op: ObRuns.Op)
    requires op.RememberUrl? && Bound(t, op.id, op.url)
    ensures Bound(ObRuns.After(t, op), op.id, op.url)
  {
    hide BindUrl;
    BoundBindsToItself(t, op.id, op.url, op.now);
  }

  lemma LookBinds(w: World, a: Act)
    requires Tracked(w) && Enabled(w, a) && a.ReadJournal?
    ensures BoundOnceRead(Do(w, a))
  {
    hide NoResend, SentSince, BindUrl, Inv, ObRuns.Inv, ConversationUrl, ObRuns.Shows;
    var e := EntryOf(w, w.worker.id);
    if e.Some? && e.value.url.Some? && RememberUrl(w.t, w.worker.id, e.value.url.value, a.now).Ok? {
      RememberBinds(w.t, w.worker.id, e.value.url.value, a.now);
    }
  }

  lemma UrlsKept(w: World, a: Act)
    requires AnswersHaveUrls(w) && Enabled(w, a)
    ensures AnswersHaveUrls(Do(w, a))
  {
    hide ObRuns.After;
  }

  lemma StepTracked(w: World, a: Act)
    requires Tracked(w) && Enabled(w, a)
    ensures Tracked(Do(w, a))
  {
    hide Inv, ObRuns.Inv, Bound, AnswersHaveUrls;
    UrlsKept(w, a);
    StepKeeps(w, a);
    StepIsTransaction(w, a);
    ObRuns.StepKeeps(w.t, Transaction(w, a));
    if a.ReadJournal? {
      LookBinds(w, a);
    } else if Do(w, a).worker.Deciding? {
      assert Do(w, a).worker == w.worker;
      if w.worker.seen.Read? && w.worker.seen.entry.Some? && w.worker.seen.entry.value.url.Some? {
        BoundStays(w, a);
      }
    }
  }

  lemma {:induction false} RunTracked(w: World, acts: seq<Act>)
    requires Initial(w) && ObRuns.Inv(w.t) && Runs(w, acts)
    ensures Tracked(Final(w, acts))
  {
    hide Tracked;
    if acts == [] {
      StartTracked(w);
    } else {
      RunTracked(w, acts[..|acts| - 1]);
      StepTracked(Final(w, acts[..|acts| - 1]), Last(acts));
    }
  }

  lemma StartTracked(w: World)
    requires Initial(w) && ObRuns.Inv(w.t)
    ensures Tracked(w)
  {
    InitialHolds(w);
  }

  // ---------------------------------------------------------------- how a request with an answer on record ends

  /**
    When `operate` has read the answer: done if the store takes it, else failed if a second look succeeds,
    else unknown.
  */
  lemma AnswerReadEnds(w: World, a: Act)
    requires Inv(w) && Enabled(w, a) && a.WriteResult? && w.worker.seen.Read?
      && Journal(w, w.worker.id) == Some(Answered)
    ensures var (id, taken) := (w.worker.id,
                                ObRuns.Answer(w.t, FinishOn(w, w.worker.id, Some(w.worker.token), a.now)).Ok?);
      && (StatusIs(Do(w, a).t, id, Done) <==> taken)
      && (StatusIs(Do(w, a).t, id, Failed) <==> !taken && LooksWell(w, a.readable, a.now))
      && (StatusIs(Do(w, a).t, id, Unknown) <==> !taken && !LooksWell(w, a.readable, a.now))
  {
    hide NoResend, SentSince, BindUrl, ConversationUrl, BlankText, AddTurn;
    InvMeans(w);
    var e := w.journals[w.worker.id];
    ObRuns.BindKeepsRequests(w.t, w.t.requests[w.worker.id], UrlIn(e), a.now);
  }

  /**
    When it could not, or never came to look because an error came first, such as the time limit of the
    script: failed if the look after the error succeeds, although there is an answer, else unknown.
  */
  lemma AnswerUnreadEnds(w: World, a: Act)
    requires Inv(w) && Enabled(w, a) && a.WriteResult? && w.worker.seen.Unreadable?
      && Journal(w, w.worker.id) == Some(Answered)
    ensures StatusIs(Do(w, a).t, w.worker.id, Failed) <==> LooksWell(w, a.readable, a.now)
    ensures StatusIs(Do(w, a).t, w.worker.id, Unknown) <==> !LooksWell(w, a.readable, a.now)
  {
    hide NoResend, SentSince, RememberUrl;
    InvMeans(w);
  }

  /** Once a look has succeeded the store takes every answer that is not blank to it. */
  lemma ReadAnswerIsTaken(w: World, now: int)
    requires Tracked(w) && w.worker.Deciding? && w.worker.seen.Read? && Journal(w, w.worker.id) == Some(Answered)
    ensures ObRuns.Answer(w.t, FinishOn(w, w.worker.id, Some(w.worker.token), now)).Ok? <==>
      !BlankText(w.journals[w.worker.id].answer)
    ensures UrlTakes(w.t, w.worker.id, EntryOf(w, w.worker.id), now)
  {
    hide NoResend, SentSince, BindUrl, ConversationUrl, ObRuns.Inv, ObRuns.Shows;
    InvMeans(w);
    BoundBindsToItself(w.t, w.worker.id, w.journals[w.worker.id].url.value, now);
  }

  /**
    So a request whose answer is on record ends `failed`, its journal done, exactly when the look after an
    error succeeded and either none had before, whether it failed or was never made, or the answer is blank
    to the store.
  */
  lemma AnsweredFailsExactly(w: World, a: Act)
    requires Tracked(w) && Enabled(w, a) && a.WriteResult? && Journal(w, w.worker.id) == Some(Answered)
    ensures StatusIs(Do(w, a).t, w.worker.id, Failed)
      <==> LooksWell(w, a.readable, a.now) && (w.worker.seen.Unreadable? || BlankText(w.journals[w.worker.id].answer))
    ensures Journal(Do(w, a), w.worker.id) == Some(Answered)
  {
    hide Tracked, Inv, LooksWell, BlankText, Finish;
    assert Inv(w) by {
      TrackedMeans(w);
    }
    if w.worker.seen.Read? {
      AnswerReadEnds(w, a);
      ReadAnswerIsTaken(w, a.now);
    } else {
      AnswerUnreadEnds(w, a);
    }
  }

  lemma TrackedMeans(w: World)
    requires Tracked(w)
    ensures Inv(w) && ObRuns.Inv(w.t) && BoundOnceRead(w) && AnswersHaveUrls(w)
  {
  }

  /** A look that fails twice on a journal that is there leaves the request unknown. */
  lemma UnreadIsUnknown(w: World, a: Act)
    requires Inv(w) && Enabled(w, a) && a.WriteResult? && w.worker.seen.Unreadable? && w.worker.id in w.journals
    requires !LooksWell(w, a.readable, a.now)
    ensures StatusIs(Do(w, a).t, w.worker.id, Unknown)
  {
    hide NoResend, SentSince, LooksWell;
    InvMeans(w);
  }

  /** A url the store refuses makes both looks fail, so the request stays unknown. */
  lemma RefusedUrlIsUnknown(w: World, look: Act, write: Act)
    requires Inv(w) && w.worker.Settling? && look.ReadJournal? && write.WriteResult? && Runs(w, [look, write])
    requires w.worker.id in w.journals && w.journals[w.worker.id].url.Some?
    requires ObModel.RememberUrl(w.t, w.worker.id, w.journals[w.worker.id].url.value, look.now).Err?
    requires ObModel.RememberUrl(w.t, w.worker.id, w.journals[w.worker.id].url.value, write.now).Err?
    ensures StatusIs(Final(w, [look, write]).t, w.worker.id, Unknown)
  {
    hide Inv, RememberUrl;
    TwoActs(w, look, write);
    StepKeeps(w, look);
    RefusedLook(w, look);
    UnreadIsUnknown(Do(w, look), write);
  }

  lemma RefusedLook(w: World, look: Act)
    requires Enabled(w, look) && look.ReadJournal? && w.worker.id in w.journals && w.journals[w.worker.id].url.Some?
    requires ObModel.RememberUrl(w.t, w.worker.id, w.journals[w.worker.id].url.value, look.now).Err?
    ensures Do(w, look) == w.(worker := Deciding(w.worker.id, w.worker.token, w.worker.why, Unreadable))
  {
    hide RememberUrl;
  }

  lemma TwoActs(w: World, a: Act, b: Act)
    requires Runs(w, [a, b])
    ensures Enabled(w, a) && Enabled(Do(w, a), b) && Final(w, [a, b]) == Do(Do(w, a), b)
  {
    hide Enabled, Do;
    assert [a, b][..1] == [a] && [a][..0] == [];
    assert Final(w, [a]) == Do(Final(w, []), a);
  }

  // ---------------------------------------------------------------- two runs

  lemma OneMoreAct(w: World, acts: seq<Act>, a: Act)
    requires Runs(w, acts) && Enabled(Final(w, acts), a)
    ensures Runs(w, acts + [a]) && Final(w, acts + [a]) == Do(Final(w, acts), a)
  {
    hide Enabled, Do;
    assert (acts + [a])[..|acts|] == acts;
  }

  function Chat(name: string): string { URL_PREFIX + name }

  lemma ChatIsUrl(name: string)
    requires name != "" && forall c :: c in name ==> UrlChar(c)
    ensures ConversationUrl(Chat(name))
  {
    assert Chat(name)[|URL_PREFIX|..] == name;
  }

  /** A project with a conversation, and one request that is not to rotate it. */
  function Asked(status: Status, token: Option<string>): Tables {
    Tables(map["p" := Project("P", Some(Chat("a")))],
           map[1 := Request("p", "r", "q", None, status, None, None, None, 0, false, token)],
           [Conversation("p", Chat("a"), 0, 1, None)], 0)
  }

  function Start(): World { World(Asked(Pending, None), map[], Down, Away, []) }

  /** The worker has the request, and its script has come to an end with an answer from `url` on record. */
  function Returned(url: string): World {
    World(Asked(Running, Some("k")), map[1 := Entry(Answered, Some(url), "yes")], Returning(1, "k"), Away, [Send(1)])
  }

  function Claiming(): seq<Act> { [StartWorker, ClaimNext(1, "k", 0), TakeBrowser, Launch(0, 0, 0)] }

  function Asking(url: string): seq<Act> {
    Claiming() + [SavePreparing(Some(Chat("a")))] + [SaveDispatching(Some(Chat("a")))] + [Click] + [SaveSent(url)]
    + [SaveAnswer("yes", url)] + [ScriptStops]
  }

  lemma StartHolds()
    ensures Initial(Start()) && ObRuns.Inv(Start().t)
  {
    assert Start().t.conversations[..0] == [];
    assert ObModel.LiveAt(Start().t.conversations, 0, "p");
  }

  lemma ClaimingRuns()
    ensures Runs(Start(), Claiming())
    ensures Final(Start(), Claiming())
      == World(Asked(Running, Some("k")), map[], Scripting(1, "k", Began), Away, [])
  {
    hide Recover, NextClaim, Claim, Asked, RotateDue, Runs, Final;
    FirstClaim();
    var w := Start();
    NoActs(w);
    assert [] + [StartWorker] == [StartWorker];
    OneMoreAct(w, [], StartWorker);
    assert [StartWorker] + [ClaimNext(1, "k", 0)] == [StartWorker, ClaimNext(1, "k", 0)];
    OneMoreAct(w, [StartWorker], ClaimNext(1, "k", 0));
    assert Claiming()[..3] == [StartWorker, ClaimNext(1, "k", 0)] + [TakeBrowser];
    OneMoreAct(w, [StartWorker, ClaimNext(1, "k", 0)], TakeBrowser);
    assert Claiming() == Claiming()[..3] + [Launch(0, 0, 0)];
    OneMoreAct(w, Claiming()[..3], Launch(0, 0, 0));
  }

  lemma NoActs(w: World)
    ensures Runs(w, []) && Final(w, []) == w
  {
  }

  lemma FirstClaim()
    ensures Recover(Asked(Pending, None)) == Asked(Pending, None) && NextClaim(Asked(Pending, None), 1, 0)
    ensures Claim(Asked(Pending, None), 1, "k") == Asked(Running, Some("k"))
    ensures OwnedBy(Asked(Running, Some("k")), 1, Some("k"))
    ensures !RotateDue(Asked(Running, Some("k")), "p", 0, 0, 0) && Asked(Running, Some("k")).requests[1].project == "p"
  {
    assert !ProjectHeld(Asked(Pending, None), "p");
  }

  lemma AskingRuns(url: string)
    ensures Runs(Start(), Asking(url)) && Final(Start(), Asking(url)) == Returned(url)
  {
    hide Claiming, Start, Asked, Runs, Final;
    ClaimingRuns();
    var w, known := Start(), Some(Chat("a"));
    var acts := Claiming();
    OneMoreAct(w, acts, SavePreparing(known));
    OneMoreAct(w, acts + [SavePreparing(known)], SaveDispatching(known));
    OneMoreAct(w, acts + [SavePreparing(known)] + [SaveDispatching(known)], Click);
    OneMoreAct(w, acts + [SavePreparing(known)] + [SaveDispatching(known)] + [Click], SaveSent(url));
    OneMoreAct(w, acts + [SavePreparing(known)] + [SaveDispatching(known)] + [Click] + [SaveSent(url)],
               SaveAnswer("yes", url));
    OneMoreAct(w, acts + [SavePreparing(known)] + [SaveDispatching(known)] + [Click] + [SaveSent(url)]
                  + [SaveAnswer("yes", url)], ScriptStops);
  }

  lemma ReturnedTracked(url: string)
    ensures Tracked(Returned(url))
  {
    hide Tracked, Runs, Final, Start, Asking, Returned;
    StartHolds();
    AskingRuns(url);
    RunTracked(Start(), Asking(url));
  }

  lemma YesIsAnAnswer()
    ensures !BlankText("yes")
  {
    assert "yes"[0] == 'y' && 'y' in "yes" && !White('y');
  }

  /** An answer from another conversation than the live one of a project that is not to rotate is refused. */
  lemma StrayedRefuses(now: int)
    ensures ObModel.RememberUrl(Asked(Running, Some("k")), 1, Chat("b"), now) == Err(ConversationChanged)
    ensures ObRuns.Answer(Asked(Running, Some("k")), FinishOn(Returned(Chat("b")), 1, Some("k"), now))
      == Err(ConversationChanged)
  {
    var t := Asked(Running, Some("k"));
    ChatIsUrl("b");
    YesIsAnAnswer();
    assert Chat("a")[|URL_PREFIX|] != Chat("b")[|URL_PREFIX|];
    assert t.conversations[..0] == [];
    assert ObModel.LiveAt(t.conversations, 0, "p");
    assert BindUrl(t, t.requests[1], Chat("b"), now) == Err(ConversationChanged);
  }

  /**
    A run from the start in which a request ends unknown although its answer is on record and every look
    could read the file: the answer came from another conversation, and the store says `ConversationChanged`
    to the answer and to both looks.
  */
  lemma StrayedAnswerIsUnknown() returns (w: World, acts: seq<Act>, look: Act, write: Act)
    ensures Initial(w) && ObRuns.Inv(w.t) && look == ReadJournal(true, 0) && write == WriteResult(true, 0)
    ensures Runs(w, acts + [look] + [write]) && Runs(w, acts)
    ensures var seen := Final(w, acts);
      && seen.worker.Settling? && Journal(seen, 1) == Some(Answered) && !BlankText(seen.journals[1].answer)
      && ObRuns.Answer(seen.t, FinishOn(seen, 1, Some("k"), 0)) == Err(ConversationChanged)
    ensures Final(w, acts + [look] + [write]).log == [Send(1)]
    ensures StatusIs(Final(w, acts + [look] + [write]).t, 1, Unknown)
  {
    hide Start, Asking, Runs, Final, Asked, BindUrl, Tracked, Inv, RememberUrl, Finish, ConversationUrl;
    StartHolds();
    AskingRuns(Chat("b"));
    YesIsAnAnswer();
    StrayedRefuses(0);
    var stop := FinishFromJournal(0);
    w, acts, look, write := Start(), Asking(Chat("b")) + [stop], ReadJournal(true, 0), WriteResult(true, 0);
    OneMoreAct(w, Asking(Chat("b")), stop);
    var settling := Final(w, acts);
    assert settling == Returned(Chat("b")).(worker := Settling(1, "k", Other));
    ReturnedTracked(Chat("b"));
    StepTracked(Returned(Chat("b")), stop);
    TrackedMeans(settling);
    RunningIsNotDone();
    OneMoreAct(w, acts, look);
    RefusedLook(settling, look);
    OneMoreAct(w, acts + [look], write);
    TwoActsRun(settling, look, write);
    TwoActs(settling, look, write);
    RefusedUrlIsUnknown(settling, look, write);
  }

  lemma RunningIsNotDone()
    ensures !StatusIs(Asked(Running, Some("k")), 1, Done)
  {
  }

  /**
    A run from the start in which a request ends failed although its answer is on record and the store
    would have taken it: the script saved the answer and was then cut off by its time limit, so the worker
    never looked before it handled the error.
  */
  lemma AnsweredCanFail() returns (w: World, acts: seq<Act>, look: Act, write: Act)
    ensures Initial(w) && ObRuns.Inv(w.t) && look == ReadJournal(false, 0) && write == WriteResult(true, 0)
    ensures Runs(w, acts + [look] + [write]) && Runs(w, acts)
    ensures var seen := Final(w, acts);
      && seen.worker.Settling? && Journal(seen, 1) == Some(Answered)
      && ObRuns.Answer(seen.t, FinishOn(seen, 1, Some("k"), 0)).Ok?
    ensures var end := Final(w, acts + [look] + [write]);
      && StatusIs(end.t, 1, Failed) && Journal(end, 1) == Some(Answered) && end.log == [Send(1)]
  {
    hide Start, Asking, Runs, Final, Asked, BindUrl, Tracked, Inv, RememberUrl, Finish, ConversationUrl;
    StartHolds();
    AskingRuns(Chat("a"));
    var stop := GiveUp(Other);
    w, acts, look, write := Start(), Asking(Chat("a")) + [stop], ReadJournal(false, 0), WriteResult(true, 0);
    OneMoreAct(w, Asking(Chat("a")), stop);
    var settling := Final(w, acts);
    assert settling == Returned(Chat("a")).(worker := Settling(1, "k", Other));
    ReturnedTracked(Chat("a"));
    StepTracked(Returned(Chat("a")), stop);
    RunningIsNotDone();
    LiveIsTaken();
    OneMoreAct(w, acts, look);
    var deciding := Do(settling, look);
    assert deciding == settling.(worker := Deciding(1, "k", Other, Unreadable));
    StepTracked(settling, look);
    TrackedMeans(deciding);
    OneMoreAct(w, acts + [look], write);
    AnswerUnreadEnds(deciding, write);
  }

  /** The answer and the url of the live conversation are taken. */
  lemma LiveIsTaken()
    ensures UrlTakes(Asked(Running, Some("k")), 1, Some(Entry(Answered, Some(Chat("a")), "yes")), 0)
    ensures ObRuns.Answer(Asked(Running, Some("k")), FinishOn(Returned(Chat("a")), 1, Some("k"), 0)).Ok?
  {
    var t := Asked(Running, Some("k"));
    ChatIsUrl("a");
    YesIsAnAnswer();
    assert t.conversations[..0] == [];
    assert ObRuns.Shows(t.conversations, "p", Chat("a"));
    BoundBindsToItself(t, 1, Chat("a"), 0);
  }

  lemma TwoActsRun(w: World, a: Act, b: Act)
    requires Enabled(w, a) && Enabled(Do(w, a), b)
    ensures Runs(w, [a, b])
  {
    hide Enabled, Do;
    assert [a, b][..1] == [a] && [a][..0] == [];
    assert Runs(w, []) && Final(w, []) == w;
    assert Runs(w, [a]) && Final(w, [a]) == Do(w, a);
  }
}
