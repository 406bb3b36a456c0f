/**
  What each transaction of the OB store takes, refuses and leaves, said of the rows alone, for tables that
  satisfy the store's invariant.
*/
module ObMeaning {
  import opened Prelude
  import opened ObModel
  import opened ObRuns

  // ---------------------------------------------------------------- inputs

  /** An AG Man project id: 26 characters of its base-32 alphabet, which leaves out I, L, O and U. */
  predicate IsProjectId(s: string) { |s| == 26 && forall c :: c in s ==> c in "0123456789ABCDEFGHJKMNPQRSTVWXYZ" }

  /** `https://chatgpt.com/c/` and at least one letter, digit or hyphen. */
  predicate IsChatUrl(s: string) {
    && |s| > 22 && s[..22] == "https://chatgpt.com/c/"
    && forall i :: 22 <= i < |s| ==>
      'a' <= s[i] <= 'z' || 'A' <= s[i] <= 'Z' || '0' <= s[i] <= '9' || s[i] == '-'
  }

  predicate HasText(s: string) { exists c :: c in s && !White(c) }

  lemma ProjectIds(s: string)
    ensures ProjectId(s) <==> IsProjectId(s)
  {
    forall c ensures UlidChar(c) <==> c in "0123456789ABCDEFGHJKMNPQRSTVWXYZ" {
    }
  }

  lemma ChatUrls(s: string)
    ensures ConversationUrl(s) <==> IsChatUrl(s)
  {
    if URL_PREFIX <= s {
      assert s[..22] == URL_PREFIX;
      forall i | 22 <= i < |s| ensures s[22..][i - 22] == s[i] {
      }
      assert forall i :: 22 <= i < |s| ==> s[i] in s[22..];
    }
  }

  /** What does not count as text: the 29 characters Python's `strip` removes. */
  lemma WhiteExactly(c: char)
    ensures White(c) <==> c as int in {
      9, 10, 11, 12, 13, 28, 29, 30, 31, 32, 133, 160, 5760, 8192, 8193, 8194, 8195, 8196, 8197, 8198, 8199, 8200, 8201,
      8202, 8232, 8233, 8239, 8287, 12288}
  {
  }

  // ---------------------------------------------------------------- constraints

  /**
    Each statement is refused exactly if its row would share a key or a url with another: the violations of
    which `ObRuns.StepKeeps` shows that no transaction meets one, and which `link` would report as an owner.
  */
  lemma ConstraintsExactly(t: Tables, pid: string, title: string, url: string, now: int, id: nat, rid: string,
                           question: string)
    ensures InsertConversation(t, pid, url, now) == Err(ConstraintViolation) <==>
      exists i :: 0 <= i < |t.conversations| && t.conversations[i].url == url
    ensures SetProjectUrl(t, pid, url) == Err(ConstraintViolation) <==>
      pid in t.projects && exists p :: p in t.projects && p != pid && t.projects[p].url == Some(url)
    ensures UpsertProject(t, pid, title, url) == Err(ConstraintViolation) <==>
      exists p :: p in t.projects && p != pid && t.projects[p].url == Some(url)
    ensures Acceptable(pid, rid, question, false) && (forall k :: k in t.requests ==> !KeyOf(t.requests[k], pid, rid))
      ==> (ObModel.Submit(t, pid, title, rid, question, None, false, id, now) == Err(ConstraintViolation)
           <==> id in t.requests)
    ensures ObModel.Link(t, pid, title, url, now) == Err(ConstraintViolation) ==>
      LinkCaught(t, pid, title, url, now) == Err(ConversationAlreadyOwned)
    ensures ObModel.Link(t, pid, title, url, now) != Err(ConstraintViolation) ==>
      LinkCaught(t, pid, title, url, now) == ObModel.Link(t, pid, title, url, now)
  {
    ProjectIds(pid);
    hide ProjectId, IsProjectId, ObModel.Link;
    assert BlankText(question) <==> !HasText(question);
    hide BlankText, HasText;
    assert forall k :: k in t.requests ==> (SameKey(t.requests[k], pid, rid) <==> KeyOf(t.requests[k], pid, rid));
  }

  // ---------------------------------------------------------------- submit

  predicate Acceptable(pid: string, rid: string, question: string, secret: bool) {
    && IsProjectId(pid) && 1 <= |rid| <= 200 && HasText(question) && |question| <= 100_000 && !secret
  }

  predicate KeyOf(r: Request, pid: string, rid: string) { r.project == pid && r.requestId == rid }

  predicate OnRecord(t: Tables, pid: string, rid: string, question: string, source: Option<string>) {
    exists k :: k in t.requests && KeyOf(t.requests[k], pid, rid)
      && t.requests[k].question == question && t.requests[k].source == source
  }

  /** A row that asks nothing but this yet. */
  function NewRow(pid: string, rid: string, question: string, source: Option<string>, now: int): Request {
    Request(pid, rid, question, source, Pending, None, None, None, now, false, None)
  }

  /**
    A submit succeeds exactly on acceptable input whose key is new or is on record with the same question
    and source.  Then that question is on record: already, with nothing changed, or as one new pending row.
  */
  lemma SubmitExactly(t: Tables, pid: string, title: string, rid: string, question: string, source: Option<string>,
                      secret: bool, id: nat, now: int)
    requires Inv(t) && id !in t.requests
    ensures var (o, known) := (ObModel.Submit(t, pid, title, rid, question, source, secret, id, now),
                               exists k :: k in t.requests && KeyOf(t.requests[k], pid, rid));
      && (o.Ok? <==> Acceptable(pid, rid, question, secret) && (known ==> OnRecord(t, pid, rid, question, source)))
      && (o.Err? ==> o.error == if Acceptable(pid, rid, question, secret) then RequestMismatch else BadInput)
      && (o.Ok? ==> OnRecord(o.tables, pid, rid, question, source))
      && (o.Ok? && known ==> o.tables == t)
      && (o.Ok? && !known ==>
        && o.tables.requests == t.requests[id := NewRow(pid, rid, question, source, now)]
        && o.tables.conversations == t.conversations && o.tables.retryAfter == t.retryAfter
        && o.tables.projects
          == t.projects[pid := Project(title, if pid in t.projects then t.projects[pid].url else None)])
  {
    hide ObModel.Submit, Inv, Acceptable, OnRecord;
    if k :| k in t.requests && KeyOf(t.requests[k], pid, rid) {
      OneRowPerKey(t, k, pid, rid);
      KnownSubmit(t, pid, title, rid, question, source, secret, id, now, k);
    } else {
      NewSubmit(t, pid, title, rid, question, source, secret, id, now);
    }
  }

  lemma AcceptableExactly(pid: string, rid: string, question: string, secret: bool)
    ensures Acceptable(pid, rid, question, secret) <==>
      ProjectId(pid) && rid != "" && |rid| <= 200 && !BlankText(question) && |question| <= MAX_QUESTION_CHARS && !secret
  {
    ProjectIds(pid);
    assert BlankText(question) <==> !HasText(question);
    hide ProjectId, IsProjectId, BlankText, HasText;
  }

  lemma KnownSubmit(t: Tables, pid: string, title: string, rid: string, question: string, source: Option<string>,
                    secret: bool, id: nat, now: int, k: nat)
    requires k in t.requests && KeyOf(t.requests[k], pid, rid)
    requires forall j :: j in t.requests && KeyOf(t.requests[j], pid, rid) ==> j == k
    ensures OnRecord(t, pid, rid, question, source) <==>
      t.requests[k].question == question && t.requests[k].source == source
    ensures ObModel.Submit(t, pid, title, rid, question, source, secret, id, now)
      == if !Acceptable(pid, rid, question, secret) then Err(BadInput)
         else if OnRecord(t, pid, rid, question, source) then Ok(t) else Err(RequestMismatch)
  {
    AcceptableExactly(pid, rid, question, secret);
    hide Acceptable, ProjectId, BlankText;
    assert forall j :: j in t.requests ==> (SameKey(t.requests[j], pid, rid) <==> KeyOf(t.requests[j], pid, rid));
  }

  lemma NewSubmit(t: Tables, pid: string, title: string, rid: string, question: string, source: Option<string>,
                  secret: bool, id: nat, now: int)
    requires id !in t.requests && !exists k :: k in t.requests && KeyOf(t.requests[k], pid, rid)
    ensures var o := ObModel.Submit(t, pid, title, rid, question, source, secret, id, now);
      if !Acceptable(pid, rid, question, secret) then o == Err(BadInput)
      else
        && o.Ok? && OnRecord(o.tables, pid, rid, question, source)
        && o.tables.requests == t.requests[id := NewRow(pid, rid, question, source, now)]
        && o.tables.conversations == t.conversations && o.tables.retryAfter == t.retryAfter
        && o.tables.projects
          == t.projects[pid := Project(title, if pid in t.projects then t.projects[pid].url else None)]
  {
    AcceptableExactly(pid, rid, question, secret);
    hide Acceptable, ProjectId, BlankText, OnRecord;
    assert forall j :: j in t.requests ==> (SameKey(t.requests[j], pid, rid) <==> KeyOf(t.requests[j], pid, rid));
    var o := ObModel.Submit(t, pid, title, rid, question, source, secret, id, now);
    if o.Ok? {
      NewIsOnRecord(o.tables, id, pid, rid, question, source, now);
    }
  }

  lemma NewIsOnRecord(t: Tables, id: nat, pid: string, rid: string, question: string, source: Option<string>, now: int)
    requires id in t.requests && t.requests[id] == NewRow(pid, rid, question, source, now)
    ensures OnRecord(t, pid, rid, question, source)
  {
    assert KeyOf(t.requests[id], pid, rid);
  }

  lemma OneRowPerKey(t: Tables, k: nat, pid: string, rid: string)
    requires Inv(t) && k in t.requests && KeyOf(t.requests[k], pid, rid)
    ensures forall j :: j in t.requests && KeyOf(t.requests[j], pid, rid) ==> j == k
  {
    hide ConversationInv;
  }

  /** The row of a key asks the same question, for the same source, in every later state of a run. */
  lemma {:induction false} QuestionStands(t: Tables, ops: seq<Op>, id: nat)
    requires Runs(t, ops) && id in t.requests
    ensures id in Final(t, ops).requests && SameQuestion(t.requests[id], Final(t, ops).requests[id])
  {
    if ops != [] {
      QuestionStands(t, ops[..|ops| - 1], id);
      DoneStepIsFinal(Final(t, ops[..|ops| - 1]), Last(ops), id);
    }
  }

  /**
    So whoever submitted a question and later finds the row of its key answered finds an answer to that
    question: no run puts another under the key.
  */
  lemma AnswerIsToTheQuestion(t: Tables, op: Op, ops: seq<Op>, id: nat)
    requires Inv(t) && op.Submit? && Possible(t, op) && Answer(t, op).Ok? && Runs(After(t, op), ops)
    requires id in Final(After(t, op), ops).requests && KeyOf(Final(After(t, op), ops).requests[id], op.pid, op.rid)
    ensures var r := Final(After(t, op), ops).requests[id]; r.question == op.question && r.source == op.source
  {
    hide Inv, Runs, Final, ObModel.Submit;
    SubmitExactly(t, op.pid, op.title, op.rid, op.question, op.source, op.secret, op.id, op.now);
    var t1 := After(t, op);
    var k :| k in t1.requests && KeyOf(t1.requests[k], op.pid, op.rid)
      && t1.requests[k].question == op.question && t1.requests[k].source == op.source;
    QuestionStands(t1, ops, k);
    StepKeeps(t, op);
    InvStands(t1, ops);
    OneRowPerKey(Final(t1, ops), k, op.pid, op.rid);
  }

  lemma {:induction false} InvStands(t: Tables, ops: seq<Op>)
    requires Inv(t) && Runs(t, ops)
    ensures Inv(Final(t, ops))
  {
    hide Inv;
    if ops != [] {
      InvStands(t, ops[..|ops| - 1]);
      StepKeeps(Final(t, ops[..|ops| - 1]), Last(ops));
    }
  }

  // ---------------------------------------------------------------- conversations

  /** Row `i` is the conversation a project is having. */
  predicate Having(t: Tables, pid: string, i: int) {
    0 <= i < |t.conversations| && t.conversations[i].project == pid && t.conversations[i].retired.None?
  }

  lemma HavingOne(t: Tables, pid: string)
    requires Inv(t)
    ensures match CurrentConversation(t.conversations, pid)
            case Some(i) => Having(t, pid, i) && forall j :: Having(t, pid, j) ==> j == i
            case None => forall j :: !Having(t, pid, j)
  {
    hide RequestInv, Owned, Current;
    match CurrentConversation(t.conversations, pid)
    case Some(i) =>
      forall j | Having(t, pid, j) ensures j == i {
        assert LiveAt(t.conversations, j, pid);
      }
    case None =>
      forall j ensures !Having(t, pid, j) {
        assert !LiveAt(t.conversations, j, pid);
      }
  }

  predicate HasUrl(t: Tables, i: int, url: string) { 0 <= i < |t.conversations| && t.conversations[i].url == url }

  lemma UrlMeans(t: Tables, url: string)
    requires Inv(t)
    ensures match UrlAt(t.conversations, url)
            case Some(i) => HasUrl(t, i, url) && forall j :: HasUrl(t, j, url) ==> j == i
            case None => forall j :: !HasUrl(t, j, url)
  {
    hide RequestInv, Owned, Current;
  }

  /** The project is having the conversation at `url`. */
  predicate HavingAt(t: Tables, pid: string, url: string) {
    exists i :: 0 <= i < |t.conversations| && Having(t, pid, i) && t.conversations[i].url == url
  }

  predicate HavingAnother(t: Tables, pid: string, url: string) {
    exists i :: 0 <= i < |t.conversations| && Having(t, pid, i) && t.conversations[i].url != url
  }

  predicate Elsewhere(t: Tables, pid: string, url: string) {
    exists i :: 0 <= i < |t.conversations| && HasUrl(t, i, url) && t.conversations[i].project != pid
  }

  function Moved(t: Tables, pid: string, url: string, now: int, i: nat): Conversation
    requires i < |t.conversations|
  {
    var c := t.conversations[i];
    if c.url == url then c.(retired := None) else if Having(t, pid, i) then c.(retired := Some(now)) else c
  }

  /** The conversations after `pid` has moved to `url`: what it was having retired, that one going on or new. */
  predicate MovedTo(t: Tables, t': Tables, pid: string, url: string, now: int) {
    && |t.conversations| <= |t'.conversations|
    && (forall i :: 0 <= i < |t.conversations| ==> t'.conversations[i] == Moved(t, pid, url, now, i))
    && if exists i :: 0 <= i < |t.conversations| && HasUrl(t, i, url)
       then |t'.conversations| == |t.conversations|
       else
         && |t'.conversations| == |t.conversations| + 1
         && Last(t'.conversations) == Conversation(pid, url, now, 0, None)
  }

  /**
    Recording a url for a request: done already if its project is having that conversation; refused if it
    is having another and the request does not rotate, or if the url is another project's; otherwise the
    project moves to it.
  */
  lemma BindExactly(t: Tables, job: Request, url: string, now: int)
    requires Inv(t) && job.project in t.projects
    ensures var (o, pid) := (BindUrl(t, job, url, now), job.project);
      && (o == Err(ConversationChanged) <==> HavingAnother(t, pid, url) && !job.rotate)
      && (o == Err(ConversationAlreadyOwned) <==>
        !HavingAt(t, pid, url) && !(HavingAnother(t, pid, url) && !job.rotate) && Elsewhere(t, pid, url))
      && (o.Err? ==> o.error == ConversationChanged || o.error == ConversationAlreadyOwned)
      && (o.Ok? && HavingAt(t, pid, url) ==> o.tables == t)
      && (o.Ok? && !HavingAt(t, pid, url) ==>
        && MovedTo(t, o.tables, pid, url, now)
        && o.tables.projects == t.projects[pid := t.projects[pid].(url := Some(url))]
        && o.tables.requests == t.requests && o.tables.retryAfter == t.retryAfter)
  {
    var pid := job.project;
    HavingOne(t, pid);
    UrlMeans(t, url);
    NotTakenElse(t, pid, url);
    var live := CurrentConversation(t.conversations, pid);
    if live.Some? {
      var cs := Retire(t.conversations, live.value, now);
      UrlUntouched(t.conversations, cs, url);
      hide Inv;
      if job.rotate && t.conversations[live.value].url != url {
        assert UrlAt(cs, url) == UrlAt(t.conversations, url);
        MovedAfterRetiring(t, job, url, now, live.value);
      }
    } else {
      hide Inv;
      MovedAtFirst(t, job, url, now);
    }
  }

  lemma NotTakenElse(t: Tables, pid: string, url: string)
    requires Inv(t)
    ensures !Elsewhere(t, pid, url) ==> !UrlTaken(t, pid, url)
  {
    if UrlTaken(t, pid, url) {
      var p :| p in t.projects && p != pid && t.projects[p].url == Some(url);
      var i := CurrentConversation(t.conversations, p).value;
      assert HasUrl(t, i, url) && t.conversations[i].project != pid;
    }
  }

  lemma MovedAfterRetiring(t: Tables, job: Request, url: string, now: int, i: nat)
    requires Having(t, job.project, i) && (forall j :: Having(t, job.project, j) ==> j == i)
    requires CurrentConversation(t.conversations, job.project) == Some(i) && t.conversations[i].url != url && job.rotate
    requires UrlAt(Retire(t.conversations, i, now), url) == UrlAt(t.conversations, url)
    requires match UrlAt(t.conversations, url)
             case Some(i) => HasUrl(t, i, url) && forall j :: HasUrl(t, j, url) ==> j == i
             case None => forall j :: !HasUrl(t, j, url)
    requires job.project in t.projects && (!Elsewhere(t, job.project, url) ==> !UrlTaken(t, job.project, url))
    ensures var o := BindUrl(t, job, url, now);
      && (Elsewhere(t, job.project, url) ==> o == Err(ConversationAlreadyOwned))
      && (!Elsewhere(t, job.project, url) ==>
        && o.Ok? && MovedTo(t, o.tables, job.project, url, now)
        && o.tables.projects == t.projects[job.project := t.projects[job.project].(url := Some(url))]
        && o.tables.requests == t.requests && o.tables.retryAfter == t.retryAfter)
  {
  }

  lemma MovedAtFirst(t: Tables, job: Request, url: string, now: int)
    requires (forall j :: !Having(t, job.project, j)) && CurrentConversation(t.conversations, job.project).None?
    requires match UrlAt(t.conversations, url)
             case Some(i) => HasUrl(t, i, url) && forall j :: HasUrl(t, j, url) ==> j == i
             case None => forall j :: !HasUrl(t, j, url)
    requires job.project in t.projects && (!Elsewhere(t, job.project, url) ==> !UrlTaken(t, job.project, url))
    ensures var o := BindUrl(t, job, url, now);
      && (Elsewhere(t, job.project, url) ==> o == Err(ConversationAlreadyOwned))
      && (!Elsewhere(t, job.project, url) ==>
        && o.Ok? && MovedTo(t, o.tables, job.project, url, now)
        && o.tables.projects == t.projects[job.project := t.projects[job.project].(url := Some(url))]
        && o.tables.requests == t.requests && o.tables.retryAfter == t.retryAfter)
  {
  }

  // ---------------------------------------------------------------- answers and urls

  /** Whether `BindExactly` lets the row's project have `url`. */
  predicate MayHave(t: Tables, r: Request, url: string) {
    && (HavingAnother(t, r.project, url) ==> r.rotate)
    && (HavingAt(t, r.project, url) || !Elsewhere(t, r.project, url))
  }

  /** The project of `r` has `url` from now on, if it had not, and nothing else of it changed. */
  predicate Bound(t: Tables, t': Tables, r: Request, url: string, now: int) {
    && t'.retryAfter == t.retryAfter
    && if HavingAt(t, r.project, url) then t'.conversations == t.conversations && t'.projects == t.projects
       else
         && MovedTo(t, t', r.project, url, now) && r.project in t.projects
         && t'.projects == t.projects[r.project := t.projects[r.project].(url := Some(url))]
  }

  lemma BindIs(t: Tables, r: Request, url: string, now: int)
    requires Inv(t) && r.project in t.projects
    ensures var o := BindUrl(t, r, url, now);
      && (o.Ok? <==> MayHave(t, r, url))
      && (o.Ok? ==> Bound(t, o.tables, r, url, now) && o.tables.requests == t.requests)
      && (o.Err? ==> o.error == if HavingAnother(t, r.project, url) && !r.rotate then ConversationChanged
                                else ConversationAlreadyOwned)
  {
    HavingOne(t, r.project);
    hide BindUrl, Inv, MovedTo, Having;
    BindExactly(t, r, url, now);
  }

  /** Remembering a url takes every chat url the row's project may have, for any row, and writes that url. */
  lemma RememberExactly(t: Tables, id: nat, url: string, now: int)
    requires Inv(t)
    ensures var o := ObModel.RememberUrl(t, id, url, now);
      && (o.Ok? <==> IsChatUrl(url) && id in t.requests && MayHave(t, t.requests[id], url))
      && (o.Ok? ==>
        && Bound(t, o.tables, t.requests[id], url, now)
        && o.tables.requests == t.requests[id := t.requests[id].(url := Some(url))])
      && (o.Err? ==> o.error == if !IsChatUrl(url) then BadInput else if id !in t.requests then RequestNotFound
                                else if HavingAnother(t, t.requests[id].project, url) && !t.requests[id].rotate
                                then ConversationChanged else ConversationAlreadyOwned)
  {
    ChatUrls(url);
    hide BindUrl, ConversationUrl, IsChatUrl, Bound, MayHave, ConversationInv;
    if id in t.requests {
      BindIs(t, t.requests[id], url, now);
      hide Inv;
      if BindUrl(t, t.requests[id], url, now).Ok? {
        SameBound(t, BindUrl(t, t.requests[id], url, now).tables, id, t.requests[id].(url := Some(url)), url, now);
      }
    }
  }

  lemma SameBound(t: Tables, t1: Tables, id: nat, r: Request, url: string, now: int)
    requires id in t.requests && Bound(t, t1, t.requests[id], url, now)
    ensures Bound(t, Put(t1, id, r), t.requests[id], url, now)
  {
  }

  /** The row may take an answer under this token: running for it, or unknown. */
  predicate Awaits(r: Request, token: Option<string>) {
    r.status == Unknown || (r.status == Running && token.Some? && token.value != "" && r.token == token)
  }

  /** The turn of `url` counted, every other conversation as it was. */
  predicate OneTurnMore(cs: seq<Conversation>, cs': seq<Conversation>, url: string) {
    |cs'| == |cs| && forall i :: 0 <= i < |cs| ==>
      cs'[i] == if cs[i].url == url then cs[i].(turns := cs[i].turns + 1) else cs[i]
  }

  /** Why a row that is not answered does not take an answer. */
  function NoFinish(t: Tables, r: Request, token: Option<string>, url: string): Error {
    if r.status != Running && r.status != Unknown then RequestNotRunning
    else if !Awaits(r, token) then ClaimLost
    else if HavingAnother(t, r.project, url) && !r.rotate then ConversationChanged
    else ConversationAlreadyOwned
  }

  /**
    An answer is taken exactly if it has text and a chat url its project may have, for a row that awaits it
    under that token; an answered row takes it too but keeps its own.  Then it is the row's answer, its url
    is bound and counted as a turn.
  */
  lemma FinishExactly(t: Tables, id: nat, answer: string, url: string, token: Option<string>, now: int)
    requires Inv(t)
    ensures var (o, sound) := (ObModel.Finish(t, id, answer, url, token, now),
                               IsChatUrl(url) && HasText(answer) && id in t.requests);
      && (o.Ok? <==> sound && (t.requests[id].status == Done
                               || (Awaits(t.requests[id], token) && MayHave(t, t.requests[id], url))))
      && (o.Ok? && t.requests[id].status == Done ==> o.tables == t)
      && (o.Ok? && t.requests[id].status != Done ==> exists t1 ::
        && Bound(t, t1, t.requests[id], url, now) && OneTurnMore(t1.conversations, o.tables.conversations, url)
        && o.tables.projects == t1.projects && o.tables.retryAfter == t.retryAfter
        && o.tables.requests == t.requests[id := t.requests[id].(status := Done, answer := Some(answer),
                                                                  url := Some(url), error := None)])
  {
    ChatUrls(url);
    assert BlankText(answer) <==> !HasText(answer);
    hide BindUrl, ConversationUrl, IsChatUrl, Bound, MayHave, ConversationInv, BlankText, HasText;
    if id in t.requests {
      BindIs(t, t.requests[id], url, now);
      hide Inv;
      if BindUrl(t, t.requests[id], url, now).Ok? {
        var t1 := BindUrl(t, t.requests[id], url, now).tables;
        assert OneTurnMore(t1.conversations, AddTurn(t1.conversations, url), url);
      }
    }
  }

  /** What an answer that is not taken is told: the first thing that stands against it. */
  lemma FinishRefusesExactly(t: Tables, id: nat, answer: string, url: string, token: Option<string>, now: int)
    requires Inv(t)
    ensures var o := ObModel.Finish(t, id, answer, url, token, now);
      o.Err? ==> o.error == if !IsChatUrl(url) then BadInput else if !HasText(answer) then EmptyAnswer
                            else if id !in t.requests then RequestNotFound
                            else NoFinish(t, t.requests[id], token, url)
  {
    ChatUrls(url);
    assert BlankText(answer) <==> !HasText(answer);
    hide BindUrl, ConversationUrl, IsChatUrl, Bound, MayHave, BlankText, HasText, HavingAnother, AddTurn;
    if id in t.requests {
      BindIs(t, t.requests[id], url, now) by {
        hide ConversationInv;
      }
    }
    hide Inv;
  }

  // ---------------------------------------------------------------- link

  predicate Busy(t: Tables, pid: string) {
    exists k :: k in t.requests && t.requests[k].project == pid
      && (t.requests[k].status == Running || t.requests[k].status == Unknown)
  }

  /**
    A link is made exactly for a valid project and url, if the project has no other url and no request out,
    and no other project has the url.  Then the project has that title and url and is having that
    conversation, which is a new row unless it was on record; nothing else changes.
  */
  lemma LinkExactly(t: Tables, pid: string, title: string, url: string, now: int)
    requires Inv(t)
    ensures var (o, linked) := (ObModel.Link(t, pid, title, url, now),
                                pid in t.projects && t.projects[pid].url.Some? && t.projects[pid].url != Some(url));
      && (o.Ok? <==> IsProjectId(pid) && IsChatUrl(url) && !linked && !Busy(t, pid) && !Elsewhere(t, pid, url))
      && (o.Err? ==> o.error == if !IsProjectId(pid) || !IsChatUrl(url) then BadInput
                                else if linked then ProjectAlreadyLinked
                                else if Busy(t, pid) then ProjectBusyOrUnknown else ConversationAlreadyOwned)
      && (o.Ok? ==>
        && o.tables.projects == t.projects[pid := Project(title, Some(url))]
        && o.tables.requests == t.requests && o.tables.retryAfter == t.retryAfter
        && HavingAt(o.tables, pid, url)
        && o.tables.conversations == if exists i :: 0 <= i < |t.conversations| && HasUrl(t, i, url) then t.conversations
                                     else t.conversations + [Conversation(pid, url, now, 0, None)])
  {
    ProjectIds(pid);
    ChatUrls(url);
    UrlMeans(t, url);
    NotTakenElse(t, pid, url);
    var o := ObModel.Link(t, pid, title, url, now);
    assert Busy(t, pid) <==> ProjectHeld(t, pid);
    if o.Ok? {
      LinkKeeps(t, pid, title, url, now);
      NowHaving(o.tables, pid, url);
    }
  }

  lemma NowHaving(t: Tables, pid: string, url: string)
    requires Inv(t) && pid in t.projects && t.projects[pid].url == Some(url)
    ensures HavingAt(t, pid, url)
  {
    hide RequestInv, UrlsDistinct, OneLive, Owned;
    var i := CurrentConversation(t.conversations, pid).value;
    assert Having(t, pid, i);
  }

  // ---------------------------------------------------------------- claiming

  /** The row waits and nothing of its project is out. */
  predicate Waits(t: Tables, k: nat) {
    k in t.requests && (t.requests[k].status == Pending || t.requests[k].status == WaitingQuota)
      && !Busy(t, t.requests[k].project)
  }

  /**
    The row that is claimed is, once the queue need not wait, the oldest that waits, by creation time and
    then id; it is then running under the token, and every other row is as it was.
  */
  lemma ClaimExactly(t: Tables, id: nat, token: string, now: int)
    ensures NextClaim(t, id, now) <==>
      t.retryAfter <= now && Waits(t, id)
      && forall k :: k in t.requests && Waits(t, k) && k != id ==>
        t.requests[id].created < t.requests[k].created || (t.requests[id].created == t.requests[k].created && id < k)
    ensures id in t.requests ==>
      ObModel.Claim(t, id, token).requests
        == t.requests[id := t.requests[id].(status := Running, token := Some(token), error := None)]
      && ObModel.Claim(t, id, token).(requests := t.requests) == t
  {
    forall k ensures Claimable(t, k) <==> Waits(t, k) {
      if k in t.requests {
        assert ProjectHeld(t, t.requests[k].project) <==> Busy(t, t.requests[k].project);
      }
    }
  }

  /** After a restart every running row is unknown and without its token; every other row is as it was. */
  lemma RecoverExactly(t: Tables, id: nat)
    ensures id in ObModel.Recover(t).requests <==> id in t.requests
    ensures id in t.requests && t.requests[id].status != Running ==> ObModel.Recover(t).requests[id] == t.requests[id]
    ensures id in t.requests && t.requests[id].status == Running ==>
      ObModel.Recover(t).requests[id]
      == t.requests[id].(status := Unknown, token := None,
                         error := Some("worker_interrupted; inspect original conversation"))
    ensures ObModel.Recover(t).(requests := t.requests) == t
  {
  }

  /** The row runs under this token. */
  predicate RunsUnder(t: Tables, id: nat, token: Option<string>) {
    id in t.requests && t.requests[id].status == Running && token.Some? && t.requests[id].token == token
  }

  /** Only the row `id` differs: it has this status and error. */
  predicate OnlyBecame(t: Tables, t': Tables, id: nat, status: Status, error: Option<string>)
    requires id in t.requests
  {
    && t'.projects == t.projects && t'.conversations == t.conversations
    && t'.requests == t.requests[id := t.requests[id].(status := status, error := error)]
  }

  /**
    A failure or requeue changes exactly the row running under the token, to the status asked for and with
    the reason given; after a quota failure the queue waits for half an hour.
  */
  lemma HandBackExactly(t: Tables, id: nat, status: Status, why: string, token: Option<string>, now: int)
    ensures var o := ObModel.Fail(t, id, status, why, token, now);
      if status != Failed && status != Unknown && status != WaitingQuota then o == Err(InvalidFailure)
      else if !RunsUnder(t, id, token) then o == Ok(t)
      else
        o.Ok? && OnlyBecame(t, o.tables, id, status, Some(why))
        && o.tables.retryAfter == if status == WaitingQuota then now + 1800 else t.retryAfter
    ensures var t' := ObModel.Requeue(t, id, why, token);
      if RunsUnder(t, id, token) then OnlyBecame(t, t', id, Pending, Some(why)) && t'.retryAfter == t.retryAfter
      else t' == t
  {
  }

  /** Exactly a failed or quota-waiting row is retried, as pending and without an error, and the queue goes on. */
  lemma RetryExactly(t: Tables, id: nat)
    ensures var o := ObModel.Retry(t, id);
      if id !in t.requests then o == Err(RequestNotFound)
      else if t.requests[id].status != Failed && t.requests[id].status != WaitingQuota then o == Err(NotRetryable)
      else o.Ok? && OnlyBecame(t, o.tables, id, Pending, None) && o.tables.retryAfter == 0
  {
  }

  /** Exactly an unknown row is resolved, if that is confirmed, as pending and with that noted. */
  lemma ResolveExactly(t: Tables, id: nat, confirmed: bool)
    ensures var o := ObModel.Resolve(t, id, confirmed);
      if id !in t.requests then o == Err(RequestNotFound)
      else if t.requests[id].status != Unknown then o == Err(RequestNotUnknown)
      else if !confirmed then o == Err(NotConfirmed)
      else
        o.Ok? && OnlyBecame(t, o.tables, id, Pending, Some("operator_confirmed_not_sent"))
        && o.tables.retryAfter == t.retryAfter
  {
  }

  // ---------------------------------------------------------------- rotation

  /** A conversation is due after so many turns or so long, where zero switches that off. */
  lemma RotationIsDueExactly(t: Tables, pid: string, turns: int, age: int, now: int)
    requires Inv(t)
    ensures RotateDue(t, pid, turns, age, now) <==> exists i ::
      && 0 <= i < |t.conversations| && Having(t, pid, i)
      && ((turns > 0 && t.conversations[i].turns >= turns) || (age > 0 && now >= t.conversations[i].started + age))
  {
    HavingOne(t, pid);
  }

  /** The conversation the project is having has at least `turns` turns; everything else is as it was. */
  predicate TurnsRaised(t: Tables, t': Tables, pid: string, turns: int) {
    && t'.(conversations := t.conversations) == t && |t'.conversations| == |t.conversations|
    && forall i :: 0 <= i < |t.conversations| ==> t'.conversations[i] == Raised(t, pid, turns, i)
  }

  function Raised(t: Tables, pid: string, turns: int, i: nat): Conversation
    requires i < |t.conversations|
  {
    var c := t.conversations[i];
    if Having(t, pid, i) && c.turns < turns then c.(turns := turns) else c
  }

  predicate HavesOne(t: Tables, pid: string) { exists i :: 0 <= i < |t.conversations| && Having(t, pid, i) }

  /**
    A request to rotate succeeds exactly if the project is having a conversation; from then on that is due,
    whatever its age, and every other project's rotation is as due as it was.
  */
  lemma RequestedRotationIsDue(t: Tables, pid: string, turns: int, age: int, now: int, other: string)
    requires Inv(t)
    ensures var o := ObModel.RequestRotation(t, pid, turns);
      && (o.Ok? <==> IsProjectId(pid) && HavesOne(t, pid))
      && (o.Err? ==> o.error == if IsProjectId(pid) then NoConversationYet else BadInput)
      && (o.Ok? ==> TurnsRaised(t, o.tables, pid, turns))
      && (o.Ok? && turns > 0 ==> RotateDue(o.tables, pid, turns, age, now))
      && (o.Ok? && other != pid ==> RotateDue(o.tables, other, turns, age, now) == RotateDue(t, other, turns, age, now))
  {
    ProjectIds(pid);
    HavingOne(t, pid);
    hide RotateDue, IsProjectId, ProjectId;
    var o := ObModel.RequestRotation(t, pid, turns);
    if o.Ok? {
      RotationKeeps(t, pid, turns);
      hide Inv;
      assert TurnsRaised(t, o.tables, pid, turns);
      hide ObModel.RequestRotation;
      RaisedIsDue(t, o.tables, pid, turns, age, now, other);
    }
  }

  lemma RaisedIsDue(t: Tables, t': Tables, pid: string, turns: int, age: int, now: int, other: string)
    requires Inv(t) && Inv(t') && TurnsRaised(t, t', pid, turns) && HavesOne(t, pid)
    ensures turns > 0 ==> RotateDue(t', pid, turns, age, now)
    ensures other != pid ==> RotateDue(t', other, turns, age, now) == RotateDue(t, other, turns, age, now)
  {
    hide Inv, RotateDue;
    RotationIsDueExactly(t', pid, turns, age, now);
    RotationIsDueExactly(t, other, turns, age, now);
    RotationIsDueExactly(t', other, turns, age, now);
    assert forall i, p :: Having(t', p, i) <==> Having(t, p, i);
    if other != pid {
      assert forall i :: Having(t, other, i) ==> t'.conversations[i] == t.conversations[i];
    }
  }

  /** Marking a request to rotate is possible while it waits or runs, and changes nothing else. */
  lemma MarkExactly(t: Tables, id: nat, on: bool)
    ensures var o := ObModel.MarkRotate(t, id, on);
      if id in t.requests && (t.requests[id].status == Running || t.requests[id].status == Pending)
      then o == Ok(t.(requests := t.requests[id := t.requests[id].(rotate := on)]))
      else o == Err(if id in t.requests then RequestNotRunning else RequestNotFound)
  {
  }

  // ---------------------------------------------------------------- the upgrade

  function Answered(t: Tables, pid: string): set<nat> {
    set k | k in t.requests && t.requests[k].project == pid && t.requests[k].status == Done
  }

  predicate IsFirst(t: Tables, answers: set<nat>, k: nat) {
    k in t.requests && forall j :: j in answers ==> j in t.requests && t.requests[k].created <= t.requests[j].created
  }

  /**
    A conversation the upgrade adds is its project's, live, with one turn for each of its answers, and
    starts with the first of them; without one, or where that has no time, it starts now.
  */
  lemma UpgradeAdds(t: Tables, t': Tables, now: int, i: nat)
    requires Migrated(t, t', now) && |t.conversations| <= i < |t'.conversations|
    ensures var (c, answers) := (t'.conversations[i], Answered(t, t'.conversations[i].project));
      && c.project in t.projects && t.projects[c.project].url == Some(c.url) && c.retired.None?
      && c.turns == |answers|
      && (answers == {} ==> c.started == now)
      && (answers != {} ==>
        exists k :: k in answers && IsFirst(t, answers, k)
          && c.started == if t.requests[k].created != 0 then t.requests[k].created else now)
      && (forall j :: 0 <= j < |t.conversations| ==> t.conversations[j].url != c.url)
  {
    var c := t'.conversations[i];
    assert MigratedRow(t, c, now);
    assert DoneOf(t, c.project) == Answered(t, c.project);
    if DoneOf(t, c.project) != {} {
      var k :| k in DoneOf(t, c.project) && FirstAnswer(t, c.project, k)
        && c.started == (if t.requests[k].created != 0 then t.requests[k].created else now);
      assert IsFirst(t, DoneOf(t, c.project), k);
    }
  }
}
