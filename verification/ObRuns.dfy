/**
  Every run of the OB store.  A run starts from empty tables, or from tables upgraded from the
  schema without conversations, and makes any transactions in any order with any arguments.
*/
module ObRuns {
  import opened Prelude
  import opened ObModel

  // ---------------------------------------------------------------- transactions

  datatype Op =
    | Submit(pid: string, title: string, rid: string, question: string, source: Option<string>, secret: bool, id: nat,
             now: int)
    | Link(pid: string, title: string, url: string, now: int)
    | RequestRotation(pid: string, rotateTurns: int)
    | MarkRotate(id: nat, on: bool)
    | Claim(id: nat, token: string, now: int)
    | Finish(id: nat, answer: string, url: string, fence: Option<string>, now: int)
    | RememberUrl(id: nat, url: string, now: int)
    | Fail(id: nat, status: Status, why: string, fence: Option<string>, now: int)
    | Requeue(id: nat, why: string, fence: Option<string>)
    | Retry(id: nat)
    | Recover
    | Resolve(id: nat, confirmed: bool)
    | Reopen(now: int)

  /** What a transaction answers.  `Reopen` runs the upgrade, which finds nothing to do (`ReopenIsIdle`). */
  function Answer(t: Tables, op: Op): Outcome
    requires op.Claim? ==> op.id in t.requests
  {
    match op
    case Submit(pid, title, rid, question, source, secret, id, now) => ObModel.Submit(t, pid, title, rid, question,
                                                                                      source, secret, id, now)
    case Link(pid, title, url, now) => ObModel.Link(t, pid, title, url, now)
    case RequestRotation(pid, turns) => ObModel.RequestRotation(t, pid, turns)
    case MarkRotate(id, on) => ObModel.MarkRotate(t, id, on)
    case Claim(id, token, now) => Ok(ObModel.Claim(t, id, token))
    case Finish(id, answer, url, fence, now) => ObModel.Finish(t, id, answer, url, fence, now)
    case RememberUrl(id, url, now) => ObModel.RememberUrl(t, id, url, now)
    case Fail(id, status, why, fence, now) => ObModel.Fail(t, id, status, why, fence, now)
    case Requeue(id, why, fence) => Ok(ObModel.Requeue(t, id, why, fence))
    case Retry(id) => ObModel.Retry(t, id)
    case Recover => Ok(ObModel.Recover(t))
    case Resolve(id, confirmed) => ObModel.Resolve(t, id, confirmed)
    case Reopen(now) => Ok(t)
  }

  /** What the surroundings owe: a fresh id for a new row, and a claim only of the row `claim` would pick. */
  predicate Possible(t: Tables, op: Op) {
    && (op.Submit? ==> op.id !in t.requests)
    && (op.Claim? ==> NextClaim(t, op.id, op.now))
  }

  function After(t: Tables, op: Op): Tables
    requires Possible(t, op)
  {
    match Answer(t, op)
    case Ok(t') => t'
    case Err(_) => t
  }


  function Final(t: Tables, ops: seq<Op>): Tables
    requires Runs(t, ops)
    decreases |ops|, 1
  {
    if ops == [] then t else After(Final(t, ops[..|ops| - 1]), Last(ops))
  }

  predicate Runs(t: Tables, ops: seq<Op>)
    decreases |ops|, 0
  {
    ops == [] || (Runs(t, ops[..|ops| - 1]) && Possible(Final(t, ops[..|ops| - 1]), Last(ops)))
  }

  // ---------------------------------------------------------------- the invariant

  predicate UrlsDistinct(cs: seq<Conversation>) { forall i, j :: 0 <= i < j < |cs| ==> cs[i].url != cs[j].url }

  predicate OneLive(cs: seq<Conversation>) {
    forall i, j :: 0 <= i < j < |cs| && cs[i].retired.None? && cs[j].retired.None? ==> cs[i].project != cs[j].project
  }

  predicate Owned(ps: map<string, Project>, cs: seq<Conversation>) {
    forall i :: 0 <= i < |cs| ==> cs[i].project in ps && ps[cs[i].project].url.Some?
  }

  /** `projects.url` is the url of that project's live conversation. */
  predicate Current(ps: map<string, Project>, cs: seq<Conversation>) {
    forall p :: p in ps && ps[p].url.Some? ==> Shows(cs, p, ps[p].url.value)
  }

  predicate Shows(cs: seq<Conversation>, pid: string, url: string) {
    var live := CurrentConversation(cs, pid);
    live.Some? && cs[live.value].url == url
  }

  predicate ConversationInv(ps: map<string, Project>, cs: seq<Conversation>) {
    UrlsDistinct(cs) && OneLive(cs) && Owned(ps, cs) && Current(ps, cs)
  }

  predicate RequestInv(ps: map<string, Project>, rs: map<nat, Request>) {
    && (forall id :: id in rs ==> rs[id].project in ps)
    && (forall a, b :: a in rs && b in rs && a != b && rs[a].project == rs[b].project ==>
        rs[a].requestId != rs[b].requestId)
    && (forall a, b :: a in rs && b in rs && a != b && Holds(rs[a]) && Holds(rs[b]) ==> rs[a].project != rs[b].project)
  }

  predicate Inv(t: Tables) { ConversationInv(t.projects, t.conversations) && RequestInv(t.projects, t.requests) }

  // ---------------------------------------------------------------- turns

  function One(b: bool): int { if b then 1 else 0 }

  function TurnSum(cs: seq<Conversation>, pid: string): int {
    if cs == [] then 0
    else TurnSum(cs[..|cs| - 1], pid) + (if Last(cs).project == pid then Last(cs).turns else 0)
  }

  /**
    The conversations of every project hold at least as many turns as it has answers; exactly as many while
    nobody asks for a rotation.
  */
  ghost predicate TurnsCover(t: Tables) { forall pid :: TurnSum(t.conversations, pid) >= |DoneOf(t, pid)| }

  ghost predicate TurnsExact(t: Tables) { forall pid :: TurnSum(t.conversations, pid) == |DoneOf(t, pid)| }

  lemma {:induction false} TurnsAgree(a: seq<Conversation>, b: seq<Conversation>, pid: string)
    requires |a| == |b| && forall i :: 0 <= i < |a| ==> a[i].project == b[i].project && a[i].turns == b[i].turns
    ensures TurnSum(a, pid) == TurnSum(b, pid)
  {
    if a != [] {
      TurnsAgree(a[..|a| - 1], b[..|b| - 1], pid);
    }
  }

  lemma {:induction false} TurnsAt(cs: seq<Conversation>, at: nat, turns: int, pid: string)
    requires at < |cs|
    ensures TurnSum(cs[at := cs[at].(turns := turns)], pid) == TurnSum(cs, pid) + (if cs[at].project == pid then
                                                            turns - cs[at].turns else 0)
  {
    var cs' := cs[at := cs[at].(turns := turns)];
    if at == |cs| - 1 {
      assert cs'[..at] == cs[..at];
    } else {
      TurnsAt(cs[..|cs| - 1], at, turns, pid);
      assert cs'[..|cs| - 1] == cs[..|cs| - 1][at := cs[at].(turns := turns)];
    }
  }

  lemma TurnsAppend(cs: seq<Conversation>, c: Conversation, pid: string)
    ensures TurnSum(cs + [c], pid) == TurnSum(cs, pid) + (if c.project == pid then c.turns else 0)
  {
    assert (cs + [c])[..|cs|] == cs;
  }

  // ---------------------------------------------------------------- conversations

  lemma LiveIsCurrent(cs: seq<Conversation>, i: nat, pid: string)
    requires OneLive(cs) && LiveAt(cs, i, pid)
    ensures CurrentConversation(cs, pid) == Some(i)
  {
    var at := CurrentConversation(cs, pid);
    assert at.Some?;
  }

  lemma UrlIsAt(cs: seq<Conversation>, i: nat)
    requires UrlsDistinct(cs) && i < |cs|
    ensures UrlAt(cs, cs[i].url) == Some(i)
  {
    var at := UrlAt(cs, cs[i].url);
    assert at.Some?;
  }

  predicate SameRow(c: Conversation, c': Conversation) {
    c'.project == c.project && c'.url == c.url && c'.started == c.started
  }

  /** A conversation row is never dropped, handed to another project or given another url. */
  predicate Grows(cs: seq<Conversation>, cs': seq<Conversation>) {
    |cs| <= |cs'| && forall i :: 0 <= i < |cs| ==> SameRow(cs[i], cs'[i])
  }

  /** Row `at` has become the live conversation of `pid`, and the only one; at most that row is new. */
  predicate NowCurrent(cs: seq<Conversation>, cs': seq<Conversation>, pid: string, url: string, at: nat) {
    && Grows(cs, cs') && at < |cs'| <= |cs| + 1
    && (|cs'| > |cs| ==> at == |cs| && cs'[at].turns == 0 && UrlAt(cs, url).None?)
    && LiveAt(cs', at, pid) && cs'[at].url == url
    && forall i :: 0 <= i < |cs| ==>
      cs'[i].turns == cs[i].turns && (cs[i].project != pid ==> cs'[i] == cs[i])
        && (cs[i].project == pid && i != at ==> cs'[i].retired.Some?)
  }

  lemma NowCurrentKeeps(ps: map<string, Project>, cs: seq<Conversation>, cs': seq<Conversation>, pid: string,
                        url: string, at: nat)
    requires ConversationInv(ps, cs) && pid in ps && NowCurrent(cs, cs', pid, url, at)
    ensures ConversationInv(ps[pid := ps[pid].(url := Some(url))], cs')
  {
    var ps' := ps[pid := ps[pid].(url := Some(url))];
    assert UrlsDistinct(cs');
    assert OneLive(cs');
    LiveIsCurrent(cs', at, pid);
    forall p | p in ps' && ps'[p].url.Some? ensures Shows(cs', p, ps'[p].url.value) {
      if p != pid {
        var i := CurrentConversation(cs, p).value;
        assert cs'[i] == cs[i];
        LiveIsCurrent(cs', i, p);
      }
    }
  }

  lemma NowCurrentTurns(cs: seq<Conversation>, cs': seq<Conversation>, pid: string, url: string, at: nat, p: string)
    requires NowCurrent(cs, cs', pid, url, at)
    ensures TurnSum(cs', p) == TurnSum(cs, p)
  {
    TurnsAgree(cs, cs'[..|cs|], p);
    if |cs'| > |cs| {
      assert cs' == cs'[..|cs|] + [cs'[at]];
      TurnsAppend(cs'[..|cs|], cs'[at], p);
    } else {
      assert cs'[..|cs|] == cs';
    }
  }

  /** Binding a url succeeds with that conversation live and `projects.url` agreeing, and never trips a constraint. */
  lemma BindUrlShape(t: Tables, job: Request, url: string, now: int) returns (at: nat)
    requires ConversationInv(t.projects, t.conversations) && job.project in t.projects
    ensures BindUrl(t, job, url, now) != Err(ConstraintViolation)
    ensures BindUrl(t, job, url, now).Ok? ==> var t' := BindUrl(t, job, url, now).tables;
      t' == t.(projects := t.projects[job.project := t.projects[job.project].(url := Some(url))],
               conversations := t'.conversations)
      && NowCurrent(t.conversations, t'.conversations, job.project, url, at)
  {
    hide NowCurrent, UrlsDistinct, OneLive;
    var pid := job.project;
    var cs := t.conversations;
    var live := CurrentConversation(cs, pid);
    at := 0;
    if live.Some? && cs[live.value].url == url {
      at := live.value;
      StillCurrent(cs, pid, url, at);
      assert t.projects[pid].url == Some(url);
      assert t.projects[pid := t.projects[pid].(url := Some(url))] == t.projects;
      return;
    }
    if live.Some? && !job.rotate {
      return;
    }
    var cs1 := Retired(cs, pid, now);
    assert UrlAt(cs1, url) == UrlAt(cs, url) by {
      UrlUntouched(cs, cs1, url);
    }
    var owner := UrlAt(cs1, url);
    if owner.Some? && cs1[owner.value].project != pid {
      return;
    }
    NotTaken(t, pid, url);
    RetiredThen(cs, pid, url, now);
    at := if owner.Some? then owner.value else |cs|;
  }

  /** The rows with the live conversation of `pid` retired, if there is one. */
  function Retired(cs: seq<Conversation>, pid: string, now: int): seq<Conversation> {
    var live := CurrentConversation(cs, pid);
    if live.Some? then Retire(cs, live.value, now) else cs
  }

  lemma RetiredRows(cs: seq<Conversation>, pid: string, now: int)
    requires OneLive(cs)
    ensures |Retired(cs, pid, now)| == |cs|
    ensures forall i :: 0 <= i < |cs| ==> OnlyRetired(cs[i], Retired(cs, pid, now)[i], pid)
  {
    forall i | 0 <= i < |cs| ensures OnlyRetired(cs[i], Retired(cs, pid, now)[i], pid) {
      if LiveAt(cs, i, pid) {
        LiveIsCurrent(cs, i, pid);
      }
    }
  }

  predicate OnlyRetired(c: Conversation, c': Conversation, pid: string) {
    SameRow(c, c') && c'.turns == c.turns && (if c.project == pid then c'.retired.Some? else c' == c)
  }

  lemma RetiredThen(cs: seq<Conversation>, pid: string, url: string, now: int)
    requires UrlsDistinct(cs) && OneLive(cs)
    ensures var cs1 := Retired(cs, pid, now);
      match UrlAt(cs, url)
      case Some(at) => cs[at].project == pid ==> NowCurrent(cs, Revive(cs1, url), pid, url, at)
      case None => NowCurrent(cs, cs1 + [Conversation(pid, url, now, 0, None)], pid, url, |cs|)
  {
    hide Retired, OneLive;
    RetiredRows(cs, pid, now);
  }

  lemma StillCurrent(cs: seq<Conversation>, pid: string, url: string, at: nat)
    requires OneLive(cs) && LiveAt(cs, at, pid) && cs[at].url == url
    ensures NowCurrent(cs, cs, pid, url, at)
  {
  }

  lemma {:induction false} UrlUntouched(a: seq<Conversation>, b: seq<Conversation>, url: string)
    requires |a| == |b| && forall i :: 0 <= i < |a| ==> a[i].url == b[i].url
    ensures UrlAt(a, url) == UrlAt(b, url)
  {
    if a != [] {
      UrlUntouched(a[..|a| - 1], b[..|b| - 1], url);
    }
  }

  lemma NotTaken(t: Tables, pid: string, url: string)
    requires ConversationInv(t.projects, t.conversations)
    requires UrlAt(t.conversations, url).Some? ==> t.conversations[UrlAt(t.conversations, url).value].project == pid
    ensures !UrlTaken(t, pid, url)
  {
    forall p | p in t.projects && p != pid ensures t.projects[p].url != Some(url) {
      if t.projects[p].url == Some(url) {
        UrlIsAt(t.conversations, CurrentConversation(t.conversations, p).value);
      }
    }
  }

  lemma RowsAlike(ps: map<string, Project>, cs: seq<Conversation>, ps': map<string, Project>, cs': seq<Conversation>)
    requires ConversationInv(ps, cs)
    requires |cs'| == |cs| && forall i :: 0 <= i < |cs| ==> SameRow(cs[i], cs'[i]) && cs'[i].retired == cs[i].retired
    requires ps.Keys <= ps'.Keys
    requires forall p :: p in ps' ==> ps'[p].url == if p in ps then ps[p].url else None
    ensures ConversationInv(ps', cs')
  {
    forall p | p in ps' && ps'[p].url.Some? ensures Shows(cs', p, ps'[p].url.value) {
      LiveIsCurrent(cs', CurrentConversation(cs, p).value, p);
    }
  }

  // ---------------------------------------------------------------- requests

  lemma PutKeeps(ps: map<string, Project>, rs: map<nat, Request>, ps': map<string, Project>, id: nat, r: Request)
    requires RequestInv(ps, rs) && ps.Keys <= ps'.Keys
    requires id in rs && r.project == rs[id].project && r.requestId == rs[id].requestId
    requires Holds(r) ==> Holds(rs[id]) || forall k :: k in rs && rs[k].project == r.project ==> !Holds(rs[k])
    ensures RequestInv(ps', rs[id := r])
  {
  }

  lemma InsertKeeps(ps: map<string, Project>, rs: map<nat, Request>, ps': map<string, Project>, id: nat, r: Request)
    requires RequestInv(ps, rs) && ps.Keys <= ps'.Keys && r.project in ps' && !Holds(r)
    requires forall k :: k in rs ==> !SameKey(rs[k], r.project, r.requestId)
    ensures RequestInv(ps', rs[id := r])
  {
  }

  lemma RecoverKeeps(t: Tables)
    requires RequestInv(t.projects, t.requests)
    ensures RequestInv(t.projects, ObModel.Recover(t).requests)
  {
    assert forall id :: id in t.requests ==> Holds(ObModel.Recover(t).requests[id]) == Holds(t.requests[id]);
  }

  // ---------------------------------------------------------------- one transaction

  /** What every transaction keeps. */
  predicate Kept(t: Tables, o: Outcome) {
    match o
    case Err(e) => e != ConstraintViolation
    case Ok(t') => Inv(t') && Grows(t.conversations, t'.conversations)
  }

  lemma SubmitKeeps(t: Tables, op: Op)
    requires Inv(t) && op.Submit? && Possible(t, op)
    ensures Kept(t, Answer(t, op))
  {
    hide ConversationInv, RequestInv;
    match Answer(t, op)
    case Ok(t') =>
      RowsAlike(t.projects, t.conversations, t'.projects, t.conversations);
      if t' != t {
        InsertKeeps(t.projects, t.requests, t'.projects, op.id, t'.requests[op.id]);
      }
    case Err(_) =>
  }

  lemma LinkKeeps(t: Tables, pid: string, title: string, url: string, now: int)
    requires Inv(t)
    ensures Kept(t, ObModel.Link(t, pid, title, url, now))
  {
    var o := ObModel.Link(t, pid, title, url, now);
    if o.Ok? {
      var cs := t.conversations;
      if pid in t.projects && t.projects[pid].url == Some(url) {
        RowsAlike(t.projects, cs, o.tables.projects, cs);
      } else {
        FirstConversation(t.projects, cs, pid, title, url, now);
      }
    } else {
      LinkOwner(t, pid, title, url, now);
    }
  }

  lemma FirstConversation(ps: map<string, Project>, cs: seq<Conversation>, pid: string, title: string, url: string,
                          now: int)
    requires ConversationInv(ps, cs) && (pid in ps ==> ps[pid].url.None?) && UrlAt(cs, url).None?
    ensures ConversationInv(ps[pid := Project(title, Some(url))], cs + [Conversation(pid, url, now, 0, None)])
  {
    assert forall i :: 0 <= i < |cs| ==> cs[i].project != pid;
    hide ConversationInv;
    var ps' := ps[pid := Project(title, None)];
    RowsAlike(ps, cs, ps', cs);
    NowCurrentKeeps(ps', cs, cs + [Conversation(pid, url, now, 0, None)], pid, url, |cs|);
    assert ps'[pid := Project(title, Some(url))] == ps[pid := Project(title, Some(url))];
  }

  /** A url no other project's conversation bears is no other project's url. */
  lemma LinkOwner(t: Tables, pid: string, title: string, url: string, now: int)
    requires Inv(t)
    ensures ObModel.Link(t, pid, title, url, now) != Err(ConstraintViolation)
  {
    hide CurrentConversation;
    var owner := UrlAt(t.conversations, url);
    if owner.None? || t.conversations[owner.value].project == pid {
      NotTaken(t, pid, url);
    }
  }

  predicate Linkable(t: Tables, pid: string, url: string) {
    UrlAt(t.conversations, url).Some? ==> t.conversations[UrlAt(t.conversations, url).value].project == pid
  }

  /** So the handler around `link`'s statements never runs: what it would report has been ruled out before. */
  lemma LinkCatchesNothing(t: Tables, pid: string, title: string, url: string, now: int)
    requires Inv(t)
    ensures ObModel.LinkCaught(t, pid, title, url, now) == ObModel.Link(t, pid, title, url, now)
    ensures ProjectId(pid) && ConversationUrl(url) && !ProjectHeld(t, pid)
      && (pid in t.projects ==> t.projects[pid].url.None? || t.projects[pid].url == Some(url))
      ==> (ObModel.Link(t, pid, title, url, now).Ok? <==> Linkable(t, pid, url))
  {
    LinkOwner(t, pid, title, url, now);
  }

  lemma RotationKeeps(t: Tables, pid: string, rotateTurns: int)
    requires Inv(t)
    ensures Kept(t, ObModel.RequestRotation(t, pid, rotateTurns))
  {
    hide ConversationInv, RequestInv;
    match ObModel.RequestRotation(t, pid, rotateTurns)
    case Ok(t') => RowsAlike(t.projects, t.conversations, t.projects, t'.conversations);
    case Err(_) =>
  }

  lemma BindKeeps(t: Tables, id: nat, url: string, now: int) returns (at: nat)
    requires Inv(t) && id in t.requests
    ensures BindUrl(t, t.requests[id], url, now) != Err(ConstraintViolation)
    ensures BindUrl(t, t.requests[id], url, now).Ok? ==> var t' := BindUrl(t, t.requests[id], url, now).tables;
      && t'.requests == t.requests && t'.retryAfter == t.retryAfter && t.projects.Keys == t'.projects.Keys
      && ConversationInv(t'.projects, t'.conversations)
      && NowCurrent(t.conversations, t'.conversations, t.requests[id].project, url, at)
  {
    hide BindUrl, NowCurrent, ConversationInv;
    var pid := t.requests[id].project;
    at := BindUrlShape(t, t.requests[id], url, now);
    match BindUrl(t, t.requests[id], url, now)
    case Ok(t') => NowCurrentKeeps(t.projects, t.conversations, t'.conversations, pid, url, at);
    case Err(_) =>
  }

  lemma FinishKeeps(t: Tables, op: Op)
    requires Inv(t) && op.Finish?
    ensures Kept(t, Answer(t, op))
  {
    hide BindUrl, ConversationInv, RequestInv;
    var o := Answer(t, op);
    if op.id in t.requests {
      var at := BindKeeps(t, op.id, op.url, op.now);
      if o.Ok? && !t.requests[op.id].status.Done? {
        var t1 := BindUrl(t, t.requests[op.id], op.url, op.now).tables;
        RowsAlike(t1.projects, t1.conversations, t1.projects, o.tables.conversations);
        PutKeeps(t.projects, t.requests, t1.projects, op.id, o.tables.requests[op.id]);
      }
    }
  }

  lemma RememberKeeps(t: Tables, op: Op)
    requires Inv(t) && op.RememberUrl?
    ensures Kept(t, Answer(t, op))
  {
    hide BindUrl, ConversationInv, RequestInv;
    var o := Answer(t, op);
    if op.id in t.requests {
      var at := BindKeeps(t, op.id, op.url, op.now);
      if o.Ok? {
        PutKeeps(t.projects, t.requests, o.tables.projects, op.id, o.tables.requests[op.id]);
      }
    }
  }

  /** The transactions that only touch rows of `requests`. */
  lemma RequestOnlyKeeps(t: Tables, op: Op)
    requires Inv(t) && Possible(t, op)
    requires !op.Submit? && !op.Link? && !op.RequestRotation? && !op.Finish? && !op.RememberUrl?
    ensures Kept(t, Answer(t, op))
  {
    hide ConversationInv, RequestInv;
    match Answer(t, op)
    case Ok(t') =>
      if op.Recover? {
        RecoverKeeps(t);
      } else if !op.Reopen? && op.id in t.requests {
        PutKeeps(t.projects, t.requests, t.projects, op.id, t'.requests[op.id]);
      }
    case Err(_) =>
  }

  /**
    No transaction breaks the tables or trips a UNIQUE constraint, and every conversation row keeps its
    project and url.
  */
  lemma StepKeeps(t: Tables, op: Op)
    requires Inv(t) && Possible(t, op)
    ensures Answer(t, op) != Err(ConstraintViolation)
    ensures Inv(After(t, op)) && Grows(t.conversations, After(t, op).conversations)
  {
    hide Inv;
    assert Kept(t, Answer(t, op)) by {
      match op
      case Submit(_, _, _, _, _, _, _, _) => SubmitKeeps(t, op);
      case Link(pid, title, url, now) => LinkKeeps(t, pid, title, url, now);
      case RequestRotation(pid, turns) => RotationKeeps(t, pid, turns);
      case Finish(_, _, _, _, _) => FinishKeeps(t, op);
      case RememberUrl(_, _, _) => RememberKeeps(t, op);
      case _ => RequestOnlyKeeps(t, op);
    }
  }

  // ---------------------------------------------------------------- starting points

  predicate Fresh(t: Tables) { t.projects == map[] && t.requests == map[] && t.conversations == [] }

  /** The older schema: no conversations table; `projects.url` UNIQUE; a project with an answer has its url. */
  predicate Legacy(t: Tables) {
    && t.conversations == [] && RequestInv(t.projects, t.requests)
    && (forall p, q :: p in t.projects && q in t.projects && p != q && t.projects[p].url.Some? ==>
        t.projects[p].url != t.projects[q].url)
    && (forall id :: id in t.requests && t.requests[id].status.Done? ==> t.projects[t.requests[id].project].url.Some?)
  }

  lemma FreshStarts(t: Tables)
    requires Fresh(t)
    ensures Inv(t) && TurnsExact(t)
  {
    forall pid ensures TurnSum(t.conversations, pid) == |DoneOf(t, pid)| {
      assert DoneOf(t, pid) == {};
    }
  }

  /**
    Upgrading an older database reaches the invariant, every project's answers counted as turns of its one
    conversation.
  */
  lemma MigrationStarts(t: Tables, t': Tables, now: int)
    requires Legacy(t) && Migrated(t, t', now)
    ensures Inv(t') && TurnsExact(t')
  {
    var cs := t'.conversations;
    forall p | p in t'.projects && t'.projects[p].url.Some? ensures Shows(cs, p, t'.projects[p].url.value) {
      MigratedShows(t, t', now, p);
    }
    forall i, j | 0 <= i < j < |cs| ensures cs[i].project != cs[j].project {
      assert MigratedRow(t, cs[i], now) && MigratedRow(t, cs[j], now);
    }
    forall pid ensures TurnSum(cs, pid) == |DoneOf(t', pid)| {
      assert DoneOf(t', pid) == DoneOf(t, pid);
      if exists i :: 0 <= i < |cs| && cs[i].project == pid {
        var i :| 0 <= i < |cs| && cs[i].project == pid;
        assert MigratedRow(t, cs[i], now);
        OnlyRow(cs, i, pid);
      } else {
        NoRow(cs, pid);
        forall id | id in DoneOf(t, pid) ensures false {
          MigratedShows(t, t', now, pid);
        }
      }
    }
  }

  lemma MigratedShows(t: Tables, t': Tables, now: int, p: string)
    requires Legacy(t) && Migrated(t, t', now) && p in t.projects && t.projects[p].url.Some?
    ensures Shows(t'.conversations, p, t.projects[p].url.value)
  {
    var cs := t'.conversations;
    var i := UrlAt(cs, t.projects[p].url.value).value;
    assert MigratedRow(t, cs[i], now);
    var live := CurrentConversation(cs, p);
    assert LiveAt(cs, i, p);
    assert MigratedRow(t, cs[live.value], now);
  }

  lemma {:induction false} NoRow(cs: seq<Conversation>, pid: string)
    requires forall i :: 0 <= i < |cs| ==> cs[i].project != pid
    ensures TurnSum(cs, pid) == 0
  {
    if cs != [] {
      NoRow(cs[..|cs| - 1], pid);
    }
  }

  lemma {:induction false} OnlyRow(cs: seq<Conversation>, at: nat, pid: string)
    requires at < |cs| && forall i :: 0 <= i < |cs| ==> (cs[i].project == pid <==> i == at)
    ensures TurnSum(cs, pid) == cs[at].turns
  {
    if at == |cs| - 1 {
      NoRow(cs[..at], pid);
    } else {
      OnlyRow(cs[..|cs| - 1], at, pid);
    }
  }

  /** The upgrade runs at every open; after the first it finds every conversation on record. */
  lemma ReopenIsIdle(t: Tables, t': Tables, now: int)
    requires Inv(t) && Migrated(t, t', now)
    ensures t' == t
  {
    if |t'.conversations| > |t.conversations| {
      NothingToMigrate(t, t'.conversations[|t.conversations|], now);
    }
  }

  lemma NothingToMigrate(t: Tables, c: Conversation, now: int)
    requires Inv(t)
    ensures !MigratedRow(t, c, now)
  {
    if c.project in t.projects && t.projects[c.project].url == Some(c.url) {
      assert Shows(t.conversations, c.project, c.url);
    }
  }

  // ---------------------------------------------------------------- who may change what

  predicate Rotates(t: Tables, op: Op, pid: string) {
    (op.Finish? || op.RememberUrl?) && op.id in t.requests && t.requests[op.id].project == pid
      && t.requests[op.id].rotate
  }

  lemma BindRetires(t: Tables, id: nat, url: string, now: int, i: nat, pid: string)
    requires Inv(t) && id in t.requests && LiveAt(t.conversations, i, pid)
    requires BindUrl(t, t.requests[id], url, now).Ok?
    ensures var cs' := BindUrl(t, t.requests[id], url, now).tables.conversations;
      LiveAt(cs', i, pid)
        || (t.requests[id].project == pid && t.requests[id].rotate && CurrentConversation(cs', pid).Some?)
  {
    hide RequestInv, Owned, Current;
    var at := BindKeeps(t, id, url, now);
    LiveIsCurrent(t.conversations, i, pid);
  }

  /** Only a job flagged `rotate` replaces a project's live conversation, and a project that has one always has one. */
  lemma LiveReplacedByRotation(t: Tables, op: Op, pid: string)
    requires Inv(t) && Possible(t, op) && CurrentConversation(t.conversations, pid).Some?
    ensures CurrentConversation(After(t, op).conversations, pid).Some?
    ensures CurrentConversation(After(t, op).conversations, pid) != CurrentConversation(t.conversations, pid) ==>
      Rotates(t, op, pid)
  {
    StepKeeps(t, op);
    var i := CurrentConversation(t.conversations, pid).value;
    var t' := After(t, op);
    LiveRowKept(t, op, i, pid);
    if LiveAt(t'.conversations, i, pid) {
      LiveIsCurrent(t'.conversations, i, pid);
    }
  }

  lemma LiveRowKept(t: Tables, op: Op, i: nat, pid: string)
    requires Inv(t) && Possible(t, op) && LiveAt(t.conversations, i, pid)
    ensures var t' := After(t, op);
      LiveAt(t'.conversations, i, pid) || (Rotates(t, op, pid) && CurrentConversation(t'.conversations, pid).Some?)
  {
    hide Inv, BindUrl;
    match op
    case Finish(id, _, url, _, now) =>
      if id in t.requests {
        if BindUrl(t, t.requests[id], url, now).Ok? {
          BindRetires(t, id, url, now, i, pid);
          SameLive(BindUrl(t, t.requests[id], url, now).tables.conversations, url, pid);
        }
      }
    case RememberUrl(id, url, now) =>
      if id in t.requests && BindUrl(t, t.requests[id], url, now).Ok? {
        BindRetires(t, id, url, now, i, pid);
      }
    case _ =>
  }

  lemma {:induction false} SameLive(cs: seq<Conversation>, url: string, pid: string)
    ensures CurrentConversation(AddTurn(cs, url), pid) == CurrentConversation(cs, pid)
  {
    var a, b := CurrentConversation(AddTurn(cs, url), pid), CurrentConversation(cs, pid);
    assert forall i :: LiveAt(cs, i, pid) <==> LiveAt(AddTurn(cs, url), i, pid);
  }

  /** An answered row keeps its status, answer and question through any run (its url may still be corrected). */
  lemma DoneStepIsFinal(t: Tables, op: Op, id: nat)
    requires Possible(t, op) && id in t.requests
    ensures id in After(t, op).requests
    ensures SameQuestion(t.requests[id], After(t, op).requests[id])
    ensures t.requests[id].status.Done? ==> SameResult(t.requests[id], After(t, op).requests[id])
  {
    hide BindUrl, ConversationUrl, BlankText, AddTurn, ProjectId;
    if (op.Finish? || op.RememberUrl?) && op.id in t.requests {
      BindKeepsRequests(t, t.requests[op.id], op.url, op.now);
    }
  }

  predicate SameQuestion(r: Request, r': Request) {
    r'.project == r.project && r'.requestId == r.requestId && r'.question == r.question && r'.source == r.source
      && r'.created == r.created
  }

  predicate SameResult(r: Request, r': Request) {
    r'.status == r.status && r'.answer == r.answer && r'.token == r.token
  }

  lemma BindKeepsRequests(t: Tables, job: Request, url: string, now: int)
    ensures BindUrl(t, job, url, now).Ok? ==> BindUrl(t, job, url, now).tables.requests == t.requests
  {
  }

  /** The transactions that act for the claim holding row `id`. */
  predicate ForClaim(op: Op, id: nat, token: Option<string>) {
    (op.Finish? || op.Fail? || op.Requeue?) && op.id == id && token.Some? && op.fence == token
  }

  predicate UnchangedUnless(r: Request, t': Tables, id: nat, allowed: bool) {
    id in t'.requests && (SameResult(r, t'.requests[id]) || allowed)
  }

  /** The status, answer and token of a running row change only for its own claim, or because its worker is gone. */
  lemma RunningIsFenced(t: Tables, op: Op, id: nat)
    requires Possible(t, op) && id in t.requests && t.requests[id].status.Running?
    ensures UnchangedUnless(t.requests[id], After(t, op), id, op.Recover? || ForClaim(op, id, t.requests[id].token))
  {
    hide BindUrl, ConversationUrl, BlankText, AddTurn, ProjectId;
    DoneStepIsFinal(t, op, id);
    if (op.Finish? || op.RememberUrl?) && op.id in t.requests {
      BindKeepsRequests(t, t.requests[op.id], op.url, op.now);
    }
  }

  // ---------------------------------------------------------------- giving a claim back

  /** Nothing but row `id` and the queue's waiting time differs. */
  predicate RestUnchanged(t: Tables, t': Tables, id: nat) {
    && t'.projects == t.projects && t'.conversations == t.conversations && t'.requests.Keys == t.requests.Keys
    && forall k :: k in t.requests && k != id ==> t'.requests[k] == t.requests[k]
  }

  /** The row keeps everything but its status and error. */
  predicate SameButStatus(r: Request, r': Request) {
    SameQuestion(r, r') && r'.answer == r.answer && r'.url == r.url && r'.rotate == r.rotate && r'.token == r.token
  }

  /** The status a failure or a requeue asks for. */
  function Asked(op: Op): Status
    requires op.Fail? || op.Requeue?
  {
    if op.Fail? then op.status else Pending
  }

  /**
    `fail` and `requeue` act exactly on a row running under the caller's token: that row takes the status
    asked for and keeps the rest, nothing else changes, and only a quota failure makes the queue wait.
  */
  lemma HandBackIsFenced(t: Tables, op: Op)
    requires (op.Fail? && (op.status.Failed? || op.status.Unknown? || op.status.WaitingQuota?)) || op.Requeue?
    ensures After(t, op) != t <==> OwnedBy(t, op.id, op.fence)
    ensures OwnedBy(t, op.id, op.fence) ==> op.id in After(t, op).requests && RestUnchanged(t, After(t, op), op.id)
    ensures OwnedBy(t, op.id, op.fence) ==>
      After(t, op).requests[op.id].status == Asked(op) && SameButStatus(t.requests[op.id], After(t, op).requests[op.id])
    ensures After(t, op).retryAfter ==
      if OwnedBy(t, op.id, op.fence) && op.Fail? && op.status.WaitingQuota? then op.now + QUOTA_WAIT else t.retryAfter
  {
    if OwnedBy(t, op.id, op.fence) {
      assert After(t, op).requests[op.id].status != t.requests[op.id].status;
    }
  }

  /** And they act once: a claim that was given back is spent, and only an `unknown` row still takes an answer. */
  lemma HandedBackClaimIsSpent(t: Tables, op: Op, next: Op)
    requires (op.Fail? && (op.status.Failed? || op.status.Unknown? || op.status.WaitingQuota?)) || op.Requeue?
    requires OwnedBy(t, op.id, op.fence) && ForClaim(next, op.id, op.fence)
    ensures After(After(t, op), next) == After(t, op) || (next.Finish? && Asked(op).Unknown?)
  {
    hide BindUrl, ConversationUrl, BlankText, AddTurn;
  }

  /**
    `retry` succeeds exactly on a failed or quota-waiting row, and makes it claimable at once unless its
    project is held.
  */
  lemma RetryReopens(t: Tables, id: nat, now: int)
    requires now >= 0
    ensures ObModel.Retry(t, id).Ok? <==> StatusOf(t, id) == Some(Failed) || StatusOf(t, id) == Some(WaitingQuota)
    ensures ObModel.Retry(t, id).Ok? ==> var t' := ObModel.Retry(t, id).tables;
      && RestUnchanged(t, t', id) && SameButStatus(t.requests[id], t'.requests[id]) && t'.retryAfter <= now
      && (Claimable(t', id) <==> !ProjectHeld(t, t.requests[id].project))
  {
    if ObModel.Retry(t, id).Ok? {
      SameHeld(t, ObModel.Retry(t, id).tables, id, t.requests[id].project);
    }
  }

  function StatusOf(t: Tables, id: nat): Option<Status> {
    if id in t.requests then Some(t.requests[id].status) else None
  }

  lemma SameHeld(t: Tables, t': Tables, id: nat, pid: string)
    requires RestUnchanged(t, t', id) && id in t.requests && !Holds(t.requests[id]) && !Holds(t'.requests[id])
    ensures ProjectHeld(t', pid) <==> ProjectHeld(t, pid)
  {
    if k :| k in t.requests && t.requests[k].project == pid && Holds(t.requests[k]) {
      assert t'.requests[k] == t.requests[k];
    }
  }

  /** A confirmed `resolve` succeeds exactly on an unknown row, frees its project and makes the row claimable again. */
  lemma ResolveFreesTheProject(t: Tables, id: nat, confirmed: bool)
    requires Inv(t)
    ensures ObModel.Resolve(t, id, confirmed).Ok? <==> confirmed && StatusOf(t, id) == Some(Unknown)
    ensures ObModel.Resolve(t, id, confirmed).Ok? ==> var t' := ObModel.Resolve(t, id, confirmed).tables;
      && RestUnchanged(t, t', id) && SameButStatus(t.requests[id], t'.requests[id]) && t'.retryAfter == t.retryAfter
      && Claimable(t', id) && !ProjectHeld(t', t.requests[id].project)
  {
    hide ConversationInv;
  }

  // ---------------------------------------------------------------- turns, one transaction

  /**
    An answer adds one turn to the conversation it came from, which belongs to the asking project and is its
    live one; no other changes.
  */
  lemma AnswerAddsOneTurn(t: Tables, op: Op) returns (at: nat)
    requires Inv(t) && op.Finish? && op.id in t.requests && !t.requests[op.id].status.Done? && Answer(t, op).Ok?
    ensures var t' := After(t, op);
      && CurrentConversation(t'.conversations, t.requests[op.id].project) == Some(at)
      && t'.conversations[at].url == op.url
      && t'.conversations[at].turns == (if at < |t.conversations| then t.conversations[at].turns else 0) + 1
      && |t.conversations| <= |t'.conversations|
      && forall i :: 0 <= i < |t.conversations| && i != at ==> t'.conversations[i].turns == t.conversations[i].turns
    ensures forall p ::
      TurnSum(After(t, op).conversations, p) == TurnSum(t.conversations, p) + One(p == t.requests[op.id].project)
  {
    hide BindUrl, Owned, Current, RequestInv, TurnSum, AddTurn, ConversationUrl, BlankText;
    var pid := t.requests[op.id].project;
    at := BindKeeps(t, op.id, op.url, op.now);
    var t1 := BindUrl(t, t.requests[op.id], op.url, op.now).tables;
    var cs, cs1 := t.conversations, t1.conversations;
    TurnAdded(cs1, at, op.url);
    SameLive(cs1, op.url, pid);
    LiveIsCurrent(cs1, at, pid);
    forall p ensures TurnSum(AddTurn(cs1, op.url), p) == TurnSum(cs, p) + One(p == pid) {
      NowCurrentTurns(cs, cs1, pid, op.url, at, p);
      TurnsAt(cs1, at, cs1[at].turns + 1, p);
    }
  }

  lemma TurnAdded(cs: seq<Conversation>, at: nat, url: string)
    requires UrlsDistinct(cs) && at < |cs| && cs[at].url == url
    ensures AddTurn(cs, url) == cs[at := cs[at].(turns := cs[at].turns + 1)]
  {
  }

  /** The turns a project has beyond its answers. */
  function Surplus(t: Tables, pid: string): int { TurnSum(t.conversations, pid) - |DoneOf(t, pid)| }

  lemma TurnStep(t: Tables, op: Op, pid: string)
    requires Inv(t) && Possible(t, op)
    ensures Surplus(After(t, op), pid) >= Surplus(t, pid)
    ensures !op.RequestRotation? ==> Surplus(After(t, op), pid) == Surplus(t, pid)
  {
    hide Inv, BindUrl, TurnSum;
    var t' := After(t, op);
    if op.Finish? && op.id in t.requests && !t.requests[op.id].status.Done? && Answer(t, op).Ok? {
      var at := AnswerAddsOneTurn(t, op);
      FinishDone(t, op, pid);
    } else {
      OtherDone(t, op, pid);
      OtherTurns(t, op, pid);
    }
  }

  lemma FinishDone(t: Tables, op: Op, pid: string)
    requires op.Finish? && op.id in t.requests && !t.requests[op.id].status.Done? && Answer(t, op).Ok?
    ensures |DoneOf(After(t, op), pid)| == |DoneOf(t, pid)| + (if t.requests[op.id].project == pid then 1 else 0)
  {
    hide DoneOf, BindUrl, ConversationUrl, BlankText, AddTurn;
    BindKeepsRequests(t, t.requests[op.id], op.url, op.now);
    AnsweredAdds(t, After(t, op), op.id, pid);
  }

  lemma AnsweredAdds(t: Tables, t': Tables, id: nat, pid: string)
    requires id in t.requests && !t.requests[id].status.Done?
    requires t'.requests.Keys == t.requests.Keys
    requires forall k :: k in t.requests && k != id ==> t'.requests[k] == t.requests[k]
    requires t'.requests[id].status.Done? && t'.requests[id].project == t.requests[id].project
    ensures |DoneOf(t', pid)| == |DoneOf(t, pid)| + (if t.requests[id].project == pid then 1 else 0)
  {
    assert DoneOf(t', pid) == DoneOf(t, pid) + (if t.requests[id].project == pid then {id} else {});
  }

  lemma OtherDone(t: Tables, op: Op, pid: string)
    requires Possible(t, op)
    requires op.Finish? && op.id in t.requests && Answer(t, op).Ok? ==> t.requests[op.id].status.Done?
    ensures DoneOf(After(t, op), pid) == DoneOf(t, pid)
  {
    hide BindUrl, ConversationUrl, BlankText, AddTurn, ProjectId;
    if op.RememberUrl? && op.id in t.requests {
      BindKeepsRequests(t, t.requests[op.id], op.url, op.now);
    }
  }

  lemma OtherTurns(t: Tables, op: Op, pid: string)
    requires Inv(t) && Possible(t, op)
    requires op.Finish? && op.id in t.requests && Answer(t, op).Ok? ==> t.requests[op.id].status.Done?
    ensures TurnSum(After(t, op).conversations, pid) >= TurnSum(t.conversations, pid)
    ensures !op.RequestRotation? ==> TurnSum(After(t, op).conversations, pid) == TurnSum(t.conversations, pid)
  {
    hide BindUrl, TurnSum;
    match op
    case RequestRotation(p, turns) =>
      var live := CurrentConversation(t.conversations, p);
      if live.Some? {
        TurnsAt(t.conversations, live.value, Max(t.conversations[live.value].turns, turns), pid);
      }
    case Link(p, _, url, now) =>
      TurnsAppend(t.conversations, Conversation(p, url, now, 0, None), pid);
    case RememberUrl(id, url, now) =>
      if id in t.requests {
        var at := BindKeeps(t, id, url, now);
        if Answer(t, op).Ok? {
          NowCurrentTurns(t.conversations, After(t, op).conversations, t.requests[id].project, url, at, pid);
        }
      }
    case _ =>
  }

  // ---------------------------------------------------------------- whole runs

  /**
    Every run keeps the tables sound, trips no UNIQUE constraint at any of its transactions, and
    leaves every conversation row with the project and url it had.
  */
  lemma {:induction false} RunHolds(t: Tables, ops: seq<Op>)
    requires Inv(t) && Runs(t, ops)
    ensures Inv(Final(t, ops))
    ensures Grows(t.conversations, Final(t, ops).conversations)
    ensures forall k :: 0 <= k < |ops| ==> AnsweredSoundly(t, ops, k)
  {
    hide Inv;
    if ops != [] {
      var before := ops[..|ops| - 1];
      RunHolds(t, before);
      StepKeeps(Final(t, before), Last(ops));
      forall k | 0 <= k < |ops| ensures AnsweredSoundly(t, ops, k) {
        if k < |before| {
          assert AnsweredSoundly(t, before, k);
          assert before[..k] == ops[..k];
        } else {
          assert ops[..k] == before;
        }
      }
    }
  }

  /** The `k`th transaction of a run meets no constraint violation. */
  predicate AnsweredSoundly(t: Tables, ops: seq<Op>, k: nat)
    requires k < |ops|
  {
    && Runs(t, ops[..k]) && Possible(Final(t, ops[..k]), ops[k])
    && Answer(Final(t, ops[..k]), ops[k]) != Err(ConstraintViolation)
  }

  /** Once a url belongs to a project it belongs to that project for the rest of every run. */
  lemma UrlNeverChangesHands(t: Tables, ops: seq<Op>, url: string)
    requires Inv(t) && Runs(t, ops) && UrlAt(t.conversations, url).Some?
    ensures var cs, cs' := t.conversations, Final(t, ops).conversations;
      UrlAt(cs', url) == UrlAt(cs, url) && cs'[UrlAt(cs, url).value].project == cs[UrlAt(cs, url).value].project
  {
    RunHolds(t, ops);
    UrlIsAt(Final(t, ops).conversations, UrlAt(t.conversations, url).value);
  }

  lemma {:induction false} DoneIsFinal(t: Tables, ops: seq<Op>, id: nat)
    requires Runs(t, ops) && id in t.requests
    ensures id in Final(t, ops).requests
    ensures SameQuestion(t.requests[id], Final(t, ops).requests[id])
    ensures t.requests[id].status.Done? ==> SameResult(t.requests[id], Final(t, ops).requests[id])
  {
    if ops != [] {
      DoneIsFinal(t, ops[..|ops| - 1], id);
      DoneStepIsFinal(Final(t, ops[..|ops| - 1]), Last(ops), id);
    }
  }

  /**
    Turns are conserved: no answer is ever missing from its project's turns, and only an asked-for rotation
    adds any.
  */
  lemma {:induction false} TurnsConserved(t: Tables, ops: seq<Op>)
    requires Inv(t) && TurnsExact(t) && Runs(t, ops)
    ensures TurnsCover(Final(t, ops))
    ensures (forall k :: 0 <= k < |ops| ==> !ops[k].RequestRotation?) ==> TurnsExact(Final(t, ops))
  {
    if ops != [] {
      var before := ops[..|ops| - 1];
      TurnsConserved(t, before);
      RunHolds(t, before);
      assert (forall k :: 0 <= k < |ops| ==> !ops[k].RequestRotation?) ==>
        forall k :: 0 <= k < |before| ==> !before[k].RequestRotation?;
      forall pid
        ensures TurnSum(Final(t, ops).conversations, pid) >= |DoneOf(Final(t, ops), pid)|
        ensures (forall k :: 0 <= k < |ops| ==> !ops[k].RequestRotation?)
                ==> TurnSum(Final(t, ops).conversations, pid) == |DoneOf(Final(t, ops), pid)|
      {
        TurnStep(Final(t, before), Last(ops), pid);
      }
    }
  }

  /** In every state a run reaches, a project has at most one request that is running or unaccounted for. */
  lemma OneHeldPerProject(t: Tables, ops: seq<Op>, a: nat, b: nat)
    requires Inv(t) && Runs(t, ops)
    requires a in Final(t, ops).requests && b in Final(t, ops).requests
    requires Holds(Final(t, ops).requests[a]) && Holds(Final(t, ops).requests[b])
    requires Final(t, ops).requests[a].project == Final(t, ops).requests[b].project
    ensures a == b
  {
    RunHolds(t, ops);
  }

  // ---------------------------------------------------------------- what an answered row records

  predicate Owns(cs: seq<Conversation>, pid: string, url: string) {
    UrlAt(cs, url).Some? && cs[UrlAt(cs, url).value].project == pid
  }

  predicate RowSound(cs: seq<Conversation>, r: Request) {
    && (r.url.Some? ==> Owns(cs, r.project, r.url.value))
    && (r.status.Done? ==> r.answer.Some? && !BlankText(r.answer.value) && r.url.Some?)
  }

  /** A row's url belongs to its own project, and an answered row has an answer and a url. */
  predicate RowsSound(t: Tables) { forall id :: id in t.requests ==> RowSound(t.conversations, t.requests[id]) }

  lemma RowGrows(cs: seq<Conversation>, cs': seq<Conversation>, r: Request)
    requires RowSound(cs, r) && Grows(cs, cs') && UrlsDistinct(cs')
    ensures RowSound(cs', r)
  {
    if r.url.Some? {
      UrlIsAt(cs', UrlAt(cs, r.url.value).value);
    }
  }

  /** The row an answer or a url is written to names a conversation of its own project. */
  lemma WrittenRow(t: Tables, op: Op)
    requires Inv(t) && (op.Finish? || op.RememberUrl?) && op.id in t.requests && Answer(t, op).Ok?
    requires op.Finish? ==> !t.requests[op.id].status.Done?
    requires RowSound(t.conversations, t.requests[op.id]) && Inv(After(t, op))
      && Grows(t.conversations, After(t, op).conversations)
    ensures op.id in After(t, op).requests && RowSound(After(t, op).conversations, After(t, op).requests[op.id])
  {
    hide BindUrl, ConversationUrl, RequestInv, OneLive, Owned, Current;
    var at := BindKeeps(t, op.id, op.url, op.now);
    BindKeepsRequests(t, t.requests[op.id], op.url, op.now);
    assert After(t, op).conversations[at].url == op.url
      && After(t, op).conversations[at].project == t.requests[op.id].project;
    UrlIsAt(After(t, op).conversations, at);
  }

  lemma RowsStaySound(t: Tables, op: Op)
    requires Inv(t) && Possible(t, op) && RowsSound(t)
    ensures RowsSound(After(t, op))
  {
    hide BindUrl, ConversationUrl, RequestInv, OneLive, Owned, Current, RowSound, Inv;
    StepKeeps(t, op);
    var t' := After(t, op);
    forall id | id in t'.requests ensures RowSound(t'.conversations, t'.requests[id]) {
      if id in t.requests {
        KeptRow(t, op, id);
      } else {
        NewRow(t, op, id);
      }
    }
  }

  lemma NewRow(t: Tables, op: Op, id: nat)
    requires Possible(t, op) && id !in t.requests && id in After(t, op).requests
    ensures RowSound(After(t, op).conversations, After(t, op).requests[id])
  {
    if (op.Finish? || op.RememberUrl?) && op.id in t.requests {
      BindKeepsRequests(t, t.requests[op.id], op.url, op.now);
    }
    hide BindUrl;
  }

  lemma KeptRow(t: Tables, op: Op, id: nat)
    requires Inv(t) && Possible(t, op) && id in t.requests && RowSound(t.conversations, t.requests[id])
    requires Inv(After(t, op)) && Grows(t.conversations, After(t, op).conversations)
    ensures id in After(t, op).requests && RowSound(After(t, op).conversations, After(t, op).requests[id])
  {
    hide BindUrl, ConversationUrl, RequestInv, OneLive, Owned, Current, AddTurn, BlankText, ProjectId, Owns;
    RowGrows(t.conversations, After(t, op).conversations, t.requests[id]);
    if (op.Finish? || op.RememberUrl?) && op.id in t.requests {
      BindKeepsRequests(t, t.requests[op.id], op.url, op.now);
      if op.id == id && Answer(t, op).Ok? && !(op.Finish? && t.requests[id].status.Done?) {
        WrittenRow(t, op);
      }
    }
  }

  /**
    From an empty store, every row's url is its own project's and every answered row holds a non-blank answer
    and its url.
  */
  lemma {:induction false} AnswersAreRecorded(t: Tables, ops: seq<Op>)
    requires Fresh(t) && Runs(t, ops)
    ensures RowsSound(Final(t, ops))
  {
    hide RowsSound, Inv;
    FreshStarts(t);
    if ops == [] {
      NoRows(t);
    } else {
      AnswersAreRecorded(t, ops[..|ops| - 1]);
      RunHolds(t, ops[..|ops| - 1]);
      RowsStaySound(Final(t, ops[..|ops| - 1]), Last(ops));
    }
  }

  lemma NoRows(t: Tables)
    requires t.requests == map[]
    ensures RowsSound(t)
  {
  }
}
