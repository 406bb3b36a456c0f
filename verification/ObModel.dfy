/**
  The OB consultation tables and what each transaction makes of them.  A transaction that fails
  leaves the tables as they were; an INSERT or UPDATE that breaks a UNIQUE constraint is an error
  like any other, so that one can ask whether it ever happens.
*/
module ObModel {
  import opened Prelude

  datatype Status = Pending | WaitingQuota | Running | Unknown | Done | Failed

  datatype Request = Request(
    project: string, requestId: string, question: string, source: Option<string>, status: Status,
    answer: Option<string>, url: Option<string>, error: Option<string>, created: int,
    rotate: bool, token: Option<string>)

  datatype Project = Project(title: string, url: Option<string>)

  datatype Conversation = Conversation(project: string, url: string, started: int, turns: int, retired: Option<int>)

  /**
    Request ids are random text; only their order is used, so they are numbers here.  A conversation's id is
    its index.
  */
  datatype Tables = Tables(projects: map<string, Project>, requests: map<nat, Request>,
                           conversations: seq<Conversation>, retryAfter: int)

  datatype Error =
    | BadInput | RequestMismatch | RequestNotFound | RequestNotRunning | ClaimLost | EmptyAnswer
    | ConversationChanged | ConversationAlreadyOwned | ProjectAlreadyLinked | ProjectBusyOrUnknown
    | NoConversationYet | NotRetryable | RequestNotUnknown | NotConfirmed | InvalidFailure
    | ConstraintViolation

  datatype Outcome = Ok(tables: Tables) | Err(error: Error)

  // ---------------------------------------------------------------- inputs

  predicate UlidChar(c: char) {
    '0' <= c <= '9' || 'A' <= c <= 'H' || c == 'J' || c == 'K' || c == 'M' || c == 'N' || 'P' <= c <= 'T'
      || 'V' <= c <= 'Z'
  }

  predicate ProjectId(s: string) { |s| == 26 && forall c :: c in s ==> UlidChar(c) }

  const URL_PREFIX := "https://chatgpt.com/c/"

  predicate UrlChar(c: char) { 'a' <= c <= 'z' || 'A' <= c <= 'Z' || '0' <= c <= '9' || c == '-' }

  predicate ConversationUrl(s: string) {
    URL_PREFIX < s && forall c :: c in s[|URL_PREFIX|..] ==> UrlChar(c)
  }

  /** The characters Python's `strip` removes: Unicode white space and four separators. */
  predicate White(c: char) { UnicodeSpace(c) || 0x1C <= c as int <= 0x1F }

  predicate BlankText(s: string) { forall c :: c in s ==> White(c) }

  const MAX_QUESTION_CHARS := 100_000

  // ---------------------------------------------------------------- conversations

  predicate LiveAt(cs: seq<Conversation>, i: int, pid: string) {
    0 <= i < |cs| && cs[i].project == pid && cs[i].retired.None?
  }

  /** The newest conversation of a project that is not retired. */
  function CurrentConversation(cs: seq<Conversation>, pid: string): (at: Option<nat>)
    ensures at.Some? ==> LiveAt(cs, at.value, pid)
    ensures at.Some? ==> forall i :: at.value < i < |cs| ==> !LiveAt(cs, i, pid)
    ensures at.None? ==> forall i :: !LiveAt(cs, i, pid)
  {
    if cs == [] then None
    else if Last(cs).project == pid && Last(cs).retired.None? then Some(|cs| - 1)
    else
      var at := CurrentConversation(cs[..|cs| - 1], pid);
      assert forall i :: LiveAt(cs, i, pid) ==> LiveAt(cs[..|cs| - 1], i, pid);
      assert forall i :: LiveAt(cs[..|cs| - 1], i, pid) ==> LiveAt(cs, i, pid);
      at
  }

  function UrlAt(cs: seq<Conversation>, url: string): (at: Option<nat>)
    ensures at.Some? ==> at.value < |cs| && cs[at.value].url == url
    ensures at.None? ==> forall i :: 0 <= i < |cs| ==> cs[i].url != url
  {
    if cs == [] then None
    else if Last(cs).url == url then Some(|cs| - 1)
    else UrlAt(cs[..|cs| - 1], url)
  }

  function Retire(cs: seq<Conversation>, at: nat, now: int): seq<Conversation>
    requires at < |cs|
  {
    cs[at := cs[at].(retired := Some(now))]
  }

  function Revive(cs: seq<Conversation>, url: string): (r: seq<Conversation>)
    ensures |r| == |cs|
  {
    seq(|cs|, i requires 0 <= i < |cs| => if cs[i].url == url then cs[i].(retired := None) else cs[i])
  }

  function AddTurn(cs: seq<Conversation>, url: string): (r: seq<Conversation>)
    ensures |r| == |cs|
  {
    seq(|cs|, i requires 0 <= i < |cs| => if cs[i].url == url then cs[i].(turns := cs[i].turns + 1) else cs[i])
  }

  function InsertConversation(t: Tables, pid: string, url: string, now: int): Outcome {
    if UrlAt(t.conversations, url).Some? then Err(ConstraintViolation)
    else Ok(t.(conversations := t.conversations + [Conversation(pid, url, now, 0, None)]))
  }

  predicate UrlTaken(t: Tables, pid: string, url: string) {
    exists p :: p in t.projects && p != pid && t.projects[p].url == Some(url)
  }

  function SetProjectUrl(t: Tables, pid: string, url: string): Outcome {
    if pid !in t.projects then Ok(t)
    else if UrlTaken(t, pid, url) then Err(ConstraintViolation)
    else Ok(t.(projects := t.projects[pid := t.projects[pid].(url := Some(url))]))
  }

  /** Make `url` the current conversation of the job's project; only a job flagged `rotate` may replace one. */
  function BindUrl(t: Tables, job: Request, url: string, now: int): Outcome {
    var pid := job.project;
    var live := CurrentConversation(t.conversations, pid);
    if live.Some? && t.conversations[live.value].url == url then Ok(t)
    else if live.Some? && !job.rotate then Err(ConversationChanged)
    else
      var t1 := if live.Some? then t.(conversations := Retire(t.conversations, live.value, now)) else t;
      var owner := UrlAt(t1.conversations, url);
      if owner.Some? && t1.conversations[owner.value].project != pid then Err(ConversationAlreadyOwned)
      else if owner.Some? then SetProjectUrl(t1.(conversations := Revive(t1.conversations, url)), pid, url)
      else match InsertConversation(t1, pid, url, now)
        case Ok(t2) => SetProjectUrl(t2, pid, url)
        case Err(e) => Err(e)
  }

  // ---------------------------------------------------------------- requests

  predicate Holds(r: Request) { r.status.Running? || r.status.Unknown? }

  predicate ProjectHeld(t: Tables, pid: string) {
    exists id :: id in t.requests && t.requests[id].project == pid && Holds(t.requests[id])
  }

  function Put(t: Tables, id: nat, r: Request): Tables { t.(requests := t.requests[id := r]) }

  predicate SameKey(r: Request, pid: string, rid: string) { r.project == pid && r.requestId == rid }

  /** `secret` is whether the question looks like it carries a credential. */
  function Submit(t: Tables, pid: string, title: string, rid: string, question: string, source: Option<string>,
                  secret: bool, id: nat, now: int): Outcome {
    if !ProjectId(pid) || rid == "" || |rid| > 200 || BlankText(question) || |question| > MAX_QUESTION_CHARS
      || secret then Err(BadInput)
    else if exists k :: k in t.requests && SameKey(t.requests[k], pid, rid) then
      if exists k :: k in t.requests && SameKey(t.requests[k], pid, rid)
                     && (t.requests[k].question != question || t.requests[k].source != source) then Err(RequestMismatch)
      else Ok(t)
    else if id in t.requests then Err(ConstraintViolation)
    else
      var project := if pid in t.projects then t.projects[pid].(title := title) else Project(title, None);
      Ok(Put(t.(projects := t.projects[pid := project]), id,
             Request(pid, rid, question, source, Pending, None, None, None, now, false, None)))
  }

  /** What `link` does before its own handler for a broken constraint; `LinkCaught` is the whole. */
  function Link(t: Tables, pid: string, title: string, url: string, now: int): Outcome {
    if !ProjectId(pid) || !ConversationUrl(url) then Err(BadInput)
    else if pid in t.projects && t.projects[pid].url.Some? && t.projects[pid].url != Some(url) then
      Err(ProjectAlreadyLinked)
    else if ProjectHeld(t, pid) then Err(ProjectBusyOrUnknown)
    else
      var owner := UrlAt(t.conversations, url);
      if owner.Some? && t.conversations[owner.value].project != pid then Err(ConversationAlreadyOwned)
      else match UpsertProject(t, pid, title, url)
        case Err(e) => Err(e)
        case Ok(t1) => if owner.None? then InsertConversation(t1, pid, url, now) else Ok(t1)
  }

  function UpsertProject(t: Tables, pid: string, title: string, url: string): Outcome {
    if UrlTaken(t, pid, url) then Err(ConstraintViolation)
    else Ok(t.(projects := t.projects[pid := Project(title, Some(url))]))
  }

  /** A broken constraint is reported as a conversation that belongs to someone else. */
  function Caught(o: Outcome): Outcome {
    if o == Err(ConstraintViolation) then Err(ConversationAlreadyOwned) else o
  }

  function LinkCaught(t: Tables, pid: string, title: string, url: string, now: int): Outcome {
    Caught(Link(t, pid, title, url, now))
  }

  function RequestRotation(t: Tables, pid: string, rotateTurns: int): Outcome {
    if !ProjectId(pid) then Err(BadInput)
    else match CurrentConversation(t.conversations, pid)
      case None => Err(NoConversationYet)
      case Some(i) =>
        var c := t.conversations[i];
        Ok(t.(conversations := t.conversations[i := c.(turns := Max(c.turns, rotateTurns))]))
  }

  function RotateDue(t: Tables, pid: string, rotateTurns: int, rotateAge: int, now: int): bool {
    match CurrentConversation(t.conversations, pid)
    case None => false
    case Some(i) =>
      || (rotateTurns > 0 && t.conversations[i].turns >= rotateTurns)
      || (rotateAge > 0 && now - t.conversations[i].started >= rotateAge)
  }

  function MarkRotate(t: Tables, id: nat, on: bool): Outcome {
    if id !in t.requests then Err(RequestNotFound)
    else if !t.requests[id].status.Running? && !t.requests[id].status.Pending? then Err(RequestNotRunning)
    else Ok(Put(t, id, t.requests[id].(rotate := on)))
  }

  /** Waiting, in a project nothing of which is running or unaccounted for. */
  predicate Claimable(t: Tables, id: nat) {
    && id in t.requests && (t.requests[id].status.Pending? || t.requests[id].status.WaitingQuota?)
    && !ProjectHeld(t, t.requests[id].project)
  }

  predicate Before(t: Tables, a: nat, b: nat)
    requires a in t.requests && b in t.requests
  {
    t.requests[a].created < t.requests[b].created || (t.requests[a].created == t.requests[b].created && a <= b)
  }

  /** The row `claim` takes: claimable, and first by creation time, then id. */
  predicate NextClaim(t: Tables, id: nat, now: int) {
    && t.retryAfter <= now && Claimable(t, id)
    && forall k :: k in t.requests && Claimable(t, k) ==> Before(t, id, k)
  }

  function Claim(t: Tables, id: nat, token: string): Tables
    requires id in t.requests
  {
    Put(t, id, t.requests[id].(status := Running, token := Some(token), error := None))
  }

  function Finish(t: Tables, id: nat, answer: string, url: string, token: Option<string>, now: int): Outcome {
    if !ConversationUrl(url) then Err(BadInput)
    else if BlankText(answer) then Err(EmptyAnswer)
    else if id !in t.requests then Err(RequestNotFound)
    else
      var job := t.requests[id];
      if job.status.Done? then Ok(t)
      else if !Holds(job) then Err(RequestNotRunning)
      else if job.status.Running? && (token.None? || token.value == "" || job.token != token) then Err(ClaimLost)
      else match BindUrl(t, job, url, now)
        case Err(e) => Err(e)
        case Ok(t1) =>
          Ok(Put(t1.(conversations := AddTurn(t1.conversations, url)), id,
                 job.(status := Done, answer := Some(answer), url := Some(url), error := None)))
  }

  function RememberUrl(t: Tables, id: nat, url: string, now: int): Outcome {
    if !ConversationUrl(url) then Err(BadInput)
    else if id !in t.requests then Err(RequestNotFound)
    else match BindUrl(t, t.requests[id], url, now)
      case Err(e) => Err(e)
      case Ok(t1) => Ok(Put(t1, id, t.requests[id].(url := Some(url))))
  }

  /** `claim_token = ?` never matches an absent token. */
  predicate OwnedBy(t: Tables, id: nat, token: Option<string>) {
    id in t.requests && t.requests[id].status.Running? && token.Some? && t.requests[id].token == token
  }

  const QUOTA_WAIT := 1800
  const INTERRUPTED := "worker_interrupted; inspect original conversation"
  const NOT_SENT := "operator_confirmed_not_sent"

  function Fail(t: Tables, id: nat, status: Status, error: string, token: Option<string>, now: int): Outcome {
    if !status.Failed? && !status.Unknown? && !status.WaitingQuota? then Err(InvalidFailure)
    else if !OwnedBy(t, id, token) then Ok(t)
    else
      var t1 := Put(t, id, t.requests[id].(status := status, error := Some(error)));
      Ok(if status.WaitingQuota? then t1.(retryAfter := now + QUOTA_WAIT) else t1)
  }

  function Requeue(t: Tables, id: nat, error: string, token: Option<string>): Tables {
    if OwnedBy(t, id, token) then Put(t, id, t.requests[id].(status := Pending, error := Some(error))) else t
  }

  function Retry(t: Tables, id: nat): Outcome {
    if id !in t.requests then Err(RequestNotFound)
    else if !t.requests[id].status.WaitingQuota? && !t.requests[id].status.Failed? then Err(NotRetryable)
    else Ok(Put(t, id, t.requests[id].(status := Pending, error := None)).(retryAfter := 0))
  }

  /** Every running row has lost its worker; its question may already be out. */
  function Recover(t: Tables): Tables {
    t.(requests := map id | id in t.requests ::
      if t.requests[id].status.Running?
      then t.requests[id].(status := Unknown, token := None, error := Some(INTERRUPTED))
      else t.requests[id])
  }

  /** The table half of `resolve_unknown`. */
  function Resolve(t: Tables, id: nat, confirmed: bool): Outcome {
    if id !in t.requests then Err(RequestNotFound)
    else if !t.requests[id].status.Unknown? then Err(RequestNotUnknown)
    else if !confirmed then Err(NotConfirmed)
    else Ok(Put(t, id, t.requests[id].(status := Pending, error := Some(NOT_SENT))))
  }

  // ---------------------------------------------------------------- migration

  function DoneOf(t: Tables, pid: string): set<nat> {
    set id | id in t.requests && t.requests[id].project == pid && t.requests[id].status.Done?
  }

  predicate FirstAnswer(t: Tables, pid: string, id: nat) {
    id in DoneOf(t, pid) && forall k :: k in DoneOf(t, pid) ==> t.requests[id].created <= t.requests[k].created
  }

  /** When the conversation is taken to have started: at the project's first answer, if one is on record. */
  predicate StartOf(t: Tables, pid: string, started: int, now: int) {
    var done := DoneOf(t, pid);
    if done == {} then started == now
    else exists first ::
      first in done && FirstAnswer(t, pid, first)
        && started == (if t.requests[first].created != 0 then t.requests[first].created else now)
  }

  predicate MigratedRow(t: Tables, c: Conversation, now: int) {
    && c.project in t.projects && t.projects[c.project].url == Some(c.url) && UrlAt(t.conversations, c.url).None?
    && c.turns == |DoneOf(t, c.project)| && c.retired.None? && StartOf(t, c.project, c.started, now)
  }

  /** The upgrade has run for every project but those in `todo`. */
  predicate MigratedBut(t: Tables, t': Tables, todo: set<string>, now: int) {
    && t'.projects == t.projects && t'.requests == t.requests && t'.retryAfter == t.retryAfter
    && t.conversations <= t'.conversations
    && (forall i :: |t.conversations| <= i < |t'.conversations| ==> MigratedRow(t, t'.conversations[i], now))
    && (forall i, j :: |t.conversations| <= i < j < |t'.conversations| ==>
        t'.conversations[i].url != t'.conversations[j].url)
    && forall pid :: pid in t.projects && t.projects[pid].url.Some? && pid !in todo
                     ==> UrlAt(t'.conversations, t.projects[pid].url.value).Some?
  }

  predicate Migrated(t: Tables, t': Tables, now: int) { MigratedBut(t, t', {}, now) }
}
