/**
  The OB tables as the store keeps them.  Each method is one transaction: it changes the tables
  statement by statement, and an error part-way rolls them back to what BEGIN saw.
*/
module ObStore {
  import opened Prelude
  import opened ObModel

  class Store {
    var projects: map<string, Project>
    var requests: map<nat, Request>
    var conversations: seq<Conversation>
    var retryAfter: int

    constructor ()
      ensures State() == Tables(map[], map[], [], 0)
    {
      projects, requests, conversations, retryAfter := map[], map[], [], 0;
    }

    function State(): Tables
      reads this
    {
      Tables(projects, requests, conversations, retryAfter)
    }

    /** What a finished transaction leaves: the outcome's tables, or on an error exactly what it started from. */
    ghost predicate Settled(before: Tables, outcome: Outcome, error: Option<Error>)
      reads this
    {
      match outcome
      case Ok(t) => error.None? && State() == t
      case Err(e) => error == Some(e) && State() == before
    }

    method Rollback(saved: Tables)
      modifies this
      ensures State() == saved
    {
      projects, requests, conversations, retryAfter := saved.projects, saved.requests, saved.conversations,
        saved.retryAfter;
    }

    // ---------------------------------------------------------------- statements

    method UpdateRequest(id: nat, r: Request)
      modifies this`requests
      ensures State() == Put(old(State()), id, r)
    {
      requests := requests[id := r];
    }

    /** UPDATE projects SET url, under its UNIQUE constraint. */
    method UpdateProjectUrl(pid: string, url: string) returns (error: Option<Error>)
      modifies this`projects
      ensures Settled(old(State()), SetProjectUrl(old(State()), pid, url), error)
    {
      if pid !in projects {
        return None;
      }
      if UrlTaken(State(), pid, url) {
        return Some(ConstraintViolation);
      }
      projects := projects[pid := projects[pid].(url := Some(url))];
      return None;
    }

    method AppendConversation(pid: string, url: string, now: int) returns (error: Option<Error>)
      modifies this`conversations
      ensures Settled(old(State()), InsertConversation(old(State()), pid, url, now), error)
    {
      if UrlAt(conversations, url).Some? {
        return Some(ConstraintViolation);
      }
      conversations := conversations + [Conversation(pid, url, now, 0, None)];
      return None;
    }

    /** Inside a transaction: on an error the tables may be half changed, and the caller rolls back. */
    method BindUrl(job: Request, url: string, now: int) returns (error: Option<Error>)
      modifies this`projects, this`conversations
      ensures match ObModel.BindUrl(old(State()), job, url, now)
              case Ok(t) => error.None? && State() == t
              case Err(e) => error == Some(e)
    {
      var pid := job.project;
      var live := CurrentConversation(conversations, pid);
      if live.Some? && conversations[live.value].url == url {
        return None;
      }
      if live.Some? {
        if !job.rotate {
          return Some(ConversationChanged);
        }
        conversations := conversations[live.value := conversations[live.value].(retired := Some(now))];
      }
      var owner := UrlAt(conversations, url);
      if owner.Some? && conversations[owner.value].project != pid {
        return Some(ConversationAlreadyOwned);
      }
      if owner.Some? {
        conversations := Revive(conversations, url);
      } else {
        error := AppendConversation(pid, url, now);
        if error.Some? {
          return;
        }
      }
      error := UpdateProjectUrl(pid, url);
    }

    // ---------------------------------------------------------------- transactions

    method Submit(pid: string, title: string, rid: string, question: string, source: Option<string>,
                  secret: bool, id: nat, now: int) returns (error: Option<Error>)
      modifies this
      ensures Settled(old(State()), ObModel.Submit(old(State()), pid, title, rid, question, source, secret, id, now),
                      error)
    {
      if !ProjectId(pid) || rid == "" || |rid| > 200 || BlankText(question) || |question| > MAX_QUESTION_CHARS
        || secret {
        return Some(BadInput);
      }
      var same := set k | k in requests && SameKey(requests[k], pid, rid);
      if same != {} {
        assert exists k :: k in requests && SameKey(requests[k], pid, rid) by {
          var k :| k in same;
        }
        if exists k :: k in same && (requests[k].question != question || requests[k].source != source) {
          return Some(RequestMismatch);
        }
        return None;
      }
      assert forall k :: k in requests && SameKey(requests[k], pid, rid) ==> k in same;
      if id in requests {
        return Some(ConstraintViolation);
      }
      projects := projects[pid := if pid in projects then projects[pid].(title := title) else Project(title, None)];
      UpdateRequest(id, Request(pid, rid, question, source, Pending, None, None, None, now, false, None));
      return None;
    }

    method Link(pid: string, title: string, url: string, now: int) returns (error: Option<Error>)
      modifies this
      ensures Settled(old(State()), ObModel.LinkCaught(old(State()), pid, title, url, now), error)
    {
      if !ProjectId(pid) || !ConversationUrl(url) {
        return Some(BadInput);
      }
      var saved := State();
      if pid in projects && projects[pid].url.Some? && projects[pid].url != Some(url) {
        return Some(ProjectAlreadyLinked);
      }
      if ProjectHeld(State(), pid) {
        return Some(ProjectBusyOrUnknown);
      }
      var owner := UrlAt(conversations, url);
      if owner.Some? && conversations[owner.value].project != pid {
        return Some(ConversationAlreadyOwned);
      }
      error := PutProject(pid, title, url);
      if error.None? && UrlAt(conversations, url).None? {
        error := AppendConversation(pid, url, now);
      }
      if error.Some? {
        Rollback(saved);
        error := Some(ConversationAlreadyOwned);
      }
    }

    /** INSERT INTO projects or update in place, under the UNIQUE constraint on `url`. */
    method PutProject(pid: string, title: string, url: string) returns (error: Option<Error>)
      modifies this`projects
      ensures Settled(old(State()), UpsertProject(old(State()), pid, title, url), error)
    {
      if UrlTaken(State(), pid, url) {
        return Some(ConstraintViolation);
      }
      projects := projects[pid := Project(title, Some(url))];
      error := None;
    }

    method RequestRotation(pid: string, rotateTurns: int) returns (error: Option<Error>)
      modifies this
      ensures Settled(old(State()), ObModel.RequestRotation(old(State()), pid, rotateTurns), error)
    {
      if !ProjectId(pid) {
        return Some(BadInput);
      }
      var live := CurrentConversation(conversations, pid);
      if live.None? {
        return Some(NoConversationYet);
      }
      var c := conversations[live.value];
      conversations := conversations[live.value := c.(turns := Max(c.turns, rotateTurns))];
      return None;
    }

    method MarkRotate(id: nat, on: bool) returns (error: Option<Error>)
      modifies this
      ensures Settled(old(State()), ObModel.MarkRotate(old(State()), id, on), error)
    {
      if id !in requests {
        return Some(RequestNotFound);
      }
      if !requests[id].status.Running? && !requests[id].status.Pending? {
        return Some(RequestNotRunning);
      }
      UpdateRequest(id, requests[id].(rotate := on));
      return None;
    }

    /** Takes the oldest claimable row, or nothing while the queue waits out a quota or nothing can be claimed. */
    method Claim(token: string, now: int) returns (id: Option<nat>)
      modifies this
      ensures id.Some? ==> NextClaim(old(State()), id.value, now)
      ensures id.Some? ==> State() == ObModel.Claim(old(State()), id.value, token)
      ensures id.None? ==> State() == old(State())
      ensures id.None? <==> old(retryAfter) > now || forall k :: k in old(requests) ==> !Claimable(old(State()), k)
    {
      if retryAfter > now {
        return None;
      }
      var rows := set k | k in requests && Claimable(State(), k);
      if rows == {} {
        assert forall k :: k in requests && Claimable(State(), k) ==> k in rows;
        return None;
      }
      ghost var oldest := FirstExists(State(), rows);
      var first :| first in rows && forall k :: k in rows ==> Before(State(), first, k);
      id := Some(first);
      UpdateRequest(first, requests[first].(status := Running, token := Some(token), error := None));
    }

    method Finish(id: nat, answer: string, url: string, token: Option<string>, now: int) returns (error: Option<Error>)
      modifies this
      ensures Settled(old(State()), ObModel.Finish(old(State()), id, answer, url, token, now), error)
    {
      if !ConversationUrl(url) {
        return Some(BadInput);
      }
      if BlankText(answer) {
        return Some(EmptyAnswer);
      }
      var saved := State();
      if id !in requests {
        return Some(RequestNotFound);
      }
      var job := requests[id];
      if job.status.Done? {
        return None;
      }
      if !job.status.Running? && !job.status.Unknown? {
        return Some(RequestNotRunning);
      }
      if job.status.Running? && (token.None? || token.value == "" || job.token != token) {
        return Some(ClaimLost);
      }
      error := BindUrl(job, url, now);
      if error.Some? {
        Rollback(saved);
        return;
      }
      conversations := AddTurn(conversations, url);
      UpdateRequest(id, job.(status := Done, answer := Some(answer), url := Some(url), error := None));
    }

    method RememberUrl(id: nat, url: string, now: int) returns (error: Option<Error>)
      modifies this
      ensures Settled(old(State()), ObModel.RememberUrl(old(State()), id, url, now), error)
    {
      if !ConversationUrl(url) {
        return Some(BadInput);
      }
      var saved := State();
      if id !in requests {
        return Some(RequestNotFound);
      }
      error := BindUrl(requests[id], url, now);
      if error.Some? {
        Rollback(saved);
        return;
      }
      UpdateRequest(id, requests[id].(url := Some(url)));
    }

    method Fail(id: nat, status: Status, why: string, token: Option<string>, now: int) returns (error: Option<Error>)
      modifies this
      ensures Settled(old(State()), ObModel.Fail(old(State()), id, status, why, token, now), error)
    {
      if status != Failed && status != Unknown && status != WaitingQuota {
        return Some(InvalidFailure);
      }
      var changed := OwnedBy(State(), id, token);
      if changed {
        UpdateRequest(id, requests[id].(status := status, error := Some(why)));
      }
      if status == WaitingQuota && changed {
        retryAfter := now + QUOTA_WAIT;
      }
      return None;
    }

    method Requeue(id: nat, why: string, token: Option<string>)
      modifies this
      ensures State() == ObModel.Requeue(old(State()), id, why, token)
    {
      if OwnedBy(State(), id, token) {
        UpdateRequest(id, requests[id].(status := Pending, error := Some(why)));
      }
    }

    method Retry(id: nat) returns (error: Option<Error>)
      modifies this
      ensures Settled(old(State()), ObModel.Retry(old(State()), id), error)
    {
      if id !in requests {
        return Some(RequestNotFound);
      }
      if requests[id].status != WaitingQuota && requests[id].status != Failed {
        return Some(NotRetryable);
      }
      UpdateRequest(id, requests[id].(status := Pending, error := None));
      retryAfter := 0;
      return None;
    }

    method Recover() returns (ids: set<nat>)
      modifies this
      ensures State() == ObModel.Recover(old(State()))
      ensures forall id :: id in ids <==> id in old(requests) && old(requests)[id].status.Running?
    {
      ids := set id | id in requests && requests[id].status.Running?;
      requests := map id | id in requests ::
        if id in ids then requests[id].(status := Unknown, token := None, error := Some(INTERRUPTED)) else requests[id];
    }

    method Resolve(id: nat, confirmed: bool) returns (error: Option<Error>)
      modifies this
      ensures Settled(old(State()), ObModel.Resolve(old(State()), id, confirmed), error)
    {
      if id !in requests {
        return Some(RequestNotFound);
      }
      if requests[id].status != Unknown {
        return Some(RequestNotUnknown);
      }
      if !confirmed {
        return Some(NotConfirmed);
      }
      UpdateRequest(id, requests[id].(status := Pending, error := Some(NOT_SENT)));
      return None;
    }

    // ---------------------------------------------------------------- opening

    /** MIN(created_at) over the project's answers, and the clock where that is missing or zero. */
    method StartedAt(pid: string, now: int) returns (started: int)
      ensures StartOf(State(), pid, started, now)
    {
      var done := DoneOf(State(), pid);
      if done == {} {
        return now;
      }
      ghost var oldest := FirstExists(State(), done);
      assert FirstAnswer(State(), pid, oldest);
      var first :| first in done && FirstAnswer(State(), pid, first);
      return if requests[first].created != 0 then requests[first].created else now;
    }

    /**
      The upgrade every open runs: each project that has a conversation without a row gets one, and
      nothing else changes.
    */
    method Migrate(now: int)
      modifies this`conversations
      ensures Migrated(old(State()), State(), now)
    {
      var todo := set pid | pid in projects && projects[pid].url.Some?;
      while todo != {}
        invariant todo <= projects.Keys && forall pid :: pid in todo ==> projects[pid].url.Some?
        invariant MigratedBut(old(State()), State(), todo, now)
      {
        hide MigratedBut, MigratedRow, StartOf;
        var pid :| pid in todo;
        var url := projects[pid].url.value;
        if UrlAt(conversations, url).None? {
          var started := StartedAt(pid, now);
          MigrateAdds(old(State()), State(), todo, pid, started, now);
          conversations := conversations + [Conversation(pid, url, started, |DoneOf(State(), pid)|, None)];
        } else {
          MigrateSkips(old(State()), State(), todo, pid, now);
        }
        todo := todo - {pid};
      }
    }
  }

  // ---------------------------------------------------------------- the rows a query returns

  lemma {:induction false} FirstExists(t: Tables, rows: set<nat>) returns (first: nat)
    requires rows != {} && rows <= t.requests.Keys
    ensures first in rows && forall k :: k in rows ==> Before(t, first, k)
  {
    first :| first in rows;
    var rest := rows - {first};
    assert forall k :: k in rows ==> k == first || k in rest;
    if rest != {} {
      var other := FirstExists(t, rest);
      if !Before(t, first, other) {
        first := other;
      }
    }
  }

  lemma MigrateAdds(t: Tables, t': Tables, todo: set<string>, pid: string, started: int, now: int)
    requires MigratedBut(t, t', todo, now)
    requires pid in t'.projects && t'.projects[pid].url.Some?
      && UrlAt(t'.conversations, t'.projects[pid].url.value).None?
    requires StartOf(t', pid, started, now)
    ensures var c := Conversation(pid, t'.projects[pid].url.value, started, |DoneOf(t', pid)|, None);
      MigratedBut(t, t'.(conversations := t'.conversations + [c]), todo - {pid}, now)
  {
    hide StartOf;
    assert DoneOf(t', pid) == DoneOf(t, pid);
    StartAgrees(t, t', pid, started, now);
    var c := Conversation(pid, t'.projects[pid].url.value, started, |DoneOf(t', pid)|, None);
    var cs := t'.conversations + [c];
    assert MigratedRow(t, c, now) by {
      forall i | 0 <= i < |t.conversations| ensures t.conversations[i].url != c.url {
        assert t'.conversations[i] == t.conversations[i];
      }
    }
    forall p | p in t.projects && t.projects[p].url.Some? && p !in todo - {pid}
      ensures UrlAt(cs, t.projects[p].url.value).Some?
    {
      var at := if p == pid then |t'.conversations| else UrlAt(t'.conversations, t.projects[p].url.value).value;
      assert cs[at].url == t.projects[p].url.value;
    }
  }

  lemma MigrateSkips(t: Tables, t': Tables, todo: set<string>, pid: string, now: int)
    requires MigratedBut(t, t', todo, now)
    requires pid in t'.projects && t'.projects[pid].url.Some?
      && UrlAt(t'.conversations, t'.projects[pid].url.value).Some?
    ensures MigratedBut(t, t', todo - {pid}, now)
  {
  }

  lemma StartAgrees(t: Tables, t': Tables, pid: string, started: int, now: int)
    requires t.requests == t'.requests
    ensures StartOf(t, pid, started, now) <==> StartOf(t', pid, started, now)
  {
    assert DoneOf(t', pid) == DoneOf(t, pid);
    assert forall k :: FirstAnswer(t, pid, k) <==> FirstAnswer(t', pid, k);
  }
}
