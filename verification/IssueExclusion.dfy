/**
  What the claim protocol guarantees.  A log is a sequence of rows in order; new comments come last
  (`IssueOrder.EarlierReadingIsPrefix`), so what a bot read earlier is a prefix of the log.
*/
module IssueExclusion {
  import opened Prelude
  import opened IssueClaim

  // ---------------------------------------------------------------- epochs

  predicate SameClaim(a: Active, b: Active) { a.payload == b.payload && a.claimId == b.claimId && a.at == b.at }

  /**
    The row ends claim `a`: a release that names it or names none, or a rival's claim more than a day after
    its last activity.
  */
  predicate Ends(a: Active, r: Row) {
    match r.mark
    case Some(Release(p)) => p.claimId.None? || Names(a, p)
    case Some(Claim(p)) => !ByHolder(a, p) && r.at - a.last > STALE
    case _ => false
  }

  predicate Starts(active: Option<Active>, r: Row) {
    r.mark.Some? && r.mark.value.Claim? && (active.None? || Ends(active.value, r))
  }

  predicate Has(active: Option<Active>, a: Active) {
    active.Some? && SameClaim(active.value, a) && a.last <= active.value.last
  }

  /** One row keeps a claim active, its last activity never going back, exactly when it does not end it. */
  lemma StepKeepsUnlessEnded(a: Active, r: Row)
    ensures Ends(a, r) <==> Step(Some(a), r).None? || !SameClaim(Step(Some(a), r).value, a)
    ensures !Ends(a, r) ==> Has(Step(Some(a), r), a)
  {
  }

  /** Where the active claim began. */
  function Since(rows: seq<Row>): (s: nat)
    requires Replay(rows).Some?
    ensures s < |rows|
  {
    var n := |rows| - 1;
    if Starts(Replay(rows[..n]), rows[n]) then n else Since(rows[..n])
  }

  /**
    The active claim took effect at its own comment, and has been the active one at every point since:
    a claim that loses when it is posted never comes into force later.
  */
  lemma {:induction false} ActiveSinceItsComment(rows: seq<Row>)
    requires Replay(rows).Some?
    ensures var a, s := Replay(rows).value, Since(rows);
      && Starts(Replay(rows[..s]), rows[s])
      && a.payload == rows[s].mark.value.payload && a.claimId == ClaimId(rows[s], a.payload)
      && a.at == Time(rows[s], a.payload)
    ensures forall j :: Since(rows) < j <= |rows| ==> Held(Replay(rows[..j]), Replay(rows).value)
  {
    var n := |rows| - 1;
    var a, s := Replay(rows).value, Since(rows);
    assert rows[..n + 1] == rows;
    if s < n {
      ActiveSinceItsComment(rows[..n]);
      StepKeepsUnlessEnded(Replay(rows[..n]).value, rows[n]);
      assert rows[..n][..s] == rows[..s];
      forall j | s < j <= |rows| ensures Held(Replay(rows[..j]), a) {
        if j <= n {
          assert rows[..n][..j] == rows[..j];
        }
      }
    }
  }

  predicate Held(active: Option<Active>, a: Active) {
    active.Some? && SameClaim(active.value, a) && active.value.last <= a.last
  }

  /** When a row counts as a sign of life of claim `a`: its bot's own marks about it, and a rival's refused attempt. */
  function ActivityAt(a: Active, r: Row): Option<int> {
    match r.mark
    case None => None
    case Some(Claim(p)) => Some(if ByHolder(a, p) then Time(r, p) else r.at)
    case Some(Progress(p)) => if ByHolder(a, p) && (p.claimId.None? || Names(a, p)) then Some(Time(r, p)) else None
    case Some(Release(p)) => if ByHolder(a, p) then Some(Time(r, p)) else None
  }

  predicate ActiveUntil(rows: seq<Row>, a: Active, s: nat, last: int)
    requires s <= |rows|
  {
    && a.at <= last
    && (forall j :: s < j < |rows| && ActivityAt(a, rows[j]).Some? ==> ActivityAt(a, rows[j]).value <= last)
    && (last == a.at || exists j :: s < j < |rows| && ActivityAt(a, rows[j]) == Some(last))
  }

  /** The last activity of the claim in force is the latest of its start and every sign of life since. */
  lemma {:induction false} LastIsLatestActivity(rows: seq<Row>)
    requires Replay(rows).Some?
    ensures ActiveUntil(rows, Replay(rows).value, Since(rows), Replay(rows).value.last)
  {
    hide Step;
    var n := |rows| - 1;
    var a := Replay(rows).value;
    var before, r := Replay(rows[..n]), rows[n];
    StepActivity(before, r);
    if !Starts(before, r) {
      LastIsLatestActivity(rows[..n]);
      var b, s := before.value, Since(rows);
      assert forall k :: s < k < n ==> rows[..n][k] == rows[k] && ActivityAt(a, rows[k]) == ActivityAt(b, rows[k]);
      if a.last != a.at {
        if a.last == b.last {
          var k :| s < k < n && ActivityAt(b, rows[..n][k]) == Some(b.last);
          assert ActivityAt(a, rows[k]) == Some(a.last);
        } else {
          assert ActivityAt(a, rows[n]) == Some(a.last);
        }
      }
    }
  }

  function Later(last: int, time: Option<int>): int { if time.Some? then Max(last, time.value) else last }

  lemma StepActivity(active: Option<Active>, r: Row)
    requires Step(active, r).Some?
    ensures Starts(active, r) ==> Step(active, r).value.last == Step(active, r).value.at
    ensures !Starts(active, r) ==> active.Some? && SameClaim(Step(active, r).value, active.value)
    ensures !Starts(active, r) ==> Step(active, r).value.last == Later(active.value.last, ActivityAt(active.value, r))
  {
  }

  // ---------------------------------------------------------------- confirmed claims

  /** A bot that read the first `n` rows found `a` in force. */
  predicate Confirmed(rows: seq<Row>, n: nat, a: Active) { n <= |rows| && Replay(rows[..n]) == Some(a) }

  /** Row `k` ends the claim that `a` is a reading of. */
  predicate EndedAt(rows: seq<Row>, k: nat, a: Active) {
    && k < |rows| && Replay(rows[..k]).Some? && SameClaim(Replay(rows[..k]).value, a)
    && Ends(Replay(rows[..k]).value, rows[k])
  }

  /** A confirmed claim is still in force at a later reading exactly when no row in between ended it. */
  lemma {:induction false} ConfirmedUntilEnded(rows: seq<Row>, n: nat, m: nat, a: Active)
    requires Confirmed(rows, n, a) && n <= m <= |rows|
    ensures (forall k :: n <= k < m ==> !EndedAt(rows, k, a)) ==> Has(Replay(rows[..m]), a)
    ensures UniqueClaims(rows) && Has(Replay(rows[..m]), a) ==> forall k :: n <= k < m ==> !EndedAt(rows, k, a)
  {
    if n < m {
      ConfirmedUntilEnded(rows, n, m - 1, a);
      assert rows[..m][..m - 1] == rows[..m - 1];
      if forall k :: n <= k < m ==> !EndedAt(rows, k, a) {
        assert !EndedAt(rows, m - 1, a);
        StepKeepsUnlessEnded(Replay(rows[..m - 1]).value, rows[m - 1]);
      }
      if UniqueClaims(rows) && Has(Replay(rows[..m]), a) {
        forall k | n <= k < m ensures !EndedAt(rows, k, a) {
          if EndedAt(rows, k, a) {
            NeverAgain(rows, k, m, a);
          }
        }
      }
    }
  }

  /** No two claims of the log carry the same id (each is a fresh uuid, or the comment's own id). */
  predicate UniqueClaims(rows: seq<Row>) {
    forall i, j :: 0 <= i < j < |rows| && IsClaim(rows[i]) && IsClaim(rows[j])
      ==> ClaimId(rows[i], rows[i].mark.value.payload) != ClaimId(rows[j], rows[j].mark.value.payload)
  }

  predicate IsClaim(r: Row) { r.mark.Some? && r.mark.value.Claim? }

  /** Once ended, a claim is never in force again. */
  lemma NeverAgain(rows: seq<Row>, k: nat, m: nat, a: Active)
    requires UniqueClaims(rows) && EndedAt(rows, k, a) && k < m <= |rows|
    ensures Replay(rows[..m]).None? || Replay(rows[..m]).value.claimId != a.claimId
  {
    if Replay(rows[..m]).Some? {
      var before, after := rows[..k], rows[..m];
      var s, s' := Since(before), Since(after);
      ActiveSinceItsComment(before);
      ActiveSinceItsComment(after);
      if Replay(after).value.claimId == a.claimId {
        assert before[s] == rows[s] && after[s'] == rows[s'];
        assert s == s';
        assert after[..k + 1] == rows[..k + 1] && rows[..k + 1][..k] == rows[..k];
        assert Held(Replay(after[..k + 1]), Replay(after).value);
        StepKeepsUnlessEnded(Replay(rows[..k]).value, rows[k]);
      }
    }
  }

  /** Two bots never both hold the issue: of two claims confirmed and not ended since, neither is another's rival. */
  lemma TwoConfirmedNeverOverlap(rows: seq<Row>, n1: nat, a1: Active, n2: nat, a2: Active, m: nat)
    requires Confirmed(rows, n1, a1) && n1 <= m <= |rows| && forall k :: n1 <= k < m ==> !EndedAt(rows, k, a1)
    requires Confirmed(rows, n2, a2) && n2 <= m && forall k :: n2 <= k < m ==> !EndedAt(rows, k, a2)
    ensures SameClaim(a1, a2)
  {
    ConfirmedUntilEnded(rows, n1, m, a1);
    ConfirmedUntilEnded(rows, n2, m, a2);
  }

  /** A different claim can only be confirmed later if some row in between ended the first. */
  lemma RivalNeedsAnEnd(rows: seq<Row>, n: nat, a: Active, m: nat, b: Active)
    requires Confirmed(rows, n, a) && Confirmed(rows, m, b) && n <= m && !SameClaim(a, b)
    ensures exists k :: n <= k < m && EndedAt(rows, k, a)
  {
    ConfirmedUntilEnded(rows, n, m, a);
  }

  lemma ReplayAppend(rows: seq<Row>, r: Row)
    ensures Replay(rows + [r]) == Step(Replay(rows), r)
  {
    assert (rows + [r])[..|rows|] == rows;
  }

  /**
    A claim that lost when it was posted never ends anyone else's: neither its own comment nor the
    release its bot posts for it later, whatever came in between.
  */
  lemma LoserLeavesHolder(rows: seq<Row>, n: nat, m: nat)
    requires UniqueClaims(rows) && n < m < |rows| && IsClaim(rows[n]) && !Starts(Replay(rows[..n]), rows[n])
    requires IsRelease(rows[m], ClaimId(rows[n], rows[n].mark.value.payload))
    ensures Replay(rows[..n]).Some? && Has(Replay(rows[..n + 1]), Replay(rows[..n]).value)
    ensures Replay(rows[..m]).Some? ==> Has(Replay(rows[..m + 1]), Replay(rows[..m]).value)
  {
    assert rows[..n + 1] == rows[..n] + [rows[n]] && rows[..m + 1] == rows[..m] + [rows[m]];
    ReplayAppend(rows[..n], rows[n]);
    ReplayAppend(rows[..m], rows[m]);
    StepKeepsUnlessEnded(Replay(rows[..n]).value, rows[n]);
    if Replay(rows[..m]).Some? {
      var s := Since(rows[..m]);
      ActiveSinceItsComment(rows[..m]);
      assert rows[..m][s] == rows[s] && rows[..m][..s] == rows[..s];
      StepKeepsUnlessEnded(Replay(rows[..m]).value, rows[m]);
    }
  }

  // ---------------------------------------------------------------- the commands

  datatype Scope = Scope(child: Option<string>, worktree: Option<string>, branch: Option<string>)

  datatype Command = DoClaim(scope: Scope) | DoRelease | DoTouch(scope: Scope)

  datatype Reply =
    | Closed | StateUnknown | Conflict | NotClaimed
    | AlreadyClaimed | AlreadyReleased
    | PostClaim(tookOver: bool) | PostRelease(claimId: string) | PostTouch(claimId: string)

  const LABEL_ONLY := "label-only"

  predicate Stale(a: Active, now: int) { now - a.last > STALE }

  /** A part of the scope that was asked for and is not the claim's. */
  predicate Differs(asked: Option<string>, held: Option<string>) { asked.Some? && asked.value != "" && asked != held }

  predicate ScopeMismatch(a: Active, s: Scope) {
    Differs(s.child, a.payload.child) || Differs(s.worktree, a.payload.worktree) || Differs(s.branch, a.payload.branch)
  }

  /** Release does not compare the scope. */
  predicate HeldByOther(active: Option<Active>, me: string, scope: Option<Scope>, now: int) {
    && active.Some? && !Stale(active.value, now)
    && !(active.value.payload.bot == Some(me) && (scope.None? || !ScopeMismatch(active.value, scope.value)))
  }

  /** What a command does with the issue it has read; `labelled` is whether the issue carries the claim label. */
  function Decide(c: Command, me: string, open: bool, labelled: bool, active: Option<Active>, now: int): Reply {
    var scope := if c.DoRelease? then None else Some(c.scope);
    if c.DoClaim? && !open then Closed
    else if c.DoClaim? && active.None? && labelled then StateUnknown
    else if HeldByOther(active, me, scope, now) then Conflict
    else match c
      case DoTouch(_) =>
        if active.None? || Stale(active.value, now) then NotClaimed
        else if Some(me) != active.value.payload.bot && Some(me) != active.value.payload.child then Conflict
        else PostTouch(active.value.claimId)
      case DoRelease =>
        if active.None? && !labelled then AlreadyReleased
        else PostRelease(if active.Some? && active.value.claimId != "" then active.value.claimId else LABEL_ONLY)
      case DoClaim(_) =>
        if active.Some? && active.value.payload.bot == Some(me) && !Stale(active.value, now) then AlreadyClaimed
        else PostClaim(active.Some?)
  }

  predicate InForce(active: Option<Active>, r: Row)
    requires IsClaim(r)
  {
    active.Some? && active.value.claimId == ClaimId(r, r.mark.value.payload)
  }

  /** The claim belongs to a bot, as its holder or as its child. */
  predicate Concerns(a: Active, me: string) { a.payload.bot == Some(me) || a.payload.child == Some(me) }

  /** The claim read is this bot's, and is still in force later. */
  predicate KeptFor(me: string, read: Option<Active>, later: Option<Active>) {
    read.Some? && Concerns(read.value, me) && Has(later, read.value)
  }

  /**
    A claim posted after a reading that allowed it, with whatever landed in between, is confirmed exactly
    when the issue is free by then or its holder is someone else and stale by the comment's own time.  A
    bot whose own claim has gone stale is never confirmed while that claim is in force.
  */
  lemma ClaimConfirms(rows: seq<Row>, between: seq<Row>, c: Command, me: string, open: bool, labelled: bool, now: int,
                      r: Row)
    requires c.DoClaim? && Decide(c, me, open, labelled, Replay(rows), now).PostClaim?
    requires IsClaim(r) && r.mark.value.payload.bot == Some(me) && !InForce(Replay(rows + between), r)
    ensures var next := Replay(rows + between);
      InForce(Replay(rows + between + [r]), r) <==> next.None? || (!Concerns(next.value, me) && Stale(next.value, r.at))
    ensures between == [] && r.at >= now ==>
      (InForce(Replay(rows + [r]), r) <==> Replay(rows).None? || !Concerns(Replay(rows).value, me))
    ensures KeptFor(me, Replay(rows), Replay(rows + between)) ==> !InForce(Replay(rows + between + [r]), r)
  {
    ReplayAppend(rows + between, r);
    if between == [] {
      assert rows + between == rows;
    }
  }

  /**
    A bot that claims although its own claim has gone stale is told there is a conflict, and renews that
    claim: the new comment, and the release posted for it, count as activity of the old one.  While it is
    fresh again, claiming answers already-claimed in the same scope.  Rows in between do no harm unless
    they end the old claim.
  */
  lemma RefusedClaimRenews(rows: seq<Row>, between: seq<Row>, r: Row, more: seq<Row>, release: Row, c: Command,
                           me: string, open: bool, labelled: bool, now: int, next: Command, later: int)
    requires c.DoClaim? && Decide(c, me, open, labelled, Replay(rows), now).PostClaim?
    requires Replay(rows).Some? && Replay(rows).value.payload.bot == Some(me)
    requires IsClaim(r) && r.mark.value.payload.bot == Some(me)
    requires Has(Replay(rows + between), Replay(rows).value) && !InForce(Replay(rows + between), r)
    requires Has(Replay(rows + between + [r] + more), Replay(rows + between + [r]).value)
    requires IsRelease(release, ClaimId(r, r.mark.value.payload))
    ensures !InForce(Replay(rows + between + [r]), r)
    ensures var (a, after) := (Replay(rows).value, Replay(rows + between + [r] + more + [release]));
      && Has(after, Touched(a, Time(r, r.mark.value.payload)))
      && (next.DoClaim? && open && !ScopeMismatch(a, next.scope) ==>
        (Decide(next, me, open, labelled, after, later) == AlreadyClaimed <==> !Stale(after.value, later)))
      && (later <= Time(r, r.mark.value.payload) + STALE ==> !Stale(after.value, later))
  {
    ReplayAppend(rows + between, r);
    ReplayAppend(rows + between + [r] + more, release);
  }

  /** Without rows in between, the old claim's last activity is exactly that of the refused claim and its release. */
  lemma RefusedClaimIsActivity(rows: seq<Row>, r: Row, release: Row, me: string)
    requires Replay(rows).Some? && Replay(rows).value.payload.bot == Some(me)
    requires IsClaim(r) && r.mark.value.payload.bot == Some(me) && !InForce(Replay(rows), r)
    requires IsRelease(release, ClaimId(r, r.mark.value.payload)) && release.mark.value.payload.bot == Some(me)
    ensures Replay(rows + [r] + [release]) == Some(
      Touched(Touched(Replay(rows).value, Time(r, r.mark.value.payload)), Time(release, release.mark.value.payload)))
  {
    ReplayAppend(rows, r);
    ReplayAppend(rows + [r], release);
  }

  /** Nobody is asked to stop, and nothing is posted, by a claim on an issue another bot holds. */
  lemma ClaimRespectsHolder(c: Command, me: string, open: bool, labelled: bool, a: Active, now: int)
    requires c.DoClaim? && open && !Stale(a, now)
    ensures var reply := Decide(c, me, open, labelled, Some(a), now);
      if a.payload.bot == Some(me) && !ScopeMismatch(a, c.scope) then reply == AlreadyClaimed else reply == Conflict
  {
  }

  /** A release ends the claim its reading saw, if nothing has ended it before, and no claim that replaced it. */
  lemma ReleaseEndsWhatItSaw(rows: seq<Row>, between: seq<Row>, me: string, open: bool, labelled: bool, now: int,
                             r: Row)
    requires Replay(rows).Some? && Replay(rows).value.claimId != ""
    requires Decide(DoRelease, me, open, labelled, Replay(rows), now).PostRelease?
    requires IsRelease(r, Decide(DoRelease, me, open, labelled, Replay(rows), now).claimId)
    ensures var (a, after) := (Replay(rows).value, Replay(rows + between + [r]));
      after.None? || after.value.claimId != a.claimId
    ensures var (a, next) := (Replay(rows).value, Replay(rows + between));
      next.Some? && next.value.claimId != a.claimId ==> Has(Replay(rows + between + [r]), next.value)
  {
    ReplayAppend(rows + between, r);
  }

  predicate IsRelease(r: Row, claimId: string) {
    r.mark.Some? && r.mark.value.Release? && r.mark.value.payload.claimId == Some(claimId)
  }

  /** A release that saw no claim, only the label, ends nothing, whatever was claimed before it landed. */
  lemma LabelReleaseEndsNothing(me: string, open: bool, now: int, rows: seq<Row>, r: Row)
    requires Decide(DoRelease, me, open, true, None, now).PostRelease?
    requires IsRelease(r, Decide(DoRelease, me, open, true, None, now).claimId)
    requires Replay(rows).Some? && Replay(rows).value.claimId != LABEL_ONLY
    ensures Has(Replay(rows + [r]), Replay(rows).value)
  {
    ReplayAppend(rows, r);
  }

  predicate MayTouch(a: Active, me: string, scope: Scope) { a.payload.bot == Some(me) && !ScopeMismatch(a, scope) }

  /** Only the bot named in a fresh claim may touch it: the name of its child never gets past the conflict check. */
  lemma TouchIsTheHolders(scope: Scope, me: string, open: bool, labelled: bool, active: Option<Active>, now: int)
    ensures Decide(DoTouch(scope), me, open, labelled, active, now).PostTouch? <==>
      active.Some? && !Stale(active.value, now) && MayTouch(active.value, me, scope)
  {
  }
}
