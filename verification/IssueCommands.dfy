/**
  When exactly each issue command answers what, and what one comment does to the claim in force, said of
  names, times and the fields of the marks alone.
*/
module IssueCommands {
  import opened Prelude
  import opened IssueClaim
  import opened IssueExclusion
  import Canonical

  const A_DAY := 86_400_000_000

  predicate IsFresh(a: Active, now: int) { now - a.last <= A_DAY }

  predicate Asks(part: Option<string>) { part.Some? && part.value != "" }

  /** Every part of the scope that was named is the claim's. */
  predicate SameScope(a: Active, s: Scope) {
    && (Asks(s.child) ==> a.payload.child == s.child)
    && (Asks(s.worktree) ==> a.payload.worktree == s.worktree)
    && (Asks(s.branch) ==> a.payload.branch == s.branch)
  }

  // ---------------------------------------------------------------- the commands

  /**
    A release is refused exactly while another bot's claim is fresh.  Otherwise it has nothing to do if
    there is neither claim nor label, and else is posted, naming the claim that was read.
  */
  lemma ReleaseExactly(me: string, open: bool, labelled: bool, active: Option<Active>, now: int)
    ensures var reply := Decide(DoRelease, me, open, labelled, active, now);
      && (reply == Conflict <==> active.Some? && IsFresh(active.value, now) && active.value.payload.bot != Some(me))
      && (reply == AlreadyReleased <==> active.None? && !labelled)
      && (reply.PostRelease? <==>
        if active.Some? then !IsFresh(active.value, now) || active.value.payload.bot == Some(me) else labelled)
      && (reply.PostRelease? ==>
        reply.claimId == if active.Some? && active.value.claimId != "" then active.value.claimId else "label-only")
      && (reply == Conflict || reply == AlreadyReleased || reply.PostRelease?)
  {
  }

  /**
    A claim is refused on a closed issue, where only the label is there, and while a claim of another bot
    or another scope is fresh; a fresh claim of the same bot and scope is there already; else it is posted.
  */
  lemma ClaimExactly(s: Scope, me: string, open: bool, labelled: bool, active: Option<Active>, now: int)
    ensures var (reply, held) := (Decide(DoClaim(s), me, open, labelled, active, now),
                                   active.Some? && IsFresh(active.value, now));
      && (reply == Closed <==> !open)
      && (reply == StateUnknown <==> open && active.None? && labelled)
      && (reply == Conflict <==>
        open && held && (active.value.payload.bot != Some(me) || !SameScope(active.value, s)))
      && (reply == AlreadyClaimed <==>
        open && held && active.value.payload.bot == Some(me) && SameScope(active.value, s))
      && (reply == PostClaim(false) <==> open && active.None? && !labelled)
      && (reply == PostClaim(true) <==> open && active.Some? && !held)
  {
  }

  /** A touch is posted exactly by the bot of a fresh claim of that scope; without one there is nothing to touch. */
  lemma TouchExactly(s: Scope, me: string, open: bool, labelled: bool, active: Option<Active>, now: int)
    ensures var (reply, held) := (Decide(DoTouch(s), me, open, labelled, active, now),
                                   active.Some? && IsFresh(active.value, now));
      && (reply == NotClaimed <==> !held)
      && (reply.PostTouch? <==> held && active.value.payload.bot == Some(me) && SameScope(active.value, s))
      && (reply.PostTouch? ==> reply.claimId == active.value.claimId)
      && (reply == Conflict <==> held && (active.value.payload.bot != Some(me) || !SameScope(active.value, s)))
  {
  }

  /**
    A release posted after a reading ends nothing but a claim that reading showed, and that one only if it
    was the releasing bot's or had been without a sign of life for more than a day, whatever landed since.
  */
  lemma ReleaseEndsNoFreshRival(rows: seq<Row>, between: seq<Row>, me: string, open: bool, labelled: bool, now: int,
                                r: Row)
    requires Decide(DoRelease, me, open, labelled, Replay(rows), now).PostRelease?
    requires IsRelease(r, Decide(DoRelease, me, open, labelled, Replay(rows), now).claimId)
    requires Replay(rows + between).Some? && Replay(rows + between).value.claimId != "label-only"
    requires !Has(Replay(rows + between + [r]), Replay(rows + between).value)
    ensures Replay(rows).Some? && Replay(rows).value.claimId == Replay(rows + between).value.claimId
    ensures Replay(rows).value.payload.bot == Some(me) || !IsFresh(Replay(rows).value, now)
  {
    ReplayAppend(rows + between, r);
    ReleaseExactly(me, open, labelled, Replay(rows), now);
  }

  // ---------------------------------------------------------------- one comment

  /** When a mark says it was made; where it does not, when its comment was. */
  function MadeAt(r: Row, p: Payload): int { if p.at.Some? then p.at.value else r.at }

  /** The mark bears the name of the claim's bot or of its child. */
  predicate FromHolder(a: Active, p: Payload) { p.bot == a.payload.bot || p.bot == a.payload.child }

  /** The id a claim goes by: its own, else its comment's, else its place in the log. */
  predicate GoesBy(r: Row, p: Payload, id: string) {
    if p.claimId.Some? && p.claimId.value != "" then id == p.claimId.value
    else if r.rawId.Some? then id == r.rawId.value
    else id == Canonical.Decimal(r.index)
  }

  predicate Began(active: Option<Active>, r: Row, p: Payload) {
    active.Some? && GoesBy(r, p, active.value.claimId)
      && active.value == Active(p, active.value.claimId, MadeAt(r, p), MadeAt(r, p))
  }

  predicate AliveAt(a: Active, active: Option<Active>, t: int) {
    active == Some(a.(last := if a.last < t then t else a.last))
  }

  /** A claim takes a free issue, or one whose holder has shown no life for over a day; else it shows life. */
  lemma ClaimTakes(active: Option<Active>, r: Row)
    requires r.mark.Some? && r.mark.value.Claim?
    ensures var p := r.mark.value.payload;
      && (active.None? ==> Began(Step(active, r), r, p))
      && (active.Some? && FromHolder(active.value, p) ==> AliveAt(active.value, Step(active, r), MadeAt(r, p)))
      && (active.Some? && !FromHolder(active.value, p) && r.at - active.value.last <= A_DAY ==>
        AliveAt(active.value, Step(active, r), r.at))
      && (active.Some? && !FromHolder(active.value, p) && r.at - active.value.last > A_DAY ==>
        Began(Step(active, r), r, p))
  {
  }

  /** A progress comment of the holder about this claim, or about none by name, shows life; any other does nothing. */
  lemma ProgressShowsLife(active: Option<Active>, r: Row)
    requires r.mark.Some? && r.mark.value.Progress?
    ensures var p := r.mark.value.payload;
      if active.Some? && FromHolder(active.value, p) && (p.claimId.None? || p.claimId.value == active.value.claimId)
      then AliveAt(active.value, Step(active, r), MadeAt(r, p))
      else Step(active, r) == active
  {
  }

  /** A release ends the claim it names, or any if it names none; by the holder about another claim it shows life. */
  lemma ReleaseEnds(active: Option<Active>, r: Row)
    requires r.mark.Some? && r.mark.value.Release?
    ensures var p := r.mark.value.payload;
      if active.None? || p.claimId.None? || p.claimId.value == active.value.claimId then Step(active, r).None?
      else if FromHolder(active.value, p) then AliveAt(active.value, Step(active, r), MadeAt(r, p))
      else Step(active, r) == active
  {
  }

  /** A comment without a mark does nothing. */
  lemma PlainCommentDoesNothing(active: Option<Active>, r: Row)
    requires r.mark.None?
    ensures Step(active, r) == active
  {
  }
}
