/**
  Who holds a GitHub issue, read from its comments: claim, release and progress marks in comment
  order.  Times are microseconds.  `Replay` is the meaning of a comment log; the claim commands post a
  mark, read the log again and go on only if their own claim is the one it names.
*/
module IssueClaim {
  import opened Prelude
  import Canonical

  /** A mark's JSON object; fields it does not carry are absent. */
  datatype Payload = Payload(bot: Option<string>, child: Option<string>, worktree: Option<string>,
                             branch: Option<string>,
                             claimId: Option<string>, at: Option<int>)

  datatype Mark = Claim(payload: Payload) | Release(payload: Payload) | Progress(payload: Payload)

  /**
    `at` and `num` are absent where the comment's time or id is not one; `trusted` is false for outsiders'
    comments.
  */
  datatype Comment = Comment(trusted: bool, at: Option<int>, rawId: Option<string>, num: Option<int>,
                             mark: Option<Mark>)

  datatype Row = Row(at: int, num: Option<int>, index: nat, rawId: Option<string>, mark: Option<Mark>)

  datatype Active = Active(payload: Payload, claimId: string, at: int, last: int)

  const STALE := 24 * 3600 * 1_000_000

  // ---------------------------------------------------------------- order

  /** By time, then REST id (a comment without one comes after those with one), then position. */
  predicate Earlier(a: Row, b: Row) {
    || a.at < b.at
    || (a.at == b.at && (IdBefore(a.num, b.num) || (a.num == b.num && a.index < b.index)))
  }

  predicate IdBefore(a: Option<int>, b: Option<int>) {
    a.Some? && (b.None? || a.value < b.value)
  }

  function Insert(s: seq<Row>, r: Row): seq<Row> {
    if s == [] || Earlier(Last(s), r) then s + [r] else Insert(s[..|s| - 1], r) + [Last(s)]
  }

  function Sort(s: seq<Row>): seq<Row> {
    if s == [] then [] else Insert(Sort(s[..|s| - 1]), Last(s))
  }

  /** The comments that take part: from trusted authors, with a readable time. */
  function Rows(comments: seq<Comment>): seq<Row> {
    if comments == [] then []
    else
      var c, i := Last(comments), |comments| - 1;
      Rows(comments[..i]) + if c.trusted && c.at.Some? then [Row(c.at.value, c.num, i, c.rawId, c.mark)] else []
  }

  // ---------------------------------------------------------------- meaning

  function Or<T>(a: Option<T>, b: T): T { if a.Some? then a.value else b }

  function Time(r: Row, p: Payload): int { Or(p.at, r.at) }

  /** `bot in (holder, holder_child)`: an absent name matches an absent name. */
  predicate ByHolder(a: Active, p: Payload) { p.bot == a.payload.bot || p.bot == a.payload.child }

  predicate Names(a: Active, p: Payload) { p.claimId == Some(a.claimId) }

  function Touched(a: Active, time: int): Active { a.(last := Max(a.last, time)) }

  function ClaimId(r: Row, p: Payload): string {
    if p.claimId.Some? && p.claimId.value != "" then p.claimId.value
    else Or(r.rawId, Canonical.Decimal(r.index))
  }

  function Started(r: Row, p: Payload): Active { Active(p, ClaimId(r, p), Time(r, p), Time(r, p)) }

  function Step(active: Option<Active>, r: Row): Option<Active> {
    match (r.mark, active)
    case (None, _) => active
    case (Some(Claim(p)), None) => Some(Started(r, p))
    case (Some(Claim(p)), Some(a)) =>
      if ByHolder(a, p) then Some(Touched(a, Time(r, p)))
      else if r.at - a.last <= STALE then Some(Touched(a, r.at))
      else Some(Started(r, p))
    case (Some(Progress(p)), None) => None
    case (Some(Progress(p)), Some(a)) =>
      if ByHolder(a, p) && (p.claimId.None? || Names(a, p)) then Some(Touched(a, Time(r, p))) else active
    case (Some(Release(p)), None) => None
    case (Some(Release(p)), Some(a)) =>
      if p.claimId.None? || Names(a, p) then None
      else if ByHolder(a, p) then Some(Touched(a, Time(r, p)))
      else active
  }

  function Replay(rows: seq<Row>): Option<Active> {
    if rows == [] then None else Step(Replay(rows[..|rows| - 1]), Last(rows))
  }

  // ---------------------------------------------------------------- current_claim

  method CurrentClaim(comments: seq<Comment>) returns (active: Option<Active>)
    ensures active == Replay(Sort(Rows(comments)))
  {
    var ordered: seq<Row> := [];
    var index := 0;
    while index < |comments|
      invariant 0 <= index <= |comments| && ordered == Sort(Rows(comments[..index]))
    {
      var c := comments[index];
      assert comments[..index + 1][..index] == comments[..index];
      if c.trusted && c.at.Some? {
        var row := Row(c.at.value, c.num, index, c.rawId, c.mark);
        assert (Rows(comments[..index]) + [row])[..|Rows(comments[..index])|] == Rows(comments[..index]);
        ordered := Insert(ordered, row);
      } else {
        assert Rows(comments[..index]) + [] == Rows(comments[..index]);
      }
      index := index + 1;
    }
    assert comments[..index] == comments;

    active := None;
    var i := 0;
    while i < |ordered|
      invariant 0 <= i <= |ordered| && active == Replay(ordered[..i])
    {
      var r := ordered[i];
      assert ordered[..i + 1][..i] == ordered[..i];
      i := i + 1;
      if r.mark.Some? {
        var payload := r.mark.value.payload;
        var time := if payload.at.Some? then payload.at.value else r.at;
        if r.mark.value.Claim? {
          if active.Some? {
            if ByHolder(active.value, payload) {
              active := Some(active.value.(last := Max(active.value.last, time)));
              continue;
            }
            if r.at - active.value.last <= STALE {
              active := Some(active.value.(last := Max(active.value.last, r.at)));
              continue;
            }
          }
          active := Some(Active(payload, ClaimId(r, payload), time, time));
          continue;
        }
        if r.mark.value.Progress? {
          if active.Some? {
            if ByHolder(active.value, payload) && (payload.claimId.None? || Names(active.value, payload)) {
              active := Some(active.value.(last := Max(active.value.last, time)));
            }
          }
          continue;
        }
        if payload.claimId.None? || (active.Some? && Names(active.value, payload)) {
          active := None;
        } else if active.Some? {
          if ByHolder(active.value, payload) {
            active := Some(active.value.(last := Max(active.value.last, time)));
          }
        }
      }
    }
    assert ordered[..i] == ordered;
  }

  // ---------------------------------------------------------------- reconcile_claim_label

  datatype Edit = AddLabel | RemoveLabel

  /** One reading of the issue: whether it carries the label, and the claim its comments name. */
  datatype Reading = Reading(labelled: bool, claim: Option<Active>)

  predicate Agrees(r: Reading) { r.labelled == r.claim.Some? }

  /**
    Brings the label in line with the comments, reading again after each edit.  `readings` is what the
    four reads would find; the result is the first in which label and claim agree, and none if all four
    disagree.
  */
  method ReconcileLabel(readings: seq<Reading>) returns (settled: Option<nat>, edits: seq<Edit>)
    requires |readings| == 4
    ensures settled.Some? ==>
      settled.value < 4 && (readings[settled.value].labelled <==> readings[settled.value].claim.Some?)
    ensures forall k :: 0 <= k < (if settled.Some? then settled.value else 4) ==>
      (readings[k].labelled <==> readings[k].claim.None?)
    ensures |edits| == if settled.Some? then settled.value else 3
    ensures forall k :: 0 <= k < |edits| ==> edits[k] == if readings[k].claim.Some? then AddLabel else RemoveLabel
  {
    edits := [];
    for i := 0 to 3
      invariant |edits| == i && forall k :: 0 <= k < i ==> !Agrees(readings[k])
      invariant forall k :: 0 <= k < i ==> edits[k] == if readings[k].claim.Some? then AddLabel else RemoveLabel
    {
      if Agrees(readings[i]) {
        return Some(i), edits;
      }
      edits := edits + [if readings[i].claim.Some? then AddLabel else RemoveLabel];
    }
    settled := if Agrees(readings[3]) then Some(3) else None;
  }
}
