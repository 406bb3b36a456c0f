/**
  Touching a claim by editing an earlier progress comment.  The log is then replayed with the edited
  time, which is harmless for a claim still in force and may reopen a takeover that has happened since.
*/
module IssueTouch {
  import opened Prelude
  import opened IssueClaim
  import opened IssueExclusion

  /** A progress row with the time of its mark replaced. */
  function WithTime(r: Row, time: int): Row
    requires r.mark.Some? && r.mark.value.Progress?
  {
    r.(mark := Some(Progress(r.mark.value.payload.(at := Some(time)))))
  }

  /** A touch may rewrite the time in an earlier progress comment instead of adding one. */
  function Patched(rows: seq<Row>, k: nat, time: int): seq<Row>
    requires k < |rows| && rows[k].mark.Some? && rows[k].mark.value.Progress?
  {
    rows[k := WithTime(rows[k], time)]
  }

  lemma StepTouched(a: Active, r: Row, time: int)
    requires !Ends(a, r)
    ensures !Ends(Touched(a, time), r)
    ensures Step(Some(a), r).Some? && Step(Some(Touched(a, time)), r) == Some(Touched(Step(Some(a), r).value, time))
  {
  }

  /** Editing a progress comment of the claim still in force is the same as adding activity at that time. */
  lemma {:induction false} TouchIsActivity(rows: seq<Row>, k: nat, time: int)
    requires k < |rows| && rows[k].mark.Some? && rows[k].mark.value.Progress?
    requires Replay(rows).Some? && Since(rows) < k
    requires var p := rows[k].mark.value.payload;
      ByHolder(Replay(rows).value, p) && (p.claimId.None? || Names(Replay(rows).value, p)) && time >= Time(rows[k], p)
    ensures Replay(Patched(rows, k, time)) == Some(Touched(Replay(rows).value, time))
  {
    hide Step, Ends;
    var n := |rows| - 1;
    var rows' := Patched(rows, k, time);
    ActiveSinceItsComment(rows);
    assert Held(Replay(rows[..n]), Replay(rows).value);
    if k == n {
      assert rows'[..n] == rows[..n];
      ProgressStep(Replay(rows[..n]).value, rows[n], time);
    } else {
      TouchIsActivity(rows[..n], k, time);
      assert rows'[..n] == Patched(rows[..n], k, time);
      StepKeepsUnlessEnded(Replay(rows[..n]).value, rows[n]);
      StepTouched(Replay(rows[..n]).value, rows[n], time);
    }
  }

  lemma ProgressStep(a: Active, r: Row, time: int)
    requires r.mark.Some? && r.mark.value.Progress?
    requires var p := r.mark.value.payload; ByHolder(a, p) && (p.claimId.None? || Names(a, p)) && time >= Time(r, p)
    ensures Step(Some(a), r).Some?
    ensures Step(Some(a), WithTime(r, time)) == Some(Touched(Step(Some(a), r).value, time))
  {
  }

  // ---------------------------------------------------------------- what an edit does, case by case

  predicate IsProgress(r: Row) { r.mark.Some? && r.mark.value.Progress? }

  /** The row is a sign of life of claim `a`. */
  predicate ProgressOf(r: Row, a: Active) {
    IsProgress(r) && ByHolder(a, r.mark.value.payload)
      && (r.mark.value.payload.claimId.None? || Names(a, r.mark.value.payload))
  }

  lemma {:induction false} SameFrom(rows: seq<Row>, rows': seq<Row>, m: nat)
    requires |rows'| == |rows| && m <= |rows| && rows[m..] == rows'[m..] && Replay(rows[..m]) == Replay(rows'[..m])
    ensures Replay(rows) == Replay(rows')
    decreases |rows|
  {
    var n := |rows| - 1;
    if m == |rows| {
      assert rows[..m] == rows && rows'[..m] == rows';
    } else {
      assert rows[n] == rows[m..][n - m] && rows'[n] == rows'[m..][n - m];
      assert rows[..n][..m] == rows[..m] && rows'[..n][..m] == rows'[..m];
      assert rows[..n][m..] == rows[m..][..n - m] && rows'[..n][m..] == rows'[m..][..n - m];
      SameFrom(rows[..n], rows'[..n], m);
    }
  }

  /** Editing a progress comment that is not about the claim in force there changes nothing. */
  lemma EditIsInert(rows: seq<Row>, k: nat, time: int)
    requires k < |rows| && IsProgress(rows[k])
    requires Replay(rows[..k]).None? || !ProgressOf(rows[k], Replay(rows[..k]).value)
    ensures Replay(Patched(rows, k, time)) == Replay(rows)
  {
    var rows' := Patched(rows, k, time);
    assert rows[..k + 1][..k] == rows[..k] && rows'[..k + 1][..k] == rows'[..k] && rows'[..k] == rows[..k];
    SameFrom(rows, rows', k + 1);
  }

  /** Row `t` ends a claim that the progress comment `k` was about. */
  predicate EndsEdited(rows: seq<Row>, k: nat, t: nat) {
    && k < t < |rows| && Replay(rows[..t]).Some? && Since(rows[..t]) < k
    && ProgressOf(rows[k], Replay(rows[..t]).value) && Ends(Replay(rows[..t]).value, rows[t])
  }

  /**
    Editing a comment of a claim that ended at row `t` leaves that end standing if it was a release, and
    if it was a rival's claim exactly when that came more than a day after the edited activity too;
    otherwise the old claim is in force again.
  */
  lemma TakeoverSurvivesExactly(rows: seq<Row>, k: nat, t: nat, time: int)
    requires EndsEdited(rows, k, t) && time >= Time(rows[k], rows[k].mark.value.payload)
    ensures var (a, before, after) := (Replay(rows[..t]).value, Replay(rows[..t + 1]),
                                       Replay(Patched(rows, k, time)[..t + 1]));
      && (after == before <==> !IsClaim(rows[t]) || rows[t].at - Max(a.last, time) > STALE)
      && (after != before ==> Has(after, a))
  {
    hide Replay, Since;
    var a := Replay(rows[..t]).value;
    TouchIsActivity(rows[..t], k, time);
    assert Patched(rows, k, time)[..t] == Patched(rows[..t], k, time);
    assert rows[..t + 1] == rows[..t] + [rows[t]];
    assert Patched(rows, k, time)[..t + 1] == Patched(rows[..t], k, time) + [rows[t]];
    ReplayAppend(rows[..t], rows[t]);
    ReplayAppend(Patched(rows[..t], k, time), rows[t]);
  }

  /** When the end stands, so does everything after it. */
  lemma SurvivorIsUntouched(rows: seq<Row>, k: nat, t: nat, time: int)
    requires EndsEdited(rows, k, t) && time >= Time(rows[k], rows[k].mark.value.payload)
    requires !IsClaim(rows[t]) || rows[t].at - Max(Replay(rows[..t]).value.last, time) > STALE
    ensures Replay(Patched(rows, k, time)) == Replay(rows)
  {
    hide Replay, Since;
    TakeoverSurvivesExactly(rows, k, t, time);
    assert rows[t + 1..] == Patched(rows, k, time)[t + 1..];
    SameFrom(rows, Patched(rows, k, time), t + 1);
  }

  /** These are all the cases: the edit is inert, its claim is still in force, or some row ended that claim. */
  lemma {:induction false} EditCases(rows: seq<Row>, k: nat)
    requires k < |rows| && IsProgress(rows[k])
    ensures Replay(rows[..k]).None? || !ProgressOf(rows[k], Replay(rows[..k]).value)
      || (Replay(rows).Some? && Since(rows) < k && ProgressOf(rows[k], Replay(rows).value))
      || exists t :: EndsEdited(rows, k, t)
  {
    if Replay(rows[..k]).Some? && ProgressOf(rows[k], Replay(rows[..k]).value) {
      EditedClaim(rows, k, |rows|);
      assert rows[..|rows|] == rows;
    }
  }

  lemma {:induction false} EditedClaim(rows: seq<Row>, k: nat, n: nat)
    requires k < n <= |rows| && Replay(rows[..k]).Some? && ProgressOf(rows[k], Replay(rows[..k]).value)
    ensures (Replay(rows[..n]).Some? && Since(rows[..n]) < k && ProgressOf(rows[k], Replay(rows[..n]).value))
      || exists t :: EndsEdited(rows, k, t)
  {
    var r := rows[n - 1];
    assert rows[..n][..n - 1] == rows[..n - 1] && rows[..n][n - 1] == r;
    if n - 1 > k {
      EditedClaim(rows, k, n - 1);
    }
    if !exists t :: EndsEdited(rows, k, t) {
      var a := Replay(rows[..n - 1]).value;
      StepKeepsUnlessEnded(a, r);
      assert n - 1 > k ==> !EndsEdited(rows, k, n - 1);
    }
  }

  // ---------------------------------------------------------------- the race

  const SECOND := 1_000_000

  /** Bot A's claim and touch, and bot B's takeover one second over a day after that touch. */
  function RaceRows(): seq<Row> {
    var (a, b) := (Payload(Some("A"), None, None, None, Some("a"), None),
                   Payload(Some("B"), None, None, None, Some("b"), None));
    [Row(0, Some(1), 0, Some("1"), Some(Claim(a))), Row(3600 * SECOND, Some(2), 1, Some("2"), Some(Progress(a))),
     Row(3600 * SECOND + STALE + SECOND, Some(3), 2, Some("3"), Some(Claim(b)))]
  }

  /**
    The touch command can undo a confirmed takeover.  A reads its claim a day to the second after its last
    activity and may touch it; B reads it a second later, may take it over, and is confirmed; A's edit,
    which lands last, puts A's claim back in force though nobody released it.
  */
  lemma TouchCanUndoTakeover()
    ensures var (rows, scope, now) := (RaceRows(), Scope(None, None, None), 3600 * SECOND + STALE);
      && Decide(DoTouch(scope), "A", true, true, Replay(rows[..2]), now) == PostTouch("a")
      && Decide(DoClaim(scope), "B", true, true, Replay(rows[..2]), rows[2].at) == PostClaim(true)
      && InForce(Replay(rows), rows[2])
      && EndsEdited(rows, 1, 2) && InForce(Replay(Patched(rows, 1, now)), rows[0])
  {
    var (rows, now) := (RaceRows(), 3600 * SECOND + STALE);
    var a := rows[0].mark.value.payload;
    assert rows[..3] == rows && rows[..2][..1] == rows[..1] && rows[..1][..0] == [];
    assert Replay(rows[..1]) == Some(Started(rows[0], a));
    assert Replay(rows[..2]) == Some(Started(rows[0], a).(last := 3600 * SECOND));
    assert Since(rows[..2]) == Since(rows[..1]) == 0;
    TakeoverSurvivesExactly(rows, 1, 2, now);
    assert Patched(rows, 1, now)[..3] == Patched(rows, 1, now);
  }
}
