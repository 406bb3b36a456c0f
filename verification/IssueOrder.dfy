/**
  The order of a comment log: comments are replayed by time and id, so neither the order the API lists
  them in nor the comments of outsiders matter, and a new comment only adds to the end.
*/
module IssueOrder {
  import opened Prelude
  import opened IssueClaim

  lemma {:induction false} InsertBag(s: seq<Row>, r: Row)
    ensures multiset(Insert(s, r)) == multiset(s) + multiset{r}
  {
    if s != [] && !Earlier(Last(s), r) {
      InsertBag(s[..|s| - 1], r);
      assert s == s[..|s| - 1] + [Last(s)];
    }
  }

  lemma {:induction false} SortBag(s: seq<Row>)
    ensures multiset(Sort(s)) == multiset(s)
  {
    if s != [] {
      SortBag(s[..|s| - 1]);
      InsertBag(Sort(s[..|s| - 1]), Last(s));
      LastBag(s);
    }
  }

  lemma LastBag(s: seq<Row>)
    requires s != []
    ensures multiset(s) == multiset(s[..|s| - 1]) + multiset{Last(s)}
  {
    assert s == s[..|s| - 1] + [Last(s)];
  }

  lemma SortMembers(s: seq<Row>, r: Row)
    ensures r in Sort(s) <==> r in s
  {
    SortBag(s);
    assert r in Sort(s) <==> r in multiset(Sort(s));
  }

  predicate Ascending(s: seq<Row>) { forall i, j :: 0 <= i < j < |s| ==> Earlier(s[i], s[j]) }

  lemma {:induction false} InsertAscends(s: seq<Row>, r: Row)
    requires Ascending(s) && forall q :: q in s ==> q.index != r.index
    ensures Ascending(Insert(s, r))
  {
    if s != [] && !Earlier(Last(s), r) {
      var init := s[..|s| - 1];
      InsertAscends(init, r);
      forall q | q in Insert(init, r) ensures Earlier(q, Last(s)) {
        InsertBag(init, r);
        assert q in multiset(Insert(init, r));
      }
    }
  }

  lemma {:induction false} SortAscends(s: seq<Row>)
    requires forall i, j :: 0 <= i < j < |s| ==> s[i].index < s[j].index
    ensures Ascending(Sort(s))
  {
    if s != [] {
      var init := s[..|s| - 1];
      SortAscends(init);
      forall q | q in Sort(init) ensures q.index != Last(s).index {
        SortMembers(init, q);
      }
      InsertAscends(Sort(init), Last(s));
    }
  }

  /** An id before another; a comment without an id comes after those with one. */
  predicate IdSmaller(a: Option<int>, b: Option<int>) { a.Some? && (b.None? || a.value < b.value) }

  /** Trusted comments with a time are replayed by time, then id, then position; no other is. */
  lemma OrderExactly(comments: seq<Comment>, i: nat, j: nat)
    requires i < j < |Sort(Rows(comments))|
    ensures var (r, q) := (Sort(Rows(comments))[i], Sort(Rows(comments))[j]);
      && (r.at < q.at || (r.at == q.at && (IdSmaller(r.num, q.num) || (r.num == q.num && r.index < q.index))))
      && r.index < |comments|
      && var c := comments[r.index];
        c.trusted && c.at == Some(r.at) && c.num == r.num && c.rawId == r.rawId && c.mark == r.mark
    ensures |Sort(Rows(comments))| == |set k | 0 <= k < |comments| && comments[k].trusted && comments[k].at.Some?|
  {
    var s := Sort(Rows(comments));
    RowsAre(comments);
    SortAscends(Rows(comments));
    SortMembers(Rows(comments), s[i]);
    assert s[i] in s && Earlier(s[i], s[j]);
    SortBag(Rows(comments));
    assert |multiset(s)| == |multiset(Rows(comments))|;
    RowsCount(comments);
  }

  lemma {:induction false} RowsCount(comments: seq<Comment>)
    ensures |Rows(comments)| == |set k | 0 <= k < |comments| && comments[k].trusted && comments[k].at.Some?|
  {
    var all := set k | 0 <= k < |comments| && comments[k].trusted && comments[k].at.Some?;
    if comments == [] {
      assert all == {};
    } else {
      var n := |comments| - 1;
      RowsCount(comments[..n]);
      var before := set k | 0 <= k < n && comments[..n][k].trusted && comments[..n][k].at.Some?;
      assert all == if comments[n].trusted && comments[n].at.Some? then before + {n} else before;
    }
  }

  /** A comment later than all others, by time and id, adds its row at the end. */
  lemma NewCommentIsLast(comments: seq<Comment>, c: Comment)
    requires c.trusted && c.at.Some?
    requires forall r :: r in Rows(comments) ==> Earlier(r, Row(c.at.value, c.num, |comments|, c.rawId, c.mark))
    ensures Sort(Rows(comments + [c])) == Sort(Rows(comments)) + [Row(c.at.value, c.num, |comments|, c.rawId, c.mark)]
  {
    var row := Row(c.at.value, c.num, |comments|, c.rawId, c.mark);
    assert (comments + [c])[..|comments|] == comments;
    assert (Rows(comments) + [row])[..|Rows(comments)|] == Rows(comments);
    if Sort(Rows(comments)) != [] {
      SortMembers(Rows(comments), Last(Sort(Rows(comments))));
    }
  }

  /** A comment by an outsider, or without a time, changes nothing. */
  lemma OutsiderIsIgnored(comments: seq<Comment>, c: Comment)
    requires !c.trusted || c.at.None?
    ensures Rows(comments + [c]) == Rows(comments)
  {
    assert (comments + [c])[..|comments|] == comments;
  }

  // ---------------------------------------------------------------- the API's order

  predicate Counts(c: Comment) { c.trusted && c.at.Some? }

  /** The row of a comment but for its position. */
  function PlainRow(c: Comment): Row
    requires Counts(c)
  {
    Row(c.at.value, c.num, 0, c.rawId, c.mark)
  }

  function Plain(r: Row): Row { r.(index := 0) }

  function PlainAll(s: seq<Row>): (p: seq<Row>)
    ensures |p| == |s| && forall i :: 0 <= i < |s| ==> p[i] == Plain(s[i])
  {
    seq(|s|, i requires 0 <= i < |s| => Plain(s[i]))
  }

  predicate KeyBefore(a: Row, b: Row) { a.at < b.at || (a.at == b.at && IdBefore(a.num, b.num)) }

  predicate Keyed(s: seq<Row>) { forall i, j :: 0 <= i < j < |s| ==> KeyBefore(s[i], s[j]) }

  /** Sorted by distinct keys, a sequence is determined by its members. */
  lemma {:induction false} KeyedUnique(a: seq<Row>, b: seq<Row>)
    requires Keyed(a) && Keyed(b) && forall r :: r in a <==> r in b
    ensures a == b
  {
    if a == [] {
      assert b != [] ==> Last(b) in a;
    } else {
      assert Last(a) in b && (b != [] ==> Last(b) in a);
      assert Last(a) == Last(b);
      var a', b' := a[..|a| - 1], b[..|b| - 1];
      forall r ensures r in a' <==> r in b' {
        assert r in a <==> r in a' || r == Last(a);
        assert r in b <==> r in b' || r == Last(b);
        assert Last(a) !in a' && Last(b) !in b';
      }
      KeyedUnique(a', b');
    }
  }

  lemma {:induction false} RowsAre(comments: seq<Comment>)
    ensures forall i, j :: 0 <= i < j < |Rows(comments)| ==> Rows(comments)[i].index < Rows(comments)[j].index
    ensures forall r :: r in Rows(comments) ==>
      r.index < |comments| && Counts(comments[r.index]) && Plain(r) == PlainRow(comments[r.index])
    ensures forall i :: 0 <= i < |comments| && Counts(comments[i]) ==>
      PlainRow(comments[i]).(index := i) in Rows(comments)
  {
    if comments != [] {
      RowsAre(comments[..|comments| - 1]);
    }
  }

  lemma {:induction false} ReplayPlain(s: seq<Row>)
    requires forall r :: r in s ==> r.rawId.Some?
    ensures Replay(PlainAll(s)) == Replay(s)
  {
    if s != [] {
      ReplayPlain(s[..|s| - 1]);
      assert PlainAll(s)[..|s| - 1] == PlainAll(s[..|s| - 1]);
      assert Last(s) in s;
    }
  }

  /** The trusted comments carry distinct (time, id) pairs, as REST comments do. */
  predicate Distinct(comments: seq<Comment>) {
    && (forall c :: c in comments && Counts(c) ==> c.rawId.Some?)
    && forall i, j :: 0 <= i < j < |comments| && Counts(comments[i]) && Counts(comments[j])
         ==> comments[i].at != comments[j].at || comments[i].num != comments[j].num
  }

  lemma SortedKeyed(comments: seq<Comment>)
    requires Distinct(comments)
    ensures Keyed(PlainAll(Sort(Rows(comments))))
    ensures forall r :: r in Sort(Rows(comments)) ==> r.rawId.Some?
  {
    var s := Sort(Rows(comments));
    RowsAre(comments);
    SortAscends(Rows(comments));
    forall r | r in s ensures r in Rows(comments) {
      SortMembers(Rows(comments), r);
    }
    forall i, j | 0 <= i < j < |s| ensures KeyBefore(Plain(s[i]), Plain(s[j])) {
      assert s[i] in s && s[j] in s;
      assert Earlier(s[i], s[j]);
      var a, b := comments[s[i].index], comments[s[j].index];
      assert s[i].index != s[j].index;
    }
  }

  lemma PlainMembers(comments: seq<Comment>, p: Row)
    ensures p in PlainAll(Sort(Rows(comments))) <==> exists c :: c in comments && Counts(c) && p == PlainRow(c)
  {
    var s := Sort(Rows(comments));
    RowsAre(comments);
    if p in PlainAll(s) {
      var i :| 0 <= i < |s| && PlainAll(s)[i] == p;
      SortMembers(Rows(comments), s[i]);
      assert comments[s[i].index] in comments;
    }
    if c :| c in comments && Counts(c) && p == PlainRow(c) {
      var i :| 0 <= i < |comments| && comments[i] == c;
      var r := p.(index := i);
      SortMembers(Rows(comments), r);
      var k :| 0 <= k < |s| && s[k] == r;
      assert PlainAll(s)[k] == p;
    }
  }

  /** Whatever order the comments are listed in, the same claim is in force. */
  lemma ListingOrderDoesNotMatter(a: seq<Comment>, b: seq<Comment>)
    requires Distinct(a) && Distinct(b) && forall c :: c in a <==> c in b
    ensures Replay(Sort(Rows(a))) == Replay(Sort(Rows(b)))
  {
    hide Sort, Rows, Replay, Distinct;
    var s, s' := Sort(Rows(a)), Sort(Rows(b));
    SortedKeyed(a);
    SortedKeyed(b);
    forall p ensures p in PlainAll(s) <==> p in PlainAll(s') {
      PlainMembers(a, p);
      PlainMembers(b, p);
    }
    KeyedUnique(PlainAll(s), PlainAll(s'));
    ReplayPlain(s);
    ReplayPlain(s');
  }

  // ---------------------------------------------------------------- readings over time

  lemma {:induction false} KeyedPrefix(a: seq<Row>, b: seq<Row>)
    requires Keyed(a) && Keyed(b) && forall r :: r in a ==> r in b
    requires forall q, r :: q in a && r in b && r !in a ==> KeyBefore(q, r)
    ensures a <= b
    decreases |b|
  {
    if forall r :: r in b ==> r in a {
      KeyedUnique(a, b);
    } else {
      var n := |b| - 1;
      if b[n] in a {
        LastIsKnown(a, b);
      } else {
        forall r | r in a ensures r in b[..n] {
          assert r in b && r != b[n];
        }
        KeyedPrefix(a, b[..n]);
      }
    }
  }

  lemma LastIsKnown(a: seq<Row>, b: seq<Row>)
    requires Keyed(b) && b != [] && Last(b) in a
    requires forall q, r :: q in a && r in b && r !in a ==> KeyBefore(q, r)
    ensures forall r :: r in b ==> r in a
  {
    forall r | r in b ensures r in a {
      var i :| 0 <= i < |b| && b[i] == r;
      assert b[i] == Last(b) || KeyBefore(b[i], Last(b));
    }
  }

  /** Every comment that only the later reading has comes after those of the earlier one, by time and id. */
  predicate OnlyLaterAdded(a: seq<Comment>, b: seq<Comment>) {
    && (forall c :: c in a ==> c in b)
    && forall c, d :: c in a && Counts(c) && d in b && Counts(d) && d !in a ==> KeyBefore(PlainRow(c), PlainRow(d))
  }

  /**
    If only later comments have been added, any number of them and in whatever order the API lists them,
    the log of the earlier reading is a prefix of the log of the later one.
  */
  lemma EarlierReadingIsPrefix(a: seq<Comment>, b: seq<Comment>)
    requires Distinct(a) && Distinct(b) && OnlyLaterAdded(a, b)
    ensures PlainAll(Sort(Rows(a))) <= PlainAll(Sort(Rows(b)))
    ensures Replay(PlainAll(Sort(Rows(a)))) == Replay(Sort(Rows(a)))
    ensures Replay(PlainAll(Sort(Rows(b)))) == Replay(Sort(Rows(b)))
  {
    hide Sort, Rows, Replay, Distinct;
    var s, t := Sort(Rows(a)), Sort(Rows(b));
    SortedKeyed(a);
    SortedKeyed(b);
    forall p | p in PlainAll(s) ensures p in PlainAll(t) {
      PlainMembers(a, p);
      PlainMembers(b, p);
    }
    forall p, q | p in PlainAll(s) && q in PlainAll(t) && q !in PlainAll(s) ensures KeyBefore(p, q) {
      PlainMembers(a, p);
      PlainMembers(b, q);
      PlainMembers(a, q);
      var c :| c in a && Counts(c) && p == PlainRow(c);
      var d :| d in b && Counts(d) && q == PlainRow(d);
      assert d !in a;
    }
    KeyedPrefix(PlainAll(s), PlainAll(t));
    ReplayPlain(s);
    ReplayPlain(t);
  }
}
