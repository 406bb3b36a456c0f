/**
  Waiting for a completion record in a growing log, in line-prefix and exit-prefix mode.  The file is
  read in pieces of any size; a rotation or truncation starts the content over.  Decoding a line
  (UTF-8 with replacement) is a parameter.
*/
module WaitLog {
  import opened Prelude
  import opened ByteLines

  const MAX_LINE := 1024 * 1024
  const MAX_TAIL_BYTES := 65536

  datatype Mode = LinePrefix(prefixes: seq<string>) | ExitPrefix(prefix: string)

  datatype Verdict = Matched(rc: nat) | InvalidStatus | TooLong

  datatype Config = Config(mode: Mode, keep: nat, decode: seq<Byte> -> string)

  // ---------------------------------------------------------------- one line

  function StripReturns(s: string): string {
    if s != "" && Last(s) == '\r' then StripReturns(s[..|s| - 1]) else s
  }

  predicate AllDigits(s: string) { forall i :: 0 <= i < |s| ==> '0' <= s[i] <= '9' }

  function Number(s: string): nat
    requires AllDigits(s)
  {
    if s == "" then 0 else 10 * Number(s[..|s| - 1]) + (Last(s) as int - '0' as int)
  }

  /** An exit status: one to three digits, at most 255. */
  function Status(s: string): Option<nat> {
    if 1 <= |s| <= 3 && AllDigits(s) && Number(s) <= 255 then Some(Number(s)) else None
  }

  function Judge(c: Config, line: seq<Byte>): Option<Verdict> {
    if |line| > MAX_LINE then Some(TooLong)
    else
      var text := StripReturns(c.decode(line));
      match c.mode
      case ExitPrefix(prefix) =>
        if !(prefix <= text) then None
        else if Status(text[|prefix|..]).Some? then Some(Matched(Status(text[|prefix|..]).value))
        else Some(InvalidStatus)
      case LinePrefix(prefixes) => if exists p :: p in prefixes && p <= text then Some(Matched(0)) else None
  }

  /** A line without its newline. */
  function Strip(line: seq<Byte>): seq<Byte> { if line == [] then [] else line[..|line| - 1] }

  // ---------------------------------------------------------------- the whole content

  /** The first decisive line, by position. */
  function FirstDecisive(c: Config, lines: seq<seq<Byte>>): (at: Option<nat>)
    ensures at.Some? ==> at.value < |lines| && Judge(c, Strip(lines[at.value])).Some?
    ensures forall i :: 0 <= i < (if at.Some? then at.value else |lines|) ==> Judge(c, Strip(lines[i])).None?
  {
    if lines == [] then None
    else if Judge(c, Strip(lines[0])).Some? then Some(0)
    else
      var at := FirstDecisive(c, lines[1..]);
      assert forall i :: 1 <= i < |lines| ==> lines[i] == lines[1..][i - 1];
      if at.Some? then Some(at.value + 1) else None
  }

  /** What a scan of the content's lines finds: its first decisive line, or an unfinished line past the limit. */
  function Scan(c: Config, content: seq<Byte>): Option<Verdict> {
    match FirstDecisive(c, Lines(content))
    case Some(at) => Judge(c, Strip(Lines(content)[at]))
    case None => if |Tail(content)| > MAX_LINE then Some(TooLong) else None
  }

  // ---------------------------------------------------------------- the tail

  function Clip(line: seq<Byte>): (r: seq<Byte>)
    ensures |r| <= MAX_TAIL_BYTES
  {
    var s := Strip(line);
    if |s| <= MAX_TAIL_BYTES then s else s[|s| - MAX_TAIL_BYTES..]
  }

  function Clipped(lines: seq<seq<Byte>>): (r: seq<seq<Byte>>)
    ensures |r| == |lines| && forall i :: 0 <= i < |r| ==> r[i] == Clip(lines[i])
  {
    seq(|lines|, i requires 0 <= i < |lines| => Clip(lines[i]))
  }

  function Bytes(lines: seq<seq<Byte>>): nat {
    if lines == [] then 0 else |lines[0]| + Bytes(lines[1..])
  }

  predicate Fits(lines: seq<seq<Byte>>, keep: nat) { |lines| <= keep && Bytes(lines) <= MAX_TAIL_BYTES }

  /** The last `n` of some lines. */
  function Ending(lines: seq<seq<Byte>>, n: nat): seq<seq<Byte>>
    requires n <= |lines|
  {
    lines[|lines| - n..]
  }

  /** No longer run of the latest lines would fit. */
  predicate NoLonger(tail: seq<seq<Byte>>, lines: seq<seq<Byte>>, keep: nat) {
    && |tail| <= |lines| && tail == Ending(lines, |tail|)
    && (|tail| < |lines| ==> !Fits(Ending(lines, |tail| + 1), keep))
  }

  /** The longest run of the latest lines within both the line count and the byte budget. */
  predicate LongestTail(tail: seq<seq<Byte>>, lines: seq<seq<Byte>>, keep: nat) {
    NoLonger(tail, lines, keep) && Fits(tail, keep)
  }

  lemma {:induction false} BytesAppend(a: seq<seq<Byte>>, b: seq<seq<Byte>>)
    ensures Bytes(a + b) == Bytes(a) + Bytes(b)
    decreases |a|
  {
    if a == [] {
      assert a + b == b;
    } else {
      assert (a + b)[1..] == a[1..] + b;
      BytesAppend(a[1..], b);
    }
  }

  lemma BytesOne(x: seq<Byte>)
    ensures Bytes([x]) == |x|
  {
    assert [x][1..] == [];
  }

  // ---------------------------------------------------------------- the waiter

  class Waiter {
    const config: Config
    var partial: seq<Byte>
    var tail: seq<seq<Byte>>
    var tailBytes: nat
    /** The content read since the last rotation. */
    ghost var content: seq<Byte>

    ghost predicate Valid()
      reads this
    {
      && Scan(config, content).None? && partial == Tail(content)
      && tailBytes == Bytes(tail) && LongestTail(tail, Clipped(Lines(content)), config.keep)
    }

    constructor (c: Config)
      ensures Valid() && config == c && content == []
    {
      config, partial, tail, tailBytes, content := c, [], [], 0, [];
    }

    method Restart()
      modifies this
      ensures Valid() && content == []
    {
      partial, tail, tailBytes, content := [], [], 0, [];
    }

    /** deque(maxlen) append, then drop from the front until the budget holds. */
    method Keep(x: seq<Byte>, ghost lines: seq<seq<Byte>>)
      requires tailBytes == Bytes(tail) && LongestTail(tail, lines, config.keep) && |x| <= MAX_TAIL_BYTES
      modifies this`tail, this`tailBytes
      ensures tailBytes == Bytes(tail) && LongestTail(tail, lines + [x], config.keep)
    {
      hide LongestTail, NoLonger, Fits;
      ghost var all := lines + [x];
      TailMeans(tail, lines, config.keep);
      if config.keep == 0 {
        KeepNone(tail, lines, x);
        return;
      }
      KeepStart(tail, lines, x, config.keep);
      if |tail| == config.keep {
        tailBytes := tailBytes - |tail[0]|;
        tail := tail[1..];
      }
      BytesAppend(tail, [x]);
      BytesOne(x);
      tail := tail + [x];
      tailBytes := tailBytes + |x|;
      while tailBytes > MAX_TAIL_BYTES
        invariant tail != [] && Last(tail) == x
        invariant tailBytes == Bytes(tail) && |tail| <= config.keep && NoLonger(tail, all, config.keep)
        decreases |tail|
      {
        LongTail(tail);
        DropFront(tail, all, config.keep);
        tailBytes := tailBytes - |tail[0]|;
        tail := tail[1..];
      }
      TailIs(tail, all, config.keep);
    }

    /** One read that returned something. */
    method Take(data: seq<Byte>) returns (verdict: Option<Verdict>)
      requires Valid()
      modifies this
      ensures content == old(content) + data && verdict == Scan(config, content)
      ensures verdict.None? ==> Valid()
      ensures verdict.Some? && verdict != Some(TooLong) ==> Reports(verdict.value)
    {
      hide Judge, LongestTail, Lines, Tail, Scan, FirstDecisive, FirstNewline;
      LinesAppend(content, data);
      ghost var past := Lines(content);
      Undecided(config, content);
      partial := partial + data;
      content := content + data;
      while FirstNewline(partial) < |partial|
        invariant content == old(content) + data
        invariant Lines(content) == past + Lines(partial) && Tail(content) == Tail(partial)
        invariant forall i :: 0 <= i < |past| ==> Judge(config, Strip(past[i])).None?
        invariant tailBytes == Bytes(tail) && LongestTail(tail, Clipped(past), config.keep)
        decreases |partial|
      {
        ghost var first, rest := LinesSplit(partial);
        LinesCons(first, rest);
        var end := FirstNewline(partial);
        var line := partial[..end];
        partial := partial[end + 1..];
        assert line == Strip(first) && partial == rest;
        assert Lines(content) == (past + [first]) + Lines(rest);
        if |line| > MAX_LINE {
          TooLongIsJudged(config, line);
          Decided(config, content, past, first, Lines(rest));
          return Some(TooLong);
        }
        var kept := if |line| <= MAX_TAIL_BYTES then line else line[|line| - MAX_TAIL_BYTES..];
        Keep(kept, Clipped(past));
        assert Clipped(past) + [kept] == Clipped(past + [first]);
        verdict := Judge(config, line);
        past := past + [first];
        if verdict.Some? {
          Decided(config, content, past[..|past| - 1], first, Lines(rest));
          partial := [];
          return;
        }
      }
      ghost var none, more := LinesSplit(partial);
      assert past + [] == past;
      Undecided(config, content);
      verdict := if |partial| > MAX_LINE then Some(TooLong) else None;
    }

    /** The lines kept when a line decided: the longest tail ending with that line. */
    ghost predicate Reports(v: Verdict)
      reads this
    {
      var at := FirstDecisive(config, Lines(content));
      at.Some? && LongestTail(tail, Clipped(Lines(content)[..at.value + 1]), config.keep)
      && (v.Matched? ==> partial == [])
    }
  }

  lemma KeepStart(tail: seq<seq<Byte>>, lines: seq<seq<Byte>>, x: seq<Byte>, keep: nat)
    requires LongestTail(tail, lines, keep) && keep > 0
    ensures var kept := (if |tail| == keep then tail[1..] else tail) + [x];
      |kept| <= keep && NoLonger(kept, lines + [x], keep)
  {
    var kept := (if |tail| == keep then tail[1..] else tail) + [x];
    var all := lines + [x];
    assert kept == Ending(all, |kept|);
    if |kept| < |all| && |kept| < keep {
      assert Ending(all, |kept| + 1) == Ending(lines, |tail| + 1) + [x];
      BytesAppend(Ending(lines, |tail| + 1), [x]);
    }
  }

  lemma TooLongIsJudged(c: Config, line: seq<Byte>)
    requires |line| > MAX_LINE
    ensures Judge(c, line) == Some(TooLong)
  {
  }

  /** A scan that has seen only undecided lines `past` stops at `first` if that decides. */
  lemma Decided(c: Config, content: seq<Byte>, past: seq<seq<Byte>>, first: seq<Byte>, more: seq<seq<Byte>>)
    requires Lines(content) == past + [first] + more
    requires forall i :: 0 <= i < |past| ==> Judge(c, Strip(past[i])).None?
    requires Judge(c, Strip(first)).Some?
    ensures FirstDecisive(c, Lines(content)) == Some(|past|) && Lines(content)[..|past| + 1] == past + [first]
    ensures Scan(c, content) == Judge(c, Strip(first))
  {
    hide Judge, Lines;
    var lines := Lines(content);
    assert forall i :: 0 <= i < |past| ==> lines[i] == past[i];
    assert lines[|past|] == first;
  }

  lemma Undecided(c: Config, content: seq<Byte>)
    ensures FirstDecisive(c, Lines(content)).None?
      <==> forall i :: 0 <= i < |Lines(content)| ==> Judge(c, Strip(Lines(content)[i])).None?
    ensures FirstDecisive(c, Lines(content)).None? ==>
      Scan(c, content) == if |Tail(content)| > MAX_LINE then Some(TooLong) else None
    ensures FirstDecisive(c, Lines(content)).Some? ==> Scan(c, content).Some?
  {
    hide Judge, Lines;
  }

  lemma TailMeans(tail: seq<seq<Byte>>, lines: seq<seq<Byte>>, keep: nat)
    requires LongestTail(tail, lines, keep)
    ensures |tail| <= keep && Bytes(tail) <= MAX_TAIL_BYTES
  {
  }

  lemma TailIs(tail: seq<seq<Byte>>, lines: seq<seq<Byte>>, keep: nat)
    requires NoLonger(tail, lines, keep) && |tail| <= keep && Bytes(tail) <= MAX_TAIL_BYTES
    ensures LongestTail(tail, lines, keep)
  {
  }

  lemma KeepNone(tail: seq<seq<Byte>>, lines: seq<seq<Byte>>, x: seq<Byte>)
    requires LongestTail(tail, lines, 0)
    ensures LongestTail(tail, lines + [x], 0)
  {
  }

  lemma DropFront(tail: seq<seq<Byte>>, lines: seq<seq<Byte>>, keep: nat)
    requires NoLonger(tail, lines, keep) && tail != [] && Bytes(tail) > MAX_TAIL_BYTES
    ensures NoLonger(tail[1..], lines, keep)
  {
    assert tail[1..] == Ending(lines, |tail| - 1);
  }

  lemma LongTail(tail: seq<seq<Byte>>)
    requires tail != [] && |Last(tail)| <= MAX_TAIL_BYTES
    ensures |tail| == 1 ==> Bytes(tail) <= MAX_TAIL_BYTES
  {
    if |tail| == 1 {
      BytesOne(tail[0]);
      assert tail == [tail[0]];
    }
  }

  // ---------------------------------------------------------------- waiting

  /** One look at the file: whether it is another file or has shrunk, and what could be read past the last position. */
  datatype Poll = Poll(restarted: bool, data: seq<Byte>)

  /** Looks until a record decides; none means the looks ran out, as at the deadline. */
  method Wait(c: Config, polls: seq<Poll>) returns (verdict: Option<Verdict>, waiter: Waiter)
    ensures waiter.config == c && (verdict, waiter.content) == Watch(c, [], polls)
    ensures verdict.None? ==> waiter.Valid()
    ensures verdict.Some? && verdict != Some(TooLong) ==> waiter.Reports(verdict.value)
  {
    waiter := new Waiter(c);
    var i := 0;
    while i < |polls|
      invariant 0 <= i <= |polls| && waiter.config == c && waiter.Valid() && fresh(waiter)
      invariant Watch(c, waiter.content, polls[i..]) == Watch(c, [], polls)
    {
      hide Scan;
      assert polls[i..][1..] == polls[i + 1..];
      if polls[i].restarted {
        waiter.Restart();
      }
      if polls[i].data != [] {
        verdict := waiter.Take(polls[i].data);
        if verdict.Some? {
          return;
        }
      } else {
        assert waiter.content + [] == waiter.content;
      }
      i := i + 1;
    }
    verdict := None;
  }

  /** The first decision as content builds up, with the content it was made on. */
  function Watch(c: Config, content: seq<Byte>, polls: seq<Poll>): (Option<Verdict>, seq<Byte>)
    decreases |polls|
  {
    if polls == [] then (None, content)
    else
      var now := (if polls[0].restarted then [] else content) + polls[0].data;
      if polls[0].data != [] && Scan(c, now).Some? then (Scan(c, now), now) else Watch(c, now, polls[1..])
  }

  function Data(polls: seq<Poll>): seq<Byte> {
    if polls == [] then [] else polls[0].data + Data(polls[1..])
  }

  /** More content never changes a decision. */
  lemma DecisionIsFinal(c: Config, content: seq<Byte>, more: seq<Byte>)
    requires Scan(c, content).Some?
    ensures Scan(c, content + more) == Scan(c, content)
  {
    hide Judge, Lines, Tail, Scan, FirstDecisive;
    Undecided(c, content);
    LinesAppend(content, more);
    var lines := Lines(content);
    match FirstDecisive(c, lines)
    case Some(at) =>
      DecidedAt(c, content, at);
      var rest := Lines(Tail(content) + more);
      assert lines + rest == lines[..at] + [lines[at]] + (lines[at + 1..] + rest);
      Decided(c, content + more, lines[..at], lines[at], lines[at + 1..] + rest);
    case None =>
      LongLine(c, content, more);
  }

  lemma DecidedAt(c: Config, content: seq<Byte>, at: nat)
    requires FirstDecisive(c, Lines(content)) == Some(at)
    ensures Scan(c, content) == Judge(c, Strip(Lines(content)[at]))
  {
  }

  lemma LongLine(c: Config, content: seq<Byte>, more: seq<Byte>)
    requires FirstDecisive(c, Lines(content)).None? && |Tail(content)| > MAX_LINE
    ensures Scan(c, content + more) == Some(TooLong)
  {
    hide Judge, Lines, Tail, Scan, FirstDecisive, FirstNewline;
    Undecided(c, content);
    LinesAppend(content, more);
    LongStart(content, more);
    var now := Tail(content) + more;
    var line, rest := LinesSplit(now);
    if FirstNewline(now) < |now| {
      LinesCons(line, rest);
      TooLongIsJudged(c, Strip(line));
      assert Lines(content) + ([line] + Lines(rest)) == Lines(content) + [line] + Lines(rest);
      Decided(c, content + more, Lines(content), line, Lines(rest));
    } else {
      assert Lines(content) + [] == Lines(content);
      Undecided(c, content + more);
    }
  }

  /** An unfinished line only grows. */
  lemma LongStart(content: seq<Byte>, more: seq<Byte>)
    ensures |Tail(content)| <= FirstNewline(Tail(content) + more)
  {
    TailHasNoNewline(content);
    var t, i := Tail(content), FirstNewline(Tail(content) + more);
    assert forall k :: 0 <= k < |t| ==> (t + more)[k] == t[k];
  }

  lemma {:induction false} TailHasNoNewline(b: seq<Byte>)
    ensures forall i :: 0 <= i < |Tail(b)| ==> Tail(b)[i] != NEWLINE
    decreases |b|
  {
    var i := FirstNewline(b);
    if i < |b| {
      TailHasNoNewline(b[i + 1..]);
    }
  }

  /**
    While the file is only appended to, the outcome is that of scanning the whole of what was read, line
    by line, whatever the sizes of the reads.
  */
  lemma {:induction false} ReadSizesDoNotMatter(c: Config, content: seq<Byte>, polls: seq<Poll>)
    requires Scan(c, content).None? && forall i :: 0 <= i < |polls| ==> !polls[i].restarted
    ensures Watch(c, content, polls).0 == Scan(c, content + Data(polls))
    ensures Watch(c, content, polls).0.None? ==> Watch(c, content, polls).1 == content + Data(polls)
    decreases |polls|
  {
    hide Scan;
    if polls == [] {
      assert content + [] == content;
    } else {
      var now := content + polls[0].data;
      assert now + Data(polls[1..]) == content + Data(polls);
      if polls[0].data == [] {
        assert now == content;
      }
      if Scan(c, now).Some? {
        DecisionIsFinal(c, now, Data(polls[1..]));
      } else {
        ReadSizesDoNotMatter(c, now, polls[1..]);
      }
    }
  }

  /** A rotation discards what came before: waiting goes on as if it started there. */
  lemma {:induction false} RotationStartsOver(c: Config, content: seq<Byte>, before: seq<Poll>, after: seq<Poll>)
    requires after != [] && after[0].restarted && Watch(c, content, before).0.None?
    ensures Watch(c, content, before + after) == Watch(c, [], after)
    decreases |before|
  {
    hide Scan;
    if before == [] {
      assert before + after == after;
    } else {
      assert (before + after)[1..] == before[1..] + after;
      var now := (if before[0].restarted then [] else content) + before[0].data;
      RotationStartsOver(c, now, before[1..], after);
    }
  }
}
