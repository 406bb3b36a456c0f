/** Byte streams cut into lines: what is complete, what is still unfinished, and how input in pieces adds up. */
module ByteLines {
  import opened Prelude

  newtype Byte = x: int | 0 <= x < 256

  const NEWLINE: Byte := 10

  function FirstNewline(b: seq<Byte>): (i: nat)
    ensures i <= |b| && (forall k :: 0 <= k < i ==> b[k] != NEWLINE) && (i < |b| ==> b[i] == NEWLINE)
  {
    if b == [] || b[0] == NEWLINE then 0 else 1 + FirstNewline(b[1..])
  }

  /** The complete lines of an input, newlines included. */
  function Lines(b: seq<Byte>): seq<seq<Byte>> {
    var i := FirstNewline(b);
    if i == |b| then [] else [b[..i + 1]] + Lines(b[i + 1..])
  }

  /** What follows the last newline. */
  function Tail(b: seq<Byte>): seq<Byte> {
    var i := FirstNewline(b);
    if i == |b| then b else Tail(b[i + 1..])
  }

  predicate IsLine(line: seq<Byte>) {
    line != [] && Last(line) == NEWLINE && forall k :: 0 <= k < |line| - 1 ==> line[k] != NEWLINE
  }

  lemma LinesCons(line: seq<Byte>, rest: seq<Byte>)
    requires IsLine(line)
    ensures Lines(line + rest) == [line] + Lines(rest) && Tail(line + rest) == Tail(rest)
  {
    var b := line + rest;
    var i := FirstNewline(b);
    assert b[|line| - 1] == NEWLINE;
    assert i == |line| - 1;
    assert b[..i + 1] == line && b[i + 1..] == rest;
  }

  /** An input without a newline is all tail; any other starts with a line. */
  lemma LinesSplit(b: seq<Byte>) returns (line: seq<Byte>, rest: seq<Byte>)
    ensures FirstNewline(b) == |b| ==> Lines(b) == [] && Tail(b) == b
    ensures FirstNewline(b) < |b| ==> IsLine(line) && b == line + rest && |rest| < |b| && |line| == FirstNewline(b) + 1
  {
    line, rest := [], [];
    if FirstNewline(b) < |b| {
      line, rest := b[..FirstNewline(b) + 1], b[FirstNewline(b) + 1..];
    }
  }

  /** Adding input completes the unfinished line and goes on from there. */
  lemma {:induction false} LinesAppend(a: seq<Byte>, b: seq<Byte>)
    ensures Lines(a + b) == Lines(a) + Lines(Tail(a) + b)
    ensures Tail(a + b) == Tail(Tail(a) + b)
    decreases |a|
  {
    hide Lines, Tail, FirstNewline, IsLine;
    var line, rest := LinesSplit(a);
    if FirstNewline(a) < |a| {
      LinesCons(line, rest);
      LinesAppend(rest, b);
      assert a + b == line + (rest + b);
      LinesCons(line, rest + b);
    }
  }

  function Flat(lines: seq<seq<Byte>>): seq<Byte> {
    if lines == [] then [] else lines[0] + Flat(lines[1..])
  }

  lemma FlatCons(line: seq<Byte>, lines: seq<seq<Byte>>)
    ensures Flat([line] + lines) == line + Flat(lines)
  {
    assert ([line] + lines)[1..] == lines;
  }

  /** Each run of whole lines at the start of an input reads back as those lines. */
  lemma {:induction false} LinesPrefix(b: seq<Byte>, n: nat) returns (after: seq<Byte>)
    requires n <= |Lines(b)|
    ensures b == Flat(Lines(b)[..n]) + after
    ensures Lines(Flat(Lines(b)[..n])) == Lines(b)[..n] && Tail(Flat(Lines(b)[..n])) == []
    decreases n
  {
    hide Lines, Tail, FirstNewline, IsLine, Flat;
    if n == 0 {
      after := b;
      NoLines(b);
    } else {
      var line, rest := LinesSplit(b);
      LinesCons(line, rest);
      after := LinesPrefix(rest, n - 1);
      var lines := Lines(rest)[..n - 1];
      assert Lines(b)[..n] == [line] + lines;
      FlatCons(line, lines);
      LinesCons(line, Flat(lines));
      Regroup(b, line, rest, Flat(lines), after);
    }
  }

  lemma NoLines(b: seq<Byte>)
    ensures Lines(b)[..0] == [] && Flat([]) == [] && Lines([]) == [] && Tail([]) == [] && b == [] + b
  {
  }

  lemma Regroup(b: seq<Byte>, line: seq<Byte>, rest: seq<Byte>, more: seq<Byte>, after: seq<Byte>)
    requires b == line + rest && rest == more + after
    ensures b == (line + more) + after
  {
  }

  lemma FlatSplit(chunks: seq<seq<Byte>>, k: nat)
    requires k <= |chunks|
    ensures Flat(chunks[..k]) + Flat(chunks[k..]) == Flat(chunks)
    decreases k
  {
    if k == 0 {
      assert chunks[..0] == [] && chunks[0..] == chunks;
    } else {
      FlatSplit(chunks[1..], k - 1);
      assert chunks[..k][1..] == chunks[1..][..k - 1] && chunks[k..] == chunks[1..][k - 1..];
    }
  }

  lemma FlatTwo(a: seq<Byte>, b: seq<Byte>)
    ensures Flat([a, b]) == a + b
  {
    assert [a, b][1..] == [b] && [b][1..] == [];
    assert Flat([b]) == b + [];
  }

  /** The complete lines and what is left are the input; each line ends with its only byte 10, and no 10 is left. */
  lemma {:induction false} LinesAreTheInput(b: seq<Byte>)
    ensures Flat(Lines(b)) + Tail(b) == b
    ensures forall l :: l in Lines(b) ==> l != [] && Last(l) == 10 && forall i :: 0 <= i < |l| - 1 ==> l[i] != 10
    ensures forall i :: 0 <= i < |Tail(b)| ==> Tail(b)[i] != 10
    decreases |b|
  {
    hide Lines, Tail, FirstNewline, Flat;
    var line, rest := LinesSplit(b);
    if FirstNewline(b) < |b| {
      LinesCons(line, rest);
      LinesAreTheInput(rest);
      FlatCons(line, Lines(rest));
      assert line + Flat(Lines(rest)) + Tail(rest) == line + (Flat(Lines(rest)) + Tail(rest));
    } else {
      NoLines(b);
      NoNewline(b);
      assert [] + b == b;
    }
  }

  lemma NoNewline(b: seq<Byte>)
    requires FirstNewline(b) == |b|
    ensures forall i :: 0 <= i < |b| ==> b[i] != 10
  {
  }
}
