/**
  What a wait decides and keeps, said of the lines of the log and their characters alone.
*/
module WaitRecords {
  import opened Prelude
  import opened ByteLines
  import opened WaitLog
  import Canonical

  const MIB := 1_048_576
  const TAIL_BYTES := 65_536

  // ---------------------------------------------------------------- the text of a line

  function Returns(n: nat): (s: string)
    ensures |s| == n && forall i :: 0 <= i < n ==> s[i] == '\r'
  {
    seq(n, _ => '\r')
  }

  /** The text is `bare` and any number of carriage returns. */
  ghost predicate LessReturns(text: string, bare: string) {
    (bare == "" || Last(bare) != '\r') && exists n: nat :: text == bare + Returns(n)
  }

  lemma {:induction false} StripLeavesBare(text: string)
    ensures LessReturns(text, StripReturns(text))
  {
    if text != "" && Last(text) == '\r' {
      var init := text[..|text| - 1];
      StripLeavesBare(init);
      var n: nat :| init == StripReturns(init) + Returns(n);
      assert text == StripReturns(init) + Returns(n + 1);
    } else {
      assert text == text + Returns(0);
    }
  }

  lemma BareIsUnique(text: string, a: string, b: string)
    requires LessReturns(text, a) && LessReturns(text, b)
    ensures a == b
  {
    var m: nat :| text == a + Returns(m);
    var n: nat :| text == b + Returns(n);
    assert forall i :: |a| <= i < |text| ==> text[i] == '\r';
    assert forall i :: |b| <= i < |text| ==> text[i] == '\r';
    assert a != "" ==> text[|a| - 1] != '\r';
    assert b != "" ==> text[|b| - 1] != '\r';
    assert a == text[..|a|] && b == text[..|b|];
  }

  // ---------------------------------------------------------------- exit statuses

  function Zeros(n: nat): (s: string)
    ensures |s| == n && forall i :: 0 <= i < n ==> s[i] == '0'
  {
    seq(n, _ => '0')
  }

  /** One to three digits that write `n`, at most 255; leading zeros are allowed. */
  ghost predicate Writes(s: string, n: nat) {
    n <= 255 && |s| <= 3 && exists k: nat :: s == Padded(k, n)
  }

  lemma {:induction false} NumberAppend(s: string, c: char)
    requires AllDigits(s) && '0' <= c <= '9'
    ensures AllDigits(s + [c]) && Number(s + [c]) == 10 * Number(s) + (c as int - '0' as int)
  {
    assert (s + [c])[..|s|] == s;
  }

  lemma {:induction false} ZerosAreNothing(k: nat)
    ensures AllDigits(Zeros(k)) && Number(Zeros(k)) == 0
  {
    if k > 0 {
      ZerosAreNothing(k - 1);
      NumberAppend(Zeros(k - 1), '0');
      assert Zeros(k) == Zeros(k - 1) + "0";
    }
  }

  lemma {:induction false} NumberOfDecimal(k: nat, n: nat)
    ensures AllDigits(Zeros(k) + Canonical.Decimal(n)) && Number(Zeros(k) + Canonical.Decimal(n)) == n
  {
    hide Number, AllDigits;
    ZerosAreNothing(k);
    DecimalNext(n);
    if n < 10 {
      NumberAppend(Zeros(k), Canonical.Digit(n));
    } else {
      var init := Zeros(k) + Canonical.Decimal(n / 10);
      NumberOfDecimal(k, n / 10);
      NumberAppend(init, Canonical.Digit(n % 10));
      assert Zeros(k) + Canonical.Decimal(n) == init + [Canonical.Digit(n % 10)];
    }
  }

  lemma DecimalNext(n: nat)
    ensures n < 10 ==> Canonical.Decimal(n) == [Canonical.Digit(n)]
    ensures n >= 10 ==> Canonical.Decimal(n) == Canonical.Decimal(n / 10) + [Canonical.Digit(n % 10)]
    ensures '0' <= Canonical.Digit(n % 10) <= '9' && Canonical.Digit(n % 10) as int - '0' as int == n % 10
  {
  }

  function Padded(k: nat, n: nat): string { Zeros(k) + Canonical.Decimal(n) }

  lemma PadNext(k: nat, n: nat, d: nat)
    requires d < 10
    ensures n > 0 ==> Padded(k, 10 * n + d) == Padded(k, n) + [Canonical.Digit(d)]
    ensures Padded(k + 1, d) == Padded(k, 0) + [Canonical.Digit(d)]
  {
    DecimalNext(10 * n + d);
    DecimalNext(d);
    DecimalNext(0);
    assert (10 * n + d) / 10 == n && (10 * n + d) % 10 == d;
    assert Zeros(k + 1) == Zeros(k) + [Canonical.Digit(0)];
  }

  lemma NumberOfLast(s: string)
    requires s != "" && AllDigits(s)
    ensures AllDigits(s[..|s| - 1]) && '0' <= Last(s) <= '9'
    ensures Number(s) == 10 * Number(s[..|s| - 1]) + (Last(s) as int - '0' as int)
    ensures Canonical.Digit(Last(s) as int - '0' as int) == Last(s)
  {
    hide Canonical.Digit;
    DigitIs(Last(s) as int - '0' as int);
  }

  lemma DigitIs(d: nat)
    requires d < 10
    ensures Canonical.Digit(d) == '0' + d as char
  {
  }

  lemma {:induction false} DigitsWriteTheirNumber(s: string)
    requires s != "" && AllDigits(s)
    ensures exists k: nat :: s == Padded(k, Number(s))
  {
    hide Number, AllDigits, Padded, Canonical.Digit;
    NumberOfLast(s);
    var init, d := s[..|s| - 1], Last(s) as int - '0' as int;
    if init == "" {
      EmptyIsZero();
      PadZero(d);
      assert s == [Last(s)];
      assert s == Padded(0, Number(s));
    } else {
      DigitsWriteTheirNumber(init);
      var k: nat :| init == Padded(k, Number(init));
      var k' := PadStep(k, Number(init), d);
      assert s == init + [Last(s)] == Padded(k', Number(s));
    }
  }

  lemma PadStep(k: nat, n: nat, d: nat) returns (k': nat)
    requires d < 10
    ensures Padded(k, n) + [Canonical.Digit(d)] == Padded(k', 10 * n + d)
  {
    hide Padded, Canonical.Digit;
    PadNext(k, n, d);
    k' := if n == 0 then k + 1 else k;
  }

  lemma EmptyIsZero()
    ensures Number("") == 0
  {
  }

  lemma PadZero(d: nat)
    requires d < 10
    ensures Padded(0, d) == [Canonical.Digit(d)]
  {
    DecimalNext(d);
  }

  lemma StatusExactly(s: string, n: nat)
    ensures Status(s) == Some(n) <==> Writes(s, n)
  {
    if Status(s) == Some(n) {
      DigitsWriteTheirNumber(s);
    }
    if Writes(s, n) {
      var k: nat :| s == Padded(k, n);
      NumberOfDecimal(k, n);
      Canonical.DecimalDigits(n);
    }
  }

  // ---------------------------------------------------------------- which line decides, and how

  /** The `k`-th complete line of the log, without its newline. */
  function LineAt(content: seq<Byte>, k: nat): seq<Byte>
    requires k < |Lines(content)|
  {
    var line := Lines(content)[k];
    if line == [] then [] else line[..|line| - 1]
  }

  ghost predicate Starts(c: Config, line: seq<Byte>, prefix: string) {
    exists bare :: LessReturns(c.decode(line), bare) && prefix <= bare
  }

  /** The line is too long, or starts with what is waited for. */
  ghost predicate Decisive(c: Config, line: seq<Byte>) {
    || |line| > MIB
    || match c.mode
       case ExitPrefix(prefix) => Starts(c, line, prefix)
       case LinePrefix(prefixes) => exists p :: p in prefixes && Starts(c, line, p)
  }

  lemma StartsExactly(c: Config, line: seq<Byte>, prefix: string)
    ensures Starts(c, line, prefix) <==> prefix <= StripReturns(c.decode(line))
  {
    StripLeavesBare(c.decode(line));
    if Starts(c, line, prefix) {
      var bare :| LessReturns(c.decode(line), bare) && prefix <= bare;
      BareIsUnique(c.decode(line), bare, StripReturns(c.decode(line)));
    }
  }

  lemma DecisiveExactly(c: Config, line: seq<Byte>)
    ensures Judge(c, line).Some? <==> Decisive(c, line)
  {
    match c.mode
    case ExitPrefix(prefix) => StartsExactly(c, line, prefix);
    case LinePrefix(prefixes) =>
      forall p ensures Starts(c, line, p) <==> p <= StripReturns(c.decode(line)) {
        StartsExactly(c, line, p);
      }
  }

  /**
    The first decisive line decides: a line over 1 MiB is an error; in exit-prefix mode what follows the
    prefix is the status, and an invalid one unless it writes a number up to 255 in at most three digits; in
    line-prefix mode the result is 0.
  */
  lemma FirstRecordDecides(c: Config, content: seq<Byte>, k: nat, bare: string)
    requires k < |Lines(content)| && Decisive(c, LineAt(content, k))
    requires forall j :: 0 <= j < k ==> !Decisive(c, LineAt(content, j))
    requires LessReturns(c.decode(LineAt(content, k)), bare)
    ensures var v := Scan(c, content);
      if |LineAt(content, k)| > MIB then v == Some(TooLong)
      else match c.mode
           case ExitPrefix(prefix) => prefix <= bare && StatusVerdict(bare[|prefix|..], v)
           case LinePrefix(_) => v == Some(Matched(0))
  {
    hide Lines, Decisive, FirstDecisive;
    var lines := Lines(content);
    forall j | 0 <= j <= k ensures Judge(c, Strip(lines[j])).Some? <==> Decisive(c, LineAt(content, j)) {
      DecisiveExactly(c, LineAt(content, j));
    }
    assert lines == lines[..k] + [lines[k]] + lines[k + 1..];
    Decided(c, content, lines[..k], lines[k], lines[k + 1..]);
    StripLeavesBare(c.decode(LineAt(content, k)));
    BareIsUnique(c.decode(LineAt(content, k)), bare, StripReturns(c.decode(LineAt(content, k))));
    if c.mode.ExitPrefix? && |LineAt(content, k)| <= MIB {
      StatusMeans(bare[|c.mode.prefix|..]);
    }
  }

  ghost predicate StatusVerdict(s: string, v: Option<Verdict>) {
    && (forall n: nat :: v == Some(Matched(n)) <==> Writes(s, n))
    && ((forall n: nat :: !Writes(s, n)) ==> v == Some(InvalidStatus))
  }

  lemma StatusMeans(s: string)
    ensures StatusVerdict(s, if Status(s).Some? then Some(Matched(Status(s).value)) else Some(InvalidStatus))
  {
    hide Writes, Status;
    forall n: nat ensures Status(s) == Some(n) <==> Writes(s, n) {
      StatusExactly(s, n);
    }
  }

  /** Without a decisive line nothing is decided, unless the unfinished line is over 1 MiB already. */
  lemma NoRecordNoDecision(c: Config, content: seq<Byte>)
    requires forall k :: 0 <= k < |Lines(content)| ==> !Decisive(c, LineAt(content, k))
    ensures Scan(c, content) == if |Tail(content)| > MIB then Some(TooLong) else None
  {
    hide Lines, Decisive, FirstDecisive;
    forall k | 0 <= k < |Lines(content)| ensures Judge(c, Strip(Lines(content)[k])).None? {
      DecisiveExactly(c, LineAt(content, k));
    }
    Undecided(c, content);
  }

  // ---------------------------------------------------------------- what is kept

  /** The last 65,536 bytes of a line without its newline, or all of it. */
  predicate EndOf(kept: seq<Byte>, line: seq<Byte>) {
    && line != [] && |kept| == (if |line| - 1 <= TAIL_BYTES then |line| - 1 else TAIL_BYTES)
    && kept == line[|line| - 1 - |kept|..|line| - 1]
  }

  function Size(lines: seq<seq<Byte>>): nat {
    if lines == [] then 0 else Size(lines[..|lines| - 1]) + |Last(lines)|
  }

  lemma {:induction false} SizeIsBytes(lines: seq<seq<Byte>>)
    ensures Size(lines) == Bytes(lines)
  {
    if lines != [] {
      SizeIsBytes(lines[..|lines| - 1]);
      BytesAppend(lines[..|lines| - 1], [Last(lines)]);
      BytesOne(Last(lines));
      assert lines == lines[..|lines| - 1] + [Last(lines)];
    }
  }

  /** The ends of the last lines, in order. */
  predicate EndsOf(tail: seq<seq<Byte>>, lines: seq<seq<Byte>>) {
    |tail| <= |lines| && forall i :: 0 <= i < |tail| ==> EndOf(tail[i], lines[|lines| - |tail| + i])
  }

  /** No more than `keep` of them and no more than 65,536 bytes together. */
  predicate WithinBounds(tail: seq<seq<Byte>>, keep: nat) { |tail| <= keep && Size(tail) <= TAIL_BYTES }

  /** No longer run of the ends of the last lines is within both bounds. */
  ghost predicate NoMoreFits(tail: seq<seq<Byte>>, lines: seq<seq<Byte>>, keep: nat) {
    forall more :: |more| == |tail| + 1 && EndsOf(more, lines) ==> !WithinBounds(more, keep)
  }

  /** The kept tail is the ends of the last lines, as many as stay within both bounds. */
  lemma TailExactly(tail: seq<seq<Byte>>, lines: seq<seq<Byte>>, keep: nat)
    requires forall l :: l in lines ==> l != []
    ensures LongestTail(tail, Clipped(lines), keep) <==>
      EndsOf(tail, lines) && WithinBounds(tail, keep) && NoMoreFits(tail, lines, keep)
  {
    SizeIsBytes(tail);
    hide EndsOf, Clipped, Size, Bytes;
    EndsAreEnding(tail, lines);
    if |tail| < |lines| {
      var more := Ending(Clipped(lines), |tail| + 1);
      SizeIsBytes(more);
      EndsAreEnding(more, lines);
      forall t | |t| == |tail| + 1 ensures EndsOf(t, lines) ==> t == more {
        EndsAreEnding(t, lines);
      }
    } else {
      NoneIsLonger(tail, lines);
    }
  }

  lemma NoneIsLonger(tail: seq<seq<Byte>>, lines: seq<seq<Byte>>)
    requires |tail| >= |lines|
    ensures forall t :: |t| == |tail| + 1 ==> !EndsOf(t, lines)
  {
  }

  lemma EndsAreEnding(t: seq<seq<Byte>>, lines: seq<seq<Byte>>)
    requires forall l :: l in lines ==> l != []
    ensures EndsOf(t, lines) <==> |t| <= |lines| && t == Ending(Clipped(lines), |t|)
  {
    hide EndOf, Clip;
    assert forall i :: 0 <= i < |lines| ==> lines[i] in lines;
    forall i | 0 <= i < |lines| ensures forall kept :: EndOf(kept, lines[i]) <==> kept == Clipped(lines)[i] {
      EndIsClip(lines[i]);
    }
    if |t| <= |lines| {
      EndsAreClipped(t, lines);
    }
  }

  lemma EndsAreClipped(t: seq<seq<Byte>>, lines: seq<seq<Byte>>)
    requires |t| <= |lines|
    requires forall i :: 0 <= i < |lines| ==> forall kept :: EndOf(kept, lines[i]) <==> kept == Clipped(lines)[i]
    ensures EndsOf(t, lines) <==> t == Ending(Clipped(lines), |t|)
  {
    hide EndOf, Clip;
    var ending := Ending(Clipped(lines), |t|);
    assert forall i :: 0 <= i < |t| ==> ending[i] == Clipped(lines)[|lines| - |t| + i];
  }

  lemma EndIsClip(line: seq<Byte>)
    requires line != []
    ensures forall kept :: EndOf(kept, line) <==> kept == Clip(line)
  {
  }
}
