/**
  Blanking Rust comments, strings and character literals without moving anything, so that text in them
  cannot pass for code.  `Mask` is the meaning, by what stands at the front of the text; `MaskRust`
  scans by position and blanks in place.
*/
module RustMask {
  import opened Prelude

  datatype Error = UnterminatedComment | UnterminatedRawString | UnterminatedString

  datatype Result = Ok(text: string) | Err(error: Error)

  /** What the text starts with: a character of code, or a token of some length to be blanked. */
  datatype Token = Code | Blank(length: nat) | Broken(error: Error)

  // ---------------------------------------------------------------- tokens

  function Plus(n: nat, length: Option<nat>): Option<nat> { if length.Some? then Some(n + length.value) else None }

  /** Up to a newline or the end. */
  function LineLength(t: string): (n: nat)
    ensures n <= |t| && (forall i :: 0 <= i < n ==> t[i] != '\n') && (n < |t| ==> t[n] == '\n')
  {
    if t == "" || t[0] == '\n' then 0 else 1 + LineLength(t[1..])
  }

  /** To where `depth` open comments are closed. */
  function BlockLength(t: string, depth: nat): (n: Option<nat>)
    ensures n.Some? ==> n.value <= |t|
  {
    if depth == 0 then Some(0)
    else if t == "" then None
    else if "/*" <= t then Plus(2, BlockLength(t[2..], depth + 1))
    else if "*/" <= t then Plus(2, BlockLength(t[2..], depth - 1))
    else Plus(1, BlockLength(t[1..], depth))
  }

  /** Past the closing quote, an escape covering whatever follows it. */
  function StringLength(t: string): (n: Option<nat>)
    ensures n.Some? ==> n.value <= |t|
  {
    if t == "" then None
    else if t[0] == '\\' then (if |t| < 2 then None else Plus(2, StringLength(t[2..])))
    else if t[0] == '"' then Some(1)
    else Plus(1, StringLength(t[1..]))
  }

  function Hashes(t: string): (n: nat)
    ensures n <= |t| && forall i :: 0 <= i < n ==> t[i] == '#'
  {
    if t == "" || t[0] != '#' then 0 else 1 + Hashes(t[1..])
  }

  function Closing(hashes: nat): (s: string)
    ensures |s| == hashes + 1
  {
    seq(hashes + 1, i => if i == 0 then '"' else '#')
  }

  function Find(t: string, s: string): (at: Option<nat>)
    ensures at.Some? ==> at.value + |s| <= |t| && s <= t[at.value..]
    ensures forall i :: 0 <= i < (if at.Some? then at.value else |t| + 1) ==> !(s <= t[i..])
  {
    if s <= t then Some(0)
    else if t == "" then None
    else
      assert forall i :: 1 <= i <= |t| ==> t[i..] == t[1..][i - 1..];
      Plus(1, Find(t[1..], s))
  }

  const MAX_HASHES := 255

  /** The opening of a raw string, by the number of its hashes. */
  function RawOpening(t: string): (hashes: Option<nat>)
    ensures hashes.Some? ==> RawStart(t) + 2 + hashes.value <= |t|
  {
    var p := RawStart(t);
    if p < |t| && t[p] == 'r' then
      var h := Hashes(t[p + 1..]);
      if h <= MAX_HASHES && p + 1 + h < |t| && t[p + 1 + h] == '"' then Some(h) else None
    else None
  }

  function RawStart(t: string): nat { if t != "" && (t[0] == 'b' || t[0] == 'c') then 1 else 0 }

  predicate Hex(c: char) { '0' <= c <= '9' || 'a' <= c <= 'f' || 'A' <= c <= 'F' }

  predicate At(t: string, i: nat, c: char) { i < |t| && t[i] == c }

  /** `u{…}` with something in the braces. */
  function UnicodeEscape(t: string, i: nat): (end: Option<nat>)
    ensures end.Some? ==> i < end.value <= |t|
  {
    if !(At(t, i, 'u') && At(t, i + 1, '{')) then None
    else match Find(t[i + 2..], "}")
      case None => None
      case Some(n) => if n == 0 then None else Some(i + 3 + n)
  }

  function CharLength(t: string): (n: Option<nat>)
    ensures n.Some? ==> 3 <= n.value <= |t|
  {
    if !At(t, 0, '\'') then None
    else if At(t, 1, '\\') then
      if UnicodeEscape(t, 2).Some? && At(t, UnicodeEscape(t, 2).value, '\'') then Some(UnicodeEscape(t, 2).value + 1)
      else if At(t, 2, 'x') && 4 < |t| && Hex(t[3]) && Hex(t[4]) && At(t, 5, '\'') then Some(6)
      else if 2 < |t| && t[2] != '\n' && At(t, 3, '\'') then Some(4)
      else None
    else if 1 < |t| && t[1] != '\'' && t[1] != '\n' && At(t, 2, '\'') then Some(3)
    else None
  }

  function TokenOf(t: string): (k: Token)
    requires t != ""
    ensures k.Blank? ==> 1 < k.length <= |t|
  {
    if "//" <= t then Blank(LineLengthFrom(t))
    else if "/*" <= t then
      match BlockLength(t[2..], 1)
      case Some(n) => Blank(2 + n)
      case None => Broken(UnterminatedComment)
    else if RawOpening(t).Some? then
      var h := RawOpening(t).value;
      var open := RawStart(t) + 2 + h;
      match Find(t[open..], Closing(h))
      case Some(n) => Blank(open + n + 1 + h)
      case None => Broken(UnterminatedRawString)
    else if t[0] == '"' then
      match StringLength(t[1..])
      case Some(n) => Blank(1 + n)
      case None => Broken(UnterminatedString)
    else
      match CharLength(t)
      case Some(n) => Blank(n)
      case None => Code
  }

  function LineLengthFrom(t: string): (n: nat)
    requires "//" <= t
    ensures 2 <= n <= |t|
  {
    LineLength(t)
  }

  // ---------------------------------------------------------------- meaning

  function Blanked(t: string): (r: string)
    ensures |r| == |t| && forall i :: 0 <= i < |t| ==> r[i] == if t[i] == '\n' then '\n' else ' '
  {
    seq(|t|, i requires 0 <= i < |t| => if t[i] == '\n' then '\n' else ' ')
  }

  function Prepend(s: string, r: Result): Result {
    match r
    case Ok(t) => Ok(s + t)
    case Err(e) => Err(e)
  }

  function Mask(t: string): Result
    decreases |t|
  {
    if t == "" then Ok("")
    else match TokenOf(t)
      case Code => Prepend(t[..1], Mask(t[1..]))
      case Blank(n) => Prepend(Blanked(t[..n]), Mask(t[n..]))
      case Broken(e) => Err(e)
  }

  // ---------------------------------------------------------------- mask_rust

  method BlockComment(source: string, pos: nat) returns (end: nat, closed: bool)
    requires pos + 2 <= |source|
    ensures BlockLength(source[pos + 2..], 1) == if closed then Some(end - pos - 2) else None
    ensures closed ==> pos + 2 <= end <= |source|
  {
    hide BlockLength;
    var depth := 1;
    end := pos + 2;
    while depth > 0 && end < |source|
      invariant pos + 2 <= end <= |source|
      invariant BlockLength(source[pos + 2..], 1) == Plus(end - pos - 2, BlockLength(source[end..], depth))
      decreases |source| - end
    {
      BlockStep(source, end, depth);
      if "/*" <= source[end..] {
        depth, end := depth + 1, end + 2;
      } else if "*/" <= source[end..] {
        depth, end := depth - 1, end + 2;
      } else {
        end := end + 1;
      }
    }
    BlockEnds(source[end..], depth);
    closed := depth == 0;
  }

  lemma BlockStep(source: string, at: nat, depth: nat)
    requires at < |source| && depth > 0
    ensures "/*" <= source[at..] ==>
      at + 2 <= |source| && BlockLength(source[at..], depth) == Plus(2, BlockLength(source[at + 2..], depth + 1))
    ensures !("/*" <= source[at..]) && "*/" <= source[at..]
      ==> at + 2 <= |source| && BlockLength(source[at..], depth) == Plus(2, BlockLength(source[at + 2..], depth - 1))
    ensures !("/*" <= source[at..]) && !("*/" <= source[at..])
      ==> BlockLength(source[at..], depth) == Plus(1, BlockLength(source[at + 1..], depth))
  {
    assert source[at..][1..] == source[at + 1..];
    assert at + 2 <= |source| ==> source[at..][2..] == source[at + 2..];
  }

  lemma BlockEnds(t: string, depth: nat)
    requires depth == 0 || t == ""
    ensures BlockLength(t, depth) == if depth == 0 then Some(0) else None
  {
  }

  method QuotedString(source: string, pos: nat) returns (end: nat, closed: bool)
    requires pos < |source|
    ensures StringLength(source[pos + 1..]) == if closed then Some(end - pos - 1) else None
    ensures closed ==> pos + 1 < end <= |source|
  {
    end := pos + 1;
    while end < |source|
      invariant pos + 1 <= end <= |source| + 1
      invariant end <= |source| ==> StringLength(source[pos + 1..]) == Plus(end - pos - 1, StringLength(source[end..]))
      invariant end > |source| ==> StringLength(source[pos + 1..]).None?
      decreases |source| - end
    {
      assert source[end..][1..] == source[end + 1..];
      if source[end] == '\\' {
        if end + 2 <= |source| {
          assert source[end..][2..] == source[end + 2..];
        }
        end := end + 2;
      } else if source[end] == '"' {
        end := end + 1;
        return end, true;
      } else {
        end := end + 1;
      }
    }
    closed := false;
  }

  /** The end of the token at a position; none where the character there is code. */
  method TokenEnd(source: string, pos: nat) returns (end: Option<nat>, error: Option<Error>)
    requires pos < |source|
    ensures match TokenOf(source[pos..])
            case Code => end.None? && error.None?
            case Blank(n) => end == Some(pos + n) && error.None?
            case Broken(e) => error == Some(e)
  {
    hide BlockLength, StringLength, Find, CharLength, LineLength, RawOpening, Closing;
    end, error := None, None;
    var t := source[pos..];
    if "//" <= t {
      end := Some(pos + LineLengthFrom(t));
    } else if "/*" <= t {
      assert t[2..] == source[pos + 2..];
      var e, closed := BlockComment(source, pos);
      if !closed {
        return None, Some(UnterminatedComment);
      }
      end := Some(e);
    } else if RawOpening(t).Some? {
      var h := RawOpening(t).value;
      var open := RawStart(t) + 2 + h;
      var close := Find(t[open..], Closing(h));
      if close.None? {
        return None, Some(UnterminatedRawString);
      }
      end := Some(pos + open + close.value + 1 + h);
    } else if source[pos] == '"' {
      assert t[1..] == source[pos + 1..];
      var e, closed := QuotedString(source, pos);
      if !closed {
        return None, Some(UnterminatedString);
      }
      end := Some(e);
    } else if CharLength(t).Some? {
      end := Some(pos + CharLength(t).value);
    }
  }

  /** Blanks a stretch in place, newlines excepted. */
  method BlankOut(masked: array<char>, source: string, from: nat, to: nat)
    requires masked.Length == |source| && from <= to <= |source| && masked[from..] == source[from..]
    modifies masked
    ensures masked[..to] == old(masked[..from]) + Blanked(source[from..to]) && masked[to..] == source[to..]
  {
    ghost var blank := Blanked(source[from..to]);
    for index := from to to
      invariant masked[..from] == old(masked[..from])
      invariant forall i :: from <= i < index ==> masked[i] == blank[i - from]
      invariant forall i :: index <= i < |source| ==> masked[i] == source[i]
    {
      if source[index] != '\n' {
        masked[index] := ' ';
      }
    }
    assert masked[from..to] == blank;
    assert masked[..to] == masked[..from] + masked[from..to];
  }

  method MaskRust(source: string) returns (r: Result)
    ensures r == Mask(source)
  {
    hide TokenOf, Mask, Blanked, Prepend;
    var masked := new char[|source|](i requires 0 <= i < |source| => source[i]);
    var pos := 0;
    assert masked[0..] == source[0..] && masked[..0] == "" && source[0..] == source;
    PrependNothing(Mask(source));
    while pos < |source|
      invariant 0 <= pos <= |source| && fresh(masked)
      invariant masked[pos..] == source[pos..]
      invariant Mask(source) == Prepend(masked[..pos], Mask(source[pos..]))
    {
      var end, error := TokenEnd(source, pos);
      MaskStep(source, pos, masked[..pos]);
      if error.Some? {
        return Err(error.value);
      }
      if end.None? {
        assert masked[..pos + 1] == masked[..pos] + source[pos..pos + 1];
        pos := pos + 1;
      } else {
        BlankOut(masked, source, pos, end.value);
        pos := end.value;
      }
    }
    MaskNothing(masked[..], source[pos..]);
    assert masked[..pos] == masked[..];
    r := Ok(masked[..]);
  }

  /** Masking done up to a position goes on with the token there. */
  lemma MaskStep(source: string, pos: nat, done: string)
    requires pos < |source|
    ensures match TokenOf(source[pos..])
            case Code =>
              Prepend(done, Mask(source[pos..])) == Prepend(done + source[pos..pos + 1], Mask(source[pos + 1..]))
            case Blank(n) =>
              Prepend(done, Mask(source[pos..]))
              == Prepend(done + Blanked(source[pos..pos + n]), Mask(source[pos + n..]))
            case Broken(e) => Prepend(done, Mask(source[pos..])) == Err(e)
  {
    hide TokenOf, Blanked;
    var t := source[pos..];
    match TokenOf(t)
    case Code =>
      assert t[..1] == source[pos..pos + 1] && t[1..] == source[pos + 1..];
      PrependTwice(done, t[..1], Mask(t[1..]));
    case Blank(n) =>
      assert t[..n] == source[pos..pos + n] && t[n..] == source[pos + n..];
      PrependTwice(done, Blanked(t[..n]), Mask(t[n..]));
    case Broken(_) =>
  }

  lemma PrependTwice(a: string, b: string, r: Result)
    ensures Prepend(a, Prepend(b, r)) == Prepend(a + b, r)
  {
    match r
    case Ok(t) => assert a + (b + t) == (a + b) + t;
    case Err(_) =>
  }

  lemma PrependNothing(r: Result)
    ensures Prepend("", r) == r
  {
    match r
    case Ok(t) => assert "" + t == t;
    case Err(_) =>
  }

  lemma MaskNothing(done: string, rest: string)
    requires rest == ""
    ensures Prepend(done, Mask(rest)) == Ok(done)
  {
    assert done + "" == done;
  }
}
