/**
  What masking guarantees: nothing moves, exactly the code stays visible, the text after any token is
  masked as if it stood alone, and comments and literals are blanked whole whatever they contain.
*/
module RustMaskLaws {
  import opened Prelude
  import opened RustMask

  // ---------------------------------------------------------------- shape

  predicate SameShape(t: string, m: string) {
    |m| == |t| && forall i :: 0 <= i < |t| ==> (m[i] == t[i] || m[i] == ' ') && (m[i] == '\n' <==> t[i] == '\n')
  }

  /** Masking keeps the length and every newline, and changes characters only to blanks. */
  lemma {:induction false} MaskKeepsShape(t: string)
    requires Mask(t).Ok?
    ensures SameShape(t, Mask(t).text)
    decreases |t|
  {
    hide TokenOf;
    if t != "" {
      match TokenOf(t)
      case Code => MaskKeepsShape(t[1..]);
      case Blank(n) => MaskKeepsShape(t[n..]);
      case Broken(_) =>
    }
  }

  // ---------------------------------------------------------------- token boundaries

  /** A token of the text, or its end, starts at `i`. */
  predicate Boundary(t: string, i: nat)
    decreases |t|
  {
    || i == 0
    || (t != "" && match TokenOf(t)
                   case Code => Boundary(t[1..], i - 1)
                   case Blank(n) => i >= n && Boundary(t[n..], i - n)
                   case Broken(_) => false)
  }

  predicate CodeAt(t: string, i: nat) { i < |t| && Boundary(t, i) && TokenOf(t[i..]).Code? }

  /** The masked text up to a boundary. */
  function Front(t: string, i: nat): (r: string)
    requires Boundary(t, i)
    decreases |t|
  {
    if i == 0 then ""
    else match TokenOf(t)
      case Code => t[..1] + Front(t[1..], i - 1)
      case Blank(n) => Blanked(t[..n]) + Front(t[n..], i - n)
  }

  /** The mask of a text is its mask up to a boundary, then the mask of the rest alone; errors likewise. */
  lemma {:induction false} MaskComposes(t: string, i: nat)
    requires Boundary(t, i)
    ensures i <= |t| && |Front(t, i)| == i
    ensures Mask(t) == Prepend(Front(t, i), Mask(t[i..]))
    decreases |t|
  {
    hide TokenOf;
    if i == 0 {
      assert t[0..] == t;
      PrependNothing(Mask(t));
    } else {
      match TokenOf(t)
      case Code =>
        MaskComposes(t[1..], i - 1);
        assert t[1..][i - 1..] == t[i..];
        PrependTwice(t[..1], Front(t[1..], i - 1), Mask(t[i..]));
      case Blank(n) =>
        MaskComposes(t[n..], i - n);
        assert t[n..][i - n..] == t[i..];
        PrependTwice(Blanked(t[..n]), Front(t[n..], i - n), Mask(t[i..]));
    }
  }

  /** Masking fails exactly when some token of the text is unterminated, and says which kind. */
  lemma {:induction false} MaskFailsAt(t: string, e: Error)
    ensures Mask(t) == Err(e) <==> exists i :: 0 <= i < |t| && Boundary(t, i) && TokenOf(t[i..]) == Broken(e)
    decreases |t|
  {
    hide TokenOf;
    if i :| 0 <= i < |t| && Boundary(t, i) && TokenOf(t[i..]) == Broken(e) {
      MaskComposes(t, i);
    }
    if Mask(t) == Err(e) {
      assert t[0..] == t;
      match TokenOf(t)
      case Code => MaskFailsLater(t, 1, e);
      case Blank(n) => MaskFailsLater(t, n, e);
      case Broken(_) =>
    }
  }

  lemma MaskFailsLater(t: string, n: nat, e: Error)
    requires t != "" && ((TokenOf(t) == Code && n == 1) || TokenOf(t) == Blank(n)) && Mask(t[n..]) == Err(e)
    ensures exists i :: 0 <= i < |t| && Boundary(t, i) && TokenOf(t[i..]) == Broken(e)
    decreases |t|, 0
  {
    hide TokenOf;
    MaskFailsAt(t[n..], e);
    var i :| 0 <= i < |t[n..]| && Boundary(t[n..], i) && TokenOf(t[n..][i..]) == Broken(e);
    assert t[n..][i..] == t[n + i..];
    assert Boundary(t, n + i);
  }

  /** Where a position lies: code, which stays as it is, or inside a comment or literal, which is blanked. */
  lemma {:induction false} CodeOrBlank(t: string, i: nat)
    requires Mask(t).Ok? && i < |t|
    ensures |Mask(t).text| == |t|
    ensures Mask(t).text[i] == if CodeAt(t, i) || t[i] == '\n' then t[i] else ' '
    decreases |t|
  {
    hide TokenOf;
    MaskKeepsShape(t);
    assert t[0..] == t;
    match TokenOf(t)
    case Code =>
      if i > 0 {
        CodeOrBlank(t[1..], i - 1);
        assert t[1..][i - 1..] == t[i..];
      }
    case Blank(n) =>
      if i >= n {
        CodeOrBlank(t[n..], i - n);
        assert t[n..][i - n..] == t[i..];
      } else {
        NotInside(t, i);
      }
  }

  lemma NotInside(t: string, i: nat)
    requires t != "" && TokenOf(t).Blank? && i < TokenOf(t).length
    ensures !CodeAt(t, i)
  {
    assert t[0..] == t;
  }

  /** A visible character is code and code is visible: nothing in a comment or literal shows through. */
  lemma VisibleIffCode(t: string, i: nat)
    requires Mask(t).Ok? && i < |t| && t[i] != ' ' && t[i] != '\n'
    ensures |Mask(t).text| == |t|
    ensures Mask(t).text[i] == t[i] <==> CodeAt(t, i)
  {
    CodeOrBlank(t, i);
  }

  // ---------------------------------------------------------------- nested comments

  /** The inside of a block comment: text and further comments. */
  datatype Comment = End | Text(text: string, rest: Comment) | Inner(inner: Comment, rest: Comment)

  function Render(c: Comment): string {
    match c
    case End => ""
    case Text(s, rest) => s + Render(rest)
    case Inner(inner, rest) => "/*" + Render(inner) + "*/" + Render(rest)
  }

  /** Text that neither opens nor closes a comment, nor can do so together with what follows. */
  predicate Inert(s: string) {
    && (forall i :: 0 <= i < |s| - 1 ==> !(s[i] == '/' && s[i + 1] == '*') && !(s[i] == '*' && s[i + 1] == '/'))
    && (s != "" ==> Last(s) != '/' && Last(s) != '*')
  }

  predicate Proper(c: Comment) {
    match c
    case End => true
    case Text(s, rest) => Inert(s) && Proper(rest)
    case Inner(inner, rest) => Proper(inner) && Proper(rest)
  }

  lemma {:induction false} InertPasses(s: string, u: string, depth: nat)
    requires Inert(s) && depth > 0
    ensures BlockLength(s + u, depth) == Plus(|s|, BlockLength(u, depth))
  {
    if s == "" {
      assert s + u == u;
    } else {
      var t := s + u;
      assert t[0] == s[0] && t[1..] == s[1..] + u;
      assert !("/*" <= t) && !("*/" <= t) by {
        assert |s| > 1 ==> t[1] == s[1];
        assert "/*"[0] == '/' && "/*"[1] == '*' && "*/"[0] == '*' && "*/"[1] == '/';
      }
      InertPasses(s[1..], u, depth);
    }
  }

  lemma {:induction false} CommentPasses(c: Comment, u: string, depth: nat)
    requires Proper(c) && depth > 0
    ensures BlockLength(Render(c) + u, depth) == Plus(|Render(c)|, BlockLength(u, depth))
  {
    hide BlockLength;
    match c
    case End => assert Render(c) + u == u;
    case Text(s, rest) =>
      assert Render(c) + u == s + (Render(rest) + u);
      InertPasses(s, Render(rest) + u, depth);
      CommentPasses(rest, u, depth);
    case Inner(inner, rest) =>
      var more := Render(rest) + u;
      Regroup(Render(inner), Render(rest), u);
      Opens(Render(inner) + ("*/" + more), depth);
      CommentPasses(inner, "*/" + more, depth + 1);
      Closes(more, depth + 1);
      CommentPasses(rest, u, depth);
  }

  lemma Regroup(a: string, b: string, u: string)
    ensures "/*" + a + "*/" + b + u == "/*" + (a + ("*/" + (b + u)))
  {
  }

  lemma Opens(u: string, depth: nat)
    requires depth > 0
    ensures "/*" <= "/*" + u && !("//" <= "/*" + u) && ("/*" + u)[2..] == u
    ensures BlockLength("/*" + u, depth) == Plus(2, BlockLength(u, depth + 1))
  {
    var t := "/*" + u;
    assert t[1] == '*' && "//"[1] == '/';
    assert t[2..] == u;
  }

  lemma Closes(u: string, depth: nat)
    requires depth > 0
    ensures BlockLength("*/" + u, depth) == Plus(2, BlockLength(u, depth - 1))
  {
    var t := "*/" + u;
    assert t[0] == '*' && "/*"[0] == '/';
    assert t[2..] == u;
  }

  /** A block comment with any comments nested in it is blanked to its own end, and what follows is masked alone. */
  lemma NestedCommentIsOneToken(c: Comment, u: string)
    requires Proper(c)
    ensures var whole := "/*" + Render(c) + "*/";
      TokenOf(whole + u) == Blank(|whole|) && Mask(whole + u) == Prepend(Blanked(whole), Mask(u))
  {
    hide Mask, Render;
    var whole := "/*" + Render(c) + "*/";
    var inside := Render(c) + ("*/" + u);
    assert whole + u == "/*" + inside;
    Opens(inside, 1);
    CommentPasses(c, "*/" + u, 1);
    Closes(u, 1);
    TokenThenRest(whole, u);
  }

  lemma TokenThenRest(whole: string, u: string)
    requires whole != "" && TokenOf(whole + u) == Blank(|whole|)
    ensures Mask(whole + u) == Prepend(Blanked(whole), Mask(u))
  {
    hide TokenOf;
    assert (whole + u)[..|whole|] == whole && (whole + u)[|whole|..] == u;
  }

  // ---------------------------------------------------------------- string literals

  /** Any text as it is written between quotes. */
  function Escaped(s: string): string {
    if s == "" then ""
    else (if s[0] == '"' || s[0] == '\\' then ['\\', s[0]] else [s[0]]) + Escaped(s[1..])
  }

  lemma {:induction false} EscapedPasses(s: string, u: string)
    ensures StringLength(Escaped(s) + "\"" + u) == Some(|Escaped(s)| + 1)
  {
    var t := Escaped(s) + "\"" + u;
    if s == "" {
      assert t[0] == '"';
    } else {
      var more := Escaped(s[1..]) + "\"" + u;
      EscapedPasses(s[1..], u);
      if s[0] == '"' || s[0] == '\\' {
        assert t == ['\\', s[0]] + more;
        assert t[2..] == more;
      } else {
        assert t == [s[0]] + more;
        assert t[1..] == more;
      }
    }
  }

  /** A string literal is blanked whole, whatever text it quotes: comment marks, quotes or an attribute. */
  lemma QuotedTextIsOneToken(s: string, u: string)
    ensures var whole := "\"" + Escaped(s) + "\"";
      TokenOf(whole + u) == Blank(|whole|) && Mask(whole + u) == Prepend(Blanked(whole), Mask(u))
  {
    var whole := "\"" + Escaped(s) + "\"";
    var t := whole + u;
    assert t[0] == '"';
    assert t[1..] == Escaped(s) + "\"" + u;
    EscapedPasses(s, u);
    TokenThenRest(whole, u);
  }

  function Run(n: nat): (s: string)
    ensures |s| == n && forall i :: 0 <= i < n ==> s[i] == '#'
  {
    seq(n, i => '#')
  }

  lemma {:induction false} HashesOfRun(n: nat, u: string)
    requires u != "" && u[0] != '#'
    ensures Hashes(Run(n) + u) == n
  {
    if n == 0 {
      assert Run(n) + u == u;
    } else {
      assert (Run(n) + u)[1..] == Run(n - 1) + u;
      HashesOfRun(n - 1, u);
    }
  }

  lemma FindsClosing(content: string, s: string, u: string)
    requires forall i :: 0 <= i < |content| ==> !(s <= (content + s + u)[i..])
    ensures Find(content + s + u, s) == Some(|content|)
  {
    hide Find;
    var body := content + s + u;
    assert body[|content|..] == s + u;
    FindIs(body, s, |content|);
  }

  lemma FindIs(t: string, s: string, n: nat)
    requires n <= |t| && s <= t[n..] && forall i :: 0 <= i < n ==> !(s <= t[i..])
    ensures Find(t, s) == Some(n)
  {
    hide Find;
    var at := Find(t, s);
  }

  // ---------------------------------------------------------------- line comments and characters

  /** A line comment is blanked up to its newline, whatever it contains. */
  lemma LineCommentIsOneToken(s: string, u: string)
    requires '\n' !in s && (u != "" ==> u[0] == '\n')
    ensures var whole := "//" + s;
      TokenOf(whole + u) == Blank(|whole|) && Mask(whole + u) == Prepend(Blanked(whole), Mask(u))
  {
    hide Mask;
    var whole := "//" + s;
    var t := whole + u;
    assert "//" <= t;
    assert forall i :: 0 <= i < |whole| ==> t[i] == whole[i] && t[i] != '\n';
    assert u != "" ==> t[|whole|] == u[0];
    var n := LineLength(t);
    TokenThenRest(whole, u);
  }

  /** A character literal is blanked; an apostrophe that opens none, as in a lifetime, stays code. */
  lemma ApostropheIsLiteralOrCode(c: char, d: char, u: string)
    requires c != '\'' && c != '\\' && c != '\n'
    ensures TokenOf("'" + [c, d] + u) == if d == '\'' then Blank(3) else Code
  {
    var t := "'" + [c, d] + u;
    assert t[0] == '\'' && t[1] == c && t[2] == d;
  }

  // ---------------------------------------------------------------- every literal, and nothing else

  predicate HexDigit(c: char) { '0' <= c <= '9' || 'a' <= c <= 'f' || 'A' <= c <= 'F' }

  /** What stands between the apostrophes: a character, or an escape of one, as `\n`, `\'`, `\x41` or `\u{1F600}`. */
  predicate CharBody(e: string) {
    || (|e| == 1 && e[0] != '\'' && e[0] != '\\' && e[0] != '\n')
    || (|e| == 2 && e[0] == '\\' && e[1] != '\n')
    || (|e| == 4 && e[..2] == "\\x" && HexDigit(e[2]) && HexDigit(e[3]))
    || (|e| > 4 && e[..3] == "\\u{" && e[|e| - 1] == '}' && forall i :: 3 <= i < |e| - 1 ==> e[i] != '}')
  }

  predicate CharLiteral(t: string, n: nat) {
    2 <= n <= |t| && t[0] == '\'' && t[n - 1] == '\'' && CharBody(t[1..n - 1])
  }

  /** A character literal is exactly an apostrophe, such a body and an apostrophe. */
  lemma CharLiteralExactly(t: string, n: nat)
    ensures CharLength(t) == Some(n) <==> CharLiteral(t, n)
  {
    if CharLiteral(t, n) {
      LiteralHasLength(t, n);
    }
    if CharLength(t) == Some(n) {
      LengthIsLiteral(t, n);
    }
  }

  lemma LiteralHasLength(t: string, n: nat)
    requires CharLiteral(t, n)
    ensures CharLength(t) == Some(n)
  {
    var e := t[1..n - 1];
    assert forall i :: 0 <= i < |e| ==> e[i] == t[i + 1];
    if |e| > 4 {
      UnicodeLiteral(t, n);
    } else if |e| == 4 {
      assert "\\x"[0] == '\\' && "\\x"[1] == 'x' && e[..2][1] == e[1];
    }
  }

  lemma UnicodeLiteral(t: string, n: nat)
    requires CharLiteral(t, n) && n > 6
    ensures UnicodeEscape(t, 2) == Some(n - 1) && At(t, 1, '\\') && At(t, n - 1, '\'')
  {
    var e := t[1..n - 1];
    assert forall i :: 0 <= i < |e| ==> e[i] == t[i + 1];
    assert e[..3][1] == e[1] && e[..3][2] == e[2] && "\\u{"[0] == '\\' && "\\u{"[1] == 'u' && "\\u{"[2] == '{';
    assert t[4..][n - 6] == '}';
    forall i | 0 <= i < n - 6 ensures !("}" <= t[4..][i..]) {
      assert t[4..][i..][0] == t[i + 4] == e[i + 3];
    }
    FindIs(t[4..], "}", n - 6);
  }

  lemma LengthIsLiteral(t: string, n: nat)
    requires CharLength(t) == Some(n)
    ensures CharLiteral(t, n)
  {
    var e := t[1..n - 1];
    assert forall i :: 0 <= i < |e| ==> e[i] == t[i + 1];
    if At(t, 1, '\\') && UnicodeEscape(t, 2) == Some(n - 1) {
      UnicodeIsLiteral(t, n);
    } else {
      hide UnicodeEscape;
      if n == 6 {
        assert e[..2] == "\\x";
      }
    }
  }

  lemma UnicodeIsLiteral(t: string, n: nat)
    requires At(t, 0, '\'') && At(t, 1, '\\') && UnicodeEscape(t, 2) == Some(n - 1) && At(t, n - 1, '\'')
    ensures CharLiteral(t, n)
  {
    var e, k := t[1..n - 1], Find(t[4..], "}").value;
    hide Find;
    assert n == 6 + k && t[4..][k..][0] == t[k + 4] == e[|e| - 1];
    forall i | 3 <= i < |e| - 1 ensures e[i] != '}' {
      assert !("}" <= t[4..][i - 3..]);
      assert t[4..][i - 3..][0] == t[i + 1];
    }
    assert e[..3] == "\\u{";
  }

  /** The text opens a raw string of that many hashes: at most 255, after `r`, `br` or `cr`. */
  predicate OpensRaw(t: string, prefix: string, hashes: nat) {
    (prefix == "" || prefix == "b" || prefix == "c") && hashes <= 255 && prefix + "r" + Run(hashes) + "\"" <= t
  }

  lemma RawOpeningExactly(t: string, hashes: nat)
    ensures RawOpening(t) == Some(hashes) <==>
      OpensRaw(t, "", hashes) || OpensRaw(t, "b", hashes) || OpensRaw(t, "c", hashes)
  {
    forall prefix | prefix == "" || prefix == "b" || prefix == "c"
      ensures OpensRaw(t, prefix, hashes) ==> RawOpening(t) == Some(hashes) && RawStart(t) == |prefix|
    {
      if OpensRaw(t, prefix, hashes) {
        OpeningIsRaw(t, prefix, hashes);
      }
    }
    if RawOpening(t) == Some(hashes) {
      RawIsOpening(t, hashes);
    }
  }

  lemma OpeningIsRaw(t: string, prefix: string, hashes: nat)
    requires OpensRaw(t, prefix, hashes)
    ensures RawOpening(t) == Some(hashes) && RawStart(t) == |prefix|
  {
    var p := |prefix|;
    var open := prefix + "r" + Run(hashes) + "\"";
    assert forall i :: 0 <= i < |open| ==> t[i] == open[i];
    assert open[p] == 'r' && open[p + 1 + hashes] == '"';
    assert t[p + 1..] == Run(hashes) + t[p + 1 + hashes..];
    HashesOfRun(hashes, t[p + 1 + hashes..]);
  }

  lemma RawIsOpening(t: string, hashes: nat)
    requires RawOpening(t) == Some(hashes)
    ensures OpensRaw(t, "", hashes) || OpensRaw(t, "b", hashes) || OpensRaw(t, "c", hashes)
  {
    var p := RawStart(t);
    var prefix := t[..p];
    assert p == 1 ==> prefix == "b" || prefix == "c";
    var mid := t[p + 1..p + 1 + hashes];
    forall i | 0 <= i < hashes ensures mid[i] == '#' {
      assert t[p + 1..][i] == '#';
    }
    assert t[..p + 2 + hashes] == prefix + "r" + Run(hashes) + "\"";
  }

  /** The text stands at the start of a comment, a string or a character literal. */
  predicate StartsLiteral(t: string) {
    || "//" <= t || "/*" <= t || "\"" <= t
    || (exists hashes :: 0 <= hashes <= 255
          && (OpensRaw(t, "", hashes) || OpensRaw(t, "b", hashes) || OpensRaw(t, "c", hashes)))
    || exists n :: 0 <= n <= |t| && CharLiteral(t, n)
  }

  /** A character is code exactly if none of these starts with it; a character literal is blanked whole. */
  lemma CodeExactly(t: string)
    requires t != ""
    ensures TokenOf(t).Code? <==> !StartsLiteral(t)
    ensures forall n: nat :: CharLiteral(t, n) ==> TokenOf(t) == Blank(n)
  {
    hide CharLength, RawOpening, CharLiteral, OpensRaw, BlockLength, StringLength, Find;
    forall n: nat ensures CharLength(t) == Some(n) <==> CharLiteral(t, n) {
      CharLiteralExactly(t, n);
    }
    forall h: nat
      ensures RawOpening(t) == Some(h) <==> OpensRaw(t, "", h) || OpensRaw(t, "b", h) || OpensRaw(t, "c", h)
    {
      RawOpeningExactly(t, h);
    }
    forall n: nat | CharLiteral(t, n) ensures t[0] == '\'' && RawOpening(t).None? {
      ApostropheIsNoRaw(t, n);
    }
    if RawOpening(t).Some? {
      RawIsShort(t);
    }
  }

  lemma ApostropheIsNoRaw(t: string, n: nat)
    requires CharLiteral(t, n)
    ensures t[0] == '\'' && RawOpening(t).None?
  {
  }

  lemma RawIsShort(t: string)
    requires RawOpening(t).Some?
    ensures RawOpening(t).value <= 255
  {
  }

  // ---------------------------------------------------------------- what never ends

  lemma {:induction false} EscapedNeverEnds(s: string, last: string)
    requires last == "" || last == "\\"
    ensures StringLength(Escaped(s) + last).None?
  {
    var t := Escaped(s) + last;
    if s != "" {
      var more := Escaped(s[1..]) + last;
      EscapedNeverEnds(s[1..], last);
      if s[0] == '"' || s[0] == '\\' {
        assert t == ['\\', s[0]] + more && t[2..] == more;
      } else {
        assert t == [s[0]] + more && t[1..] == more;
      }
    }
  }

  /** A text in one quote only, even if it ends in a backslash, is an unterminated string. */
  lemma UnclosedStringFails(s: string, last: string)
    requires last == "" || last == "\\"
    ensures Mask("\"" + Escaped(s) + last) == Err(UnterminatedString)
  {
    hide StringLength;
    var t := "\"" + Escaped(s) + last;
    assert t[0] == '"' && t[1..] == Escaped(s) + last;
    EscapedNeverEnds(s, last);
  }

  /** Comments in which one more is opened than closed are an unterminated comment. */
  lemma UnclosedCommentFails(c: Comment)
    requires Proper(c)
    ensures Mask("/*" + Render(c)) == Err(UnterminatedComment)
  {
    hide Render;
    CommentPasses(c, "", 1);
    assert Render(c) + "" == Render(c);
    Opens(Render(c), 1);
  }

  /** A raw string whose closing quote and hashes never come is unterminated. */
  lemma UnclosedRawFails(prefix: string, hashes: nat, body: string)
    requires (prefix == "" || prefix == "b" || prefix == "c") && hashes <= 255
    requires forall i :: 0 <= i <= |body| ==> !("\"" + Run(hashes) <= body[i..])
    ensures Mask(prefix + "r" + Run(hashes) + "\"" + body) == Err(UnterminatedRawString)
  {
    hide TokenOf, Run;
    var open := prefix + "r" + Run(hashes) + "\"";
    var t := open + body;
    ClosingIs(hashes);
    RawToken(t, prefix, hashes, body);
  }

  /** What a raw string opened at the front of a text comes to. */
  lemma RawToken(t: string, prefix: string, hashes: nat, body: string)
    requires (prefix == "" || prefix == "b" || prefix == "c") && hashes <= 255
    requires t == prefix + "r" + Run(hashes) + "\"" + body
    ensures t != "" && TokenOf(t) == match Find(body, Closing(hashes))
                                     case Some(n) => Blank(|prefix| + 3 + 2 * hashes + n)
                                     case None => Broken(UnterminatedRawString)
  {
    hide Find, Closing, Run, StringLength, BlockLength, CharLength, Hashes;
    assert OpensRaw(t, prefix, hashes) by {
      assert t[..|prefix| + 2 + hashes] == prefix + "r" + Run(hashes) + "\"";
    }
    OpeningIsRaw(t, prefix, hashes);
    hide RawOpening, RawStart;
    assert t[|prefix| + 2 + hashes..] == body;
    assert t[0] == 'r' || t[0] == 'b' || t[0] == 'c';
  }

  lemma ClosingIs(hashes: nat)
    ensures Closing(hashes) == "\"" + Run(hashes)
  {
  }

  /** A raw string, a byte or a C one included, is blanked up to the first quote followed by its number of hashes. */
  lemma RawIsOneToken(prefix: string, hashes: nat, content: string, u: string)
    requires (prefix == "" || prefix == "b" || prefix == "c") && hashes <= 255
    requires forall i :: 0 <= i < |content| ==> !("\"" + Run(hashes) <= (content + "\"" + Run(hashes) + u)[i..])
    ensures var whole := prefix + "r" + Run(hashes) + "\"" + content + "\"" + Run(hashes);
      TokenOf(whole + u) == Blank(|whole|) && Mask(whole + u) == Prepend(Blanked(whole), Mask(u))
  {
    hide Mask, TokenOf, Run, Find;
    ClosingIs(hashes);
    var open := prefix + "r" + Run(hashes) + "\"";
    var close := "\"" + Run(hashes);
    var whole := open + content + "\"" + Run(hashes);
    assert whole + u == open + (content + close + u);
    assert content + close + u == content + "\"" + Run(hashes) + u;
    FindsClosing(content, close, u);
    RawToken(whole + u, prefix, hashes, content + close + u);
    TokenThenRest(whole, u);
  }
}
