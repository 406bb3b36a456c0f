/**
  When two requests share a canonical text.  Kind, language and effort come from closed tables and a
  version is one line; the model is whatever the configuration says.  A model with line breaks may hold
  the rest of a header and the beginning of a section, and then its request reads as another one.
*/
module CanonicalCollisions {
  import opened Prelude
  import opened Canonical

  /** A request as the daemon builds it, but for its model, which may be any text. */
  predicate Usual(r: Request) {
    Tabled(r.settings) && OneLineVersions(r.included)
  }

  predicate OneLineVersions(sections: seq<Section>) { forall s :: s in sections ==> OneLine(s.version) }

  /** What follows the model in a canonical text. */
  function Tail(effort: string, cap: nat, rest: string): string {
    Line("effort=", effort, Line("max_input_chars=", Decimal(cap), rest))
  }

  function TailOf(r: Request): string { Tail(r.settings.effort, r.settings.maxInputChars, SectionsText(r.included)) }

  // ---------------------------------------------------------------- the condition

  /**
    The rest of a header, some whole sections, and a section that is begun only: its version, its length
    in bytes and maybe a first piece of its body.
  */
  datatype Overrun = Overrun(effort: string, cap: nat, whole: seq<Section>, version: string, length: nat,
                             begun: Option<string>)

  function Begun(begun: Option<string>): string { if begun.Some? then "\n" + begun.value else "" }

  function Opening(version: string, length: nat, begun: Option<string>): string {
    Line("---", "", Line("", version, Decimal(length) + Begun(begun)))
  }

  function OverrunText(o: Overrun): string {
    Tail(o.effort, o.cap, SectionsText(o.whole) + Opening(o.version, o.length, o.begun))
  }

  /** The shortest rest of a text that can follow the model, without the newline it ends with. */
  const LEAST := 28

  function BegunBytes(begun: Option<string>): nat { if begun.Some? then Bytes(begun.value) + 1 else 0 }

  /** The section that is begun is long enough to reach past the model to the end of some text. */
  predicate Sound(o: Overrun) {
    && o.effort in EFFORTS && 1 <= o.cap <= CAPS && OneLineVersions(o.whole) && OneLine(o.version)
    && o.length >= BegunBytes(o.begun) + LEAST
  }

  /** `longer` is `m`, a line break and such an overrun. */
  ghost predicate Overruns(m: string, longer: string) {
    exists o :: Sound(o) && longer == m + "\n" + OverrunText(o)
  }

  /** Two different requests with these models share a text. */
  ghost predicate Collide(promptVersion: string, m: string, n: string) {
    exists q, r :: Usual(q) && Usual(r) && q.settings.model == m && r.settings.model == n && q != r
      && CanonicalText(promptVersion, q) == CanonicalText(promptVersion, r)
  }

  // ---------------------------------------------------------------- reading a shared text

  /** A line at the front of a text that goes on with `w`, a newline and `u`: `w` is that line, or has it in front. */
  lemma Peel(w: string, u: string, line: string, rest: string)
    requires OneLine(line) && w + "\n" + u == line + "\n" + rest
    ensures (w == line && u == rest)
      || (|w| > |line| && w == line + "\n" + w[|line| + 1..] && w[|line| + 1..] + "\n" + u == rest)
  {
    var t := w + "\n" + u;
    assert t[|w|] == '\n' && t[|line|] == '\n' && forall i :: 0 <= i < |line| ==> t[i] in line;
    assert w == t[..|w|] && u == t[|w| + 1..];
    assert line == t[..|line|] && rest == t[|line| + 1..];
    if |w| > |line| {
      assert w[..|line|] == line && w[|line|] == '\n';
      assert w == w[..|line|] + [w[|line|]] + w[|line| + 1..];
    }
  }

  lemma SectionsStart(sections: seq<Section>)
    ensures SectionsText(sections) == "" || SectionsText(sections)[0] == '-'
  {
  }

  lemma TablesAreOneLine(h: Settings)
    requires Tabled(h)
    ensures OneLine(h.kind) && OneLine(h.lang) && OneLine(h.effort)
  {
  }

  lemma TailStart(effort: string, cap: nat, rest: string)
    ensures Tail(effort, cap, rest) != "" && Tail(effort, cap, rest)[0] == 'e'
  {
  }

  lemma EffortsAreShort(effort: string)
    requires effort in EFFORTS
    ensures |effort| >= 3 && OneLine(effort) && forall c :: c in effort ==> 'a' <= c <= 'z'
  {
  }

  lemma {:induction false} BytesAppend(a: string, b: string)
    ensures Bytes(a + b) == Bytes(a) + Bytes(b)
  {
    if a == "" {
      assert a + b == b;
    } else {
      assert (a + b)[1..] == a[1..] + b;
      BytesAppend(a[1..], b);
    }
  }

  lemma {:induction false} BytesAtLeast(s: string)
    ensures Bytes(s) >= |s|
  {
    if s != "" {
      BytesAtLeast(s[1..]);
    }
  }

  lemma {:induction false} BytesOfAscii(s: string)
    requires forall c :: c in s ==> c as int < 0x80
    ensures Bytes(s) == |s|
  {
    if s != "" {
      assert s[0] in s && forall c :: c in s[1..] ==> c in s;
      BytesOfAscii(s[1..]);
    }
  }

  /** A body that is followed by sections only, and together with them makes up what follows a model. */
  lemma RestIsLong(body: string, more: seq<Section>, effort: string, cap: nat, rest: string)
    requires effort in EFFORTS && body + "\n" + SectionsText(more) == Tail(effort, cap, rest)
    ensures Bytes(body) >= LEAST
  {
    hide SectionsText, Bytes;
    EffortsAreShort(effort);
    DecimalDigits(cap);
    SectionsStart(more);
    var first, second := "effort=" + effort, "max_input_chars=" + Decimal(cap);
    assert Tail(effort, cap, rest) == first + "\n" + (second + "\n" + rest);
    Peel(body, SectionsText(more), first, second + "\n" + rest);
    assert (second + "\n" + rest)[0] == 'm';
    var after := body[|first| + 1..];
    Peel(after, SectionsText(more), second, rest);
    BytesAtLeast(body);
  }

  /** Read as sections, a text that goes on from `w` with what follows a model: `w` is whole sections and one begun. */
  lemma {:induction false} SectionsOverrun(sections: seq<Section>, w: string, effort: string, cap: nat, rest: string)
    returns (whole: seq<Section>, version: string, length: nat, begun: Option<string>)
    requires OneLineVersions(sections) && effort in EFFORTS
    requires w + "\n" + Tail(effort, cap, rest) == SectionsText(sections)
    ensures w == SectionsText(whole) + Opening(version, length, begun)
    ensures OneLineVersions(whole) && OneLine(version) && length >= BegunBytes(begun) + LEAST
  {
    hide Bytes, Decimal, SectionsText;
    var u := Tail(effort, cap, rest);
    TailStart(effort, cap, rest);
    NoSections();
    TextNext(sections);
    var s, more := sections[0], sections[1..];
    assert s in sections;
    var more' := HeadPeeled(s, SectionsText(more), w, effort, cap, rest);
    whole, version, length, begun := [], s.version, Bytes(s.body), None;
    if more'.None? {
      RestIsLong(s.body, more, effort, cap, rest);
      NothingInFront(w);
    } else if |more'.value| < |s.body| {
      begun := more';
      BodyBegun(s.body, begun.value, more, effort, cap, rest);
      NothingInFront(w);
    } else {
      var w' := BodyWhole(s.body, more'.value, more, effort, cap, rest);
      WholeSection(s, more'.value, w');
      whole, version, length, begun := SectionsOverrun(more, w', effort, cap, rest);
      OneMore(s, whole, Opening(version, length, begun));
      whole := [s] + whole;
    }
  }

  lemma NothingInFront(w: string)
    ensures w == SectionsText([]) + w
  {
  }

  /** Its head and what was begun of its body, up to a newline, make up a whole section. */
  lemma WholeSection(s: Section, begun: string, rest: string)
    requires begun == s.body + "\n" + rest
    ensures Opening(s.version, Bytes(s.body), Some(begun)) == SectionText(s) + rest
  {
    hide Bytes, Decimal;
    var (head, digits) := ("---\n" + s.version + "\n", Decimal(Bytes(s.body)));
    assert Opening(s.version, Bytes(s.body), Some(begun)) == head + (digits + ("\n" + begun));
    assert SectionText(s) == head + (digits + "\n" + s.body + "\n");
    assert digits + ("\n" + begun) == digits + "\n" + s.body + "\n" + rest;
  }

  lemma OneMore(s: Section, whole: seq<Section>, rest: string)
    ensures SectionText(s) + (SectionsText(whole) + rest) == SectionsText([s] + whole) + rest
  {
    hide SectionsText, SectionText;
    TextNext([s] + whole);
    assert ([s] + whole)[1..] == whole;
  }

  /** `w` is the head of the section, or has it in front. */
  lemma HeadPeeled(s: Section, more: string, w: string, effort: string, cap: nat, rest: string)
    returns (begun: Option<string>)
    requires OneLine(s.version) && effort in EFFORTS
    requires w + "\n" + Tail(effort, cap, rest) == SectionText(s) + more
    ensures w == Opening(s.version, Bytes(s.body), begun)
    ensures (if begun.Some? then begun.value + "\n" else "") + Tail(effort, cap, rest) == s.body + "\n" + more
  {
    hide Bytes, Decimal, Tail, SectionText, OneLine, Opening;
    var u := Tail(effort, cap, rest);
    var digits := Decimal(Bytes(s.body));
    DecimalBack(Bytes(s.body));
    DecimalDigits(Bytes(s.body));
    var t2 := s.body + "\n" + more;
    HeadText(s, more);
    VersionIsNoTail(s.version, digits, t2, effort, cap, rest);
    TailStart(effort, cap, rest);
    var w1 := PeelOn(w, u, "---", s.version + "\n" + (digits + "\n" + t2));
    var w2 := PeelOn(w1, u, s.version, digits + "\n" + t2);
    Peel(w2, u, digits, t2);
    begun := if w2 == digits then None else Some(w2[|digits| + 1..]);
    HeadBegun(s.version, Bytes(s.body), w, w1, w2, begun, u);
  }

  lemma HeadText(s: Section, more: string)
    ensures SectionText(s) + more
      == "---" + "\n" + (s.version + "\n" + (Decimal(Bytes(s.body)) + "\n" + (s.body + "\n" + more)))
    ensures OneLine("---") && (s.version + "\n" + (Decimal(Bytes(s.body)) + "\n" + (s.body + "\n" + more))) != ""
  {
    hide Bytes, Decimal;
  }

  lemma HeadBegun(version: string, length: nat, w: string, w1: string, w2: string, begun: Option<string>, u: string)
    requires w == "---" + "\n" + w1 && w1 == version + "\n" + w2
    requires w2 == if begun.Some? then Decimal(length) + "\n" + begun.value else Decimal(length)
    ensures w == Opening(version, length, begun)
    ensures (if begun.Some? then begun.value + "\n" else "") + u
      == if begun.Some? then begun.value + "\n" + u else u
  {
    hide Decimal;
    assert "" + u == u;
    assert w2 == Decimal(length) + Begun(begun);
  }

  lemma PeelOn(w: string, u: string, line: string, rest: string) returns (w': string)
    requires OneLine(line) && w + "\n" + u == line + "\n" + rest && u != rest
    ensures w == line + "\n" + w' && w' + "\n" + u == rest
  {
    Peel(w, u, line, rest);
    w' := w[|line| + 1..];
  }

  lemma NoSections()
    ensures SectionsText([]) == ""
  {
  }

  /** What follows a model is not read as the rest of a section's head. */
  lemma VersionIsNoTail(version: string, digits: string, body: string, effort: string, cap: nat, rest: string)
    requires OneLine(version) && effort in EFFORTS && digits != "" && forall c :: c in digits ==> '0' <= c <= '9'
    ensures Tail(effort, cap, rest) != version + "\n" + (digits + "\n" + body)
    ensures Tail(effort, cap, rest) != digits + "\n" + body
  {
    hide Decimal;
    EffortsAreShort(effort);
    var u := Tail(effort, cap, rest);
    var second := Line("max_input_chars=", Decimal(cap), rest);
    assert u == ("effort=" + effort) + "\n" + second && u[0] == 'e' && second[0] == 'm';
    assert digits[0] in digits;
    assert (digits + "\n" + body)[0] == digits[0];
    if u == version + "\n" + (digits + "\n" + body) {
      Peel(version, digits + "\n" + body, "effort=" + effort, second);
    }
  }

  lemma BodyBegun(body: string, w: string, more: seq<Section>, effort: string, cap: nat, rest: string)
    requires effort in EFFORTS && |w| < |body|
    requires w + "\n" + Tail(effort, cap, rest) == body + "\n" + SectionsText(more)
    ensures Bytes(body) >= Bytes(w) + 1 + LEAST
  {
    hide Bytes, Decimal, SectionsText;
    var (u, after) := (Tail(effort, cap, rest), body[|w| + 1..]);
    var t := w + "\n" + u;
    assert body == t[..|body|] && t[|w|] == '\n';
    assert body == w + "\n" + after;
    assert t[|w| + 1..] == u && (body + "\n" + SectionsText(more))[|w| + 1..] == after + "\n" + SectionsText(more);
    RestIsLong(after, more, effort, cap, rest);
    BytesAppend(w + "\n", after);
    BytesAppend(w, "\n");
    BytesAtLeast("\n");
  }

  lemma BodyWhole(body: string, w: string, more: seq<Section>, effort: string, cap: nat, rest: string)
    returns (w': string)
    requires |w| >= |body| && w + "\n" + Tail(effort, cap, rest) == body + "\n" + SectionsText(more)
    ensures w == body + "\n" + w' && w' + "\n" + Tail(effort, cap, rest) == SectionsText(more)
  {
    hide Decimal, SectionsText;
    var u := Tail(effort, cap, rest);
    TailStart(effort, cap, rest);
    SectionsStart(more);
    var t := w + "\n" + u;
    assert t[..|body|] == body && t[|body|] == '\n' && t[|body| + 1..] == SectionsText(more);
    assert t[|w| + 1..] == u;
    assert u[0] == 'e' && |w| > |body|;
    w' := w[|body| + 1..];
    assert w == w[..|body|] + [w[|body|]] + w';
    assert t[|body| + 1..] == w' + "\n" + u;
  }

  lemma HeadsMatch(promptVersion: string, q: Request, r: Request)
    requires OneLine(promptVersion) && Usual(q) && Usual(r)
    requires CanonicalText(promptVersion, q) == CanonicalText(promptVersion, r)
    ensures q.settings.kind == r.settings.kind && q.settings.lang == r.settings.lang
    ensures q.settings.model + "\n" + TailOf(q) == r.settings.model + "\n" + TailOf(r)
  {
    hide Tail, TakeLine, Field, SectionsText, Decimal, Line;
    HeadLines(promptVersion, q);
    HeadLines(promptVersion, r);
  }

  /** What the first three lines of a text leave. */
  lemma HeadLines(promptVersion: string, r: Request)
    requires OneLine(promptVersion) && Usual(r)
    ensures var rest := Line("model=", r.settings.model, TailOf(r));
      && Field("prompt=", CanonicalText(promptVersion, r))
        == Some(Cut(promptVersion, Line("kind=", r.settings.kind, Line("lang=", r.settings.lang, rest))))
      && Field("kind=", Line("kind=", r.settings.kind, Line("lang=", r.settings.lang, rest)))
        == Some(Cut(r.settings.kind, Line("lang=", r.settings.lang, rest)))
      && Field("lang=", Line("lang=", r.settings.lang, rest)) == Some(Cut(r.settings.lang, rest))
      && rest[6..] == r.settings.model + "\n" + TailOf(r)
  {
    hide TakeLine, Field, SectionsText, Decimal;
    var rest := Line("model=", r.settings.model, TailOf(r));
    FieldNamesAreOneLine();
    TablesAreOneLine(r.settings);
    FieldBack("prompt=", promptVersion, Line("kind=", r.settings.kind, Line("lang=", r.settings.lang, rest)));
    FieldBack("kind=", r.settings.kind, Line("lang=", r.settings.lang, rest));
    FieldBack("lang=", r.settings.lang, rest);
    assert rest == "model=" + (r.settings.model + "\n" + TailOf(r));
  }

  lemma TailsMatch(q: Request, r: Request)
    requires Usual(q) && Usual(r) && TailOf(q) == TailOf(r)
    ensures q.settings.effort == r.settings.effort && q.settings.maxInputChars == r.settings.maxInputChars
    ensures q.included == r.included
  {
    hide Line, Field, SectionsText, Decimal, DecodeSections, ReadDecimal;
    TailBack(q);
    TailBack(r);
    SectionsBack(q.included, |q.included| + |r.included|);
    SectionsBack(r.included, |q.included| + |r.included|);
  }

  lemma TailBack(r: Request)
    requires Usual(r)
    ensures var second := Line("max_input_chars=", Decimal(r.settings.maxInputChars), SectionsText(r.included));
      && Field("effort=", TailOf(r)) == Some(Cut(r.settings.effort, second))
      && Field("max_input_chars=", second)
        == Some(Cut(Decimal(r.settings.maxInputChars), SectionsText(r.included)))
      && ReadDecimal(Decimal(r.settings.maxInputChars)) == Some(r.settings.maxInputChars)
  {
    hide Line, Field, SectionsText, Decimal;
    FieldNamesAreOneLine();
    EffortsAreShort(r.settings.effort);
    DecimalBack(r.settings.maxInputChars);
    var digits := Decimal(r.settings.maxInputChars);
    FieldBack("effort=", r.settings.effort, Line("max_input_chars=", digits, SectionsText(r.included)));
    FieldBack("max_input_chars=", digits, SectionsText(r.included));
  }

  lemma SameModelSameRequest(q: Request, r: Request)
    requires Usual(q) && Usual(r) && TailOf(q) == TailOf(r)
    requires q.settings.kind == r.settings.kind && q.settings.lang == r.settings.lang
    requires q.settings.model == r.settings.model
    ensures q == r
  {
    hide Usual, TailOf;
    TailsMatch(q, r);
    assert q.settings == r.settings;
  }

  /** If two requests share a text, the longer model overruns the shorter. */
  lemma SharedTextOverruns(promptVersion: string, q: Request, r: Request)
    requires OneLine(promptVersion) && Usual(q) && Usual(r) && q != r
    requires CanonicalText(promptVersion, q) == CanonicalText(promptVersion, r)
    requires |q.settings.model| <= |r.settings.model|
    ensures Overruns(q.settings.model, r.settings.model)
  {
    hide Bytes, Decimal, SectionsText, CanonicalText, Tail;
    HeadsMatch(promptVersion, q, r);
    var (m, n) := (q.settings.model, r.settings.model);
    var (t, u) := (TailOf(q), TailOf(r));
    assert (m + "\n" + t)[..|m|] == m && (n + "\n" + u)[..|m|] == n[..|m|];
    assert (m + "\n" + t)[|m| + 1..] == t && (n + "\n" + u)[|n| + 1..] == u;
    if |m| == |n| {
      SameModelSameRequest(q, r);
    }
    assert (m + "\n" + t)[|m|] == '\n' && (n + "\n" + u)[|m|] == n[|m|];
    var w := n[|m| + 1..];
    assert n == m + "\n" + w;
    assert (n + "\n" + u)[|m| + 1..] == w + "\n" + u;
    var o := TailOverruns(q, w, r);
    assert n == m + "\n" + OverrunText(o);
  }

  lemma TailOverruns(q: Request, w: string, r: Request) returns (o: Overrun)
    requires Usual(q) && Usual(r) && w + "\n" + TailOf(r) == TailOf(q)
    ensures Sound(o) && w == OverrunText(o)
  {
    hide Bytes, Decimal, SectionsText, Opening;
    var (e, cap, sections) := (q.settings.effort, q.settings.maxInputChars, SectionsText(q.included));
    var first, second := "effort=" + e, "max_input_chars=" + Decimal(cap);
    var u := TailOf(r);
    TailStart(r.settings.effort, r.settings.maxInputChars, SectionsText(r.included));
    EffortsAreShort(e);
    DecimalBack(cap);
    SectionsStart(q.included);
    assert TailOf(q) == first + "\n" + (second + "\n" + sections);
    assert (second + "\n" + sections)[0] == 'm';
    var w1 := PeelOn(w, u, first, second + "\n" + sections);
    var w2 := PeelOn(w1, u, second, sections);
    var whole, version, length, begun :=
      SectionsOverrun(q.included, w2, r.settings.effort, r.settings.maxInputChars, SectionsText(r.included));
    o := Overrun(e, cap, whole, version, length, begun);
    assert w == Tail(e, cap, w2);
  }

  // ---------------------------------------------------------------- making a text shared

  lemma {:induction false} SectionsAppend(a: seq<Section>, s: Section)
    ensures SectionsText(a + [s]) == SectionsText(a) + SectionText(s)
  {
    hide SectionText;
    if a == [] {
      assert [] + [s] == [s] && [s][1..] == [];
      assert SectionsText([s]) == SectionText(s) + SectionsText([]);
      assert SectionsText([]) == "" && SectionText(s) + "" == SectionText(s);
      assert SectionsText(a) + SectionText(s) == SectionText(s);
    } else {
      assert (a + [s])[0] == a[0] && (a + [s])[1..] == a[1..] + [s];
      SectionsAppend(a[1..], s);
    }
  }

  lemma TailAppend(effort: string, cap: nat, rest: string, more: string)
    ensures Tail(effort, cap, rest) + more == Tail(effort, cap, rest + more)
  {
    hide Decimal;
    var (first, second) := ("effort=" + effort + "\n", "max_input_chars=" + Decimal(cap) + "\n");
    assert Tail(effort, cap, rest) == first + (second + rest);
    assert Tail(effort, cap, rest + more) == first + (second + (rest + more));
    assert first + (second + rest) + more == first + (second + (rest + more));
  }

  /** The body of the section that was begun, if `u` follows the model. */
  function BodyOf(begun: Option<string>, u: string): string
    requires u != ""
  {
    (if begun.Some? then begun.value + "\n" else "") + u[..|u| - 1]
  }

  lemma OpeningCompleted(o: Overrun, u: string)
    requires u != "" && Last(u) == '\n' && Bytes(BodyOf(o.begun, u)) == o.length
    ensures Opening(o.version, o.length, o.begun) + "\n" + u == SectionText(Section(o.version, BodyOf(o.begun, u)))
  {
    hide Bytes, Decimal;
    var digits := Decimal(o.length);
    assert u == u[..|u| - 1] + "\n";
    var head := "---\n" + o.version + "\n" + digits;
    assert Opening(o.version, o.length, o.begun) == head + Begun(o.begun);
    assert head + Begun(o.begun) + "\n" + u == head + "\n" + BodyOf(o.begun, u) + "\n";
  }

  /** The request with model `m` and the one with the overrun model then have the same text after the model. */
  lemma OverrunShares(m: string, o: Overrun, u: string)
    requires u != "" && Last(u) == '\n' && Bytes(BodyOf(o.begun, u)) == o.length
    ensures var all := o.whole + [Section(o.version, BodyOf(o.begun, u))];
      m + "\n" + OverrunText(o) + "\n" + u == m + "\n" + Tail(o.effort, o.cap, SectionsText(all))
  {
    hide Bytes, Tail, SectionsText, SectionText, Opening, BodyOf;
    var (opening, s) := (Opening(o.version, o.length, o.begun), Section(o.version, BodyOf(o.begun, u)));
    var whole := SectionsText(o.whole);
    OpeningCompleted(o, u);
    SectionsAppend(o.whole, s);
    TailAppend(o.effort, o.cap, whole + opening, "\n" + u);
    assert whole + opening + ("\n" + u) == whole + (opening + "\n" + u);
    var t := OverrunText(o);
    assert m + "\n" + t + "\n" + u == m + "\n" + (t + ("\n" + u));
  }

  // ---------------------------------------------------------------- texts of any length from 28 bytes on

  datatype Filling = Filling(effort: string, cap: nat, included: seq<Section>)

  function FillingText(f: Filling): string { Tail(f.effort, f.cap, SectionsText(f.included)) }

  predicate UsualFilling(f: Filling) { f.effort in EFFORTS && 1 <= f.cap <= CAPS && OneLineVersions(f.included) }

  function Zeros(n: nat): (s: string)
    ensures |s| == n && forall c :: c in s ==> c == '0'
  {
    seq(n, _ => '0')
  }

  function FillWith(length: nat): Filling
    requires length >= LEAST
  {
    if length <= 32 then Filling("low", Ten(length - LEAST), [])
    else if length <= 35 then Filling("medium", Ten(length - LEAST - 3), [])
    else Filling("low", 1, [Section(Zeros(length - 36), "")])
  }

  function Ten(k: nat): (n: nat)
    ensures k <= 4 ==> 1 <= n <= CAPS
  {
    if k == 0 then 1 else if k == 1 then 10 else if k == 2 then 100 else if k == 3 then 1000 else 10_000
  }

  lemma DecimalTen(k: nat)
    requires k <= 4
    ensures |Decimal(Ten(k))| == k + 1
  {
    assert |Decimal(1)| == 1;
    assert |Decimal(10)| == |Decimal(1)| + 1;
    assert |Decimal(100)| == |Decimal(10)| + 1;
    assert |Decimal(1000)| == |Decimal(100)| + 1;
    assert |Decimal(10_000)| == |Decimal(1000)| + 1;
  }

  lemma TailLength(effort: string, cap: nat, rest: string)
    ensures |Tail(effort, cap, rest)| == 25 + |effort| + |Decimal(cap)| + |rest|
  {
    hide Decimal;
  }

  lemma FillWithFills(length: nat)
    requires length >= LEAST
    ensures var f := FillWith(length);
      && UsualFilling(f) && Last(FillingText(f)) == '\n'
      && |FillingText(f)| == length + 1 && forall c :: c in FillingText(f) ==> c as int < 0x80
  {
    hide Decimal, SectionsText;
    var f := FillWith(length);
    FillsSections(length);
    TailLength(f.effort, f.cap, SectionsText(f.included));
    if length <= 32 {
      DecimalTen(length - LEAST);
    } else if length <= 35 {
      DecimalTen(length - LEAST - 3);
    } else {
      DecimalTen(0);
    }
    EffortsAreShort(f.effort);
    DecimalDigits(f.cap);
  }

  lemma FillsSections(length: nat)
    requires length >= LEAST
    ensures var t := SectionsText(FillWith(length).included);
      && OneLineVersions(FillWith(length).included) && (t != "" ==> Last(t) == '\n')
      && |t| == (if length <= 35 then 0 else length - 28) && forall c :: c in t ==> c as int < 0x80
  {
    if length > 35 {
      var s := Section(Zeros(length - 36), "");
      assert Decimal(Bytes("")) == "0";
      assert SectionsText([s]) == SectionText(s) + SectionsText([]);
    }
  }

  /** A model that overruns another collides with it. */
  lemma OverrunCollides(promptVersion: string, m: string, o: Overrun)
    requires Sound(o)
    ensures Collide(promptVersion, m, m + "\n" + OverrunText(o))
  {
    hide Bytes, Tail, SectionsText, OverrunText, FillWith, CanonicalText;
    var rest := o.length - BegunBytes(o.begun);
    var f := FillWith(rest);
    FillWithFills(rest);
    var u := FillingText(f);
    FilledBody(o, u);
    OverrunShares(m, o, u);
    var n := m + "\n" + OverrunText(o);
    var all := o.whole + [Section(o.version, BodyOf(o.begun, u))];
    var q := Request(Settings("claude", "en", m, o.effort, o.cap), all);
    var r := Request(Settings("claude", "en", n, f.effort, f.cap), f.included);
    SameRest(promptVersion, q, r);
    assert Usual(q) && Usual(r) && |m| < |n|;
  }

  lemma FilledBody(o: Overrun, u: string)
    requires Sound(o) && |u| == o.length - BegunBytes(o.begun) + 1 && forall c :: c in u ==> c as int < 0x80
    ensures Bytes(BodyOf(o.begun, u)) == o.length
  {
    hide Bytes;
    var most := u[..|u| - 1];
    assert forall c :: c in most ==> c in u;
    BytesOfAscii(most);
    if o.begun.Some? {
      BytesAppend(o.begun.value + "\n", most);
      BytesAppend(o.begun.value, "\n");
      BytesOfAscii("\n");
    } else {
      assert BodyOf(o.begun, u) == most;
    }
  }

  lemma SameRest(promptVersion: string, q: Request, r: Request)
    requires q.settings.kind == r.settings.kind && q.settings.lang == r.settings.lang
    requires q.settings.model + "\n" + TailOf(q) == r.settings.model + "\n" + TailOf(r)
    ensures CanonicalText(promptVersion, q) == CanonicalText(promptVersion, r)
  {
    hide Decimal, SectionsText;
    ModelLine(q);
    ModelLine(r);
  }

  lemma ModelLine(r: Request)
    ensures Line("model=", r.settings.model, TailOf(r)) == "model=" + (r.settings.model + "\n" + TailOf(r))
  {
    hide Tail;
  }

  // ---------------------------------------------------------------- exactly when

  /**
    Two different requests with models `m` and `n` share a text if and only if one of the models is the
    other, a line break, the rest of a header, any sections, and the beginning of one that reaches past it.
  */
  lemma ModelsCollideExactly(promptVersion: string, m: string, n: string)
    requires OneLine(promptVersion)
    ensures Collide(promptVersion, m, n) <==> Overruns(m, n) || Overruns(n, m)
  {
    hide CanonicalText, OverrunText, Usual;
    if Collide(promptVersion, m, n) {
      var q, r :| Usual(q) && Usual(r) && q.settings.model == m && r.settings.model == n && q != r
        && CanonicalText(promptVersion, q) == CanonicalText(promptVersion, r);
      if |m| <= |n| {
        SharedTextOverruns(promptVersion, q, r);
      } else {
        SharedTextOverruns(promptVersion, r, q);
      }
    }
    if Overruns(m, n) {
      var o :| Sound(o) && n == m + "\n" + OverrunText(o);
      OverrunCollides(promptVersion, m, o);
    }
    if Overruns(n, m) {
      var o :| Sound(o) && m == n + "\n" + OverrunText(o);
      OverrunCollides(promptVersion, n, o);
      CollideIsMutual(promptVersion, n, m);
    }
  }

  lemma CollideIsMutual(promptVersion: string, m: string, n: string)
    requires Collide(promptVersion, m, n)
    ensures Collide(promptVersion, n, m)
  {
    hide CanonicalText, Usual;
  }

  /** So a model of one line collides with no model of one line, nor any model with itself. */
  lemma OneLineModelsAreSafe(promptVersion: string, m: string, n: string)
    requires OneLine(promptVersion) && ((OneLine(m) && OneLine(n)) || m == n)
    ensures !Collide(promptVersion, m, n)
  {
    hide OverrunText, Collide;
    ModelsCollideExactly(promptVersion, m, n);
    forall o: Overrun ensures n != m + "\n" + OverrunText(o) && m != n + "\n" + OverrunText(o) {
      var (a, b) := (m + "\n" + OverrunText(o), n + "\n" + OverrunText(o));
      assert a[|m|] == '\n' && b[|n|] == '\n';
    }
  }

  /** Requests whose models do not overrun each other never share a text. */
  lemma TextsDetermineRequests(promptVersion: string, q: Request, r: Request)
    requires OneLine(promptVersion) && Usual(q) && Usual(r)
    requires !Overruns(q.settings.model, r.settings.model) && !Overruns(r.settings.model, q.settings.model)
    ensures CanonicalText(promptVersion, q) == CanonicalText(promptVersion, r) <==> q == r
  {
    hide CanonicalText, Overruns, Usual;
    if CanonicalText(promptVersion, q) == CanonicalText(promptVersion, r) && q != r {
      if |q.settings.model| <= |r.settings.model| {
        SharedTextOverruns(promptVersion, q, r);
      } else {
        SharedTextOverruns(promptVersion, r, q);
      }
    }
  }

  // ---------------------------------------------------------------- one line break is enough

  /** A section body that goes on, after `x`, as a text does after its model. */
  function CarryingBody(x: string, u: string): string
    requires u != ""
  {
    x + "\n" + u[..|u| - 1]
  }

  /** The model that takes in what stands between `m` and that. */
  function CarryingModel(m: string, effort: string, cap: nat, version: string, body: string, x: string): string {
    m + "\n" + Tail(effort, cap, "---\n" + version + "\n" + Decimal(Bytes(body)) + "\n" + x)
  }

  /**
    For every request with one-line header fields and one section whose body carries what may follow a
    model, there is another that differs from it in the model, which has line breaks, and has its text.
  */
  lemma LineBreaksCollide(promptVersion: string, m: string, effort: string, cap: nat, version: string, x: string,
                          effort1: string, cap1: nat, included1: seq<Section>)
    requires OneLine(promptVersion) && OneLine(m) && OneLine(version) && OneLineVersions(included1)
    requires effort in EFFORTS && effort1 in EFFORTS && 1 <= cap <= CAPS && 1 <= cap1 <= CAPS
    ensures var body := CarryingBody(x, Tail(effort1, cap1, SectionsText(included1)));
      var q := Request(Settings("claude", "en", m, effort, cap), [Section(version, body)]);
      var longer := CarryingModel(m, effort, cap, version, body, x);
      var r := Request(Settings("claude", "en", longer, effort1, cap1), included1);
      && Usual(q) && LineSafe(promptVersion, q) && Usual(r) && q != r
      && CanonicalText(promptVersion, q) == CanonicalText(promptVersion, r)
  {
    hide CanonicalText, Bytes, Decimal, SectionsText, Tail;
    TailEnds(effort1, cap1, included1);
    var u := Tail(effort1, cap1, SectionsText(included1));
    var body := CarryingBody(x, u);
    var o := Overrun(effort, cap, [], version, Bytes(body), Some(x));
    var longer := CarryingModel(m, effort, cap, version, body, x);
    var q := Request(Settings("claude", "en", m, effort, cap), [Section(version, body)]);
    var r := Request(Settings("claude", "en", longer, effort1, cap1), included1);
    EffortsAreShort(effort);
    OverrunShares(m, o, u);
    CarryingIsOverrun(m, o, body, x);
    assert [] + [Section(version, body)] == q.included;
    SameRest(promptVersion, q, r);
    assert |longer| > |m| && OneLine("claude") && OneLine("en");
  }

  lemma CarryingIsOverrun(m: string, o: Overrun, body: string, x: string)
    requires o.whole == [] && o.length == Bytes(body) && o.begun == Some(x)
    ensures CarryingModel(m, o.effort, o.cap, o.version, body, x) == m + "\n" + OverrunText(o)
  {
    hide Bytes, Decimal, Tail;
    var digits := Decimal(o.length);
    assert "---" + "" + "\n" + ("" + o.version + "\n" + (digits + ("\n" + x)))
      == "---\n" + o.version + "\n" + digits + "\n" + x;
    assert "" + Opening(o.version, o.length, o.begun) == Opening(o.version, o.length, o.begun);
  }

  lemma TailEnds(effort: string, cap: nat, included: seq<Section>)
    ensures Tail(effort, cap, SectionsText(included)) != "" && Last(Tail(effort, cap, SectionsText(included))) == '\n'
  {
    hide SectionsText, Decimal;
    SectionsEnd(included);
  }

  lemma {:induction false} SectionsEnd(sections: seq<Section>)
    ensures SectionsText(sections) != "" ==> Last(SectionsText(sections)) == '\n'
  {
    if sections != [] {
      SectionsEnd(sections[1..]);
    }
  }
}
