/**
  From changelog sections to a request and its fingerprint: which sections fit, and the canonical text
  that is hashed.  Text is a sequence of Unicode scalar values; lengths in the canonical text count
  UTF-8 bytes, the input cap counts characters.
*/
module Canonical {
  import opened Prelude
  import Ledger = LedgerModel

  datatype Section = Section(version: string, body: string)

  datatype Settings = Settings(kind: string, lang: string, model: string, effort: string, maxInputChars: nat)

  datatype Request = Request(settings: Settings, included: seq<Section>)

  const KINDS := ["claude", "codex", "herdr", "agy", "grok"]

  const LANGUAGES := ["zh-Hant", "zh-Hans", "en", "ja", "ko"]

  const EFFORTS := ["low", "medium", "high", "max"]

  const CAPS := 12_000

  /** The settings the daemon works with: all but the model come from closed tables. */
  predicate Tabled(h: Settings) {
    h.kind in KINDS && h.lang in LANGUAGES && h.effort in EFFORTS && 1 <= h.maxInputChars <= CAPS
  }

  // ---------------------------------------------------------------- plan_input

  function Chars(sections: seq<Section>): nat {
    if sections == [] then 0 else Chars(sections[..|sections| - 1]) + |Last(sections).body|
  }

  function Versions(sections: seq<Section>): (r: seq<string>)
    ensures |r| == |sections| && forall i :: 0 <= i < |r| ==> r[i] == sections[i].version
  {
    seq(|sections|, i requires 0 <= i < |sections| => sections[i].version)
  }

  /**
    The newest sections that fit the cap, whole; or, when not even the first fits, its opening
    characters.  Every version is either included or reported as omitted, in order.
  */
  method PlanInput(cap: nat, sections: seq<Section>)
    returns (included: seq<Section>, omitted: seq<string>, truncated: bool)
    ensures Versions(included) + omitted == Versions(sections)
    ensures !truncated ==> included == sections[..|included|] && Chars(included) <= cap
    ensures !truncated && |included| < |sections| ==> Chars(sections[..|included| + 1]) > cap
    ensures truncated <==> sections != [] && |sections[0].body| > cap
    ensures truncated ==> included == [Section(sections[0].version, sections[0].body[..cap])]
    ensures sections != [] ==> included != []
  {
    hide Versions;
    included, omitted, truncated := [], [], false;
    var used := 0;
    var i := 0;
    while i < |sections|
      invariant 0 <= i <= |sections|
      invariant included == sections[..i] && used == Chars(included) && used <= cap
      invariant omitted == [] && !truncated
      invariant i > 0 ==> |sections[0].body| <= cap
    {
      var len := |sections[i].body|;
      assert sections[..i + 1][..i] == sections[..i];
      if used + len <= cap {
        included := included + [sections[i]];
        used := used + len;
        i := i + 1;
      } else {
        if included == [] {
          included := [Section(sections[i].version, sections[i].body[..cap - used])];
          truncated := true;
          omitted := Versions(sections[i + 1..]);
          assert Versions(included) + omitted == Versions(sections);
        } else {
          omitted := Versions(sections[i..]);
          VersionsSplit(sections, i);
        }
        return;
      }
    }
    assert sections[..i] == sections;
  }

  lemma VersionsSplit(sections: seq<Section>, i: nat)
    requires i <= |sections|
    ensures Versions(sections[..i]) + Versions(sections[i..]) == Versions(sections)
  {
  }

  // ---------------------------------------------------------------- canonical text

  function Digit(n: nat): char
    requires n < 10
  {
    "0123456789"[n]
  }

  function Decimal(n: nat): string {
    if n < 10 then [Digit(n)] else Decimal(n / 10) + [Digit(n % 10)]
  }

  function Utf8Length(c: char): nat {
    var n := c as int;
    if n < 0x80 then 1 else if n < 0x800 then 2 else if n < 0x1_0000 then 3 else 4
  }

  /** The bits UTF-8 has for a character in this many bytes. */
  function Room(bytes: nat): nat {
    if bytes == 1 then 128 else if bytes == 2 then 32 * 64 else if bytes == 3 then 16 * 64 * 64 else 8 * 64 * 64 * 64
  }

  /** UTF-8 takes the fewest bytes, one to four, that have room for a character. */
  lemma Utf8IsShortest(c: char)
    ensures 1 <= Utf8Length(c) <= 4 && c as int < Room(Utf8Length(c))
    ensures forall k :: 1 <= k < Utf8Length(c) ==> c as int >= Room(k)
  {
  }

  function Bytes(s: string): nat {
    if s == [] then 0 else Utf8Length(s[0]) + Bytes(s[1..])
  }

  function SectionText(s: Section): string {
    "---\n" + s.version + "\n" + Decimal(Bytes(s.body)) + "\n" + s.body + "\n"
  }

  function SectionsText(sections: seq<Section>): string {
    if sections == [] then "" else SectionText(sections[0]) + SectionsText(sections[1..])
  }

  function Line(name: string, value: string, rest: string): string { name + value + "\n" + rest }

  function HeaderText(promptVersion: string, h: Settings, rest: string): string {
    Line("prompt=", promptVersion,
         Line("kind=", h.kind, Line("lang=", h.lang, Line("model=", h.model, Line("effort=", h.effort,
      Line("max_input_chars=", Decimal(h.maxInputChars), rest))))))
  }

  function CanonicalText(promptVersion: string, r: Request): string {
    HeaderText(promptVersion, r.settings, SectionsText(r.included))
  }

  // ---------------------------------------------------------------- a decoder

  datatype Cut = Cut(head: string, rest: string)

  function TakeLine(s: string): Option<Cut> {
    if s == "" then None
    else if s[0] == '\n' then Some(Cut("", s[1..]))
    else match TakeLine(s[1..])
      case None => None
      case Some(Cut(head, rest)) => Some(Cut([s[0]] + head, rest))
  }

  /** The shortest prefix of at least `n` UTF-8 bytes. */
  function TakeBytes(s: string, n: nat): Option<Cut> {
    if n == 0 then Some(Cut("", s))
    else if s == "" || Utf8Length(s[0]) > n then None
    else match TakeBytes(s[1..], n - Utf8Length(s[0]))
      case None => None
      case Some(Cut(head, rest)) => Some(Cut([s[0]] + head, rest))
  }

  function DigitValue(c: char): Option<nat> {
    if '0' <= c <= '9' then Some(c as int - '0' as int) else None
  }

  function ReadDecimal(s: string): Option<nat> {
    if s == "" then None
    else if |s| == 1 then DigitValue(s[0])
    else match (ReadDecimal(s[..|s| - 1]), DigitValue(Last(s)))
      case (Some(n), Some(k)) => Some(10 * n + k)
      case _ => None
  }

  /** Reads `name` and the rest of its line. */
  function Field(name: string, s: string): Option<Cut> {
    match TakeLine(s)
    case Some(Cut(line, rest)) => if name <= line then Some(Cut(line[|name|..], rest)) else None
    case None => None
  }

  function DecodeSection(s: string): Option<(Section, string)> {
    match Field("---", s)
    case None => None
    case Some(Cut(_, s1)) =>
      match TakeLine(s1)
      case None => None
      case Some(Cut(version, s2)) =>
        match TakeLine(s2)
        case None => None
        case Some(Cut(digits, s3)) =>
          match ReadDecimal(digits)
          case None => None
          case Some(n) =>
            match TakeBytes(s3, n)
            case None => None
            case Some(Cut(body, s4)) =>
              if s4 != "" && s4[0] == '\n' then Some((Section(version, body), s4[1..])) else None
  }

  function DecodeSections(s: string, fuel: nat): Option<seq<Section>>
    decreases fuel
  {
    if s == "" then Some([])
    else if fuel == 0 then None
    else match DecodeSection(s)
      case None => None
      case Some((sec, rest)) =>
        match DecodeSections(rest, fuel - 1)
        case None => None
        case Some(more) => Some([sec] + more)
  }

  function DecodeHeader(s: string): Option<(string, Settings, string)> {
    match Field("prompt=", s)
    case None => None
    case Some(Cut(prompt, s1)) =>
      match Field("kind=", s1)
      case None => None
      case Some(Cut(kind, s2)) =>
        match Field("lang=", s2)
        case None => None
        case Some(Cut(lang, s3)) =>
          match Field("model=", s3)
          case None => None
          case Some(Cut(model, s4)) =>
            match Field("effort=", s4)
            case None => None
            case Some(Cut(effort, s5)) =>
              match Field("max_input_chars=", s5)
              case None => None
              case Some(Cut(digits, s6)) =>
                match ReadDecimal(digits)
                case None => None
                case Some(n) => Some((prompt, Settings(kind, lang, model, effort, n), s6))
  }

  /** Each section consumes text, so the length of the text is always enough fuel. */
  function Decode(s: string): Option<(string, Request)> {
    match DecodeHeader(s)
    case None => None
    case Some((prompt, settings, rest)) =>
      match DecodeSections(rest, |rest|)
      case None => None
      case Some(included) => Some((prompt, Request(settings, included)))
  }

  // ---------------------------------------------------------------- the round trip

  predicate OneLine(s: string) { '\n' !in s }

  predicate LineSafe(promptVersion: string, r: Request) {
    && OneLine(promptVersion) && OneLine(r.settings.kind) && OneLine(r.settings.lang)
    && OneLine(r.settings.model) && OneLine(r.settings.effort)
    && forall s :: s in r.included ==> OneLine(s.version)
  }

  lemma {:induction false} TakeLineBack(line: string, rest: string)
    requires OneLine(line)
    ensures TakeLine(line + "\n" + rest) == Some(Cut(line, rest))
  {
    if line == "" {
      assert line + "\n" + rest == "\n" + rest;
    } else {
      assert (line + "\n" + rest)[1..] == line[1..] + "\n" + rest;
      TakeLineBack(line[1..], rest);
      assert [line[0]] + line[1..] == line;
    }
  }

  lemma {:induction false} TakeBytesBack(body: string, rest: string)
    ensures TakeBytes(body + rest, Bytes(body)) == Some(Cut(body, rest))
  {
    if body == "" {
      assert body + rest == rest;
    } else {
      assert (body + rest)[1..] == body[1..] + rest;
      TakeBytesBack(body[1..], rest);
      assert [body[0]] + body[1..] == body;
    }
  }

  lemma {:induction false} DecimalBack(n: nat)
    ensures ReadDecimal(Decimal(n)) == Some(n) && OneLine(Decimal(n)) && Decimal(n) != ""
  {
    if n >= 10 {
      DecimalBack(n / 10);
      assert Decimal(n)[..|Decimal(n)| - 1] == Decimal(n / 10);
    }
  }

  lemma FieldBack(name: string, value: string, rest: string)
    requires OneLine(name) && OneLine(value)
    ensures Field(name, Line(name, value, rest)) == Some(Cut(value, rest))
  {
    TakeLineBack(name + value, rest);
    assert (name + value)[|name|..] == value;
  }

  lemma SectionBack(s: Section, rest: string)
    requires OneLine(s.version)
    ensures DecodeSection(SectionText(s) + rest) == Some((s, rest))
  {
    var t4 := "\n" + rest;
    var t3 := s.body + t4;
    var t2 := Decimal(Bytes(s.body)) + "\n" + t3;
    var t1 := s.version + "\n" + t2;
    assert SectionText(s) + rest == Line("---", "", t1);
    FieldBack("---", "", t1);
    TakeLineBack(s.version, t2);
    DecimalBack(Bytes(s.body));
    TakeLineBack(Decimal(Bytes(s.body)), t3);
    TakeBytesBack(s.body, t4);
  }

  lemma SectionNonEmpty(s: Section, rest: string)
    ensures SectionText(s) + rest != ""
  {
  }

  lemma {:induction false} SectionsBack(sections: seq<Section>, fuel: nat)
    requires forall s :: s in sections ==> OneLine(s.version)
    requires |sections| <= fuel
    ensures DecodeSections(SectionsText(sections), fuel) == Some(sections)
    decreases fuel
  {
    hide SectionText, SectionsText, DecodeSection, DecodeSections, OneLine;
    if sections == [] {
      NothingDecodes(fuel);
    } else {
      TextNext(sections);
      var rest := SectionsText(sections[1..]);
      SectionNonEmpty(sections[0], rest);
      SectionBack(sections[0], rest);
      SectionsBack(sections[1..], fuel - 1);
      DecodesNext(SectionText(sections[0]) + rest, fuel, sections[0], rest, sections[1..]);
      assert [sections[0]] + sections[1..] == sections;
    }
  }

  lemma NothingDecodes(fuel: nat)
    ensures DecodeSections(SectionsText([]), fuel) == Some([])
  {
  }

  lemma TextNext(sections: seq<Section>)
    requires sections != []
    ensures SectionsText(sections) == SectionText(sections[0]) + SectionsText(sections[1..])
  {
  }

  lemma DecodesNext(s: string, fuel: nat, first: Section, rest: string, more: seq<Section>)
    requires s != "" && fuel > 0 && DecodeSection(s) == Some((first, rest))
      && DecodeSections(rest, fuel - 1) == Some(more)
    ensures DecodeSections(s, fuel) == Some([first] + more)
  {
    hide DecodeSection;
  }

  lemma {:induction false} SectionsLong(sections: seq<Section>)
    ensures |sections| <= |SectionsText(sections)|
  {
    if sections != [] {
      SectionsLong(sections[1..]);
    }
  }

  lemma HeaderBack(promptVersion: string, h: Settings, rest: string)
    requires OneLine(promptVersion) && OneLine(h.kind) && OneLine(h.lang) && OneLine(h.model) && OneLine(h.effort)
    ensures DecodeHeader(HeaderText(promptVersion, h, rest)) == Some((promptVersion, h, rest))
  {
    hide Line, Field, TakeLine, Decimal, ReadDecimal, OneLine;
    var digits := Decimal(h.maxInputChars);
    DecimalBack(h.maxInputChars);
    var t5 := Line("max_input_chars=", digits, rest);
    var t4 := Line("effort=", h.effort, t5);
    var t3 := Line("model=", h.model, t4);
    var t2 := Line("lang=", h.lang, t3);
    FieldNamesAreOneLine();
    FieldBack("prompt=", promptVersion, Line("kind=", h.kind, t2));
    FieldBack("kind=", h.kind, t2);
    FieldBack("lang=", h.lang, t3);
    FieldBack("model=", h.model, t4);
    FieldBack("effort=", h.effort, t5);
    FieldBack("max_input_chars=", digits, rest);
  }

  lemma FieldNamesAreOneLine()
    ensures OneLine("prompt=") && OneLine("kind=") && OneLine("lang=") && OneLine("model=") && OneLine("effort=")
      && OneLine("max_input_chars=")
  {
  }

  /** Whatever the bodies contain, the canonical text gives back the prompt version, every setting and every section. */
  lemma CanonicalDecodes(promptVersion: string, r: Request)
    requires LineSafe(promptVersion, r)
    ensures Decode(CanonicalText(promptVersion, r)) == Some((promptVersion, r))
  {
    HeaderBack(promptVersion, r.settings, SectionsText(r.included));
    SectionsLong(r.included);
    SectionsBack(r.included, |SectionsText(r.included)|);
  }

  /** Two different requests never share a canonical text. */
  lemma CanonicalIsInjective(v: string, r: Request, w: string, q: Request)
    requires LineSafe(v, r) && LineSafe(w, q) && CanonicalText(v, r) == CanonicalText(w, q)
    ensures v == w && r == q
  {
    CanonicalDecodes(v, r);
    CanonicalDecodes(w, q);
  }

  // ---------------------------------------------------------------- what a fingerprint determines

  const PROMPT_VERSION := "1"

  function ScopeOf(h: Settings): string {
    ("prompt=" + PROMPT_VERSION) + "|" + (("kind=" + h.kind) + "|" + (("lang=" + h.lang) + "|" + ModelPart(h)))
  }

  function ModelPart(h: Settings): string {
    ("model=" + h.model) + "|" + ("effort=" + h.effort) + "|" + ("max_input_chars=" + Decimal(h.maxInputChars))
  }

  function Wanted(included: seq<Section>, hash: string -> string): seq<Ledger.Source> {
    seq(|included|, i requires 0 <= i < |included| => Ledger.Source(included[i].version, hash(included[i].body)))
  }

  function LedgerPlan(r: Request, hash: string -> string): Ledger.Plan {
    Ledger.Plan(ScopeOf(r.settings), Wanted(r.included, hash))
  }

  function Fingerprint(r: Request, hash: string -> string): string { hash(CanonicalText(PROMPT_VERSION, r)) }

  /** With a hash that never collides, one fingerprint stands for one request, hence one scope and one source list. */
  lemma FingerprintDeterminesPlan(r: Request, q: Request, hash: string -> string)
    requires forall s, t :: hash(s) == hash(t) ==> s == t
    requires LineSafe(PROMPT_VERSION, r) && LineSafe(PROMPT_VERSION, q)
    requires Fingerprint(r, hash) == Fingerprint(q, hash)
    ensures r == q && LedgerPlan(r, hash) == LedgerPlan(q, hash)
  {
    CanonicalIsInjective(PROMPT_VERSION, r, PROMPT_VERSION, q);
  }

  /** At the last bar two texts split alike. */
  lemma LastBar(a: string, b: string, c: string, d: string)
    requires a + "|" + b == c + "|" + d && '|' !in b && '|' !in d
    ensures a == c && b == d
  {
    var t := a + "|" + b;
    assert t[|a|] == '|' && t[|c|] == '|';
    assert forall i :: |a| < i < |t| ==> t[i] in b;
    assert forall i :: |c| < i < |t| ==> t[i] in d;
    assert a == t[..|a|] && c == t[..|c|] && b == t[|a| + 1..] && d == t[|c| + 1..];
  }

  /** At the first bar two texts split alike. */
  lemma FirstBar(a: string, b: string, c: string, d: string)
    requires a + "|" + b == c + "|" + d && '|' !in a && '|' !in c
    ensures a == c && b == d
  {
    var t := a + "|" + b;
    assert t[|a|] == '|' && t[|c|] == '|';
    assert forall i :: 0 <= i < |a| ==> t[i] in a;
    assert forall i :: 0 <= i < |c| ==> t[i] in c;
    assert a == t[..|a|] && c == t[..|c|] && b == t[|a| + 1..] && d == t[|c| + 1..];
  }

  lemma TablesHaveNoBars(h: Settings)
    requires Tabled(h)
    ensures '|' !in "prompt=" + PROMPT_VERSION && '|' !in "kind=" + h.kind && '|' !in "lang=" + h.lang
    ensures '|' !in "effort=" + h.effort && '|' !in "max_input_chars=" + Decimal(h.maxInputChars)
  {
    DecimalDigits(h.maxInputChars);
    hide Decimal;
    assert '|' !in h.kind && '|' !in h.lang && '|' !in h.effort;
    assert '|' !in "prompt=" && '|' !in "kind=" && '|' !in "lang=" && '|' !in "effort=" && '|' !in "max_input_chars=";
  }

  lemma {:induction false} DecimalDigits(n: nat)
    ensures forall c :: c in Decimal(n) ==> '0' <= c <= '9'
    ensures Decimal(n) != ""
  {
    if n >= 10 {
      DecimalDigits(n / 10);
    }
  }

  lemma SameValue(name: string, a: string, b: string)
    requires name + a == name + b
    ensures a == b
  {
    assert (name + a)[|name|..] == a && (name + b)[|name|..] == b;
  }

  lemma SameModelPart(h: Settings, k: Settings)
    requires Tabled(h) && Tabled(k) && ModelPart(h) == ModelPart(k)
    ensures h.model == k.model && h.effort == k.effort && h.maxInputChars == k.maxInputChars
  {
    hide Decimal, Tabled, ReadDecimal;
    TablesHaveNoBars(h);
    TablesHaveNoBars(k);
    LastBar(("model=" + h.model) + "|" + ("effort=" + h.effort), "max_input_chars=" + Decimal(h.maxInputChars),
            ("model=" + k.model) + "|" + ("effort=" + k.effort), "max_input_chars=" + Decimal(k.maxInputChars));
    LastBar("model=" + h.model, "effort=" + h.effort, "model=" + k.model, "effort=" + k.effort);
    SameValue("model=", h.model, k.model);
    SameValue("effort=", h.effort, k.effort);
    SameValue("max_input_chars=", Decimal(h.maxInputChars), Decimal(k.maxInputChars));
    DecimalBack(h.maxInputChars);
    DecimalBack(k.maxInputChars);
  }

  /** The scope of a job gives back all its settings, whatever the model contains. */
  lemma ScopeIsInjective(h: Settings, k: Settings)
    requires Tabled(h) && Tabled(k)
    ensures ScopeOf(h) == ScopeOf(k) <==> h == k
  {
    hide ModelPart, Tabled;
    if ScopeOf(h) == ScopeOf(k) {
      TablesHaveNoBars(h);
      TablesHaveNoBars(k);
      var (l, l') := (("lang=" + h.lang) + "|" + ModelPart(h), ("lang=" + k.lang) + "|" + ModelPart(k));
      var prompt := "prompt=" + PROMPT_VERSION;
      FirstBar(prompt, ("kind=" + h.kind) + "|" + l, prompt, ("kind=" + k.kind) + "|" + l');
      FirstBar("kind=" + h.kind, l, "kind=" + k.kind, l');
      FirstBar("lang=" + h.lang, ModelPart(h), "lang=" + k.lang, ModelPart(k));
      SameValue("kind=", h.kind, k.kind);
      SameValue("lang=", h.lang, k.lang);
      SameModelPart(h, k);
    }
  }

  /** A job that covers a request was made with its settings, from exactly the requested text of every version. */
  lemma CoverageIsByText(r: Request, q: Request, hash: string -> string, job: Ledger.Job)
    requires forall s, t :: hash(s) == hash(t) ==> s == t
    requires Tabled(r.settings) && Tabled(q.settings)
    requires job.source == Wanted(q.included, hash) && job.scope == ScopeOf(q.settings)
    requires Ledger.Covers(job, LedgerPlan(r, hash))
    ensures r.settings == q.settings
    ensures forall s :: s in r.included ==> s in q.included
  {
    hide ScopeOf, Tabled;
    ScopeIsInjective(r.settings, q.settings);
    var want := Wanted(r.included, hash);
    forall s | s in r.included ensures s in q.included {
      var i :| 0 <= i < |r.included| && r.included[i] == s;
      assert want[i] in want;
      assert want[i] in job.source;
      var k :| 0 <= k < |job.source| && job.source[k] == want[i];
      assert q.included[k] == s;
    }
  }
}
