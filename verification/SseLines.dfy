/**
  What one line of the stream says, by its characters, and what a stream that fails or breaks off reports.
*/
module SseLines {
  import opened Prelude
  import opened ByteLines
  import opened SseEvents
  import opened SseMeaning

  predicate AllWhite(s: string) { forall c :: c in s ==> UnicodeSpace(c) }

  predicate Bare(s: string) { s != "" ==> !UnicodeSpace(s[0]) && !UnicodeSpace(Last(s)) }

  lemma {:induction false} TrimEndOf(s: string, b: string)
    requires AllWhite(b) && (s != "" ==> !UnicodeSpace(Last(s)))
    ensures TrimEnd(s + b) == s
  {
    if b == "" {
      assert s + b == s;
    } else {
      assert (s + b)[..|s + b| - 1] == s + b[..|b| - 1] && Last(s + b) == Last(b);
      assert Last(b) in b && forall c :: c in b[..|b| - 1] ==> c in b;
      TrimEndOf(s, b[..|b| - 1]);
    }
  }

  lemma {:induction false} TrimStartOf(a: string, s: string)
    requires AllWhite(a) && (s != "" ==> !UnicodeSpace(s[0]))
    ensures TrimStart(a + s) == s
  {
    if a == "" {
      assert a + s == s;
    } else {
      assert (a + s)[1..] == a[1..] + s;
      assert a[0] in a && forall c :: c in a[1..] ==> c in a;
      TrimStartOf(a[1..], s);
    }
  }

  /** A line that is not UTF-8 has no event, and one that does not start with `data:` is passed over. */
  lemma OtherLines(r: Reader, line: seq<Byte>)
    ensures r.decode(line).None? ==> EventOf(r, line).None?
    ensures r.decode(line).Some? && !("data:" <= r.decode(line).value) ==> EventOf(r, line) == Some(Ignored)
  {
    if r.decode(line).Some? {
      TrimEndIsPrefix(r.decode(line).value);
    }
  }

  lemma {:induction false} TrimEndIsPrefix(s: string)
    ensures TrimEnd(s) <= s
  {
    if s != "" && UnicodeSpace(Last(s)) {
      TrimEndIsPrefix(s[..|s| - 1]);
    }
  }

  /** On a `data:` line the event is that of the text between the blanks after the colon and those at the end. */
  lemma DataLine(r: Reader, line: seq<Byte>, a: string, json: string, b: string)
    requires r.decode(line) == Some("data:" + a + json + b) && AllWhite(a) && AllWhite(b) && Bare(json)
    ensures EventOf(r, line) == r.parse(json)
  {
    var s := "data:" + a + json + b;
    if json == "" {
      assert s == "data:" + (a + b) && Last("data:") == ':';
      assert forall c :: c in a + b ==> c in a || c in b;
      TrimEndOf("data:", a + b);
      assert TrimEnd(s)[5..] == "";
    } else {
      var t := "data:" + a + json;
      assert Last(t) == Last(json);
      TrimEndOf(t, b);
      assert t[5..] == a + json;
      TrimStartOf(a, json);
    }
  }

  lemma {:induction false} WhiteStart(s: string) returns (a: string, rest: string)
    ensures s == a + rest && AllWhite(a) && (rest != "" ==> !UnicodeSpace(rest[0]))
  {
    hide UnicodeSpace;
    if s != "" && UnicodeSpace(s[0]) {
      a, rest := WhiteStart(s[1..]);
      assert s == [s[0]] + s[1..] == [s[0]] + a + rest;
      a := [s[0]] + a;
    } else {
      a, rest := "", s;
    }
  }

  lemma {:induction false} WhiteEnd(s: string) returns (rest: string, b: string)
    ensures s == rest + b && AllWhite(b) && (rest != "" ==> !UnicodeSpace(Last(rest)))
  {
    hide UnicodeSpace;
    if s != "" && UnicodeSpace(Last(s)) {
      rest, b := WhiteEnd(s[..|s| - 1]);
      assert s == s[..|s| - 1] + [Last(s)] == rest + (b + [Last(s)]);
      b := b + [Last(s)];
    } else {
      rest, b := s, "";
    }
  }

  /** Every `data:` line is of that form. */
  lemma DataLineParts(s: string) returns (a: string, json: string, b: string)
    requires "data:" <= s
    ensures s == "data:" + a + json + b && AllWhite(a) && AllWhite(b) && Bare(json)
  {
    hide UnicodeSpace, AllWhite;
    var rest;
    a, rest := WhiteStart(s[5..]);
    json, b := WhiteEnd(rest);
    assert s == "data:" + s[5..] == "data:" + (a + (json + b));
    assert json != "" ==> json[0] == rest[0];
  }

  // ---------------------------------------------------------------- failing

  /** A line that fails the stream: it cannot be read, or is an error or a delta without its text. */
  predicate Breaks(r: Reader, line: seq<Byte>) {
    EventOf(r, line).None? || Fails(EventOf(r, line).value)
  }

  /** The usage is the last known value of each field. */
  ghost predicate UsageIs(usage: Option<Usage>, events: seq<Event>) {
    forall f :: Get(usage, f) == LastKnown(events, f)
  }

  /** Reading fails at the first line that breaks, and reports the usage known before it. */
  lemma {:induction false} FailsAtTheFirst(r: Reader, lines: seq<seq<Byte>>) returns (k: nat, events: seq<Event>)
    requires Process(r, EMPTY, lines).Err?
    ensures k < |lines| && Breaks(r, lines[k]) && Reads(r, lines[..k], events)
    ensures forall j :: 0 <= j < k ==> !Breaks(r, lines[j])
    ensures UsageIs(Process(r, EMPTY, lines).failure.usage, events)
  {
    hide EventOf, Apply, Get, LastKnown, Breaks;
    var before, line := lines[..|lines| - 1], Last(lines);
    assert lines == before + [line];
    ProcessAppend(r, EMPTY, before, [line]);
    match Process(r, EMPTY, before)
    case Err(_) =>
      k, events := FailsAtTheFirst(r, before);
      assert before[..k] == lines[..k];
    case Ok(q) =>
      k := |before|;
      events := ReportsTheEvents(r, before);
      OneLineRead(r, q, line);
      FailedApply(r, q, line);
      GoodLines(r, before, events);
  }

  lemma FailedApply(r: Reader, q: Progress, line: seq<Byte>)
    requires Apply(q, EventOf(r, line)).Err?
    ensures Breaks(r, line) && Apply(q, EventOf(r, line)).failure.usage == q.usage
  {
    hide EventOf;
  }

  lemma GoodLines(r: Reader, lines: seq<seq<Byte>>, events: seq<Event>)
    requires Reads(r, lines, events) && forall e :: e in events ==> !Fails(e)
    ensures forall j :: 0 <= j < |lines| ==> !Breaks(r, lines[j])
  {
    hide EventOf;
    forall j | 0 <= j < |lines| ensures !Breaks(r, lines[j]) {
      assert events[j] in events;
    }
  }

  /** A line that does not break never fails the stream. */
  lemma {:induction false} GoodLinesAreRead(r: Reader, p: Progress, lines: seq<seq<Byte>>)
    requires forall j :: 0 <= j < |lines| ==> !Breaks(r, lines[j])
    ensures Process(r, p, lines).Ok?
    decreases |lines|
  {
    hide EventOf;
    if lines != [] {
      assert !Breaks(r, lines[0]);
      match Apply(p, EventOf(r, lines[0]))
      case Ok(q) =>
        assert forall j :: 0 <= j < |lines| - 1 ==> lines[1..][j] == lines[j + 1];
        GoodLinesAreRead(r, q, lines[1..]);
      case Err(_) =>
    }
  }

  /** A stream that ends before a message_stop is an error that reports the usage known by then. */
  lemma BrokenOffReportsUsage(r: Reader, chunks: seq<seq<Byte>>) returns (events: seq<Event>)
    requires forall k :: 0 <= k <= |chunks| ==> Open(r, Flat(chunks[..k]))
    ensures Reads(r, Lines(Flat(chunks)), events) && MessageStop !in events
    ensures Completed(r, State(EMPTY, []), chunks).Err?
    ensures UsageIs(Completed(r, State(EMPTY, []), chunks).failure.usage, events)
  {
    hide EventOf, Apply, Get, LastKnown;
    StartsOpen(r);
    var k := CompletedStopsThere(r, [], chunks);
    assert [] + Flat(chunks[..k]) == Flat(chunks[..k]) && chunks[..|chunks|] == chunks;
    assert k == |chunks|;
    assert Open(r, Flat(chunks[..k]));
    events := ReportsTheEvents(r, Lines(Flat(chunks)));
  }
}
