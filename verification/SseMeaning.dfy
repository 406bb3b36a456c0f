/**
  The stream parser means the same whatever the chunks: it refines the line-by-line reading of the
  whole input, and what it reports is read off the events.  The loop that stops at a finished message
  is chunk-independent exactly when nothing after the message matters.
*/
module SseMeaning {
  import opened Prelude
  import opened ByteLines
  import opened SseEvents

  // ---------------------------------------------------------------- one call, many calls

  lemma {:induction false} ProcessAppend(r: Reader, p: Progress, a: seq<seq<Byte>>, b: seq<seq<Byte>>)
    decreases |a|
    ensures Process(r, p, a + b) == match Process(r, p, a) case Ok(q) => Process(r, q, b) case Err(f) => Err(f)
  {
    hide Apply, EventOf;
    if a == [] {
      assert a + b == b;
    } else {
      assert (a + b)[1..] == a[1..] + b;
      match Apply(p, EventOf(r, a[0]))
      case Ok(q) => ProcessAppend(r, q, a[1..], b);
      case Err(_) =>
    }
  }

  lemma {:induction false} DrainIsProcess(r: Reader, s: State)
    ensures match Process(r, s.progress, Lines(s.pending))
            case Ok(p) => Drain(r, s) == Fed(State(p, Tail(s.pending)), None)
            case Err(f) => Drain(r, s).failure == Some(f)
    decreases |s.pending|
  {
    hide Apply, EventOf, Lines, Tail;
    var line, rest := LinesSplit(s.pending);
    if FirstNewline(s.pending) < |s.pending| {
      LinesCons(line, rest);
      assert s.pending[..FirstNewline(s.pending) + 1] == line && s.pending[FirstNewline(s.pending) + 1..] == rest;
      assert Lines(s.pending)[1..] == Lines(rest);
      match Apply(s.progress, EventOf(r, line))
      case Ok(p) => DrainIsProcess(r, State(p, rest));
      case Err(_) =>
    }
  }

  /** One chunk after another, to the first failure. */
  function FeedAll(r: Reader, s: State, chunks: seq<seq<Byte>>): Fed
    decreases |chunks|
  {
    if chunks == [] then Fed(s, None)
    else
      var fed := Drain(r, s.(pending := s.pending + chunks[0]));
      if fed.failure.Some? then fed else FeedAll(r, fed.state, chunks[1..])
  }

  predicate Agrees(fed: Fed, m: Result<State>) {
    match m
    case Ok(s) => fed == Fed(s, None)
    case Err(f) => fed.failure == Some(f)
  }

  /** A chunk takes the meaning of what came before to the meaning of it all. */
  lemma ChunkExtends(r: Reader, read: seq<Byte>, chunk: seq<Byte>)
    requires Meaning(r, read).Ok?
    ensures var s := Meaning(r, read).value;
      Agrees(Drain(r, s.(pending := s.pending + chunk)), Meaning(r, read + chunk))
  {
    var s := Meaning(r, read).value;
    LinesAppend(read, chunk);
    ProcessAppend(r, EMPTY, Lines(read), Lines(Tail(read) + chunk));
    DrainIsProcess(r, s.(pending := s.pending + chunk));
  }

  lemma {:induction false} FailureIsFinal(r: Reader, read: seq<Byte>, more: seq<Byte>)
    requires Meaning(r, read).Err?
    ensures Meaning(r, read + more) == Meaning(r, read)
  {
    LinesAppend(read, more);
    ProcessAppend(r, EMPTY, Lines(read), Lines(Tail(read) + more));
  }

  lemma {:induction false} FeedAllMeans(r: Reader, read: seq<Byte>, chunks: seq<seq<Byte>>)
    requires Meaning(r, read).Ok?
    ensures Agrees(FeedAll(r, Meaning(r, read).value, chunks), Meaning(r, read + Flat(chunks)))
    decreases |chunks|
  {
    hide Meaning, Drain;
    if chunks == [] {
      assert read + Flat(chunks) == read;
    } else {
      ChunkExtends(r, read, chunks[0]);
      var now := read + chunks[0];
      assert read + Flat(chunks) == now + Flat(chunks[1..]);
      if Meaning(r, now).Ok? {
        FeedAllMeans(r, now, chunks[1..]);
      } else {
        FailureIsFinal(r, now, Flat(chunks[1..]));
      }
    }
  }

  /**
    However an input is cut into chunks, feeding them leaves the text, model, stop, usage, done flag and
    unfinished line of the whole input, or stops at the same first failure.
  */
  lemma ChunksDoNotMatter(r: Reader, chunks: seq<seq<Byte>>)
    ensures Agrees(FeedAll(r, State(EMPTY, []), chunks), Meaning(r, Flat(chunks)))
  {
    assert Lines([]) == [] && Meaning(r, []) == Ok(State(EMPTY, []));
    FeedAllMeans(r, [], chunks);
    assert [] + Flat(chunks) == Flat(chunks);
  }

  // ---------------------------------------------------------------- what is reported

  /** The events of some lines, all readable. */
  predicate Reads(r: Reader, lines: seq<seq<Byte>>, events: seq<Event>) {
    |events| == |lines| && forall i :: 0 <= i < |lines| ==> EventOf(r, lines[i]) == Some(events[i])
  }

  function DeltaOf(e: Event): string { if e.TextDelta? && e.text.Some? then e.text.value else "" }

  function TextOf(events: seq<Event>): string {
    if events == [] then ""
    else TextOf(events[..|events| - 1]) + DeltaOf(Last(events))
  }

  datatype Field = Input | Output | CacheCreation | CacheRead

  function Get(u: Option<Usage>, f: Field): Option<int> {
    if u.None? then None
    else match f
      case Input => u.value.input
      case Output => u.value.output
      case CacheCreation => u.value.cacheCreation
      case CacheRead => u.value.cacheRead
  }

  /** The last value of a field since the last message_start, whose own output count does not count. */
  function LastKnown(events: seq<Event>, f: Field): Option<int> {
    if events == [] then None
    else match Last(events)
      case MessageStart(_, u) => if f.Output? then None else Get(u, f)
      case MessageDelta(_, u) => if Get(u, f).Some? then Get(u, f) else LastKnown(events[..|events| - 1], f)
      case _ => LastKnown(events[..|events| - 1], f)
  }

  function LastStop(events: seq<Event>): Option<string> {
    if events == [] then None
    else if Last(events).MessageDelta? && Last(events).stop.Some? then Last(events).stop
    else LastStop(events[..|events| - 1])
  }

  function LastModel(events: seq<Event>): Option<string> {
    if events == [] then None
    else if Last(events).MessageStart? then Last(events).model
    else LastModel(events[..|events| - 1])
  }

  predicate Fails(e: Event) { e.ErrorEvent? || (e.TextDelta? && e.text.None?) }

  /**
    The outcome read off the events: every line is readable and none is an error, the text is its
    deltas in order, each usage field its last known value, the stop reason the last given, and the
    stream is done exactly when a message_stop came.
  */
  lemma {:induction false} ReportsTheEvents(r: Reader, lines: seq<seq<Byte>>) returns (events: seq<Event>)
    requires Process(r, EMPTY, lines).Ok?
    ensures Reads(r, lines, events) && forall e :: e in events ==> !Fails(e)
    ensures var p := Process(r, EMPTY, lines).value;
      && p.text == TextOf(events) && p.stop == LastStop(events) && p.model == LastModel(events)
      && (p.done <==> MessageStop in events)
      && forall f :: Get(p.usage, f) == LastKnown(events, f)
  {
    if lines == [] {
      return [];
    }
    hide EventOf, Apply, TextOf, LastStop, LastModel, LastKnown, Get;
    var before, line := lines[..|lines| - 1], Last(lines);
    assert lines == before + [line];
    ProcessAppend(r, EMPTY, before, [line]);
    var known := ReportsTheEvents(r, before);
    var q := Process(r, EMPTY, before).value;
    OneLineRead(r, q, line);
    var e := EventOf(r, line).value;
    events := known + [e];
    AppliedReports(q, e, known);
  }

  lemma OneLineRead(r: Reader, q: Progress, line: seq<Byte>)
    ensures Process(r, q, [line]) == Apply(q, EventOf(r, line))
    ensures Process(r, q, [line]).Ok? ==> EventOf(r, line).Some? && !Fails(EventOf(r, line).value)
  {
    hide EventOf;
    assert [line][1..] == [];
  }

  lemma AppliedReports(q: Progress, e: Event, known: seq<Event>)
    requires Apply(q, Some(e)).Ok?
    requires q.text == TextOf(known) && q.stop == LastStop(known) && q.model == LastModel(known)
    requires (q.done <==> MessageStop in known) && forall f :: Get(q.usage, f) == LastKnown(known, f)
    ensures var p, events := Apply(q, Some(e)).value, known + [e];
      && p.text == TextOf(events) && p.stop == LastStop(events) && p.model == LastModel(events)
      && (p.done <==> MessageStop in events)
      && forall f :: Get(p.usage, f) == LastKnown(events, f)
  {
    hide Apply, TextOf, LastStop, LastModel, LastKnown, Get;
    AppliedRest(q, e, known);
    forall f ensures Get(Apply(q, Some(e)).value.usage, f) == LastKnown(known + [e], f) {
      AppliedUsage(q, e, known, f);
    }
  }

  lemma AppliedRest(q: Progress, e: Event, known: seq<Event>)
    requires Apply(q, Some(e)).Ok?
    requires q.text == TextOf(known) && q.stop == LastStop(known) && q.model == LastModel(known)
    requires q.done <==> MessageStop in known
    ensures var p, events := Apply(q, Some(e)).value, known + [e];
      && p.text == TextOf(events) && p.stop == LastStop(events) && p.model == LastModel(events)
      && (p.done <==> MessageStop in events)
  {
    hide Merge, Provisional;
    var events := known + [e];
    assert events[..|known|] == known && Last(events) == e;
    assert q.text + "" == q.text;
  }

  lemma AppliedUsage(q: Progress, e: Event, known: seq<Event>, f: Field)
    requires Apply(q, Some(e)).Ok? && Get(q.usage, f) == LastKnown(known, f)
    ensures Get(Apply(q, Some(e)).value.usage, f) == LastKnown(known + [e], f)
  {
    assert (known + [e])[..|known|] == known;
  }

  // ---------------------------------------------------------------- stopping at message_stop

  function Outcome(m: Result<State>): Result<Progress> {
    match m
    case Ok(s) => Closed(s.progress)
    case Err(f) => Err(f)
  }

  /** Reading goes on after this much input. */
  predicate Open(r: Reader, read: seq<Byte>) { Meaning(r, read).Ok? && !Meaning(r, read).value.progress.done }

  /** The outcome is that of the chunks up to the first that fails or finishes the message, and no more. */
  lemma {:induction false} CompletedStopsThere(r: Reader, read: seq<Byte>, chunks: seq<seq<Byte>>) returns (k: nat)
    requires Open(r, read)
    ensures k <= |chunks|
      && Completed(r, Meaning(r, read).value, chunks) == Outcome(Meaning(r, read + Flat(chunks[..k])))
    ensures k == |chunks| || !Open(r, read + Flat(chunks[..k]))
    decreases |chunks|
  {
    hide Meaning, Drain;
    if chunks == [] {
      assert read + Flat(chunks[..0]) == read;
      k := 0;
    } else {
      ChunkExtends(r, read, chunks[0]);
      var now := read + chunks[0];
      if Open(r, now) {
        var j := CompletedStopsThere(r, now, chunks[1..]);
        k := j + 1;
        assert chunks[..k][1..] == chunks[1..][..j];
        assert read + Flat(chunks[..k]) == now + Flat(chunks[1..][..j]);
      } else {
        k := 1;
        assert chunks[..1][1..] == [];
        assert read + Flat(chunks[..1]) == now;
      }
    }
  }

  /** Every line after the message has stopped leaves the outcome alone. */
  predicate QuietAfterStop(r: Reader, b: seq<Byte>) {
    forall n :: 0 <= n < |Lines(b)| ==> QuietAt(r, Lines(b), n)
  }

  predicate QuietAt(r: Reader, lines: seq<seq<Byte>>, n: nat)
    requires n < |lines|
  {
    match Process(r, EMPTY, lines[..n])
    case Ok(p) => p.done ==> Apply(p, EventOf(r, lines[n])) == Ok(p)
    case Err(_) => true
  }

  ghost predicate ChunkIndependent(r: Reader, b: seq<Byte>) {
    forall chunks :: Flat(chunks) == b ==> Completed(r, State(EMPTY, []), chunks) == Outcome(Meaning(r, b))
  }

  lemma StartsOpen(r: Reader)
    ensures Open(r, []) && Meaning(r, []) == Ok(State(EMPTY, []))
  {
  }

  lemma {:induction false} QuietLines(r: Reader, lines: seq<seq<Byte>>, n: nat)
    requires n <= |lines| && Process(r, EMPTY, lines[..n]).Ok? && Process(r, EMPTY, lines[..n]).value.done
    requires forall k :: n <= k < |lines| ==> QuietAt(r, lines, k)
    ensures Process(r, EMPTY, lines) == Process(r, EMPTY, lines[..n])
    decreases |lines| - n
  {
    if n == |lines| {
      assert lines[..n] == lines;
    } else {
      assert QuietAt(r, lines, n);
      assert lines[..n + 1] == lines[..n] + [lines[n]];
      assert [lines[n]][1..] == [];
      ProcessAppend(r, EMPTY, lines[..n], [lines[n]]);
      QuietLines(r, lines, n + 1);
    }
  }

  lemma QuietIsIndependent(r: Reader, b: seq<Byte>)
    requires QuietAfterStop(r, b)
    ensures ChunkIndependent(r, b)
  {
    forall chunks | Flat(chunks) == b ensures Completed(r, State(EMPTY, []), chunks) == Outcome(Meaning(r, b)) {
      StartsOpen(r);
      var k := CompletedStopsThere(r, [], chunks);
      var read, more := Flat(chunks[..k]), Flat(chunks[k..]);
      FlatSplit(chunks, k);
      assert [] + read == read && read + more == b;
      if k == |chunks| {
        assert chunks[..k] == chunks;
      } else if Meaning(r, read).Err? {
        FailureIsFinal(r, read, more);
      } else {
        LinesAppend(read, more);
        assert Lines(b)[..|Lines(read)|] == Lines(read);
        QuietLines(r, Lines(b), |Lines(read)|);
      }
    }
  }

  lemma IndependentIsQuiet(r: Reader, b: seq<Byte>, n: nat)
    requires ChunkIndependent(r, b) && n < |Lines(b)|
    ensures QuietAt(r, Lines(b), n)
  {
    var lines := Lines(b);
    match Process(r, EMPTY, lines[..n])
    case Err(_) =>
    case Ok(p) =>
      if p.done {
        assert lines[..n + 1] == lines[..n] + [lines[n]];
        assert [lines[n]][1..] == [];
        ProcessAppend(r, EMPTY, lines[..n], [lines[n]]);
        CutAfter(r, b, n);
        CutAfter(r, b, n + 1);
      }
  }

  /** Cut right after `n` lines: if the message is over by then, that is the outcome. */
  lemma CutAfter(r: Reader, b: seq<Byte>, n: nat)
    requires ChunkIndependent(r, b) && n <= |Lines(b)|
    requires Process(r, EMPTY, Lines(b)[..n]).Ok? ==> Process(r, EMPTY, Lines(b)[..n]).value.done
    ensures Outcome(Meaning(r, b)) == match Process(r, EMPTY, Lines(b)[..n]) case Ok(p) => Ok(p) case Err(f) => Err(f)
  {
    hide Lines, Process, Drain, Apply;
    var after := LinesPrefix(b, n);
    var head := Flat(Lines(b)[..n]);
    var chunks := [head, after];
    FlatTwo(head, after);
    StartsOpen(r);
    ChunkExtends(r, [], head);
    assert [] + head == head;
    assert chunks[0] == head;
  }

  /**
    The client's loop gives one answer for every way of cutting the stream exactly when, after the
    message has stopped, every further line is one that changes nothing.
  */
  lemma IndependentIffQuiet(r: Reader, b: seq<Byte>)
    ensures ChunkIndependent(r, b) <==> QuietAfterStop(r, b)
  {
    if QuietAfterStop(r, b) {
      QuietIsIndependent(r, b);
    }
    if ChunkIndependent(r, b) {
      forall n | 0 <= n < |Lines(b)| ensures QuietAt(r, Lines(b), n) {
        IndependentIsQuiet(r, b, n);
      }
    }
  }

  /**
    For any reader, an error event in the line after the end of the message: the answer depends on the
    cut, for the error is seen only if it shares a chunk with the end.
  */
  lemma LateErrorDependsOnTheCut(r: Reader, first: seq<Byte>, second: seq<Byte>)
    requires IsLine(first) && IsLine(second)
    requires EventOf(r, first) == Some(MessageStop) && EventOf(r, second) == Some(ErrorEvent)
    ensures !ChunkIndependent(r, first + second)
  {
    hide EventOf;
    LinesCons(first, second);
    LinesCons(second, []);
    assert second + [] == second && Lines([]) == [];
    var lines := Lines(first + second);
    assert lines == [first, second];
    assert lines[..1] == [first] && [first][1..] == [];
    var over := EMPTY.(done := true);
    assert Process(r, over, []) == Ok(over);
    assert Process(r, EMPTY, [first]) == Ok(over);
    assert !QuietAt(r, lines, 1);
    IndependentIffQuiet(r, first + second);
  }
}
