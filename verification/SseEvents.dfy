/**
  The event stream of a Messages response, read in whatever chunks the network delivers.  Only single
  `data:` lines matter (a subset of section 9.2 of the WHATWG HTML Living Standard).  Decoding a line
  as UTF-8 and parsing its JSON are parameters.
*/
module SseEvents {
  import opened Prelude
  import opened ByteLines

  datatype Usage = Usage(input: Option<int>, output: Option<int>, cacheCreation: Option<int>, cacheRead: Option<int>)

  /** `TextDelta` and the two usages may be missing from the JSON. */
  datatype Event =
    | MessageStart(model: Option<string>, usage: Option<Usage>)
    | TextDelta(text: Option<string>)
    | MessageDelta(stop: Option<string>, usage: Option<Usage>)
    | MessageStop
    | ErrorEvent
    | Ignored

  /** `decode` is UTF-8; `parse` is the JSON of one event, None where it is not JSON. */
  datatype Reader = Reader(decode: seq<Byte> -> Option<string>, parse: string -> Option<Event>)

  /** What has been read so far, apart from an unfinished line. */
  datatype Progress = Progress(text: string, model: Option<string>, stop: Option<string>, usage: Option<Usage>,
                               done: bool)

  const EMPTY := Progress("", None, None, None, false)

  /** A 502 with whatever usage is known. */
  datatype Failure = Failure(usage: Option<Usage>)

  datatype Result<T> = Ok(value: T) | Err(failure: Failure)

  // ---------------------------------------------------------------- one line

  function TrimEnd(s: string): string {
    if s != "" && UnicodeSpace(Last(s)) then TrimEnd(s[..|s| - 1]) else s
  }

  function TrimStart(s: string): string {
    if s != "" && UnicodeSpace(s[0]) then TrimStart(s[1..]) else s
  }

  const DATA := "data:"

  /** The event on a line: none readable, or `Ignored` where the line is not a `data:` line. */
  function EventOf(r: Reader, line: seq<Byte>): Option<Event> {
    match r.decode(line)
    case None => None
    case Some(s) =>
      var t := TrimEnd(s);
      if DATA <= t then r.parse(TrimStart(t[|DATA|..])) else Some(Ignored)
  }

  function Newer(known: Option<int>, update: Option<int>): Option<int> { if update.Some? then update else known }

  function Merge(known: Option<Usage>, update: Option<Usage>): Option<Usage> {
    match (known, update)
    case (_, None) => known
    case (None, _) => update
    case (Some(k), Some(u)) =>
      Some(Usage(Newer(k.input, u.input), Newer(k.output, u.output), Newer(k.cacheCreation, u.cacheCreation),
                 Newer(k.cacheRead, u.cacheRead)))
  }

  /** The output count of a message_start is provisional. */
  function Provisional(u: Option<Usage>): Option<Usage> {
    if u.Some? then Some(u.value.(output := None)) else None
  }

  function Apply(p: Progress, e: Option<Event>): Result<Progress> {
    match e
    case None => Err(Failure(p.usage))
    case Some(ErrorEvent) => Err(Failure(p.usage))
    case Some(MessageStart(model, usage)) => Ok(p.(model := model, usage := Provisional(usage)))
    case Some(TextDelta(text)) => if text.Some? then Ok(p.(text := p.text + text.value)) else Err(Failure(p.usage))
    case Some(MessageDelta(stop, usage)) =>
      Ok(p.(stop := if stop.Some? then stop else p.stop, usage := Merge(p.usage, usage)))
    case Some(MessageStop) => Ok(p.(done := true))
    case Some(Ignored) => Ok(p)
  }

  // ---------------------------------------------------------------- the whole input

  function Process(r: Reader, p: Progress, lines: seq<seq<Byte>>): Result<Progress>
    decreases |lines|
  {
    if lines == [] then Ok(p)
    else match Apply(p, EventOf(r, lines[0]))
      case Ok(p') => Process(r, p', lines[1..])
      case Err(f) => Err(f)
  }

  datatype State = State(progress: Progress, pending: seq<Byte>)

  /** The meaning of a stream: its complete lines in order, up to the first that fails. */
  function Meaning(r: Reader, b: seq<Byte>): Result<State> {
    match Process(r, EMPTY, Lines(b))
    case Ok(p) => Ok(State(p, Tail(b)))
    case Err(f) => Err(f)
  }

  /** What one call leaves: the state with the lines it took drained, and the failure it stopped at. */
  datatype Fed = Fed(state: State, failure: Option<Failure>)

  function Drain(r: Reader, s: State): Fed
    decreases |s.pending|
  {
    var end := FirstNewline(s.pending);
    if end == |s.pending| then Fed(s, None)
    else match Apply(s.progress, EventOf(r, s.pending[..end + 1]))
      case Ok(p) => Drain(r, State(p, s.pending[end + 1..]))
      case Err(f) => Fed(s.(pending := s.pending[end + 1..]), Some(f))
  }

  // ---------------------------------------------------------------- the parser

  class Events {
    var pending: seq<Byte>
    var text: string
    var model: Option<string>
    var stop: Option<string>
    var usage: Option<Usage>
    var done: bool

    constructor ()
      ensures Now() == State(EMPTY, [])
    {
      pending, text, model, stop, usage, done := [], "", None, None, None, false;
    }

    function Now(): State
      reads this
    {
      State(Progress(text, model, stop, usage, done), pending)
    }

    method Feed(r: Reader, bytes: seq<Byte>) returns (failure: Option<Failure>)
      modifies this
      ensures Fed(Now(), failure) == Drain(r, old(Now()).(pending := old(pending) + bytes))
    {
      hide Apply, EventOf;
      pending := pending + bytes;
      var end := FirstNewline(pending);
      while end < |pending|
        invariant end == FirstNewline(pending)
        invariant Drain(r, Now()) == Drain(r, old(Now()).(pending := old(pending) + bytes))
        decreases |pending|
      {
        var line := pending[..end + 1];
        pending := pending[end + 1..];
        failure := Take(EventOf(r, line));
        if failure.Some? {
          return;
        }
        end := FirstNewline(pending);
      }
      failure := None;
    }

    /** One event; a failure leaves everything as it was. */
    method Take(event: Option<Event>) returns (failure: Option<Failure>)
      modifies this`text, this`model, this`stop, this`usage, this`done
      ensures match Apply(old(Now()).progress, event)
              case Ok(p) => failure.None? && Now() == old(Now()).(progress := p)
              case Err(f) => failure == Some(f) && Now() == old(Now())
    {
      if event.None? {
        return Some(Failure(usage));
      }
      match event.value {
        case MessageStart(m, u) =>
          model := m;
          usage := u;
          if usage.Some? {
            usage := Some(usage.value.(output := None));
          }
        case TextDelta(t) =>
          if t.None? {
            return Some(Failure(usage));
          }
          text := text + t.value;
        case MessageDelta(s, delta) =>
          if s.Some? {
            stop := s;
          }
          if delta.Some? {
            MergeUsage(delta.value);
          }
        case MessageStop =>
          done := true;
        case ErrorEvent =>
          return Some(Failure(usage));
        case Ignored =>
      }
      failure := None;
    }

    method MergeUsage(delta: Usage)
      modifies this`usage
      ensures usage == Merge(old(usage), Some(delta))
    {
      if usage.Some? {
        var u := usage.value;
        if delta.input.Some? {
          u := u.(input := delta.input);
        }
        if delta.output.Some? {
          u := u.(output := delta.output);
        }
        if delta.cacheCreation.Some? {
          u := u.(cacheCreation := delta.cacheCreation);
        }
        if delta.cacheRead.Some? {
          u := u.(cacheRead := delta.cacheRead);
        }
        usage := Some(u);
      } else {
        usage := Some(delta);
      }
    }

    /** The end of the stream is not completion: only a `message_stop` is. */
    method Finish() returns (r: Result<Progress>)
      ensures r == Closed(Now().progress)
    {
      if !done {
        return Err(Failure(usage));
      }
      r := Ok(Now().progress);
    }
  }

  function Closed(p: Progress): Result<Progress> { if p.done then Ok(p) else Err(Failure(p.usage)) }

  /** Reads chunks until the connection ends, a call fails, or the message has stopped. */
  method CompleteStream(r: Reader, chunks: seq<seq<Byte>>) returns (outcome: Result<Progress>)
    ensures outcome == Completed(r, State(EMPTY, []), chunks)
  {
    var events := new Events();
    var i := 0;
    while i < |chunks|
      invariant 0 <= i <= |chunks|
      invariant Completed(r, events.Now(), chunks[i..]) == Completed(r, State(EMPTY, []), chunks)
    {
      var failure := events.Feed(r, chunks[i]);
      assert chunks[i..][1..] == chunks[i + 1..];
      i := i + 1;
      if failure.Some? {
        return Err(failure.value);
      }
      if events.done {
        break;
      }
    }
    outcome := events.Finish();
  }

  function Completed(r: Reader, s: State, chunks: seq<seq<Byte>>): Result<Progress>
    decreases |chunks|
  {
    if chunks == [] then Closed(s.progress)
    else
      var fed := Drain(r, s.(pending := s.pending + chunks[0]));
      if fed.failure.Some? then Err(fed.failure.value)
      else if fed.state.progress.done then Ok(fed.state.progress)
      else Completed(r, fed.state, chunks[1..])
  }
}
