/**
 Frame parsing shared by the two event-stream readers, and the meaning of a whole stream text.
 The format is the subset of sections 9.2.5 and 9.2.6 of the WHATWG HTML standard that the readers use:
 frames closed by a blank line, of which only the `data:` lines count.
 */
module EventStream {
  import opened Prelude
  import opened SseText

  /** A decoded event: its resume cursor, when it has one, and everything else. */
  datatype Event = Event(cursor: Option<string>, body: string)

  /** What `JSON.parse` makes of a frame's data: nothing, a value that is no object, an array or a record. */
  datatype Payload = Malformed | Scalar | List(asEvent: Event) | Record(asEvent: Event)

  /** The two readers differ in the newline notation and in whether an array counts as an object. */
  datatype Reader = Reader(crOptional: bool, acceptsArrays: bool, parse: string -> Payload) {
    function FrameSeparator(): Separator {
      Separator(crOptional, true)
    }

    function LineSeparator(): Separator {
      Separator(crOptional, false)
    }

    function Frames(text: string): seq<string> {
      Closed(FrameSeparator(), text)
    }

    function CarryOver(text: string): string {
      Open(FrameSeparator(), text)
    }
  }

  function TailReader(parse: string -> Payload): Reader {
    Reader(true, true, parse)
  }

  function DeliveryReader(parse: string -> Payload): Reader {
    Reader(false, false, parse)
  }

  /** The characters `trimStart` removes: ECMAScript white space and line terminators. */
  predicate IsTrimmed(c: char) {
    || c in "\t\n\r \U{0B}\U{0C}\U{A0}\U{1680}\U{2028}\U{2029}\U{202F}\U{205F}\U{3000}\U{FEFF}"
    || '\U{2000}' <= c <= '\U{200A}'
  }

  function TrimStart(s: string): string {
    if s != "" && IsTrimmed(s[0]) then TrimStart(s[1..]) else s
  }

  function DataLines(lines: seq<string>): seq<string> {
    if lines == [] then []
    else (if "data:" <= lines[0] then [TrimStart(lines[0][5..])] else []) + DataLines(lines[1..])
  }

  function JoinLines(lines: seq<string>): string {
    if lines == [] then ""
    else if |lines| == 1 then lines[0]
    else lines[0] + "\n" + JoinLines(lines[1..])
  }

  datatype FrameResult = Throws | Yields(events: seq<Event>)

  function ParseFrame(reader: Reader, frame: string): FrameResult {
    var dataLines := DataLines(Split(reader.LineSeparator(), frame));
    if dataLines == [] then Yields([])
    else
      match reader.parse(JoinLines(dataLines))
      case Malformed => Throws
      case Scalar => Yields([])
      case List(e) => Yields(if reader.acceptsArrays then [e] else [])
      case Record(e) => Yields([e])
  }

  /** What handling frames one after the other does: events in order, the last cursor seen, and a stop at the first throw. */
  datatype Outcome = Outcome(events: seq<Event>, cursor: string, threw: bool)

  function Deliver(o: Outcome, e: Event): Outcome {
    Outcome(o.events + [e], if e.cursor.Some? then e.cursor.value else o.cursor, o.threw)
  }

  function DeliverAll(o: Outcome, events: seq<Event>): Outcome {
    if events == [] then o else Deliver(DeliverAll(o, events[..|events| - 1]), events[|events| - 1])
  }

  function Consume(reader: Reader, frames: seq<string>, cursor: string): Outcome {
    if frames == [] then Outcome([], cursor, false)
    else
      var before := Consume(reader, frames[..|frames| - 1], cursor);
      if before.threw then before
      else
        match ParseFrame(reader, frames[|frames| - 1])
        case Throws => before.(threw := true)
        case Yields(events) => DeliverAll(before, events)
  }

  /** The whole-text meaning of a stream: split once, drop the unclosed last piece, handle the rest in order. */
  function WholeText(reader: Reader, text: string, cursor: string): Outcome {
    Consume(reader, reader.Frames(text), cursor)
  }

  lemma DeliverAllEvents(o: Outcome, events: seq<Event>)
    ensures DeliverAll(o, events).events == o.events + events
    ensures DeliverAll(o, events).threw == o.threw
    ensures (forall e :: e in events ==> e.cursor.Some?) ==>
              DeliverAll(o, events).cursor == if events == [] then o.cursor else events[|events| - 1].cursor.value
  {
    if events != [] {
      DeliverAllEvents(o, events[..|events| - 1]);
    }
  }

  /** Handling a longer list of frames only adds: earlier events stay, and a throw is final. */
  lemma {:induction false} ConsumePrefix(reader: Reader, frames: seq<string>, n: nat, cursor: string)
    requires n <= |frames|
    ensures Consume(reader, frames[..n], cursor).events <= Consume(reader, frames, cursor).events
    ensures Consume(reader, frames[..n], cursor).threw ==>
              Consume(reader, frames, cursor) == Consume(reader, frames[..n], cursor)
    decreases |frames|
  {
    if n == |frames| {
      assert frames[..n] == frames;
    } else {
      var init := frames[..|frames| - 1];
      assert init[..n] == frames[..n];
      ConsumePrefix(reader, init, n, cursor);
      var last := ParseFrame(reader, frames[|frames| - 1]);
      if last.Yields? {
        DeliverAllEvents(Consume(reader, init, cursor), last.events);
      }
    }
  }

  /** A list of frames that throws has a good beginning, and its events are all there are. */
  lemma {:induction false} GoodBeginning(reader: Reader, frames: seq<string>, cursor: string) returns (n: nat)
    requires Consume(reader, frames, cursor).threw
    ensures n < |frames| && !Consume(reader, frames[..n], cursor).threw
    ensures Consume(reader, frames[..n], cursor).events == Consume(reader, frames, cursor).events
    decreases |frames|
  {
    n := |frames| - 1;
    if Consume(reader, frames[..n], cursor).threw {
      var init := frames[..n];
      n := GoodBeginning(reader, init, cursor);
      assert init[..n] == frames[..n];
    } else {
      var last := ParseFrame(reader, frames[n]);
      if last.Yields? {
        DeliverAllEvents(Consume(reader, frames[..n], cursor), last.events);
      }
    }
  }

  /** Frames may be handled in two batches. */
  lemma {:induction false} ConsumeAppend(reader: Reader, a: seq<string>, b: seq<string>, cursor: string)
    ensures var first := Consume(reader, a, cursor);
            var second := Consume(reader, b, first.cursor);
            !first.threw ==> Consume(reader, a + b, cursor) == Outcome(first.events + second.events, second.cursor, second.threw)
    decreases |b|
  {
    if b == [] {
      assert a + b == a;
    } else {
      var init := b[..|b| - 1];
      ConsumeAppend(reader, a, init, cursor);
      assert (a + b)[..|a + b| - 1] == a + init;
      var first := Consume(reader, a, cursor);
      var last := ParseFrame(reader, b[|b| - 1]);
      if !first.threw && last.Yields? {
        DeliverAllShift(first.events, Consume(reader, init, first.cursor), last.events);
      }
    }
  }

  lemma {:induction false} DeliverAllShift(prefix: seq<Event>, o: Outcome, events: seq<Event>)
    ensures DeliverAll(o.(events := prefix + o.events), events) ==
            DeliverAll(o, events).(events := prefix + DeliverAll(o, events).events)
  {
    if events != [] {
      DeliverAllShift(prefix, o, events[..|events| - 1]);
    }
  }

  /** The cursor is that of the last event delivered, as long as every event carries one. */
  lemma {:induction false} CursorFollowsEvents(reader: Reader, frames: seq<string>, cursor: string)
    requires forall e :: e in Consume(reader, frames, cursor).events ==> e.cursor.Some?
    ensures var o := Consume(reader, frames, cursor);
            o.cursor == if o.events == [] then cursor else o.events[|o.events| - 1].cursor.value
  {
    if frames != [] {
      var init := frames[..|frames| - 1];
      ConsumePrefix(reader, frames, |init|, cursor);
      CursorFollowsEvents(reader, init, cursor);
      var last := ParseFrame(reader, frames[|frames| - 1]);
      if last.Yields? {
        DeliverAllEvents(Consume(reader, init, cursor), last.events);
      }
    }
  }

  /** Text cut off at any character shows a prefix of the events, and throws only if the whole text does. */
  lemma CutTextShowsPrefix(reader: Reader, text: string, received: string, cursor: string)
    requires received <= text
    ensures WholeText(reader, received, cursor).events <= WholeText(reader, text, cursor).events
    ensures WholeText(reader, received, cursor).threw ==> WholeText(reader, text, cursor).threw
  {
    var rest := text[|received|..];
    assert text == received + rest;
    ClosedGrows(reader.FrameSeparator(), received, rest);
    var n := |reader.Frames(received)|;
    assert reader.Frames(text)[..n] == reader.Frames(received);
    ConsumePrefix(reader, reader.Frames(text), n, cursor);
  }

  // ---- Writing a stream and reading it back ----

  predicate SingleLine(s: string) {
    '\n' !in s && '\r' !in s
  }

  function Body(id: string, json: string): string {
    "id: " + id + "\ndata: " + json
  }

  /** One event as a server writes it: an id line, one data line, a blank line. */
  function Encode(id: string, json: string): string {
    Body(id, json) + "\n\n"
  }

  function EncodeAll(messages: seq<(string, string)>): string {
    if messages == [] then "" else Encode(messages[0].0, messages[0].1) + EncodeAll(messages[1..])
  }

  lemma SplitBody(reader: Reader, id: string, json: string)
    requires SingleLine(id) && SingleLine(json)
    ensures Split(reader.LineSeparator(), Body(id, json)) == ["id: " + id, "data: " + json]
  {
    var sep, body := reader.LineSeparator(), Body(id, json);
    var at := 4 + |id|;
    assert body[at] == '\n' && SeparatorEnd(sep, body, at) == at + 1;
    forall j | 0 <= j < at
      ensures SeparatorEnd(sep, body, j) == j
    {
      assert body[j] == ("id: " + id)[j];
    }
    LeftmostCut(sep, body, 0, at);
    var tail := body[at + 1..];
    assert tail == "data: " + json && body[..at] == "id: " + id;
    forall j | 0 <= j < |tail|
      ensures SeparatorEnd(sep, tail, j) == j
    {
      assert tail[j] == ("data: " + json)[j];
    }
    LeftmostCut(sep, tail, 0, |tail|);
    assert Split(sep, tail) == [tail];
    SplitStep(sep, body);
  }

  lemma SplitEncoded(reader: Reader, id: string, json: string)
    requires SingleLine(id) && SingleLine(json)
    ensures Split(reader.FrameSeparator(), Encode(id, json)) == [Body(id, json), ""]
  {
    var sep, frame := reader.FrameSeparator(), Encode(id, json);
    var at, mid := |Body(id, json)|, 4 + |id|;
    assert frame[at] == '\n' && frame[at + 1] == '\n';
    assert SeparatorEnd(sep, frame, at) == at + 2;
    assert frame[mid] == '\n' && frame[mid + 1] == 'd';
    forall j | 0 <= j < at
      ensures SeparatorEnd(sep, frame, j) == j
    {
      if j < mid {
        assert frame[j] == ("id: " + id)[j];
      } else if j > mid {
        assert frame[j] == ("data: " + json)[j - mid - 1];
      }
    }
    LeftmostCut(sep, frame, 0, at);
    SplitStep(sep, frame);
    assert frame[at + 2..] == "" && frame[..at] == Body(id, json);
    assert Split(sep, "") == [""];
  }

  lemma DataOfEncoded(reader: Reader, id: string, json: string)
    requires SingleLine(id) && SingleLine(json) && json != "" && !IsTrimmed(json[0])
    ensures DataLines(Split(reader.LineSeparator(), Body(id, json))) == [json]
    ensures JoinLines([json]) == json
  {
    SplitBody(reader, id, json);
    var lines := ["id: " + id, "data: " + json];
    assert !("data:" <= lines[0]) by { assert lines[0][0] == 'i'; }
    assert lines[1][5..] == " " + json;
    assert (" " + json)[1..] == json;
    assert TrimStart(" " + json) == TrimStart(json) == json;
    assert lines[1..] == ["data: " + json] && lines[1..][1..] == [];
    assert "data:" <= lines[1] by { assert lines[1][..5] == "data:"; }
    assert DataLines(lines[1..]) == [json];
    assert DataLines(lines) == [json];
  }

  /** A message the stream can carry: single-line texts, and data that decodes to a record. */
  predicate Encodable(reader: Reader, m: (string, string)) {
    && SingleLine(m.0) && SingleLine(m.1) && m.1 != "" && !IsTrimmed(m.1[0])
    && reader.parse(m.1).Record?
  }

  function MessageEvents(reader: Reader, messages: seq<(string, string)>): seq<Event>
    requires forall m :: m in messages ==> Encodable(reader, m)
  {
    if messages == [] then []
    else
      assert Encodable(reader, messages[0]);
      [reader.parse(messages[0].1).asEvent] + MessageEvents(reader, messages[1..])
  }

  lemma FramesOfEncoded(reader: Reader, id: string, json: string, rest: string)
    requires SingleLine(id) && SingleLine(json)
    ensures reader.Frames(Encode(id, json) + rest) == [Body(id, json)] + reader.Frames(rest)
  {
    SplitEncoded(reader, id, json);
    SplitInInstalments(reader.FrameSeparator(), Encode(id, json), rest);
    assert "" + rest == rest;
  }

  lemma ConsumeOne(reader: Reader, frame: string, event: Event, cursor: string)
    requires ParseFrame(reader, frame) == Yields([event])
    ensures Consume(reader, [frame], cursor).events == [event]
    ensures !Consume(reader, [frame], cursor).threw
  {
    assert [frame][..0] == [];
    DeliverAllEvents(Outcome([], cursor, false), [event]);
  }

  /** Round trip: reading the text of any list of messages yields exactly their events, in order. */
  lemma {:induction false} EncodeRoundTrip(reader: Reader, messages: seq<(string, string)>, cursor: string)
    requires forall m :: m in messages ==> Encodable(reader, m)
    ensures !WholeText(reader, EncodeAll(messages), cursor).threw
    ensures WholeText(reader, EncodeAll(messages), cursor).events == MessageEvents(reader, messages)
    decreases |messages|
  {
    if messages == [] {
      assert Split(reader.FrameSeparator(), "") == [""];
    } else {
      var (id, json) := messages[0];
      assert Encodable(reader, messages[0]);
      var rest := EncodeAll(messages[1..]);
      FramesOfEncoded(reader, id, json, rest);
      DataOfEncoded(reader, id, json);
      ConsumeOne(reader, Body(id, json), reader.parse(json).asEvent, cursor);
      var first := Consume(reader, [Body(id, json)], cursor);
      ConsumeAppend(reader, [Body(id, json)], reader.Frames(rest), cursor);
      EncodeRoundTrip(reader, messages[1..], first.cursor);
    }
  }
}
