/** Tailing a run: backfill once, then read the event stream across any number of reconnects. */
module TailRun {
  import opened Prelude
  import opened SseText
  import opened EventStream

  // ---- Reading one connection ----

  /** How a stream stops: it ends, its next read rejects, or the abort signal makes that read reject. */
  datatype Ending = Ended | Broken | Aborted

  /** `chunks` are the decoded chunks in arrival order; a connection may also be refused, or given up by the abort signal. */
  datatype Connection = Refused(aborted: bool) | Stream(chunks: seq<string>, ending: Ending)

  /** The incremental reader's variables: what is buffered, and what has been emitted. */
  datatype Reading = Reading(buffer: string, outcome: Outcome)

  /** One chunk: buffer it, handle the frames it closes with the cursor held, keep the rest; nothing after a throw. */
  function Receive(reader: Reader, r: Reading, chunk: string): Reading {
    if r.outcome.threw then r
    else
      var buffer := r.buffer + chunk;
      var handled := Consume(reader, reader.Frames(buffer), r.outcome.cursor);
      Reading(reader.CarryOver(buffer), Outcome(r.outcome.events + handled.events, handled.cursor, handled.threw))
  }

  /** The incremental reader after these chunks. */
  function ReadChunks(reader: Reader, chunks: seq<string>, cursor: string): Reading {
    if chunks == [] then Reading("", Outcome([], cursor, false))
    else Receive(reader, ReadChunks(reader, chunks[..|chunks| - 1], cursor), chunks[|chunks| - 1])
  }

  function ConnectionOutcome(parse: string -> Payload, connection: Connection, cursor: string): Outcome {
    match connection
    case Refused(_) => Outcome([], cursor, true)
    case Stream(chunks, ending) =>
      var read := ReadChunks(TailReader(parse), chunks, cursor).outcome;
      if ending != Ended then read.(threw := true) else read
  }

  /** The inner loops: frames in order, each frame's events handed on one by one, until a frame does not decode. */
  method HandleFrames(parse: string -> Payload, frames: seq<string>, startingCursor: string) returns (outcome: Outcome)
    ensures outcome == Consume(TailReader(parse), frames, startingCursor)
  {
    ghost var reader := TailReader(parse);
    var emitted: seq<Event>, cursor := [], startingCursor;
    for k := 0 to |frames|
      invariant Consume(reader, frames[..k], startingCursor) == Outcome(emitted, cursor, false)
    {
      assert frames[..k + 1][..k] == frames[..k];
      ghost var before := Outcome(emitted, cursor, false);
      var parsed := ParseFrame(TailReader(parse), frames[k]);
      if parsed.Throws? {
        ConsumePrefix(reader, frames, k + 1, startingCursor);
        return Outcome(emitted, cursor, true);
      }
      for j := 0 to |parsed.events|
        invariant DeliverAll(before, parsed.events[..j]) == Outcome(emitted, cursor, false)
      {
        assert parsed.events[..j + 1][..j] == parsed.events[..j];
        var event := parsed.events[j];
        emitted := emitted + [event];
        if event.cursor.Some? {
          cursor := event.cursor.value;
        }
      }
      assert parsed.events[..|parsed.events|] == parsed.events;
    }
    assert frames[..|frames|] == frames;
    outcome := Outcome(emitted, cursor, false);
  }

  /** Splits what is buffered, handles the closed frames and keeps the rest. */
  method HandleBuffer(parse: string -> Payload, buffer: string, cursor: string) returns (outcome: Outcome, carryOver: string)
    ensures outcome == WholeText(TailReader(parse), buffer, cursor)
    ensures carryOver == TailReader(parse).CarryOver(buffer)
  {
    hide Consume;
    var pieces := Split(TailReader(parse).FrameSeparator(), buffer);
    outcome := HandleFrames(parse, pieces[..|pieces| - 1], cursor);
    carryOver := pieces[|pieces| - 1];
  }

  /** The incremental reader: carry-over buffer, resume cursor, a batch of closed frames per chunk. */
  method ReadSseUntilDisconnect(parse: string -> Payload, connection: Connection, startingCursor: string)
    returns (outcome: Outcome)
    ensures outcome == ConnectionOutcome(parse, connection, startingCursor)
  {
    hide Consume;
    if connection.Refused? {
      return Outcome([], startingCursor, true);
    }
    ghost var reader := TailReader(parse);
    var chunks := connection.chunks;
    var buffer := "";
    var emitted: seq<Event>, cursor := [], startingCursor;
    for i := 0 to |chunks|
      invariant ReadChunks(reader, chunks[..i], startingCursor) == Reading(buffer, Outcome(emitted, cursor, false))
    {
      assert chunks[..i + 1][..i] == chunks[..i];
      buffer := buffer + chunks[i];
      var handled;
      handled, buffer := HandleBuffer(parse, buffer, cursor);
      emitted, cursor := emitted + handled.events, handled.cursor;
      if handled.threw {
        StopsAtThrow(reader, chunks, i + 1, startingCursor);
        return Outcome(emitted, cursor, true);
      }
    }
    assert chunks[..|chunks|] == chunks;
    outcome := Outcome(emitted, cursor, connection.ending != Ended);
  }

  /** Chunks after a throw are never read. */
  lemma {:induction false} StopsAtThrow(reader: Reader, chunks: seq<string>, n: nat, cursor: string)
    requires n <= |chunks| && ReadChunks(reader, chunks[..n], cursor).outcome.threw
    ensures ReadChunks(reader, chunks, cursor) == ReadChunks(reader, chunks[..n], cursor)
    decreases |chunks|
  {
    if n == |chunks| {
      assert chunks[..n] == chunks;
    } else {
      var init := chunks[..|chunks| - 1];
      assert init[..n] == chunks[..n];
      StopsAtThrow(reader, init, n, cursor);
    }
  }

  lemma NothingReceived(reader: Reader, cursor: string)
    ensures WholeText(reader, "", cursor) == Outcome([], cursor, false)
    ensures reader.CarryOver("") == ""
  {
    assert Split(reader.FrameSeparator(), "") == [""];
  }

  /** One more chunk: the carry-over and the chunk are split together, and only the newly closed frames are handled. */
  lemma ReceiveChunk(reader: Reader, text: string, chunk: string, start: string)
    requires !WholeText(reader, text, start).threw
    ensures reader.CarryOver(text + chunk) == reader.CarryOver(reader.CarryOver(text) + chunk)
    ensures var before := WholeText(reader, text, start);
            var batch := WholeText(reader, reader.CarryOver(text) + chunk, before.cursor);
            WholeText(reader, text + chunk, start) == Outcome(before.events + batch.events, batch.cursor, batch.threw)
  {
    SplitInInstalments(reader.FrameSeparator(), text, chunk);
    ConsumeAppend(reader, reader.Frames(text), reader.Frames(reader.CarryOver(text) + chunk), start);
  }

  lemma ThrowIsFinal(reader: Reader, text: string, chunk: string, start: string)
    requires WholeText(reader, text, start).threw
    ensures WholeText(reader, text + chunk, start) == WholeText(reader, text, start)
  {
    ClosedGrows(reader.FrameSeparator(), text, chunk);
    var longer := reader.Frames(text + chunk);
    assert longer[..|reader.Frames(text)|] == reader.Frames(text);
    ConsumePrefix(reader, longer, |reader.Frames(text)|, start);
  }

  /** The incremental reader refines the reading of the whole text: same events, cursor and failure, and the right carry-over. */
  lemma {:induction false} IncrementalIsWhole(reader: Reader, chunks: seq<string>, cursor: string)
    ensures ReadChunks(reader, chunks, cursor).outcome == WholeText(reader, Flatten(chunks), cursor)
    ensures !ReadChunks(reader, chunks, cursor).outcome.threw ==> ReadChunks(reader, chunks, cursor).buffer == reader.CarryOver(Flatten(chunks))
    decreases |chunks|
  {
    NothingReceived(reader, cursor);
    if chunks != [] {
      hide Consume;
      var n := |chunks| - 1;
      var text := Flatten(chunks[..n]);
      IncrementalIsWhole(reader, chunks[..n], cursor);
      if WholeText(reader, text, cursor).threw {
        ThrowIsFinal(reader, text, chunks[n], cursor);
      } else {
        ReceiveChunk(reader, text, chunks[n], cursor);
      }
    }
  }

  /** Chunk invariance: two ways of cutting the same text, anywhere at all, leave the incremental reader with the same outcome. */
  lemma ChunkInvariance(reader: Reader, cutA: seq<string>, cutB: seq<string>, cursor: string)
    requires Flatten(cutA) == Flatten(cutB)
    ensures ReadChunks(reader, cutA, cursor).outcome == ReadChunks(reader, cutB, cursor).outcome
    ensures !ReadChunks(reader, cutA, cursor).outcome.threw ==> ReadChunks(reader, cutA, cursor) == ReadChunks(reader, cutB, cursor)
  {
    hide Consume, ReadChunks, WholeText;
    IncrementalIsWhole(reader, cutA, cursor);
    IncrementalIsWhole(reader, cutB, cursor);
  }

  // ---- The reconnect loop ----

  datatype Backfill = Backfill(events: seq<Event>, nextCursor: string)
  /** How a run stops: between two connections, by the abort signal during one, or with an error. */
  datatype Stop = Finished | Interrupted | Failed

  datatype Tail = Tail(emitted: seq<Event>, cursor: string, stop: Stop)

  /** The `n`-th connection the server grants when asked to resume after a cursor. */
  type Server = (nat, string) -> Connection

  /** A rejection is silent when the abort signal caused it; a frame that does not decode throws before that. */
  predicate IsInterrupted(parse: string -> Payload, connection: Connection, cursor: string) {
    match connection
    case Refused(aborted) => aborted
    case Stream(chunks, ending) => ending == Aborted && !ReadChunks(TailReader(parse), chunks, cursor).outcome.threw
  }

  /** What is emitted stays emitted, but a rejected reading does not hand its cursor back. */
  function TailFrom(parse: string -> Payload, server: Server, n: nat, reconnects: nat, t: Tail): Tail
    decreases reconnects
  {
    if reconnects == 0 then t
    else
      var connection := server(n, t.cursor);
      var outcome := ConnectionOutcome(parse, connection, t.cursor);
      if outcome.threw then
        Tail(t.emitted + outcome.events, t.cursor, if IsInterrupted(parse, connection, t.cursor) then Interrupted else Failed)
      else TailFrom(parse, server, n + 1, reconnects - 1, Tail(t.emitted + outcome.events, outcome.cursor, Finished))
  }

  /**
   The run loop. `connections` is the number of connections made before the abort signal fires between two of them, if it does not
   fire during one; a rejected token request, fetch or read and a frame that does not decode end the run with an error.
   */
  method RunTail(parse: string -> Payload, backfill: Backfill, once: bool, connections: nat, server: Server)
    returns (tail: Tail)
    ensures tail == TailFrom(parse, server, 0, if once then 0 else connections, Tail(backfill.events, backfill.nextCursor, Finished))
  {
    hide ConnectionOutcome, IsInterrupted;
    var emitted: seq<Event> := [];
    for i := 0 to |backfill.events|
      invariant emitted == backfill.events[..i]
    {
      emitted := emitted + [backfill.events[i]];
    }
    assert backfill.events[..|backfill.events|] == backfill.events;
    var cursor := backfill.nextCursor;
    if once {
      return Tail(emitted, cursor, Finished);
    }
    var made := 0;
    while made < connections
      invariant made <= connections
      invariant TailFrom(parse, server, made, connections - made, Tail(emitted, cursor, Finished)) ==
                TailFrom(parse, server, 0, connections, Tail(backfill.events, backfill.nextCursor, Finished))
    {
      var connection := server(made, cursor);
      var outcome := ReadSseUntilDisconnect(parse, connection, cursor);
      emitted := emitted + outcome.events;
      if outcome.threw {
        return Tail(emitted, cursor, if IsInterrupted(parse, connection, cursor) then Interrupted else Failed);
      }
      cursor := outcome.cursor;
      made := made + 1;
    }
    tail := Tail(emitted, cursor, Finished);
  }

  // ---- The server's log ----

  /** One recorded event; only public ones are ever shown. */
  datatype Entry = Entry(cursor: string, public: bool, body: string)

  const BEGINNING_OF_STREAM_CURSOR := "0000000000"

  ghost predicate ValidLog(log: seq<Entry>) {
    && (forall i :: 0 <= i < |log| ==> log[i].cursor != BEGINNING_OF_STREAM_CURSOR)
    && (forall i, j :: 0 <= i < j < |log| ==> log[i].cursor != log[j].cursor)
  }

  /** How many entries a cursor has consumed. */
  ghost predicate At(log: seq<Entry>, cursor: string, position: nat) {
    && position <= |log|
    && (if position == 0 then cursor == BEGINNING_OF_STREAM_CURSOR else cursor == log[position - 1].cursor)
  }

  function Shown(entry: Entry): Event {
    Event(Some(entry.cursor), entry.body)
  }

  /** The public events of the log segment `[from, to)`, in log order. */
  function Public(log: seq<Entry>, from: nat, to: nat): seq<Event>
    requires from <= to <= |log|
    decreases |log| - from
  {
    if from == to then []
    else (if log[from].public then [Shown(log[from])] else []) + Public(log, from + 1, to)
  }

  /** A connection is honest when its text is some cut-off beginning of a stream of exactly the public events after `position`. */
  ghost predicate HonestConnection(parse: string -> Payload, log: seq<Entry>, connection: Connection, position: nat, full: string)
    requires position <= |log|
  {
    connection.Stream? ==>
      && Flatten(connection.chunks) <= full
      && (forall c :: var o := WholeText(TailReader(parse), full, c);
                      !o.threw && o.events == Public(log, position, |log|))
  }

  /** `full(n, c)` is the text the server would send on connection `n` if it were never cut. */
  ghost predicate HonestServer(parse: string -> Payload, log: seq<Entry>, server: Server, full: (nat, string) -> string) {
    forall n: nat, c, p: nat :: At(log, c, p) ==> HonestConnection(parse, log, server(n, c), p, full(n, c))
  }

  lemma {:induction false} PublicConcat(log: seq<Entry>, a: nat, b: nat, c: nat)
    requires a <= b <= c <= |log|
    ensures Public(log, a, c) == Public(log, a, b) + Public(log, b, c)
    decreases b - a
  {
    if a < b {
      PublicConcat(log, a + 1, b, c);
    }
  }

  /** A non-empty prefix of the public events is a whole segment, and its last cursor marks where it ends. */
  lemma {:induction false} PrefixIsSegment(log: seq<Entry>, from: nat, events: seq<Event>) returns (to: nat)
    requires from <= |log| && events != []
    requires events <= Public(log, from, |log|)
    ensures from < to <= |log|
    ensures events == Public(log, from, to)
    ensures events[|events| - 1] == Shown(log[to - 1]) && log[to - 1].public
    decreases |log| - from
  {
    if log[from].public {
      if |events| == 1 {
        to := from + 1;
        assert Public(log, from + 1, to) == [];
      } else {
        to := PrefixIsSegment(log, from + 1, events[1..]);
        assert events == [events[0]] + events[1..];
      }
    } else {
      to := PrefixIsSegment(log, from + 1, events);
    }
  }

  /** Reading one honest connection emits the next segment and leaves the cursor exactly at its end, which is a public entry's. */
  lemma HonestReadAdvances(parse: string -> Payload, log: seq<Entry>, connection: Connection, position: nat, cursor: string, full: string)
    returns (next: nat)
    requires At(log, cursor, position)
    requires HonestConnection(parse, log, connection, position, full)
    ensures position <= next <= |log|
    ensures ConnectionOutcome(parse, connection, cursor).events == Public(log, position, next)
    ensures At(log, ConnectionOutcome(parse, connection, cursor).cursor, next)
    ensures ConnectionOutcome(parse, connection, cursor).threw <==> connection.Refused? || connection.ending != Ended
    ensures position < next ==> log[next - 1].public
  {
    next := position;
    hide Consume, ReadChunks;
    if connection.Stream? {
      var reader := TailReader(parse);
      var received := Flatten(connection.chunks);
      IncrementalIsWhole(reader, connection.chunks, cursor);
      CutTextShowsPrefix(reader, full, received, cursor);
      var o := WholeText(reader, received, cursor);
      PublicHasCursors(log, position, |log|);
      CursorFollowsEvents(reader, reader.Frames(received), cursor);
      if o.events != [] {
        next := PrefixIsSegment(log, position, o.events);
      }
    }
  }

  lemma {:induction false} PublicHasCursors(log: seq<Entry>, from: nat, to: nat)
    requires from <= to <= |log|
    ensures forall e :: e in Public(log, from, to) ==> e.cursor.Some?
    decreases |log| - from
  {
    if from < to {
      PublicHasCursors(log, from + 1, to);
    }
  }

  lemma {:induction false} TailFromIsSegment(
      parse: string -> Payload, log: seq<Entry>, server: Server, full: (nat, string) -> string,
      n: nat, reconnects: nat, t: Tail, start: nat, position: nat)
    returns (stop: nat, held: nat)
    requires HonestServer(parse, log, server, full)
    requires start <= position && At(log, t.cursor, position) && t.stop == Finished
    requires t.emitted == Public(log, start, position)
    ensures position <= held <= stop <= |log|
    ensures position < stop ==> log[stop - 1].public
    ensures var r := TailFrom(parse, server, n, reconnects, t);
            r.emitted == Public(log, start, stop) && At(log, r.cursor, held) && (r.stop == Finished ==> held == stop)
    decreases reconnects
  {
    hide ConnectionOutcome, HonestConnection, Public, IsInterrupted;
    stop, held := position, position;
    if reconnects > 0 {
      var connection := server(n, t.cursor);
      assert HonestConnection(parse, log, connection, position, full(n, t.cursor));
      var next := HonestReadAdvances(parse, log, connection, position, t.cursor, full(n, t.cursor));
      PublicConcat(log, start, position, next);
      var outcome := ConnectionOutcome(parse, connection, t.cursor);
      stop := next;
      if !outcome.threw {
        stop, held := TailFromIsSegment(parse, log, server, full, n + 1, reconnects - 1,
          Tail(t.emitted + outcome.events, outcome.cursor, Finished), start, next);
      }
    }
  }

  /** The backfill covers the log from `start`, the requested cursor, to `filled`. */
  ghost predicate HonestBackfill(log: seq<Entry>, backfill: Backfill, start: nat, filled: nat) {
    start <= filled && At(log, backfill.nextCursor, filled) && backfill.events == Public(log, start, filled)
  }

  function RunOf(parse: string -> Payload, server: Server, backfill: Backfill, reconnects: nat): Tail {
    TailFrom(parse, server, 0, reconnects, Tail(backfill.events, backfill.nextCursor, Finished))
  }

  /**
   Exactly once across reconnects. Whatever the server cuts and wherever, the events emitted are the public
   events of one contiguous log segment beginning just after the requested cursor, in log order; and unless
   a rejection ended the run the held cursor marks the end of that very segment.
   */
  lemma ExactlyOnce(
      parse: string -> Payload, log: seq<Entry>, server: Server, full: (nat, string) -> string,
      backfill: Backfill, reconnects: nat, start: nat, filled: nat)
    returns (stop: nat)
    requires ValidLog(log) && HonestServer(parse, log, server, full) && HonestBackfill(log, backfill, start, filled)
    ensures filled <= stop <= |log|
    ensures var r := RunOf(parse, server, backfill, reconnects);
            && r.emitted == Public(log, start, stop)
            && Distinct(r.emitted)
            && (forall i :: 0 <= i < |log| ==> (Shown(log[i]) in r.emitted <==> start <= i < stop && log[i].public))
            && (r.stop == Finished ==> At(log, r.cursor, stop))
    ensures filled < stop ==> log[stop - 1].public
  {
    var held;
    stop, held := TailFromIsSegment(parse, log, server, full, 0, reconnects,
      Tail(backfill.events, backfill.nextCursor, Finished), start, filled);
    PublicIsExact(log, start, stop);
  }

  ghost predicate HoldsLastCursor(t: Tail) {
    t.emitted != [] && t.emitted[|t.emitted| - 1].cursor == Some(t.cursor)
  }

  /**
   When the held cursor is the last emitted event's. A run that emitted anything after its backfill always holds it; one that did
   not holds it if and only if the backfill went past something and the last entry it went past was public.
   */
  lemma HeldCursorExactly(
      parse: string -> Payload, log: seq<Entry>, server: Server, full: (nat, string) -> string,
      backfill: Backfill, reconnects: nat, start: nat, filled: nat)
    requires ValidLog(log) && HonestServer(parse, log, server, full) && HonestBackfill(log, backfill, start, filled)
    requires RunOf(parse, server, backfill, reconnects).stop == Finished
    ensures var r := RunOf(parse, server, backfill, reconnects);
            HoldsLastCursor(r) <==> r.emitted != backfill.events || (start < filled && log[filled - 1].public)
  {
    hide RunOf, Public;
    var r := RunOf(parse, server, backfill, reconnects);
    var stop := ExactlyOnce(parse, log, server, full, backfill, reconnects, start, filled);
    if start < stop {
      CursorIsLastEmitted(log, start, stop, r.cursor);
    } else {
      NothingPublic(log, start);
    }
    if filled < stop {
      assert Shown(log[stop - 1]) in r.emitted;
      PublicIsExact(log, start, filled);
    }
  }

  lemma NothingPublic(log: seq<Entry>, at: nat)
    requires at <= |log|
    ensures Public(log, at, at) == []
  {
  }

  /**
   It can fail: after a public entry and a private one, a run that sees nothing more holds the private one's cursor, over any
   number of reconnects, although the last event emitted is the public one.
   */
  lemma PrivateEntryIsHeld(parse: string -> Payload, server: Server, reconnects: nat, shown: Entry, hidden: Entry)
    requires ValidLog([shown, hidden]) && shown.public && !hidden.public
    requires forall n: nat, c :: server(n, c) == Stream([], Ended)
    ensures var log := [shown, hidden];
            var backfill := Backfill([Shown(shown)], hidden.cursor);
            && HonestBackfill(log, backfill, 0, 2)
            && RunOf(parse, server, backfill, reconnects) == Tail([Shown(shown)], hidden.cursor, Finished)
            && !HoldsLastCursor(RunOf(parse, server, backfill, reconnects))
  {
    var log := [shown, hidden];
    NothingPublic(log, 2);
    assert Public(log, 1, 2) == [] && Public(log, 0, 2) == [Shown(shown)];
    assert log[0].cursor != log[1].cursor;
    SilentServer(parse, server, 0, reconnects, Tail([Shown(shown)], hidden.cursor, Finished));
  }

  lemma {:induction false} SilentServer(parse: string -> Payload, server: Server, n: nat, reconnects: nat, t: Tail)
    requires t.stop == Finished && forall k: nat, c :: server(k, c) == Stream([], Ended)
    ensures TailFrom(parse, server, n, reconnects, t) == t
    decreases reconnects
  {
    if reconnects > 0 {
      assert t.emitted + [] == t.emitted;
      SilentServer(parse, server, n + 1, reconnects - 1, t);
    }
  }

  lemma {:induction false} PublicIsExact(log: seq<Entry>, from: nat, to: nat)
    requires ValidLog(log) && from <= to <= |log|
    ensures Distinct(Public(log, from, to))
    ensures forall i :: 0 <= i < |log| ==> (Shown(log[i]) in Public(log, from, to) <==> from <= i < to && log[i].public)
    decreases |log| - from
  {
    if from < to {
      PublicIsExact(log, from + 1, to);
      PublicComesFromLog(log, from + 1, to);
      var head := if log[from].public then [Shown(log[from])] else [];
      var rest := Public(log, from + 1, to);
      assert Public(log, from, to) == head + rest;
      assert forall v :: v in head + rest <==> v in head || v in rest;
    }
  }

  lemma {:induction false} PublicComesFromLog(log: seq<Entry>, from: nat, to: nat)
    requires from <= to <= |log|
    ensures forall e :: e in Public(log, from, to) ==> exists i :: from <= i < to && e == Shown(log[i])
    decreases |log| - from
  {
    if from < to {
      PublicComesFromLog(log, from + 1, to);
    }
  }

  /** The held cursor is the last emitted event's exactly when the last entry passed over was a public one. */
  lemma CursorIsLastEmitted(log: seq<Entry>, start: nat, stop: nat, cursor: string)
    requires ValidLog(log) && start < stop <= |log| && At(log, cursor, stop)
    ensures var emitted := Public(log, start, stop);
            emitted != [] && emitted[|emitted| - 1].cursor == Some(cursor) <==> log[stop - 1].public
  {
    PublicConcat(log, start, stop - 1, stop);
    var before := Public(log, start, stop - 1);
    assert Public(log, stop, stop) == [];
    PublicComesFromLog(log, start, stop - 1);
    if before != [] {
      assert before[|before| - 1] in before;
    }
  }
}
