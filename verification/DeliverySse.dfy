/** The delivery runner's own event-stream reader, which decodes a whole buffer before it looks at any event. */
module DeliverySse {
  import opened Prelude
  import opened SseText
  import opened EventStream

  datatype SseData = SseData(events: seq<Event>, remaining: string)

  /** All events of the closed frames of a text, and whether every one of those frames decodes. */
  ghost function EventsOf(parse: string -> Payload, text: string): seq<Event> {
    WholeText(DeliveryReader(parse), text, "").events
  }

  ghost predicate Decodes(parse: string -> Payload, text: string) {
    !WholeText(DeliveryReader(parse), text, "").threw
  }

  method DecodeFrames(parse: string -> Payload, frames: seq<string>) returns (decoded: Option<seq<Event>>)
    ensures var all := Consume(DeliveryReader(parse), frames, "");
            decoded == if all.threw then None else Some(all.events)
  {
    ghost var reader := DeliveryReader(parse);
    var events: seq<Event> := [];
    for k := 0 to |frames|
      invariant !Consume(reader, frames[..k], "").threw && Consume(reader, frames[..k], "").events == events
    {
      assert frames[..k + 1][..k] == frames[..k];
      var parsed := ParseFrame(DeliveryReader(parse), frames[k]);
      if parsed.Throws? {
        ConsumePrefix(reader, frames, k + 1, "");
        return None;
      }
      DeliverAllEvents(Consume(reader, frames[..k], ""), parsed.events);
      events := events + parsed.events;
    }
    assert frames[..|frames|] == frames;
    decoded := Some(events);
  }

  /** Decoding one buffer: all its closed frames or none of them. */
  method ParseSseData(parse: string -> Payload, buffer: string) returns (data: Option<SseData>)
    ensures data.Some? <==> Decodes(parse, buffer)
    ensures data.Some? ==> data.value == SseData(EventsOf(parse, buffer), DeliveryReader(parse).CarryOver(buffer))
  {
    var pieces := Split(DeliveryReader(parse).FrameSeparator(), buffer);
    var decoded := DecodeFrames(parse, pieces[..|pieces| - 1]);
    data := if decoded.None? then None else Some(SseData(decoded.value, pieces[|pieces| - 1]));
  }

  function FirstMatch(wanted: Event -> bool, events: seq<Event>): Option<Event> {
    if events == [] then None
    else if wanted(events[0]) then Some(events[0])
    else FirstMatch(wanted, events[1..])
  }

  /** A text decides the wait on `e` when all its closed frames decode and `e` is their first wanted event. */
  ghost predicate Decides(parse: string -> Payload, wanted: Event -> bool, text: string, e: Event) {
    Decodes(parse, text) && FirstMatch(wanted, EventsOf(parse, text)) == Some(e)
  }

  /** The text received up to some chunk boundary decides the wait on `e`. */
  ghost predicate DecidedAtBoundary(parse: string -> Payload, wanted: Event -> bool, chunks: seq<string>, e: Event) {
    exists j :: 0 <= j <= |chunks| && Decides(parse, wanted, Flatten(chunks[..j]), e)
  }

  method FindWanted(wanted: Event -> bool, events: seq<Event>) returns (found: Option<Event>)
    ensures found == FirstMatch(wanted, events)
  {
    for k := 0 to |events|
      invariant FirstMatch(wanted, events[k..]) == FirstMatch(wanted, events)
    {
      if wanted(events[k]) {
        return Some(events[k]);
      }
    }
    found := None;
  }

  /**
   Waits for the first wanted event. `None` stands for the error exits: undecodable data, the stream's end, the timeout.
   An event is found exactly when the text up to some chunk boundary decides for it.
   */
  method WaitForSseEvent(parse: string -> Payload, wanted: Event -> bool, chunks: seq<string>) returns (found: Option<Event>)
    ensures forall e :: found == Some(e) <==> DecidedAtBoundary(parse, wanted, chunks, e)
  {
    ghost var reader := DeliveryReader(parse);
    var buffer := "";
    assert Split(reader.FrameSeparator(), "") == [""];
    for i := 0 to |chunks|
      invariant buffer == reader.CarryOver(Flatten(chunks[..i]))
      invariant Decodes(parse, Flatten(chunks[..i])) && FirstMatch(wanted, EventsOf(parse, Flatten(chunks[..i]))) == None
    {
      ghost var text := Flatten(chunks[..i]);
      FlattenTake(chunks, i);
      ReceiveChunk(parse, text, chunks[i]);
      buffer := buffer + chunks[i];
      var data := ParseSseData(parse, buffer);
      if data.None? {
        UndecodedForGood(parse, wanted, chunks, i);
        return None;
      }
      FirstMatchAppend(wanted, EventsOf(parse, text), data.value.events);
      buffer := data.value.remaining;
      found := FindWanted(wanted, data.value.events);
      if found.Some? {
        DecidedForGood(parse, wanted, chunks, i + 1, found.value);
        return;
      }
    }
    UndecidedSoFar(parse, wanted, chunks, |chunks|);
    found := None;
  }

  lemma {:induction false} FirstMatchAppend(wanted: Event -> bool, a: seq<Event>, b: seq<Event>)
    ensures FirstMatch(wanted, a + b) ==
            if FirstMatch(wanted, a).Some? then FirstMatch(wanted, a) else FirstMatch(wanted, b)
    decreases |a|
  {
    if a == [] {
      assert a + b == b;
    } else {
      assert (a + b)[1..] == a[1..] + b;
      FirstMatchAppend(wanted, a[1..], b);
    }
  }

  lemma {:induction false} CursorIsIrrelevant(reader: Reader, frames: seq<string>, c: string, c': string)
    ensures Consume(reader, frames, c).events == Consume(reader, frames, c').events
    ensures Consume(reader, frames, c).threw == Consume(reader, frames, c').threw
  {
    if frames != [] {
      var init := frames[..|frames| - 1];
      CursorIsIrrelevant(reader, init, c, c');
      var last := ParseFrame(reader, frames[|frames| - 1]);
      if last.Yields? {
        DeliverAllEvents(Consume(reader, init, c), last.events);
        DeliverAllEvents(Consume(reader, init, c'), last.events);
      }
    }
  }

  lemma ReceiveChunk(parse: string -> Payload, text: string, chunk: string)
    requires Decodes(parse, text)
    ensures var reader := DeliveryReader(parse);
            var buffer := reader.CarryOver(text) + chunk;
            && reader.CarryOver(text + chunk) == reader.CarryOver(buffer)
            && EventsOf(parse, text + chunk) == EventsOf(parse, text) + EventsOf(parse, buffer)
            && (Decodes(parse, text + chunk) <==> Decodes(parse, buffer))
  {
    var reader := DeliveryReader(parse);
    SplitInInstalments(reader.FrameSeparator(), text, chunk);
    var newFrames := reader.Frames(reader.CarryOver(text) + chunk);
    ConsumeAppend(reader, reader.Frames(text), newFrames, "");
    CursorIsIrrelevant(reader, newFrames, WholeText(reader, text, "").cursor, "");
  }

  /** More text keeps what earlier text settled: undecodable stays so, and a first wanted event stays the first. */
  lemma MoreText(parse: string -> Payload, wanted: Event -> bool, text: string, more: string)
    requires text <= more
    ensures Decodes(parse, more) ==> Decodes(parse, text)
    ensures FirstMatch(wanted, EventsOf(parse, text)).Some? ==>
              FirstMatch(wanted, EventsOf(parse, more)) == FirstMatch(wanted, EventsOf(parse, text))
  {
    CutTextShowsPrefix(DeliveryReader(parse), more, text, "");
    var some, all := EventsOf(parse, text), EventsOf(parse, more);
    FirstMatchAppend(wanted, some, all[|some|..]);
    assert some + all[|some|..] == all;
  }

  lemma {:induction false} FlattenPrefix(chunks: seq<string>, n: nat, j: nat)
    requires n <= j <= |chunks|
    ensures Flatten(chunks[..n]) <= Flatten(chunks[..j])
    decreases j
  {
    if n < j {
      FlattenTake(chunks, j - 1);
      FlattenPrefix(chunks, n, j - 1);
    }
  }

  lemma UndecidedSoFar(parse: string -> Payload, wanted: Event -> bool, chunks: seq<string>, n: nat)
    requires n <= |chunks|
    requires FirstMatch(wanted, EventsOf(parse, Flatten(chunks[..n]))) == None
    ensures forall j, e :: 0 <= j <= n ==> !Decides(parse, wanted, Flatten(chunks[..j]), e)
  {
    forall j | 0 <= j <= n
      ensures FirstMatch(wanted, EventsOf(parse, Flatten(chunks[..j]))) == None
    {
      FlattenPrefix(chunks, j, n);
      MoreText(parse, wanted, Flatten(chunks[..j]), Flatten(chunks[..n]));
    }
  }

  lemma UndecodedForGood(parse: string -> Payload, wanted: Event -> bool, chunks: seq<string>, n: nat)
    requires n < |chunks|
    requires FirstMatch(wanted, EventsOf(parse, Flatten(chunks[..n]))) == None
    requires !Decodes(parse, Flatten(chunks[..n + 1]))
    ensures forall e :: !DecidedAtBoundary(parse, wanted, chunks, e)
  {
    UndecidedSoFar(parse, wanted, chunks, n);
    forall j | n < j <= |chunks|
      ensures !Decodes(parse, Flatten(chunks[..j]))
    {
      FlattenPrefix(chunks, n + 1, j);
      MoreText(parse, wanted, Flatten(chunks[..n + 1]), Flatten(chunks[..j]));
    }
  }

  lemma DecidedForGood(parse: string -> Payload, wanted: Event -> bool, chunks: seq<string>, n: nat, e: Event)
    requires n <= |chunks| && Decides(parse, wanted, Flatten(chunks[..n]), e)
    ensures forall e' :: DecidedAtBoundary(parse, wanted, chunks, e') <==> e' == e
  {
    forall j, e' | 0 <= j <= |chunks| && Decides(parse, wanted, Flatten(chunks[..j]), e')
      ensures e' == e
    {
      var lo, hi := if j < n then j else n, if j < n then n else j;
      FlattenPrefix(chunks, lo, hi);
      MoreText(parse, wanted, Flatten(chunks[..lo]), Flatten(chunks[..hi]));
    }
  }

  /** When every closed frame decodes, the wait depends on the text alone: it finds the first wanted event in stream order. */
  lemma DecodableStreamIsChunkInvariant(parse: string -> Payload, wanted: Event -> bool, chunks: seq<string>, e: Event)
    requires Decodes(parse, Flatten(chunks))
    ensures DecidedAtBoundary(parse, wanted, chunks, e) <==> FirstMatch(wanted, EventsOf(parse, Flatten(chunks))) == Some(e)
  {
    assert chunks[..|chunks|] == chunks;
    if FirstMatch(wanted, EventsOf(parse, Flatten(chunks))).None? {
      UndecidedSoFar(parse, wanted, chunks, |chunks|);
    } else {
      DecidedForGood(parse, wanted, chunks, |chunks|, FirstMatch(wanted, EventsOf(parse, Flatten(chunks))).value);
    }
  }

  /**
   With an undecodable frame the cut does matter. If the wanted event's frame and a later undecodable frame close in
   one chunk the event is never returned; if a chunk boundary falls between them it is.
   */
  lemma UndecodableStreamDependsOnCut(parse: string -> Payload, wanted: Event -> bool, a: string, b: string, e: Event)
    requires Decides(parse, wanted, a, e) && !Decodes(parse, a + b)
    ensures DecidedAtBoundary(parse, wanted, [a, b], e)
    ensures !DecidedAtBoundary(parse, wanted, [a + b], e)
  {
    var cut, whole := [a, b], [a + b];
    FlattenTake(cut, 0);
    assert cut[..0] == [] && "" + a == a;
    assert Decides(parse, wanted, Flatten(cut[..1]), e);
    FlattenTake(whole, 0);
    assert whole[..0] == [] && "" + (a + b) == a + b;
    assert Split(DeliveryReader(parse).FrameSeparator(), "") == [""];
    UndecodedForGood(parse, wanted, whole, 0);
  }

  /** The wait has the same outcome for all ways of cutting the text. */
  ghost predicate CutIndependent(parse: string -> Payload, wanted: Event -> bool, text: string) {
    forall cutA, cutB, e | Flatten(cutA) == text && Flatten(cutB) == text ::
      DecidedAtBoundary(parse, wanted, cutA, e) <==> DecidedAtBoundary(parse, wanted, cutB, e)
  }

  /** The beginning of an undecodable text that ends before its first undecodable frame has all the events of the text. */
  lemma DecodableBeginning(parse: string -> Payload, text: string) returns (a: string)
    requires !Decodes(parse, text)
    ensures a <= text && Decodes(parse, a) && EventsOf(parse, a) == EventsOf(parse, text)
  {
    var reader := DeliveryReader(parse);
    var n := GoodBeginning(reader, reader.Frames(text), "");
    a := BeginningThatCloses(reader.FrameSeparator(), text, n);
  }

  lemma UnwantedStreamIsNeverDecided(parse: string -> Payload, wanted: Event -> bool, chunks: seq<string>, e: Event)
    requires FirstMatch(wanted, EventsOf(parse, Flatten(chunks))) == None
    ensures !DecidedAtBoundary(parse, wanted, chunks, e)
  {
    assert chunks[..|chunks|] == chunks;
    UndecidedSoFar(parse, wanted, chunks, |chunks|);
  }

  /**
   When the cut does not matter, exactly: the wait depends on the text alone if and only if all closed frames decode, or no event
   before the first one that does not is wanted.
   */
  lemma CutIndependentExactly(parse: string -> Payload, wanted: Event -> bool, text: string)
    ensures CutIndependent(parse, wanted, text) <==> Decodes(parse, text) || FirstMatch(wanted, EventsOf(parse, text)) == None
  {
    var first := FirstMatch(wanted, EventsOf(parse, text));
    if Decodes(parse, text) || first == None {
      forall cutA, cutB, e | Flatten(cutA) == text && Flatten(cutB) == text
        ensures DecidedAtBoundary(parse, wanted, cutA, e) <==> DecidedAtBoundary(parse, wanted, cutB, e)
      {
        if first == None {
          UnwantedStreamIsNeverDecided(parse, wanted, cutA, e);
          UnwantedStreamIsNeverDecided(parse, wanted, cutB, e);
        } else {
          DecodableStreamIsChunkInvariant(parse, wanted, cutA, e);
          DecodableStreamIsChunkInvariant(parse, wanted, cutB, e);
        }
      }
    } else {
      var a := DecodableBeginning(parse, text);
      var b := text[|a|..];
      assert a + b == text;
      UndecodableStreamDependsOnCut(parse, wanted, a, b, first.value);
      FlattenTwo(a, b);
      FlattenOne(a + b);
    }
  }

  lemma FlattenTwo(a: string, b: string)
    ensures Flatten([a, b]) == a + b
  {
    FlattenTake([a, b], 1);
    FlattenOne(a);
    assert [a, b][..1] == [a] && [a, b][..2] == [a, b];
  }

  /** A wanted message followed by one whose data does not decode: found when each has its own chunk, lost when they share one. */
  lemma MessagesShareAChunk(parse: string -> Payload, wanted: Event -> bool, good: (string, string), bad: (string, string))
    requires Encodable(DeliveryReader(parse), good) && wanted(parse(good.1).asEvent)
    requires SingleLine(bad.0) && SingleLine(bad.1) && bad.1 != "" && !IsTrimmed(bad.1[0]) && parse(bad.1).Malformed?
    ensures var a, b := Encode(good.0, good.1), Encode(bad.0, bad.1);
            && DecidedAtBoundary(parse, wanted, [a, b], parse(good.1).asEvent)
            && !DecidedAtBoundary(parse, wanted, [a + b], parse(good.1).asEvent)
  {
    var reader, a, b := DeliveryReader(parse), Encode(good.0, good.1), Encode(bad.0, bad.1);
    hide Consume, Split;
    EncodeRoundTrip(reader, [good], "");
    assert EncodeAll([good]) == a + EncodeAll([good][1..]) == a + "" == a;
    assert MessageEvents(reader, [good]) == [parse(good.1).asEvent] + MessageEvents(reader, [good][1..]);
    FramesOfEncoded(reader, good.0, good.1, b);
    FramesOfEncoded(reader, bad.0, bad.1, "");
    assert b + "" == b;
    DataOfEncoded(reader, bad.0, bad.1);
    BadTailThrows(reader, Body(good.0, good.1), Body(bad.0, bad.1), reader.Frames(""));
    UndecodableStreamDependsOnCut(parse, wanted, a, b, parse(good.1).asEvent);
  }

  lemma BadTailThrows(reader: Reader, good: string, bad: string, rest: seq<string>)
    requires ParseFrame(reader, bad).Throws?
    ensures Consume(reader, [good] + ([bad] + rest), "").threw
  {
    var frames := [good] + ([bad] + rest);
    assert frames[..2][1] == bad;
    ConsumePrefix(reader, frames, 2, "");
  }

  // ---- Agreement with the tail reader ----

  /** A frame whose data decodes to an array: the one payload the readers treat differently. */
  predicate IsArrayFrame(parse: string -> Payload, frame: string) {
    var dataLines := DataLines(Split(TailReader(parse).LineSeparator(), frame));
    dataLines != [] && parse(JoinLines(dataLines)).List?
  }

  lemma FramesAgree(parse: string -> Payload, frame: string)
    requires NoCarriageReturn(frame)
    ensures var tail, delivery := ParseFrame(TailReader(parse), frame), ParseFrame(DeliveryReader(parse), frame);
            && (IsArrayFrame(parse, frame) ==> tail.Yields? && |tail.events| == 1 && delivery == Yields([]))
            && (!IsArrayFrame(parse, frame) ==> tail == delivery)
  {
    NotationsAgree(TailReader(parse).LineSeparator(), frame);
  }

  lemma {:induction false} BatchesAgree(parse: string -> Payload, frames: seq<string>)
    requires forall f :: f in frames ==> NoCarriageReturn(f)
    requires !Consume(TailReader(parse), frames, "").threw
    ensures var tail, delivery := Consume(TailReader(parse), frames, ""), Consume(DeliveryReader(parse), frames, "");
            && !delivery.threw && |delivery.events| <= |tail.events|
            && (delivery.events == tail.events <==> forall f :: f in frames ==> !IsArrayFrame(parse, f))
            && (|delivery.events| == |tail.events| ==> delivery.events == tail.events)
  {
    if frames != [] {
      var init, last := frames[..|frames| - 1], frames[|frames| - 1];
      assert frames == init + [last];
      ConsumePrefix(TailReader(parse), frames, |init|, "");
      BatchesAgree(parse, init);
      FramesAgree(parse, last);
      var tail, delivery := Consume(TailReader(parse), init, ""), Consume(DeliveryReader(parse), init, "");
      DeliverAllEvents(tail, ParseFrame(TailReader(parse), last).events);
      DeliverAllEvents(delivery, ParseFrame(DeliveryReader(parse), last).events);
    }
  }

  /** On decodable text without carriage returns the two readers agree exactly when no closed frame holds an array. */
  lemma ReadersAgree(parse: string -> Payload, text: string)
    requires NoCarriageReturn(text)
    requires !WholeText(TailReader(parse), text, "").threw
    ensures WholeText(DeliveryReader(parse), text, "").events == WholeText(TailReader(parse), text, "").events <==>
            forall f :: f in TailReader(parse).Frames(text) ==> !IsArrayFrame(parse, f)
    ensures TailReader(parse).CarryOver(text) == DeliveryReader(parse).CarryOver(text)
  {
    NotationsAgree(TailReader(parse).FrameSeparator(), text);
    var frames := TailReader(parse).Frames(text);
    assert forall f :: f in frames ==> f in Split(TailReader(parse).FrameSeparator(), text);
    BatchesAgree(parse, frames);
  }
}
