/**
 * The gate and the observer read the same events.
 *
 * The observer sees frames the gate has cut. Here its byte automaton is
 * compared with a reading of whole lines, frame by frame: one dispatch per
 * frame, on its closing empty line, with every field of the frame and nothing
 * dropped.
 */
module GatedEvents {
  import opened Prelude
  import opened EventStream
  import opened EventGates
  import Observers

  type Observer = Observers.Observer
  type Seen = Observers.Seen
  type Record = Observers.Record
  type Decoder = Observers.Decoder

  // ---------------------------------------------------------------------
  // Fields of an event, read line by line
  // ---------------------------------------------------------------------

  /** The last `event` value and all `data` values of some lines. */
  datatype Fields = Fields(event: Option<seq<byte>>, data: seq<seq<byte>>)

  const NO_FIELDS: Fields := Fields(None, [])

  function Note(fields: Fields, line: seq<byte>): Fields {
    if Observers.StartsWith(line, Observers.EVENT_FIELD) then
      fields.(event := Some(line[|Observers.EVENT_FIELD|..]))
    else if Observers.StartsWith(line, Observers.DATA_FIELD) then
      fields.(data := fields.data + [line[|Observers.DATA_FIELD|..]])
    else fields
  }

  /** The fields of the first event of a stream. */
  function ReadFields(s: seq<byte>, fields: Fields): Fields
    decreases |s|
  {
    if !HasLine(s) || LineLength(s) == 0 then fields
    else ReadFields(s[LineEnd(s)..], Note(fields, s[..LineLength(s)]))
  }

  function ObservedName(fields: Fields): seq<byte> {
    if fields.event.Some? then Observers.NameOf(fields.event.value) else []
  }

  function ObservedData(values: seq<seq<byte>>): seq<byte> {
    if values == [] then []
    else ObservedData(values[..|values| - 1]) + Observers.WithoutSpace(values[|values| - 1]) + [LF]
  }

  function RecordOf(fields: Fields): Record {
    Observers.Record(ObservedName(fields), ObservedData(fields.data), false)
  }

  // ---------------------------------------------------------------------
  // One line
  // ---------------------------------------------------------------------

  /** An observer between two lines of an event whose fields so far are `fields`. */
  ghost predicate Between(o: Observer, fields: Fields) {
    && o.buffer == [] && !o.oversized && !o.droppingLine && !o.terminal
    && o.eventName == ObservedName(fields) && o.data == ObservedData(fields.data)
  }

  lemma PushByte(o: Observer, dec: Decoder, b: byte)
    requires !o.terminal && !o.droppingLine && |o.buffer| < o.limit && !IsBreak(b)
    ensures Observers.Step(o, dec, b) == Observers.Seen(o.(buffer := o.buffer + [b], skipLf := false), None, [])
  {
  }

  lemma {:induction false} FeedContent(o: Observer, dec: Decoder, content: seq<byte>)
    requires !o.terminal && !o.droppingLine && |o.buffer| + |content| <= o.limit
    requires forall b :: b in content ==> !IsBreak(b)
    ensures Observers.Feed(o, dec, content)
            == Observers.Seen(o.(buffer := o.buffer + content, skipLf := o.skipLf && content == []), None, [])
    decreases |content|
  {
    if content == [] {
      assert o.buffer + content == o.buffer;
    } else {
      var init, last := content[..|content| - 1], content[|content| - 1];
      FeedContent(o, dec, init);
      assert last in content && content == init + [last];
      PushByte(o.(buffer := o.buffer + init, skipLf := o.skipLf && init == []), dec, last);
      assert o.buffer + init + [last] == o.buffer + content;
    }
  }

  /** What a complete line terminator does once the line is in the buffer. */
  function Ended(o: Observer, dec: Decoder, terminator: seq<byte>): Seen
    requires terminator != []
  {
    var seen := Observers.Line(o.(skipLf := terminator[0] == CR), dec);
    if |terminator| == 2 && !seen.observer.terminal then seen.(observer := seen.observer.(skipLf := false)) else seen
  }

  ghost predicate IsTerminator(terminator: seq<byte>) {
    terminator == [LF] || terminator == [CR] || terminator == [CR, LF]
  }

  lemma FeedTerminator(o: Observer, dec: Decoder, terminator: seq<byte>)
    requires !o.terminal && IsTerminator(terminator) && (o.skipLf ==> terminator[0] != LF)
    ensures Observers.Feed(o, dec, terminator) == Ended(o, dec, terminator)
  {
    Observers.FeedOne(o, dec, terminator[0]);
    if |terminator| == 1 {
      assert terminator == [terminator[0]];
    } else {
      assert terminator == [CR] + [LF];
      Observers.FeedConcat(o, dec, [CR], [LF]);
      var seen := Observers.Step(o, dec, CR);
      Observers.FeedOne(seen.observer, dec, LF);
      assert seen.records + [] == seen.records;
    }
  }

  /** A field line updates the observer as it updates the fields; with room left, nothing is dropped. */
  lemma FieldIsNoted(o: Observer, fields: Fields, line: seq<byte>)
    requires Between(o, fields) && |o.data| + |line| <= o.limit
    ensures Between(Observers.Field(o, line), Note(fields, line))
    ensures |Observers.Field(o, line).data| <= |o.data| + |line|
    ensures Observers.Field(o, line).limit == o.limit && Observers.Field(o, line).skipLf == o.skipLf
  {
    var noted := Note(fields, line);
    if noted.data != fields.data {
      assert noted.data[..|noted.data| - 1] == fields.data;
    }
  }

  /** The end of a field line, with the line in the buffer. */
  lemma EndFieldLine(o: Observer, dec: Decoder, fields: Fields, content: seq<byte>, terminator: seq<byte>)
    requires Between(o, fields) && content != [] && |o.data| + |content| <= o.limit && IsTerminator(terminator)
    ensures var seen := Ended(o.(buffer := content, skipLf := false), dec, terminator);
            && seen.failure == None && seen.records == []
            && Between(seen.observer, Note(fields, content)) && seen.observer.limit == o.limit
            && |seen.observer.data| <= |o.data| + |content|
            && seen.observer.skipLf == (terminator == [CR])
  {
    var o1 := o.(skipLf := terminator[0] == CR);
    FieldIsNoted(o1, fields, content);
    assert Observers.Field(o1.(buffer := content), content).(buffer := []) == Observers.Field(o1, content);
  }

  lemma FeedFieldLine(o: Observer, dec: Decoder, content: seq<byte>, terminator: seq<byte>)
    requires o.buffer == [] && !o.terminal && !o.droppingLine && content != [] && |content| <= o.limit
    requires (forall b :: b in content ==> !IsBreak(b)) && IsTerminator(terminator)
    ensures Observers.Feed(o, dec, content + terminator)
              == Ended(o.(buffer := content, skipLf := false), dec, terminator)
  {
    Observers.FeedConcat(o, dec, content, terminator);
    FeedContent(o, dec, content);
    assert [] + content == content;
    FeedTerminator(o.(buffer := content, skipLf := false), dec, terminator);
    var seen := Ended(o.(buffer := content, skipLf := false), dec, terminator);
    assert [] + seen.records == seen.records;
  }

  // ---------------------------------------------------------------------
  // One frame
  // ---------------------------------------------------------------------

  /** Dispatching a record from an observer with nothing pending. */
  function Dispatched(o: Observer, dec: Decoder, r: Record): Seen {
    Observers.Dispatch(Observers.Fresh(o.limit).(eventName := r.eventName, data := r.data, oversized := r.oversized),
                       dec)
  }

  /** One dispatch, of `r`, and nothing left over; `cr` tells whether a LF may still be skipped. */
  ghost predicate SawOne(seen: Seen, o: Observer, dec: Decoder, r: Record, cr: bool) {
    && seen.records == [r]
    && seen.failure == Dispatched(o, dec, r).failure
    && seen.observer.(skipLf := false) == Dispatched(o, dec, r).observer
    && (!seen.observer.terminal ==> seen.observer.skipLf == cr)
  }

  /** An empty line dispatches what is pending. */
  lemma BlankLineDispatches(o: Observer, dec: Decoder, fields: Fields, terminator: seq<byte>)
    requires Between(o, fields) && Observers.Running(o) && IsTerminator(terminator)
    ensures SawOne(Ended(o, dec, terminator), o, dec, RecordOf(fields), terminator == [CR])
  {
  }

  lemma SilentThenOne(first: Seen, second: Seen, o: Observer, dec: Decoder, r: Record, cr: bool)
    requires first.records == [] && first.failure == None && first.observer.limit == o.limit
    requires SawOne(second, first.observer, dec, r, cr)
    ensures SawOne(Observers.Followed(first, second), o, dec, r, cr)
  {
    assert [] + second.records == second.records;
  }

  lemma SplitLine(s: seq<byte>)
    requires HasLine(s)
    ensures IsTerminator(s[LineLength(s)..LineEnd(s)])
    ensures s[..LineLength(s)] + s[LineLength(s)..LineEnd(s)] == s[..LineEnd(s)]
    ensures s[..LineEnd(s)] + s[LineEnd(s)..] == s
    ensures s[LineLength(s)..LineEnd(s)] == [CR] && LineEnd(s) < |s| ==> s[LineEnd(s)] != LF
  {
    var n, k := LineLength(s), LineEnd(s);
    var terminator := s[n..k];
    assert terminator[0] == s[n] && (k == n + 2 ==> terminator[1] == s[n + 1]);
  }

  lemma FrameRest(f: seq<byte>)
    requires IsFrame(f) && LineLength(f) > 0
    ensures HasLine(f) && LineEnd(f) < |f| && IsFrame(f[LineEnd(f)..])
  {
  }

  /** The first line of a frame that has more than one is read silently. */
  lemma FirstLineIsSilent(o: Observer, dec: Decoder, fields: Fields, s: seq<byte>)
    requires Between(o, fields) && HasLine(s) && LineLength(s) > 0 && |o.data| + |s| <= o.limit
    ensures var n, k := LineLength(s), LineEnd(s);
            var first := Observers.Feed(o, dec, s[..k]);
            && first.records == [] && first.failure == None
            && Between(first.observer, Note(fields, s[..n])) && first.observer.limit == o.limit
            && |first.observer.data| + |s[k..]| <= o.limit
            && (first.observer.skipLf && k < |s| ==> s[k] != LF)
  {
    var n, k := LineLength(s), LineEnd(s);
    SplitLine(s);
    NoBreakInLine(s);
    FeedFieldLine(o, dec, s[..n], s[n..k]);
    EndFieldLine(o, dec, fields, s[..n], s[n..k]);
  }

  /** A frame causes exactly one dispatch, at its end, of exactly its fields. */
  lemma {:induction false} FrameIsOneDispatch(o: Observer, dec: Decoder, fields: Fields, f: seq<byte>)
    requires Between(o, fields) && Observers.Running(o) && IsFrame(f) && |o.data| + |f| <= o.limit
    requires o.skipLf ==> f[0] != LF
    ensures SawOne(Observers.Feed(o, dec, f), o, dec, RecordOf(ReadFields(f, fields)), f[|f| - 1] == CR)
    decreases |f|
  {
    var n, k := LineLength(f), LineEnd(f);
    SplitLine(f);
    if n == 0 {
      assert f[..k] == f && f[n..k] == f;
      FeedTerminator(o, dec, f);
      BlankLineDispatches(o, dec, fields, f);
    } else {
      var rest, noted := f[k..], Note(fields, f[..n]);
      FrameRest(f);
      FirstLineIsSilent(o, dec, fields, f);
      Observers.FeedConcat(o, dec, f[..k], rest);
      Observers.FeedKeepsRunning(o, dec, f[..k]);
      var first := Observers.Feed(o, dec, f[..k]);
      FrameIsOneDispatch(first.observer, dec, noted, rest);
      SilentThenOne(first, Observers.Feed(first.observer, dec, rest), o, dec, RecordOf(ReadFields(rest, noted)),
                    f[|f| - 1] == CR);
    }
  }

  /** Bytes without an empty line dispatch nothing. */
  lemma {:induction false} RestIsSilent(o: Observer, dec: Decoder, fields: Fields, s: seq<byte>)
    requires Between(o, fields) && EventEnd(s) == None && |o.data| + |s| <= o.limit
    ensures Observers.Feed(o, dec, s).records == [] && Observers.Feed(o, dec, s).failure == None
    decreases |s|
  {
    if !HasLine(s) {
      NoBreakInLine(s);
      assert s[..|s|] == s;
      FeedContent(o, dec, s);
    } else {
      var k := LineEnd(s);
      FirstLineIsSilent(o, dec, fields, s);
      SplitLine(s);
      Observers.FeedConcat(o, dec, s[..k], s[k..]);
      RestIsSilent(Observers.Feed(o, dec, s[..k]).observer, dec, Note(fields, s[..LineLength(s)]), s[k..]);
    }
  }

  // ---------------------------------------------------------------------
  // Whole streams
  // ---------------------------------------------------------------------

  function EventRecord(event: seq<byte>): Record {
    RecordOf(ReadFields(event, NO_FIELDS))
  }

  predicate IsTerminal(dec: Decoder, r: Record) {
    Observers.IsTerminalName(Observers.EventName(dec, r)) || Observers.Trim(r.data) == Observers.DONE_MARK
  }

  /** What an observer should report of some events: each once, up to the first terminal one. */
  function Reports(dec: Decoder, events: seq<seq<byte>>): seq<Record> {
    if events == [] then []
    else if IsTerminal(dec, EventRecord(events[0])) then [EventRecord(events[0])]
    else [EventRecord(events[0])] + Reports(dec, events[1..])
  }

  /** An observer that has just finished an event, or has seen nothing yet. */
  ghost predicate Ready(o: Observer) {
    Between(o, NO_FIELDS) && Observers.Running(o)
  }

  lemma OneEvent(o: Observer, dec: Decoder, f: seq<byte>)
    requires Ready(o) && IsFrame(f) && |f| <= o.limit && (o.skipLf ==> f[0] != LF)
    ensures var seen := Observers.Feed(o, dec, f);
            && SawOne(seen, o, dec, EventRecord(f), f[|f| - 1] == CR)
            && (seen.observer.terminal <==> IsTerminal(dec, EventRecord(f)))
            && (!seen.observer.terminal ==>
                 Ready(seen.observer) && seen.observer.limit == o.limit && seen.observer.skipLf == (f[|f| - 1] == CR))
  {
    FrameIsOneDispatch(o, dec, NO_FIELDS, f);
  }

  lemma FitCons(f: seq<byte>, events: seq<seq<byte>>, limit: nat)
    ensures (forall x :: x in [f] + events ==> |x| <= limit) ==>
              |f| <= limit && forall x :: x in events ==> |x| <= limit
    ensures |Flatten([f] + events)| == |f| + |Flatten(events)|
  {
    FlattenCons(f, events);
    assert ([f] + events)[0] == f;
    forall x | x in events ensures x in [f] + events {}
  }

  /**
   * Fed with raw bytes in any fragments, the observer reports exactly the
   * events of the stream, for every mixture of line ends, as long as no event
   * exceeds its limit.
   */
  lemma {:induction false} ObserverReportsEvents(o: Observer, dec: Decoder, bytes: seq<byte>)
    requires Ready(o) && (o.skipLf && bytes != [] ==> bytes[0] != LF)
    requires EventsFit(bytes, o.limit)
    ensures Observers.Feed(o, dec, bytes).records == Reports(dec, Events(bytes))
    decreases |bytes|
  {
    if EventEnd(bytes) == None {
      RestIsSilent(o, dec, NO_FIELDS, bytes);
    } else {
      var f, rest := FirstEvent(bytes);
      FitCons(f, Events(rest), o.limit);
      var middle := ReadFirst(o, dec, f, rest);
      if !middle.terminal {
        ObserverReportsEvents(middle, dec, rest);
      }
      ReportsOfFirst(dec, f, Events(rest));
    }
  }

  /** Reading one event and then the rest, which nothing is reported of after a terminal event. */
  lemma ReadFirst(o: Observer, dec: Decoder, f: seq<byte>, rest: seq<byte>) returns (middle: Observer)
    requires Ready(o) && IsFrame(f) && |f| <= o.limit && (o.skipLf ==> f[0] != LF)
    ensures middle.terminal <==> IsTerminal(dec, EventRecord(f))
    ensures Observers.Feed(o, dec, f + rest).records
            == [EventRecord(f)] + if middle.terminal then [] else Observers.Feed(middle, dec, rest).records
    ensures !middle.terminal ==> Ready(middle) && middle.limit == o.limit && middle.skipLf == (f[|f| - 1] == CR)
  {
    OneEvent(o, dec, f);
    Observers.FeedConcat(o, dec, f, rest);
    middle := Observers.Feed(o, dec, f).observer;
    if middle.terminal {
      Observers.TerminalIsFinal(middle, dec, rest);
    }
  }

  lemma ReportsOfFirst(dec: Decoder, f: seq<byte>, rest: seq<seq<byte>>)
    ensures Reports(dec, [f] + rest)
            == [EventRecord(f)] + if IsTerminal(dec, EventRecord(f)) then [] else Reports(dec, rest)
  {
    assert ([f] + rest)[1..] == rest;
  }

  /** Frames as the gate emits them: a frame that ends in CR is not followed by LF. */
  ghost predicate Chained(frames: seq<seq<byte>>) {
    && (forall i :: 0 <= i < |frames| ==> IsFrame(frames[i]) && |frames[i]| <= EVENT_LIMIT)
    && (forall i :: 0 <= i < |frames| - 1 && frames[i][|frames[i]| - 1] == CR ==> frames[i + 1][0] != LF)
  }

  lemma {:induction false} EventsAreChained(bytes: seq<byte>)
    requires forall f :: f in Events(bytes) ==> |f| <= EVENT_LIMIT
    ensures Chained(Events(bytes))
    ensures Events(bytes) != [] ==> Events(bytes)[0] <= bytes
    decreases |bytes|
  {
    if EventEnd(bytes).None? {
    } else {
      var f, rest := FirstEvent(bytes);
      FitCons(f, Events(rest), EVENT_LIMIT);
      EventsAreChained(rest);
      ChainCons(f, Events(rest));
    }
  }

  lemma ChainCons(f: seq<byte>, frames: seq<seq<byte>>)
    requires IsFrame(f) && |f| <= EVENT_LIMIT && Chained(frames)
    requires frames != [] && f[|f| - 1] == CR ==> frames[0][0] != LF
    ensures Chained([f] + frames)
  {
    var all := [f] + frames;
    forall i | 0 <= i < |all| - 1 && all[i][|all[i]| - 1] == CR ensures all[i + 1][0] != LF {
      assert i > 0 ==> all[i] == frames[i - 1] && all[i + 1] == frames[i];
    }
  }

  /**
   * The observer behind the gate: as long as no terminal event was seen, each
   * frame causes exactly one dispatch, of exactly its fields, and leaves the
   * observer with empty buffers.
   */
  lemma {:induction false} ObserverBehindGate(dec: Decoder, frames: seq<seq<byte>>, i: nat)
    requires Chained(frames) && i <= |frames|
    requires !Observers.FeedAll(Observers.Fresh(EVENT_LIMIT), dec, frames[..i]).observer.terminal
    ensures var o := Observers.FeedAll(Observers.Fresh(EVENT_LIMIT), dec, frames[..i]).observer;
            && Ready(o) && o.limit == EVENT_LIMIT && (o.skipLf && i < |frames| ==> frames[i][0] != LF)
            && (i < |frames| ==> SawOne(Observers.Feed(o, dec, frames[i]), o, dec, EventRecord(frames[i]),
                                        frames[i][|frames[i]| - 1] == CR))
    decreases i
  {
    var start := Observers.Fresh(EVENT_LIMIT);
    if i == 0 {
    } else {
      assert frames[..i][..i - 1] == frames[..i - 1];
      var before := Observers.FeedAll(start, dec, frames[..i - 1]).observer;
      if before.terminal {
        Observers.TerminalIsFinal(before, dec, frames[i - 1]);
      }
      ObserverBehindGate(dec, frames, i - 1);
      OneEvent(before, dec, frames[i - 1]);
    }
    if i < |frames| {
      OneEvent(Observers.FeedAll(start, dec, frames[..i]).observer, dec, frames[i]);
    }
  }

  /**
   * Gate and observer agree on every stream the gate accepts: the events
   * dispatched from the gate's frames are those of the raw bytes.
   */
  lemma GateAndObserverAgree(dec: Decoder, chunks: seq<seq<byte>>)
    requires FeedAll(FRESH, chunks).Some?
    ensures var r := FeedAll(FRESH, chunks).value;
            var frames := r.frames + Finish(r.gate);
            var start := Observers.Fresh(EVENT_LIMIT);
            && Chained(frames)
            && Observers.FeedAll(start, dec, frames).records == Reports(dec, Events(Flatten(chunks)))
            && Observers.FeedAll(start, dec, chunks).records == Reports(dec, Events(Flatten(chunks)))
  {
    var r := FeedAll(FRESH, chunks).value;
    var bytes, start := Flatten(chunks), Observers.Fresh(EVENT_LIMIT);
    WholeStream(chunks);
    EventsAreChained(bytes);
    ObserverReportsEvents(start, dec, bytes);
    Observers.SplitsAreInvisible(start, dec, chunks);
    Observers.SplitsAreInvisible(start, dec, Events(bytes));
    EventsOfEvents(bytes);
    ObserverReportsEvents(start, dec, Flatten(Events(bytes)));
  }
}
