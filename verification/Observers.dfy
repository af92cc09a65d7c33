/**
 * The bounded observer of a response stream (src/proxy/sse.rs,
 * `ResponseStreamObserver`). It dispatches an event as soon as its empty line
 * is seen, at a CR without waiting for the LF of a CRLF, and keeps at most a
 * fixed number of bytes whatever the upstream sends.
 */
module Observers {
  import opened Prelude
  import opened EventStream
  import Utf8

  /** What the code reads from a decoded JSON object; `text` stands for all of it. */
  datatype Event = Event(kind: Option<seq<byte>>, usage: Option<Usage>, hasError: bool, text: seq<byte>)

  datatype StreamFailure = StreamFailure(reason: string, status: nat)

  /** JSON decoding and error classification, which are not modelled further. */
  datatype Decoder = Decoder(
    parse: seq<byte> -> Option<Event>,
    classify: (Event, seq<byte>) -> Option<StreamFailure>)

  // ---------------------------------------------------------------------
  // Bytes
  // ---------------------------------------------------------------------

  function Ascii(s: string): (bytes: seq<byte>)
    ensures |bytes| == |s|
    ensures forall i :: 0 <= i < |s| ==> bytes[i] == s[i] as int % 256
  {
    seq(|s|, i requires 0 <= i < |s| => s[i] as int % 256)
  }

  predicate StartsWith(line: seq<byte>, prefix: seq<byte>) {
    |prefix| <= |line| && line[..|prefix|] == prefix
  }

  predicate IsAsciiWhitespace(b: byte) {
    b == 9 || b == LF || b == 12 || b == CR || b == SPACE
  }

  function TrimStart(s: seq<byte>): (t: seq<byte>)
    ensures |t| <= |s|
  {
    if s != [] && IsAsciiWhitespace(s[0]) then TrimStart(s[1..]) else s
  }

  function TrimEnd(s: seq<byte>): (t: seq<byte>)
    ensures |t| <= |s|
  {
    if s != [] && IsAsciiWhitespace(s[|s| - 1]) then TrimEnd(s[..|s| - 1]) else s
  }

  function Trim(s: seq<byte>): seq<byte> {
    TrimEnd(TrimStart(s))
  }

  function FirstBytes(s: seq<byte>): seq<byte> {
    if |s| <= 100 then s else s[..100]
  }

  /** The retained part of an event name, decoded lossily. */
  function NameOf(value: seq<byte>): seq<byte> {
    Utf8.Lossy(FirstBytes(Trim(value)))
  }

  function WithoutSpace(value: seq<byte>): (v: seq<byte>)
    ensures |v| <= |value|
  {
    if value != [] && value[0] == SPACE then value[1..] else value
  }

  const COMPLETED: seq<byte> := Ascii("response.completed")
  const INCOMPLETE: seq<byte> := Ascii("response.incomplete")
  const FAILED: seq<byte> := Ascii("response.failed")
  const ERROR: seq<byte> := Ascii("error")
  const DONE: seq<byte> := Ascii("done")
  const DONE_MARK: seq<byte> := Ascii("[DONE]")
  const EVENT_FIELD: seq<byte> := Ascii("event:")
  const DATA_FIELD: seq<byte> := Ascii("data:")

  predicate IsErrorName(name: seq<byte>) {
    name == ERROR || name == FAILED
  }

  predicate IsTerminalName(name: seq<byte>) {
    name == COMPLETED || name == INCOMPLETE || IsErrorName(name)
  }

  /** Cutting and decoding a name makes no error name of another one. */
  lemma ErrorNamesAreExact(value: seq<byte>)
    ensures IsErrorName(NameOf(value)) <==> IsErrorName(Trim(value))
  {
    Utf8.AsciiIsKept(FirstBytes(Trim(value)));
    assert Utf8.IsAscii(ERROR) && Utf8.IsAscii(FAILED);
  }

  // ---------------------------------------------------------------------
  // The automaton
  // ---------------------------------------------------------------------

  datatype Observer = Observer(
    limit: nat, buffer: seq<byte>, data: seq<byte>, eventName: seq<byte>,
    oversized: bool, droppingLine: bool, skipLf: bool,
    terminal: bool, terminalEvent: seq<byte>, usage: Option<Usage>)

  /** The event of one dispatch. */
  datatype Record = Record(eventName: seq<byte>, data: seq<byte>, oversized: bool)

  datatype Seen = Seen(observer: Observer, failure: Option<StreamFailure>, records: seq<Record>)

  function Fresh(limit: nat): Observer {
    Observer(limit, [], [], [], false, false, false, false, [], None)
  }

  function Decoded(dec: Decoder, r: Record): Option<Event> {
    if !r.oversized && r.data != [] then dec.parse(r.data) else None
  }

  /** The name that decides whether an event is terminal; an explicit error name is not downgraded. */
  function EventName(dec: Decoder, r: Record): seq<byte> {
    var event := Decoded(dec, r);
    if IsErrorName(r.eventName) then r.eventName
    else if event.Some? && event.value.kind.Some? then event.value.kind.value
    else r.eventName
  }

  function Dispatch(o: Observer, dec: Decoder): Seen {
    var r := Record(o.eventName, o.data, o.oversized);
    var event := Decoded(dec, r);
    var name := EventName(dec, r);
    var cleared := o.(eventName := [], data := [], oversized := false);
    if o.terminal then Seen(cleared, None, [r])
    else
      var failure := if event.Some? then dec.classify(event.value, o.eventName) else None;
      if IsTerminalName(name) then
        Seen(cleared.(terminal := true, terminalEvent := name,
                      usage := if event.Some? then event.value.usage else None), failure, [r])
      else if Trim(o.data) == DONE_MARK then
        Seen(cleared.(terminal := true, terminalEvent := DONE), failure, [r])
      else Seen(cleared, failure, [r])
  }

  function Field(o: Observer, line: seq<byte>): Observer {
    if StartsWith(line, EVENT_FIELD) then o.(eventName := NameOf(line[|EVENT_FIELD|..]))
    else if StartsWith(line, DATA_FIELD) then
      if o.oversized then o
      else
        var value := WithoutSpace(line[|DATA_FIELD|..]);
        if |o.data| + |value| + 1 > o.limit then o.(oversized := true, data := [])
        else o.(data := o.data + value + [LF])
    else o
  }

  function Line(o: Observer, dec: Decoder): Seen {
    if o.droppingLine then Seen(o.(droppingLine := false, buffer := []), None, [])
    else if o.buffer == [] then Dispatch(o, dec)
    else Seen(Field(o, o.buffer).(buffer := []), None, [])
  }

  function Step(o: Observer, dec: Decoder, b: byte): Seen {
    if o.terminal then Seen(o, None, [])
    else if o.skipLf && b == LF then Seen(o.(skipLf := false), None, [])
    else if IsBreak(b) then Line(o.(skipLf := b == CR), dec)
    else
      var o := o.(skipLf := false);
      Seen(if o.droppingLine then o
           else if |o.buffer| >= o.limit then o.(buffer := [], data := [], oversized := true, droppingLine := true)
           else o.(buffer := o.buffer + [b]), None, [])
  }

  /** Two readings in a row; the later failure is the one reported. */
  function Followed(first: Seen, second: Seen): Seen {
    Seen(second.observer, if second.failure.Some? then second.failure else first.failure,
         first.records + second.records)
  }

  function Feed(o: Observer, dec: Decoder, bytes: seq<byte>): Seen {
    if bytes == [] then Seen(o, None, [])
    else
      var before := Feed(o, dec, bytes[..|bytes| - 1]);
      Followed(before, Step(before.observer, dec, bytes[|bytes| - 1]))
  }

  function FeedAll(o: Observer, dec: Decoder, chunks: seq<seq<byte>>): Seen {
    if chunks == [] then Seen(o, None, [])
    else
      var before := FeedAll(o, dec, chunks[..|chunks| - 1]);
      Followed(before, Feed(before.observer, dec, chunks[|chunks| - 1]))
  }

  // ---------------------------------------------------------------------
  // Arbitrary bytes
  // ---------------------------------------------------------------------

  lemma FollowedInTurn(a: Seen, b: Seen, c: Seen)
    ensures Followed(Followed(a, b), c) == Followed(a, Followed(b, c))
  {
    assert a.records + b.records + c.records == a.records + (b.records + c.records);
  }

  lemma FeedSnoc(o: Observer, dec: Decoder, bytes: seq<byte>, b: byte)
    ensures Feed(o, dec, bytes + [b])
            == Followed(Feed(o, dec, bytes), Step(Feed(o, dec, bytes).observer, dec, b))
  {
    assert (bytes + [b])[..|bytes|] == bytes;
  }

  lemma FeedNothing(o: Observer, dec: Decoder, a: seq<byte>)
    ensures Feed(o, dec, a + []) == Followed(Feed(o, dec, a), Feed(Feed(o, dec, a).observer, dec, []))
  {
    assert a + [] == a;
    assert Feed(o, dec, a).records + [] == Feed(o, dec, a).records;
  }

  lemma {:induction false} FeedConcat(o: Observer, dec: Decoder, a: seq<byte>, b: seq<byte>)
    ensures Feed(o, dec, a + b) == Followed(Feed(o, dec, a), Feed(Feed(o, dec, a).observer, dec, b))
    decreases |b|
  {
    if b == [] {
      FeedNothing(o, dec, a);
    } else {
      var init, last := b[..|b| - 1], b[|b| - 1];
      var first := Feed(o, dec, a);
      var second := Feed(first.observer, dec, init);
      assert a + b == (a + init) + [last] && b == init + [last];
      FeedConcat(o, dec, a, init);
      FeedSnoc(o, dec, a + init, last);
      FeedSnoc(first.observer, dec, init, last);
      FollowedInTurn(first, second, Step(second.observer, dec, last));
    }
  }

  lemma FeedNext(o: Observer, dec: Decoder, bytes: seq<byte>, i: nat)
    requires i < |bytes|
    ensures var before := Feed(o, dec, bytes[..i]);
            Feed(o, dec, bytes[..i + 1]) == Followed(before, Step(before.observer, dec, bytes[i]))
  {
    assert bytes[..i + 1][..i] == bytes[..i];
  }

  /** However the bytes are split: same final state, same last failure, same dispatched events. */
  lemma {:induction false} SplitsAreInvisible(o: Observer, dec: Decoder, chunks: seq<seq<byte>>)
    ensures FeedAll(o, dec, chunks) == Feed(o, dec, Flatten(chunks))
    decreases |chunks|
  {
    if chunks == [] {
    } else {
      SplitsAreInvisible(o, dec, chunks[..|chunks| - 1]);
      FeedConcat(o, dec, Flatten(chunks[..|chunks| - 1]), chunks[|chunks| - 1]);
    }
  }

  ghost predicate Bounded(o: Observer) {
    |o.buffer| <= o.limit && |o.data| <= o.limit
  }

  lemma LineStaysBounded(o: Observer, dec: Decoder)
    requires Bounded(o)
    ensures Bounded(Line(o, dec).observer) && Line(o, dec).observer.limit == o.limit
  {
  }

  lemma StepStaysBounded(o: Observer, dec: Decoder, b: byte)
    requires Bounded(o)
    ensures Bounded(Step(o, dec, b).observer) && Step(o, dec, b).observer.limit == o.limit
  {
    LineStaysBounded(o.(skipLf := b == CR), dec);
  }

  /** Memory stays within the limit on every input. */
  lemma {:induction false} BuffersStayBounded(o: Observer, dec: Decoder, bytes: seq<byte>)
    requires Bounded(o)
    ensures Bounded(Feed(o, dec, bytes).observer) && Feed(o, dec, bytes).observer.limit == o.limit
    decreases |bytes|
  {
    if bytes == [] {
    } else {
      BuffersStayBounded(o, dec, bytes[..|bytes| - 1]);
      StepStaysBounded(Feed(o, dec, bytes[..|bytes| - 1]).observer, dec, bytes[|bytes| - 1]);
    }
  }

  /** Nothing after a terminal event changes the observer, so its first usage record stands. */
  lemma {:induction false} TerminalIsFinal(o: Observer, dec: Decoder, bytes: seq<byte>)
    requires o.terminal
    ensures Feed(o, dec, bytes) == Seen(o, None, [])
    decreases |bytes|
  {
    if bytes == [] {
    } else {
      TerminalIsFinal(o, dec, bytes[..|bytes| - 1]);
    }
  }

  lemma FirstTerminalStands(o: Observer, dec: Decoder, a: seq<byte>, b: seq<byte>)
    requires Feed(o, dec, a).observer.terminal
    ensures Feed(o, dec, a + b) == Feed(o, dec, a)
  {
    FeedConcat(o, dec, a, b);
    TerminalIsFinal(Feed(o, dec, a).observer, dec, b);
    assert Feed(o, dec, a).records + [] == Feed(o, dec, a).records;
  }

  lemma FeedStops(o: Observer, dec: Decoder, bytes: seq<byte>, i: nat)
    requires i <= |bytes| && Feed(o, dec, bytes[..i]).observer.terminal
    ensures Feed(o, dec, bytes) == Feed(o, dec, bytes[..i])
  {
    assert bytes == bytes[..i] + bytes[i..];
    FirstTerminalStands(o, dec, bytes[..i], bytes[i..]);
  }

  /** Reachable observers that have not seen a terminal event keep no terminal data. */
  ghost predicate Running(o: Observer) {
    !o.terminal ==> o.terminalEvent == [] && o.usage == None
  }

  lemma LineKeepsRunning(o: Observer, dec: Decoder)
    requires Running(o)
    ensures Running(Line(o, dec).observer)
  {
  }

  lemma StepKeepsRunning(o: Observer, dec: Decoder, b: byte)
    requires Running(o)
    ensures Running(Step(o, dec, b).observer)
  {
    LineKeepsRunning(o.(skipLf := b == CR), dec);
  }

  lemma {:induction false} FeedKeepsRunning(o: Observer, dec: Decoder, bytes: seq<byte>)
    requires Running(o)
    ensures Running(Feed(o, dec, bytes).observer)
    decreases |bytes|
  {
    if bytes == [] {
    } else {
      FeedKeepsRunning(o, dec, bytes[..|bytes| - 1]);
      StepKeepsRunning(Feed(o, dec, bytes[..|bytes| - 1]).observer, dec, bytes[|bytes| - 1]);
    }
  }

  /**
   * The byte that ends a non-terminal event, oversized or not, leaves a fresh
   * observer, up to the LF it still expects after a CR.
   */
  lemma DispatchLeavesFreshObserver(o: Observer, dec: Decoder, b: byte)
    requires Running(o) && Step(o, dec, b).records != [] && !Step(o, dec, b).observer.terminal
    ensures IsBreak(b) && Step(o, dec, b).observer == Fresh(o.limit).(skipLf := b == CR)
  {
  }

  /** Expecting that LF changes nothing: the rest is read as a fresh observer reads it. */
  lemma {:induction false} SkippedLfIsHarmless(limit: nat, dec: Decoder, bytes: seq<byte>)
    requires bytes != []
    ensures Feed(Fresh(limit).(skipLf := true), dec, bytes)
            == Feed(Fresh(limit), dec, if bytes[0] == LF then bytes[1..] else bytes)
    decreases |bytes|
  {
    var waiting := Fresh(limit).(skipLf := true);
    FeedOne(waiting, dec, bytes[0]);
    FeedOne(Fresh(limit), dec, bytes[0]);
    assert bytes == [bytes[0]] + bytes[1..];
    FeedConcat(waiting, dec, [bytes[0]], bytes[1..]);
    FeedConcat(Fresh(limit), dec, [bytes[0]], bytes[1..]);
    if bytes[0] == LF {
      var rest := Feed(Fresh(limit), dec, bytes[1..]);
      assert [] + rest.records == rest.records;
    }
  }

  lemma FeedOne(o: Observer, dec: Decoder, b: byte)
    ensures Feed(o, dec, [b]) == Step(o, dec, b)
  {
    assert [b][..0] == [];
    assert [] + Step(o, dec, b).records == Step(o, dec, b).records;
  }
}
