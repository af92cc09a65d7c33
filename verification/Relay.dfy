/**
 * Relaying an upstream event stream to the client (src/proxy/runtime.rs,
 * `explicit_error` and `stream_response`).
 */
module Relay {
  import opened Prelude
  import opened EventStream
  import opened EventGates
  import opened GatedEvents
  import opened StreamStructures
  import opened AttemptRuntime
  import A = Attempts
  import O = Observers
  import T = TerminalEvents

  // ---------------------------------------------------------------------
  // Explicit error frames
  // ---------------------------------------------------------------------

  /** How the relay reads text: Unicode trimming, and JSON decoding of lossily decoded text. */
  datatype Inspector = Inspector(trim: seq<byte> -> seq<byte>, parseText: seq<byte> -> Option<O.Event>)

  /** The fields of a frame split at every CR and every LF. */
  function SplitFields(s: seq<byte>, fields: Fields): Fields
    decreases |s|
  {
    var n := NextBreak(s, 0);
    var noted := Note(fields, s[..n]);
    if n == |s| then noted else SplitFields(s[n + 1..], noted)
  }

  function WithoutSpaces(value: seq<byte>): seq<byte> {
    if value != [] && value[0] == SPACE then WithoutSpaces(value[1..]) else value
  }

  function InspectedData(values: seq<seq<byte>>): seq<byte> {
    if values == [] then []
    else InspectedData(values[..|values| - 1]) + WithoutSpaces(values[|values| - 1]) + [LF]
  }

  predicate ExplicitError(ins: Inspector, frame: seq<byte>) {
    var fields := SplitFields(frame, NO_FIELDS);
    var event := if fields.event.Some? then ins.trim(fields.event.value) else [];
    || O.IsErrorName(event)
    || match ins.parseText(InspectedData(fields.data))
       case Some(value) =>
         O.IsErrorName(if value.kind.Some? then value.kind.value else event) || value.hasError
       case None => false
  }

  /**
   * Observer and relay decode text alike: trimming keeps an error name, and
   * spaces at the start of a data line do not matter to JSON.
   */
  ghost predicate Faithful(dec: O.Decoder, ins: Inspector) {
    && (forall v :: O.IsErrorName(O.Trim(v)) ==> ins.trim(v) == O.Trim(v))
    && (forall values :: dec.parse(ObservedData(values)).Some? ==>
          ins.parseText(InspectedData(values)) == dec.parse(ObservedData(values)))
  }

  lemma BlankNotesNothing(fields: Fields)
    ensures Note(fields, []) == fields
  {
  }

  /** On a frame, splitting at single bytes reads the same fields as splitting at line terminators. */
  lemma {:induction false} SplittingReadsFields(f: seq<byte>, fields: Fields)
    requires IsFrame(f)
    ensures SplitFields(f, fields) == ReadFields(f, fields)
    decreases |f|
  {
    var n, k := LineLength(f), LineEnd(f);
    if n == 0 {
      BlankFrame(f, fields);
    } else {
      FrameRest(f);
      FirstSplit(f, fields);
      SplittingReadsFields(f[k..], Note(fields, f[..n]));
    }
  }

  lemma BlankFrame(f: seq<byte>, fields: Fields)
    requires IsFrame(f) && LineLength(f) == 0
    ensures SplitFields(f, fields) == fields
  {
    assert f[..0] == [];
    BlankNotesNothing(fields);
    AfterBreak(f, fields);
    assert f[LineEnd(f)..] == [];
  }

  lemma FirstSplit(f: seq<byte>, fields: Fields)
    requires HasLine(f)
    ensures SplitFields(f, fields) == SplitFields(f[LineEnd(f)..], Note(fields, f[..LineLength(f)]))
  {
    AfterBreak(f, Note(fields, f[..LineLength(f)]));
  }

  /** The LF of a CRLF adds an empty line, which carries no field. */
  lemma AfterBreak(f: seq<byte>, fields: Fields)
    requires HasLine(f)
    ensures SplitFields(f[LineLength(f) + 1..], fields) == SplitFields(f[LineEnd(f)..], fields)
  {
    var n, k := LineLength(f), LineEnd(f);
    if k == n + 2 {
      var tail := f[n + 1..];
      assert tail[0] == LF && tail[1..] == f[k..];
      BlankNotesNothing(fields);
    }
  }

  /** A frame the observer takes for an error is one the relay refuses to forward. */
  lemma ErrorEventsAreExplicit(dec: O.Decoder, ins: Inspector, f: seq<byte>)
    requires Faithful(dec, ins) && IsFrame(f)
    requires O.IsErrorName(O.EventName(dec, EventRecord(f)))
    ensures ExplicitError(ins, f)
  {
    var fields := ReadFields(f, NO_FIELDS);
    SplittingReadsFields(f, NO_FIELDS);
    if fields.event.Some? && O.IsErrorName(O.NameOf(fields.event.value)) {
      O.ErrorNamesAreExact(fields.event.value);
      assert O.IsErrorName(O.Trim(fields.event.value));
    } else {
      assert !O.IsErrorName(EventRecord(f).eventName);
      var event := O.Decoded(dec, EventRecord(f));
      assert event.Some? && event.value.kind.Some? && event == dec.parse(ObservedData(fields.data));
    }
  }

  /** Without any leading spaces. */
  ghost predicate IsUnindented(value: seq<byte>, v: seq<byte>) {
    && (v == [] || v[0] != SPACE)
    && exists n :: 0 <= n <= |value| && v == value[n..] && (forall i :: 0 <= i < n ==> value[i] == SPACE)
  }

  /** The data of a frame as the relay reads it: each value without leading spaces, followed by a line feed. */
  ghost predicate IsInspectedData(values: seq<seq<byte>>, data: seq<byte>) {
    if values == [] then data == []
    else
      exists before, v ::
        && IsInspectedData(values[..|values| - 1], before) && IsUnindented(values[|values| - 1], v)
        && data == before + v + [LF]
  }

  lemma {:induction false} Unindented(value: seq<byte>) returns (n: nat)
    ensures n <= |value| && WithoutSpaces(value) == value[n..] && (forall i :: 0 <= i < n ==> value[i] == SPACE)
    ensures IsUnindented(value, WithoutSpaces(value))
  {
    n := 0;
    if value != [] && value[0] == SPACE {
      n := Unindented(value[1..]);
      n := n + 1;
    }
  }

  lemma {:induction false} InspectedIsData(values: seq<seq<byte>>)
    ensures IsInspectedData(values, InspectedData(values))
  {
    if values == [] {
    } else {
      InspectedIsData(values[..|values| - 1]);
      var n := Unindented(values[|values| - 1]);
    }
  }

  /** A frame says that the response failed: by its own name, or by the kind or an error in its data. */
  ghost predicate SaysError(ins: Inspector, name: seq<byte>, data: seq<byte>) {
    || T.IsErrorWord(name)
    || (ins.parseText(data).Some? &&
        var value := ins.parseText(data).value;
        value.hasError || (value.kind.Some? && T.IsErrorWord(value.kind.value)))
  }

  /** The relay refuses exactly the frames whose lines say that the response failed. */
  lemma ExplicitErrorIsExact(ins: Inspector, frame: seq<byte>)
    requires IsFrame(frame)
    ensures var value := T.EventValue(T.Lines(frame));
            exists data :: IsInspectedData(T.DataValues(T.Lines(frame)), data) &&
                           (ExplicitError(ins, frame) <==>
                            SaysError(ins, if value.Some? then ins.trim(value.value) else [], data))
  {
    SplittingReadsFields(frame, NO_FIELDS);
    T.FieldsOfEvent(frame);
    InspectedIsData(ReadFields(frame, NO_FIELDS).data);
  }

  // ---------------------------------------------------------------------
  // The relay
  // ---------------------------------------------------------------------

  datatype Upstream = Chunk(bytes: seq<byte>) | ConnectionError | DeadlineReached

  /** Why a response ended. */
  datatype Reason =
    | TerminalEvent
    | StreamFailed
    | Classified(failure: O.StreamFailure)
    | ClientDisconnect
    | EventLimit
    | SizeLimit
    | DurationLimit
    | ConnectionFailed
    | ClosedBeforeCompletion

  function OutcomeOf(reason: Reason): A.Outcome {
    match reason
    case TerminalEvent => A.Completed
    case StreamFailed => A.Failed
    case ClientDisconnect => A.ClientDisconnected
    case _ => A.UpstreamInterrupted
  }

  /** The usage the attempt is charged with; a guard that is dropped knows none. */
  function ReportedUsage(reason: Reason, observed: Option<Usage>): Option<Usage> {
    if reason.ClientDisconnect? then None else observed
  }

  const ERROR_TEXT: string :=
    "{\"type\":\"error\",\"code\":\"upstream_stream_interrupted\","
    + "\"message\":\"The upstream stream could not complete. This response was not retried.\"}"

  const ERROR_EVENT: seq<byte> := O.Ascii("event: error\ndata: " + ERROR_TEXT + "\n\n")

  /** A frame that is forwarded in the middle of a response: no error, no failure and not the end. */
  ghost predicate IsPlain(dec: O.Decoder, ins: Inspector, frame: seq<byte>) {
    && !ExplicitError(ins, frame) && T.Classified(dec, EventRecord(frame)) == None
    && !T.Ends(dec, EventRecord(frame))
  }

  /** A frame that is forwarded as the last one of a completed response. */
  ghost predicate IsLast(dec: O.Decoder, ins: Inspector, frame: seq<byte>) {
    && !ExplicitError(ins, frame) && T.Classified(dec, EventRecord(frame)) == None
    && T.Ends(dec, EventRecord(frame)) && !T.IsErrorWord(T.DecisiveName(dec, EventRecord(frame)))
  }

  ghost predicate AllPlain(dec: O.Decoder, ins: Inspector, frames: seq<seq<byte>>) {
    forall i :: 0 <= i < |frames| ==> IsPlain(dec, ins, frames[i])
  }

  /** What the client may have been sent: plain frames, the last possibly ending the response. */
  ghost predicate Forwarded(dec: O.Decoder, ins: Inspector, frames: seq<seq<byte>>, ended: bool) {
    if ended then frames != [] && AllPlain(dec, ins, frames[..|frames| - 1]) && IsLast(dec, ins, frames[|frames| - 1])
    else AllPlain(dec, ins, frames)
  }

  /** The observer state after some frames of the stream. */
  ghost function Watching(dec: O.Decoder, frames: seq<seq<byte>>): O.Observer {
    O.FeedAll(O.Fresh(EVENT_LIMIT), dec, frames).observer
  }

  /** What the observer has seen after one more frame. */
  lemma WatchingNext(dec: O.Decoder, frames: seq<seq<byte>>, f: seq<byte>)
    requires Chained(frames + [f]) && !Watching(dec, frames).terminal
    ensures Watching(dec, frames + [f]) == O.Feed(Watching(dec, frames), dec, f).observer
    ensures O.Feed(Watching(dec, frames), dec, f).failure == T.Classified(dec, EventRecord(f))
    ensures if T.Ends(dec, EventRecord(f)) then T.Knows(Watching(dec, frames + [f]), dec, EventRecord(f))
            else T.KnowsNothing(Watching(dec, frames + [f]))
  {
    var all := frames + [f];
    assert all[..|frames|] == frames && all[|frames|] == f;
    ObserverBehindGate(dec, all, |frames|);
    var first := T.FirstEventTells(Watching(dec, frames), dec, f, EventRecord(f));
    ReadyKnowsNothing(first.observer);
  }

  lemma ReadyKnowsNothing(o: O.Observer)
    ensures Ready(o) ==> T.KnowsNothing(o)
  {
  }

  /** The usage of the last of some frames, if that ends the response by its name. */
  ghost function UsageSaid(dec: O.Decoder, frames: seq<seq<byte>>): Option<Usage> {
    if frames == [] then None
    else
      var r := EventRecord(frames[|frames| - 1]);
      if T.HasEndingName(dec, r) && T.Parsed(dec, r).Some? then T.Parsed(dec, r).value.usage else None
  }

  ghost predicate NoneEnds(dec: O.Decoder, frames: seq<seq<byte>>) {
    forall i :: 0 <= i < |frames| ==> !T.Ends(dec, EventRecord(frames[i]))
  }

  lemma {:induction false} WatchingNothing(dec: O.Decoder, frames: seq<seq<byte>>)
    requires Chained(frames) && NoneEnds(dec, frames)
    ensures T.KnowsNothing(Watching(dec, frames))
  {
    if frames == [] {
    } else {
      var init, last := frames[..|frames| - 1], frames[|frames| - 1];
      ChainedPrefix(frames, |init|);
      WatchingNothing(dec, init);
      assert frames == init + [last];
      WatchingNext(dec, init, last);
    }
  }

  lemma WatchingUsage(dec: O.Decoder, frames: seq<seq<byte>>)
    requires Chained(frames) && (frames != [] ==> NoneEnds(dec, frames[..|frames| - 1]))
    ensures Watching(dec, frames).usage == UsageSaid(dec, frames)
  {
    if frames == [] {
    } else {
      var init, last := frames[..|frames| - 1], frames[|frames| - 1];
      ChainedPrefix(frames, |init|);
      WatchingNothing(dec, init);
      assert frames == init + [last];
      WatchingNext(dec, init, last);
    }
  }

  /** Why a frame is not forwarded: it is classified as a failure, or else an explicit error. */
  ghost predicate Refused(dec: O.Decoder, ins: Inspector, reason: Reason, frame: seq<byte>) {
    match reason
    case Classified(failure) => T.Classified(dec, EventRecord(frame)) == Some(failure)
    case StreamFailed => ExplicitError(ins, frame) && T.Classified(dec, EventRecord(frame)) == None
    case _ => false
  }

  /** Inspect one frame: it may be forwarded unless it is a failure or an explicit error. */
  method Inspect(observer: ResponseStreamObserver, ins: Inspector, frame: seq<byte>, ghost seen: seq<seq<byte>>)
    returns (reason: Option<Reason>)
    requires Chained(seen + [frame]) && Faithful(observer.decoder, ins)
    requires observer.Value() == Watching(observer.decoder, seen) && !observer.terminal
    modifies observer
    ensures observer.Value() == Watching(observer.decoder, seen + [frame])
    ensures reason == None ==> IsPlain(observer.decoder, ins, frame) && !observer.terminal
    ensures reason == Some(TerminalEvent) ==> IsLast(observer.decoder, ins, frame)
    ensures reason.Some? && reason != Some(TerminalEvent) ==> Refused(observer.decoder, ins, reason.value, frame)
  {
    WatchingNext(observer.decoder, seen, frame);
    var failure := observer.Feed(frame);
    if failure.Some? {
      reason := Some(Classified(failure.value));
    } else if ExplicitError(ins, frame) {
      reason := Some(StreamFailed);
    } else if observer.terminal {
      ghost var dec := observer.decoder;
      T.EndingNames(dec, EventRecord(frame));
      if O.IsErrorName(O.EventName(dec, EventRecord(frame))) {
        LastIsFrame(seen, frame);
        ErrorEventsAreExplicit(dec, ins, frame);
      }
      reason := Some(TerminalEvent);
    } else {
      reason := None;
    }
  }

  lemma LastIsFrame(seen: seq<seq<byte>>, frame: seq<byte>)
    requires Chained(seen + [frame])
    ensures IsFrame(frame)
  {
    assert (seen + [frame])[|seen|] == frame;
  }

  /** Why forwarding some frames stopped after `count` of them. */
  ghost predicate StoppedAt(dec: O.Decoder, ins: Inspector, frames: seq<seq<byte>>, count: nat, budget: nat,
                            reason: Reason)
  {
    match reason
    case TerminalEvent => true
    case ClientDisconnect => count == budget + 1
    case _ =>
      count <= budget && count < |frames| && Refused(dec, ins, reason, frames[count])
  }

  /** The response ends at a frame that is not forwarded. */
  predicate IsRefusal(reason: Option<Reason>) {
    reason.Some? && (reason.value.Classified? || reason.value.StreamFailed?)
  }

  /** How many frames the observer has seen when `forwarded` were sent: a refused one is seen as well. */
  function Inspected(reason: Option<Reason>, forwarded: nat): nat {
    if IsRefusal(reason) then forwarded + 1 else forwarded
  }

  /** The frame after `count` plain ones: forwarded, forwarded as the last one, or refused. */
  method ForwardOne(observer: ResponseStreamObserver, ins: Inspector, frames: seq<seq<byte>>, count: nat,
                    ghost earlier: seq<seq<byte>>)
    returns (reason: Option<Reason>)
    requires Chained(earlier + frames) && count < |frames| && Faithful(observer.decoder, ins)
    requires observer.Value() == Watching(observer.decoder, earlier + frames[..count]) && !observer.terminal
    requires AllPlain(observer.decoder, ins, frames[..count])
    modifies observer
    ensures observer.Value() == Watching(observer.decoder, earlier + frames[..count + 1])
    ensures reason.None? ==> AllPlain(observer.decoder, ins, frames[..count + 1]) && !observer.terminal
    ensures reason == Some(TerminalEvent) ==> Forwarded(observer.decoder, ins, frames[..count + 1], true)
    ensures reason.Some? && reason != Some(TerminalEvent) ==>
              Refused(observer.decoder, ins, reason.value, frames[count])
  {
    SeenNext(earlier, frames, count);
    reason := Inspect(observer, ins, frames[count], earlier + frames[..count]);
    if reason.None? {
      PlainNext(observer.decoder, ins, frames, count);
    } else if reason.value.TerminalEvent? {
      LastNext(observer.decoder, ins, frames, count);
    }
  }

  /**
   * Forward the frames of one chunk as far as they may go. After each frame
   * the client may be gone; `budget` counts how often it still comes back.
   */
  method ForwardFrames(observer: ResponseStreamObserver, ins: Inspector, frames: seq<seq<byte>>, budget: nat,
                       ghost earlier: seq<seq<byte>>)
    returns (count: nat, reason: Option<Reason>, left: nat)
    requires Chained(earlier + frames) && Faithful(observer.decoder, ins)
    requires observer.Value() == Watching(observer.decoder, earlier) && !observer.terminal
    modifies observer
    ensures count <= |frames| && Forwarded(observer.decoder, ins, frames[..count], reason == Some(TerminalEvent))
    ensures reason.Some? ==> StoppedAt(observer.decoder, ins, frames, count, budget, reason.value)
    ensures reason.None? ==> count == |frames| && !observer.terminal && left == budget - count
    ensures Inspected(reason, count) <= |frames|
    ensures observer.Value() == Watching(observer.decoder, earlier + frames[..Inspected(reason, count)])
  {
    count, left := 0, budget;
    assert earlier + frames[..0] == earlier;
    while count < |frames|
      invariant count <= |frames| && !observer.terminal && left == budget - count
      invariant observer.Value() == Watching(observer.decoder, earlier + frames[..count])
      invariant AllPlain(observer.decoder, ins, frames[..count])
    {
      reason := ForwardOne(observer, ins, frames, count, earlier);
      if reason.Some? {
        // A terminal frame is the last one sent; a refused frame is not sent.
        count := if reason.value.TerminalEvent? then count + 1 else count;
        return;
      }
      count := count + 1;
      if left == 0 {
        reason := Some(ClientDisconnect);
        return;
      }
      left := left - 1;
    }
    assert frames[..|frames|] == frames;
    reason := None;
  }

  lemma SeenNext(earlier: seq<seq<byte>>, frames: seq<seq<byte>>, count: nat)
    requires Chained(earlier + frames) && count < |frames|
    ensures earlier + frames[..count] + [frames[count]] == earlier + frames[..count + 1]
    ensures Chained(earlier + frames[..count + 1])
  {
    assert earlier + frames[..count + 1] == (earlier + frames)[..|earlier| + count + 1];
    ChainedPrefix(earlier + frames, |earlier| + count + 1);
  }

  lemma AllPlainAt(dec: O.Decoder, ins: Inspector, frames: seq<seq<byte>>, n: nat, i: nat)
    requires i < n <= |frames| && AllPlain(dec, ins, frames[..n])
    ensures IsPlain(dec, ins, frames[i])
  {
    assert frames[..n][i] == frames[i];
  }

  /** One more plain frame. */
  lemma PlainNext(dec: O.Decoder, ins: Inspector, frames: seq<seq<byte>>, count: nat)
    requires count < |frames| && AllPlain(dec, ins, frames[..count]) && IsPlain(dec, ins, frames[count])
    ensures AllPlain(dec, ins, frames[..count + 1])
  {
    var more := frames[..count + 1];
    forall i | 0 <= i < |more| ensures IsPlain(dec, ins, more[i]) {
      if i < count {
        AllPlainAt(dec, ins, frames, count, i);
      }
    }
  }

  /** The frame that ends the response after plain ones. */
  lemma LastNext(dec: O.Decoder, ins: Inspector, frames: seq<seq<byte>>, count: nat)
    requires count < |frames| && AllPlain(dec, ins, frames[..count]) && IsLast(dec, ins, frames[count])
    ensures Forwarded(dec, ins, frames[..count + 1], true)
  {
    var more := frames[..count + 1];
    assert more[..|more| - 1] == frames[..count] && more[count] == frames[count];
  }

  lemma ChainedPrefix(frames: seq<seq<byte>>, n: nat)
    requires Chained(frames) && n <= |frames|
    ensures Chained(frames[..n])
  {
  }

  /** Some chunks an upstream delivered, in order and from the first on. */
  ghost predicate DeliveredBy(chunks: seq<seq<byte>>, upstream: seq<Upstream>)
    decreases |chunks|
  {
    var n := |chunks|;
    n == 0 || (n <= |upstream| && upstream[n - 1] == Chunk(chunks[n - 1]) && DeliveredBy(chunks[..n - 1], upstream))
  }

  lemma DeliveredNext(chunks: seq<seq<byte>>, chunk: seq<byte>, upstream: seq<Upstream>)
    requires DeliveredBy(chunks, upstream) && |chunks| < |upstream| && upstream[|chunks|] == Chunk(chunk)
    ensures DeliveredBy(chunks + [chunk], upstream)
  {
    assert (chunks + [chunk])[..|chunks|] == chunks;
  }

  /** Whether the fixed error event follows what was forwarded. */
  predicate ShowsError(outcome: A.Outcome, reconnectFailover: bool) {
    outcome.Failed? || (outcome.UpstreamInterrupted? && !reconnectFailover)
  }

  /** The gate has read `received` and let `all` through; the observer has seen the same frames. */
  ghost predicate InStep(gate: EventGate, observer: ResponseStreamObserver, ins: Inspector,
                         received: seq<seq<byte>>, all: seq<seq<byte>>)
    reads gate, observer
  {
    && FeedAll(FRESH, received) == Some(Reading(gate.Value(), all))
    && observer.Value() == Watching(observer.decoder, all) && !observer.terminal
    && AllPlain(observer.decoder, ins, all)
  }

  lemma EventsLetThrough(received: seq<seq<byte>>)
    requires FeedAll(FRESH, received).Some?
    ensures var r := FeedAll(FRESH, received).value;
            && r.frames + Finish(r.gate) == Events(Flatten(received))
            && Chained(r.frames + Finish(r.gate)) && Chained(r.frames)
            && r.frames <= Events(Flatten(received))
  {
    var r := FeedAll(FRESH, received).value;
    WholeStream(received);
    EventsAreChained(Flatten(received));
    var all := r.frames + Finish(r.gate);
    assert all[..|r.frames|] == r.frames;
    ChainedPrefix(all, |r.frames|);
  }

  lemma FeedAllNext(received: seq<seq<byte>>, chunk: seq<byte>)
    requires FeedAll(FRESH, received).Some?
    ensures FeedAll(FRESH, received + [chunk])
            == Prefixed(FeedAll(FRESH, received).value.frames, Feed(FeedAll(FRESH, received).value.gate, chunk))
  {
    assert (received + [chunk])[..|received|] == received;
  }

  lemma ForwardedJoin(dec: O.Decoder, ins: Inspector, a: seq<seq<byte>>, b: seq<seq<byte>>, ended: bool)
    requires AllPlain(dec, ins, a) && Forwarded(dec, ins, b, ended)
    ensures Forwarded(dec, ins, a + b, ended)
  {
    var all := a + b;
    if ended {
      assert all[..|all| - 1] == a + b[..|b| - 1];
    }
  }

  function Extended(received: seq<seq<byte>>, chunk: Option<seq<byte>>): seq<seq<byte>> {
    if chunk.Some? then received + [chunk.value] else received
  }

  /** The frames one chunk, or the end of the stream, completes. */
  method Cut(gate: EventGate, chunk: Option<seq<byte>>, ghost received: seq<seq<byte>>, ghost all: seq<seq<byte>>)
    returns (result: Result<seq<seq<byte>>, ()>)
    requires FeedAll(FRESH, received) == Some(Reading(gate.Value(), all))
    modifies gate
    ensures result.Ok? ==>
              Chained(all + result.value) && all + result.value <= Events(Flatten(Extended(received, chunk)))
    ensures result.Ok? && chunk.Some? ==>
              FeedAll(FRESH, Extended(received, chunk)) == Some(Reading(gate.Value(), all + result.value))
    ensures chunk.None? ==> result.Ok? && |result.value| <= 1 && all + result.value == Events(Flatten(received))
    ensures result.Err? ==> FeedAll(FRESH, Extended(received, chunk)) == None
  {
    if chunk.Some? {
      FeedAllNext(received, chunk.value);
      result := gate.Feed(chunk.value);
      if result.Ok? {
        EventsLetThrough(received + [chunk.value]);
      }
    } else {
      EventsLetThrough(received);
      var last := gate.Finish();
      result := Ok(last);
    }
  }

  /** Why a response ended while the frames of one chunk, or the last ones, were forwarded. */
  ghost predicate Halted(dec: O.Decoder, ins: Inspector, reason: Reason, events: seq<seq<byte>>,
                         forwarded: seq<seq<byte>>, sent: nat, budget: nat)
  {
    match reason
    case TerminalEvent => true
    case ClientDisconnect => sent == budget + 1
    case _ => sent <= budget && |forwarded| < |events| && Refused(dec, ins, reason, events[|forwarded|])
  }

  lemma PartOf<T>(a: seq<T>, b: seq<T>, whole: seq<T>, n: nat)
    requires a + b <= whole && n <= |b|
    ensures |a| + n <= |whole| && a + b[..n] == whole[..|a| + n]
    ensures n < |b| ==> whole[|a| + n] == b[n]
  {
    assert whole[..|a + b|][..|a| + n] == whole[..|a| + n];
    assert (a + b)[..|a| + n] == a + b[..n];
  }

  /** What became of the frames of one chunk, or of the last ones, seen from the whole stream. */
  ghost predicate PassedOn(dec: O.Decoder, ins: Inspector, reason: Option<Reason>, events: seq<seq<byte>>,
                           forwarded: seq<seq<byte>>, count: nat, budget: nat, seen: O.Observer)
  {
    && forwarded <= events && Forwarded(dec, ins, forwarded, reason == Some(TerminalEvent))
    && (reason.Some? ==> Halted(dec, ins, reason.value, events, forwarded, count, budget))
    && Inspected(reason, |forwarded|) <= |events|
    && seen == Watching(dec, events[..Inspected(reason, |forwarded|)])
    && seen.usage == UsageSaid(dec, events[..Inspected(reason, |forwarded|)])
  }

  lemma HaltsThere(dec: O.Decoder, ins: Inspector, reason: Reason, events: seq<seq<byte>>, all: seq<seq<byte>>,
                   frames: seq<seq<byte>>, count: nat, budget: nat)
    requires all + frames <= events && count <= |frames| && StoppedAt(dec, ins, frames, count, budget, reason)
    ensures Halted(dec, ins, reason, events, all + frames[..count], count, budget)
  {
    PartOf(all, frames, events, count);
  }

  lemma MakePassedOn(dec: O.Decoder, ins: Inspector, reason: Option<Reason>, events: seq<seq<byte>>,
                     forwarded: seq<seq<byte>>, inspected: seq<seq<byte>>, count: nat, budget: nat, seen: O.Observer)
    requires forwarded <= events && Forwarded(dec, ins, forwarded, reason == Some(TerminalEvent))
    requires reason.Some? ==> Halted(dec, ins, reason.value, events, forwarded, count, budget)
    requires Inspected(reason, |forwarded|) <= |events| && inspected == events[..Inspected(reason, |forwarded|)]
    requires seen == Watching(dec, inspected) && seen.usage == UsageSaid(dec, inspected)
    ensures PassedOn(dec, ins, reason, events, forwarded, count, budget, seen)
  {
  }

  lemma PartIs<T>(a: seq<T>, b: seq<T>, whole: seq<T>, n: nat, joined: seq<T>)
    requires a + b <= whole && n <= |b| && joined == a + b[..n]
    ensures |joined| == |a| + n && joined <= whole && joined == whole[..|joined|]
  {
    PartOf(a, b, whole, n);
  }

  /** Forwarding the first `count` of some frames, seen from the whole stream. */
  lemma InWholeStream(dec: O.Decoder, ins: Inspector, reason: Option<Reason>, events: seq<seq<byte>>,
                      all: seq<seq<byte>>,
                      frames: seq<seq<byte>>, count: nat, budget: nat, seen: O.Observer,
                      forwarded: seq<seq<byte>>, inspected: seq<seq<byte>>)
    requires all + frames <= events && count <= |frames| && forwarded == all + frames[..count]
    requires Forwarded(dec, ins, forwarded, reason == Some(TerminalEvent))
    requires reason.Some? ==> StoppedAt(dec, ins, frames, count, budget, reason.value)
    requires Inspected(reason, count) <= |frames| && inspected == all + frames[..Inspected(reason, count)]
    requires seen == Watching(dec, inspected) && seen.usage == UsageSaid(dec, inspected)
    ensures PassedOn(dec, ins, reason, events, forwarded, count, budget, seen)
  {
    if reason.Some? {
      HaltsThere(dec, ins, reason.value, events, all, frames, count, budget);
    }
    PartIs(all, frames, events, count, forwarded);
    PartIs(all, frames, events, Inspected(reason, count), inspected);
    MakePassedOn(dec, ins, reason, events, forwarded, inspected, count, budget, seen);
  }

  lemma PlainNoneEnds(dec: O.Decoder, ins: Inspector, all: seq<seq<byte>>, frames: seq<seq<byte>>)
    requires AllPlain(dec, ins, all) && AllPlain(dec, ins, frames)
    ensures NoneEnds(dec, all + frames)
  {
    forall i | 0 <= i < |all + frames| ensures !T.Ends(dec, EventRecord((all + frames)[i])) {
      assert if i < |all| then IsPlain(dec, ins, all[i]) else IsPlain(dec, ins, frames[i - |all|]);
    }
  }

  /** The usage the observer knows after the frames it has seen, the last of which may be refused. */
  lemma InspectedUsage(dec: O.Decoder, ins: Inspector, reason: Option<Reason>, all: seq<seq<byte>>,
                       frames: seq<seq<byte>>, count: nat, inspected: seq<seq<byte>>)
    requires Chained(all + frames) && count <= |frames| && AllPlain(dec, ins, all)
    requires Forwarded(dec, ins, frames[..count], reason == Some(TerminalEvent))
    requires Inspected(reason, count) <= |frames| && inspected == all + frames[..Inspected(reason, count)]
    ensures Watching(dec, inspected).usage == UsageSaid(dec, inspected)
  {
    var n := Inspected(reason, count);
    ChainedPrefix(all + frames, |all| + n);
    assert (all + frames)[..|all| + n] == inspected;
    if n > count {
      PlainNoneEnds(dec, ins, all, frames[..count]);
      assert inspected[..|inspected| - 1] == all + frames[..count];
    } else if reason == Some(TerminalEvent) {
      PlainNoneEnds(dec, ins, all, frames[..count][..count - 1]);
      assert inspected[..|inspected| - 1] == all + frames[..count][..count - 1];
    } else {
      PlainNoneEnds(dec, ins, all, frames[..count]);
    }
    WatchingUsage(dec, inspected);
  }

  lemma PartIsPassedOn(dec: O.Decoder, ins: Inspector, reason: Option<Reason>, events: seq<seq<byte>>,
                       all: seq<seq<byte>>, frames: seq<seq<byte>>, count: nat, budget: nat, seen: O.Observer)
    requires all + frames <= events && count <= |frames| && AllPlain(dec, ins, all) && Chained(all + frames)
    requires Forwarded(dec, ins, frames[..count], reason == Some(TerminalEvent))
    requires reason.Some? ==> StoppedAt(dec, ins, frames, count, budget, reason.value)
    requires Inspected(reason, count) <= |frames| && seen == Watching(dec, all + frames[..Inspected(reason, count)])
    ensures PassedOn(dec, ins, reason, events, all + frames[..count], count, budget, seen)
  {
    ForwardedJoin(dec, ins, all, frames[..count], reason == Some(TerminalEvent));
    InspectedUsage(dec, ins, reason, all, frames, count, all + frames[..Inspected(reason, count)]);
    InWholeStream(dec, ins, reason, events, all, frames, count, budget, seen,
                  all + frames[..count], all + frames[..Inspected(reason, count)]);
  }

  /** When all frames were forwarded and none was the last one, they are plain and seen. */
  lemma WholePartIsPlain(dec: O.Decoder, ins: Inspector, all: seq<seq<byte>>, frames: seq<seq<byte>>, seen: O.Observer)
    requires AllPlain(dec, ins, all) && Forwarded(dec, ins, frames[..|frames|], false)
    requires seen == Watching(dec, all + frames[..|frames|])
    ensures AllPlain(dec, ins, all + frames) && seen == Watching(dec, all + frames)
  {
    assert frames[..|frames|] == frames;
    ForwardedJoin(dec, ins, all, frames, false);
  }

  /** Forward the frames of one chunk, or the last ones, of a stream with the given events. */
  method ForwardPart(observer: ResponseStreamObserver, ins: Inspector, frames: seq<seq<byte>>, budget: nat,
                     ghost all: seq<seq<byte>>, ghost events: seq<seq<byte>>)
    returns (count: nat, reason: Option<Reason>, left: nat)
    requires Chained(all + frames) && all + frames <= events && Faithful(observer.decoder, ins)
    requires observer.Value() == Watching(observer.decoder, all) && !observer.terminal
    requires AllPlain(observer.decoder, ins, all)
    modifies observer
    ensures Inspected(reason, count) <= |frames| && reason != Some(EventLimit)
    ensures PassedOn(observer.decoder, ins, reason, events, all + frames[..count], count, budget, observer.Value())
    ensures reason.None? ==> count == |frames| && !observer.terminal && left == budget - count
    ensures reason.None? ==>
              && AllPlain(observer.decoder, ins, all + frames)
              && observer.Value() == Watching(observer.decoder, all + frames)
  {
    count, reason, left := ForwardFrames(observer, ins, frames, budget, all);
    PartIsPassedOn(observer.decoder, ins, reason, events, all, frames, count, budget, observer.Value());
    if reason.None? {
      WholePartIsPlain(observer.decoder, ins, all, frames, observer.Value());
    }
  }

  function First<T>(items: seq<T>, n: nat): (first: seq<T>)
    requires n <= |items|
    ensures |first| == n && (n == |items| ==> first == items)
  {
    items[..n]
  }

  /** Gate one chunk, or the end of the stream, and forward what it completes. */
  method PassChunk(gate: EventGate, observer: ResponseStreamObserver, ins: Inspector, chunk: Option<seq<byte>>,
                   budget: nat,
                   ghost received: seq<seq<byte>>, ghost all: seq<seq<byte>>)
    returns (frames: seq<seq<byte>>, reason: Option<Reason>, left: nat)
    requires InStep(gate, observer, ins, received, all) && Faithful(observer.decoder, ins)
    modifies gate, observer
    ensures reason == Some(EventLimit) ==>
              && frames == [] && FeedAll(FRESH, Extended(received, chunk)) == None
              && observer.Value() == Watching(observer.decoder, all)
    ensures reason != Some(EventLimit) ==>
              PassedOn(observer.decoder, ins, reason, Events(Flatten(Extended(received, chunk))), all + frames,
                       |frames|, budget, observer.Value())
    ensures reason.None? ==> left == budget - |frames|
    ensures reason == Some(ClientDisconnect) && chunk.None? ==> all + frames == Events(Flatten(received))
    ensures IsRefusal(reason) && chunk.Some? ==>
              && FeedAll(FRESH, Extended(received, chunk)).Some?
              && |all + frames| < |FeedAll(FRESH, Extended(received, chunk)).value.frames|
    ensures reason.None? && chunk.None? ==> all + frames == Events(Flatten(received))
    ensures reason.None? && chunk.Some? ==> InStep(gate, observer, ins, Extended(received, chunk), all + frames)
  {
    var cut := Cut(gate, chunk, received, all);
    if cut.Err? {
      return [], Some(EventLimit), budget;
    }
    ghost var events := Events(Flatten(Extended(received, chunk)));
    var count;
    count, reason, left := ForwardPart(observer, ins, cut.value, budget, all, events);
    frames := First(cut.value, count);
  }

  /** What the relay finds when it turns to the upstream. */
  datatype Item = Piece(bytes: seq<byte>) | EndOfStream | Interrupted(reason: Reason)

  /** The next chunk within the size limit, the end, or the reason to stop. */
  function NextItem(upstream: seq<Upstream>, next: nat, total: nat, maxStreamBytes: nat): Item
    requires next <= |upstream|
  {
    if next == |upstream| then EndOfStream
    else
      match upstream[next]
      case DeadlineReached => Interrupted(DurationLimit)
      case ConnectionError => Interrupted(ConnectionFailed)
      case Chunk(bytes) => if total + |bytes| > maxStreamBytes then Interrupted(SizeLimit) else Piece(bytes)
  }

  /** The gate has let through exactly `forwarded`, and all of it was sent. */
  ghost predicate SentAll(received: seq<seq<byte>>, forwarded: seq<seq<byte>>) {
    FeedAll(FRESH, received).Some? && FeedAll(FRESH, received).value.frames == forwarded
  }

  /** What must be true of a response that ended for a given reason. */
  ghost predicate Justified(dec: O.Decoder, ins: Inspector, reason: Reason, upstream: seq<Upstream>,
                            maxStreamBytes: nat,
                            received: seq<seq<byte>>, forwarded: seq<seq<byte>>, clientGone: bool)
  {
    var events, n := Events(Flatten(received)), |received|;
    match reason
    case TerminalEvent => true
    case ClientDisconnect => clientGone
    case Classified(_) => |forwarded| < |events| && Refused(dec, ins, reason, events[|forwarded|])
    case StreamFailed => |forwarded| < |events| && Refused(dec, ins, reason, events[|forwarded|])
    case ClosedBeforeCompletion => n == |upstream| && forwarded == events
    case DurationLimit => n < |upstream| && upstream[n] == DeadlineReached && SentAll(received, forwarded)
    case ConnectionFailed => n < |upstream| && upstream[n] == ConnectionError && SentAll(received, forwarded)
    case SizeLimit =>
      && n < |upstream| && upstream[n].Chunk? && SentAll(received, forwarded)
      && |Flatten(received)| + |upstream[n].bytes| > maxStreamBytes
    case EventLimit =>
      && n < |upstream| && upstream[n].Chunk? && SentAll(received, forwarded)
      && FeedAll(FRESH, received + [upstream[n].bytes]) == None
  }

  /** The usage the observer knows once it has seen what was sent and what was refused. */
  ghost predicate KnowsUsage(dec: O.Decoder, usage: Option<Usage>, reason: Option<Reason>,
                             received: seq<seq<byte>>, forwarded: seq<seq<byte>>)
  {
    var events := Events(Flatten(received));
    Inspected(reason, |forwarded|) <= |events| && usage == UsageSaid(dec, events[..Inspected(reason, |forwarded|)])
  }

  /** Everything that is true of a response that has sent `forwarded` and goes on, or ended for `reason`. */
  ghost predicate Accounted(dec: O.Decoder, ins: Inspector, reason: Option<Reason>, upstream: seq<Upstream>,
                            maxStreamBytes: nat, received: seq<seq<byte>>, forwarded: seq<seq<byte>>, clientGone: bool,
                            usage: Option<Usage>)
  {
    && DeliveredBy(received, upstream)
    && forwarded <= Events(Flatten(received))
    && Forwarded(dec, ins, forwarded, reason == Some(TerminalEvent))
    && KnowsUsage(dec, usage, reason, received, forwarded)
    && (reason.Some? ==> Justified(dec, ins, reason.value, upstream, maxStreamBytes, received, forwarded, clientGone))
  }

  lemma PassedOnIsAccounted(dec: O.Decoder, ins: Inspector, reason: Option<Reason>, upstream: seq<Upstream>,
                            maxStreamBytes: nat,
                            received: seq<seq<byte>>, forwarded: seq<seq<byte>>, count: nat, budget: nat,
                            seen: O.Observer)
    requires PassedOn(dec, ins, reason, Events(Flatten(received)), forwarded, count, budget, seen)
    requires DeliveredBy(received, upstream)
    ensures Accounted(dec, ins, reason, upstream, maxStreamBytes, received, forwarded, count == budget + 1, seen.usage)
  {
  }

  /** A stream that ended before a terminal event, all of its events sent. */
  lemma ClosedIsAccounted(dec: O.Decoder, ins: Inspector, upstream: seq<Upstream>, maxStreamBytes: nat,
                          received: seq<seq<byte>>, forwarded: seq<seq<byte>>, clientGone: bool, usage: Option<Usage>)
    requires Accounted(dec, ins, None, upstream, maxStreamBytes, received, forwarded, clientGone, usage)
    requires |received| == |upstream| && forwarded == Events(Flatten(received))
    ensures Accounted(dec, ins, Some(ClosedBeforeCompletion), upstream, maxStreamBytes, received, forwarded,
                      clientGone, usage)
  {
  }

  lemma UsageNow(dec: O.Decoder, reason: Option<Reason>, received: seq<seq<byte>>, forwarded: seq<seq<byte>>)
    requires forwarded <= Events(Flatten(received)) && Inspected(reason, |forwarded|) == |forwarded|
    requires Chained(forwarded) && NoneEnds(dec, forwarded)
    ensures KnowsUsage(dec, Watching(dec, forwarded).usage, reason, received, forwarded)
  {
    WatchingUsage(dec, forwarded);
    assert Events(Flatten(received))[..|forwarded|] == forwarded;
  }

  /** A response that stops at what the upstream does next has sent all it could. */
  lemma InterruptedIsAccounted(dec: O.Decoder, ins: Inspector, reason: Reason, upstream: seq<Upstream>,
                               maxStreamBytes: nat,
                               received: seq<seq<byte>>, forwarded: seq<seq<byte>>, clientGone: bool)
    requires DeliveredBy(received, upstream) && SentAll(received, forwarded) && AllPlain(dec, ins, forwarded)
    requires var item := NextItem(upstream, |received|, |Flatten(received)|, maxStreamBytes);
             || item == Interrupted(reason)
             || (item.Piece? && reason == EventLimit && FeedAll(FRESH, received + [item.bytes]) == None)
    ensures Accounted(dec, ins, Some(reason), upstream, maxStreamBytes, received, forwarded, clientGone,
                      Watching(dec, forwarded).usage)
  {
    EventsLetThrough(received);
    UsageNow(dec, Some(reason), received, forwarded);
  }

  /** A stream that ends before a terminal event was closed too early. */
  function AtEnd(reason: Option<Reason>, eof: bool): Option<Reason> {
    if reason.None? && eof then Some(ClosedBeforeCompletion) else reason
  }

  lemma AfterPass(dec: O.Decoder, ins: Inspector, reason: Option<Reason>, eof: bool, upstream: seq<Upstream>,
                  maxStreamBytes: nat, taken: seq<seq<byte>>, forwarded: seq<seq<byte>>, count: nat, budget: nat,
                  seen: O.Observer)
    requires PassedOn(dec, ins, reason, Events(Flatten(taken)), forwarded, count, budget, seen)
    requires DeliveredBy(taken, upstream)
    requires reason.None? && eof ==> |taken| == |upstream| && forwarded == Events(Flatten(taken))
    ensures Accounted(dec, ins, AtEnd(reason, eof), upstream, maxStreamBytes, taken, forwarded,
                      count == budget + 1, seen.usage)
  {
    PassedOnIsAccounted(dec, ins, reason, upstream, maxStreamBytes, taken, forwarded, count, budget, seen);
    if reason.None? && eof {
      ClosedIsAccounted(dec, ins, upstream, maxStreamBytes, taken, forwarded, count == budget + 1, seen.usage);
    }
  }

  /** A response in progress: what was received and sent so far. */
  ghost predicate Relaying(gate: EventGate, observer: ResponseStreamObserver, ins: Inspector, upstream: seq<Upstream>,
                           received: seq<seq<byte>>, forwarded: seq<seq<byte>>)
    reads gate, observer
  {
    InStep(gate, observer, ins, received, forwarded) && DeliveredBy(received, upstream)
  }

  /** The events the gate has let through: at the end of the upstream all of them. */
  ghost function LetThrough(upstream: seq<Upstream>, received: seq<seq<byte>>): seq<seq<byte>> {
    if |received| == |upstream| then Events(Flatten(received))
    else if FeedAll(FRESH, received).Some? then FeedAll(FRESH, received).value.frames
    else []
  }

  /** Nothing that was received is left to be sent, but perhaps an event whose last line end may go on. */
  ghost predicate NothingPending(received: seq<seq<byte>>, forwarded: seq<seq<byte>>) {
    SentAll(received, forwarded) || forwarded == Events(Flatten(received))
  }

  /** How often the client resumed the response in one turn of the relay, and what was left when it ended. */
  ghost predicate Judged(upstream: seq<Upstream>, reason: Reason, received: seq<seq<byte>>, taken: seq<seq<byte>>,
                         forwarded: seq<seq<byte>>, count: nat, budget: nat)
  {
    match reason
    case TerminalEvent => true
    case ClientDisconnect =>
      && count == budget + 1 && |received| <= |taken| <= |received| + 1
      && (|taken| == |received| ==> NothingPending(taken, forwarded))
    case ClosedBeforeCompletion => count <= budget && |taken| == |received|
    case DurationLimit => count == 0 && taken == received
    case ConnectionFailed => count == 0 && taken == received
    case SizeLimit => count == 0 && taken == received
    case EventLimit => count == 0 && taken == received
    case _ =>
      && count <= budget && |forwarded| < |LetThrough(upstream, taken)|
      && |received| <= |taken| <= |received| + 1
      && (|taken| > |received| ==> !NothingPending(taken, forwarded))
  }

  /** A frame of a chunk that is refused was let through and is pending. */
  lemma RefusedIsPending(upstream: seq<Upstream>, taken: seq<seq<byte>>, forwarded: seq<seq<byte>>)
    requires FeedAll(FRESH, taken).Some? && |forwarded| < |FeedAll(FRESH, taken).value.frames|
    ensures |forwarded| < |LetThrough(upstream, taken)| && !NothingPending(taken, forwarded)
  {
    EventsLetThrough(taken);
  }

  lemma PassIsJudged(dec: O.Decoder, ins: Inspector, reason: Option<Reason>, eof: bool, upstream: seq<Upstream>,
                     received: seq<seq<byte>>, taken: seq<seq<byte>>, forwarded: seq<seq<byte>>, count: nat,
                     budget: nat, seen: O.Observer)
    requires PassedOn(dec, ins, reason, Events(Flatten(taken)), forwarded, count, budget, seen)
    requires reason.None? ==> count <= budget
    requires eof ==> taken == received && |taken| == |upstream|
    requires eof && reason == Some(ClientDisconnect) ==> forwarded == Events(Flatten(taken))
    requires !eof ==> |taken| == |received| + 1
    requires !eof && IsRefusal(reason) ==>
               FeedAll(FRESH, taken).Some? && |forwarded| < |FeedAll(FRESH, taken).value.frames|
    ensures AtEnd(reason, eof).Some? ==>
              Judged(upstream, AtEnd(reason, eof).value, received, taken, forwarded, count, budget)
  {
    if IsRefusal(reason) && !eof {
      RefusedIsPending(upstream, taken, forwarded);
    }
  }

  /** Take the next chunk through gate and observer. */
  method TakePiece(gate: EventGate, observer: ResponseStreamObserver, ins: Inspector, upstream: seq<Upstream>,
                   maxStreamBytes: nat, bytes: seq<byte>, budget: nat,
                   ghost received: seq<seq<byte>>, ghost forwarded: seq<seq<byte>>)
    returns (frames: seq<seq<byte>>, reason: Option<Reason>, left: nat, ghost taken: seq<seq<byte>>)
    requires Relaying(gate, observer, ins, upstream, received, forwarded) && Faithful(observer.decoder, ins)
    requires |received| < |upstream|
    requires NextItem(upstream, |received|, |Flatten(received)|, maxStreamBytes) == Piece(bytes)
    requires |Flatten(received)| <= maxStreamBytes
    modifies gate, observer
    ensures |received| <= |taken| && |Flatten(taken)| <= maxStreamBytes
    ensures Accounted(observer.decoder, ins, reason, upstream, maxStreamBytes, taken, forwarded + frames,
                      |frames| == budget + 1, observer.usage)
    ensures reason.Some? ==>
              Judged(upstream, reason.value, received, taken, forwarded + frames, |frames|, budget)
    ensures reason.None? ==>
              && Relaying(gate, observer, ins, upstream, taken, forwarded + frames)
              && taken == received + [bytes] && left == budget - |frames|
  {
    frames, reason, left := PassChunk(gate, observer, ins, Some(bytes), budget, received, forwarded);
    if reason == Some(EventLimit) {
      taken := received;
      assert forwarded + [] == forwarded;
      InterruptedIsAccounted(observer.decoder, ins, EventLimit, upstream, maxStreamBytes, received, forwarded, false);
    } else {
      DeliveredNext(received, bytes, upstream);
      FlattenSnoc(received, bytes);
      taken := received + [bytes];
      AfterPass(observer.decoder, ins, reason, false, upstream, maxStreamBytes, taken, forwarded + frames,
                |frames|, budget, observer.Value());
      PassIsJudged(observer.decoder, ins, reason, false, upstream, received, taken, forwarded + frames, |frames|,
                   budget, observer.Value());
    }
  }

  /** Take the end of the upstream through gate and observer. */
  method TakeEnd(gate: EventGate, observer: ResponseStreamObserver, ins: Inspector, upstream: seq<Upstream>,
                 maxStreamBytes: nat, budget: nat, ghost received: seq<seq<byte>>, ghost forwarded: seq<seq<byte>>)
    returns (frames: seq<seq<byte>>, reason: Reason)
    requires Relaying(gate, observer, ins, upstream, received, forwarded) && Faithful(observer.decoder, ins)
    requires |received| == |upstream|
    modifies gate, observer
    ensures Accounted(observer.decoder, ins, Some(reason), upstream, maxStreamBytes, received, forwarded + frames,
                      |frames| == budget + 1, observer.usage)
    ensures Judged(upstream, reason, received, received, forwarded + frames, |frames|, budget)
  {
    var stopped, left;
    frames, stopped, left := PassChunk(gate, observer, ins, None, budget, received, forwarded);
    AfterPass(observer.decoder, ins, stopped, true, upstream, maxStreamBytes, received, forwarded + frames,
              |frames|, budget, observer.Value());
    PassIsJudged(observer.decoder, ins, stopped, true, upstream, received, received, forwarded + frames, |frames|,
                 budget, observer.Value());
    reason := if stopped.Some? then stopped.value else ClosedBeforeCompletion;
  }

  /** One turn of the relay: what the upstream does next, taken through gate and observer or ending the response. */
  method Turn(gate: EventGate, observer: ResponseStreamObserver, ins: Inspector, upstream: seq<Upstream>,
              maxStreamBytes: nat,
              budget: nat, next: nat, total: nat, ghost received: seq<seq<byte>>, ghost forwarded: seq<seq<byte>>)
    returns (frames: seq<seq<byte>>, reason: Option<Reason>, left: nat, size: nat, ghost taken: seq<seq<byte>>)
    requires Relaying(gate, observer, ins, upstream, received, forwarded) && Faithful(observer.decoder, ins)
    requires next == |received| <= |upstream| && total == |Flatten(received)| <= maxStreamBytes
    modifies gate, observer
    ensures |received| <= |taken| && |Flatten(taken)| <= maxStreamBytes
    ensures Accounted(observer.decoder, ins, reason, upstream, maxStreamBytes, taken, forwarded + frames,
                      |frames| == budget + 1, observer.usage)
    ensures reason.Some? ==>
              Judged(upstream, reason.value, received, taken, forwarded + frames, |frames|, budget)
    ensures reason.None? ==>
              && Relaying(gate, observer, ins, upstream, taken, forwarded + frames)
              && |taken| == next + 1 && size == |Flatten(taken)| && left == budget - |frames|
  {
    left, size, taken := budget, total, received;
    match NextItem(upstream, next, total, maxStreamBytes) {
      case Interrupted(why) =>
        frames, reason := [], Some(why);
        assert forwarded + [] == forwarded;
        InterruptedIsAccounted(observer.decoder, ins, why, upstream, maxStreamBytes, received, forwarded, false);
      case EndOfStream =>
        var end;
        frames, end := TakeEnd(gate, observer, ins, upstream, maxStreamBytes, budget, received, forwarded);
        reason := Some(end);
      case Piece(bytes) =>
        FlattenSnoc(received, bytes);
        frames, reason, left, taken :=
          TakePiece(gate, observer, ins, upstream, maxStreamBytes, bytes, budget, received, forwarded);
        size := total + |bytes|;
    }
  }

  lemma FlattenSnoc(parts: seq<seq<byte>>, part: seq<byte>)
    ensures Flatten(parts + [part]) == Flatten(parts) + part
  {
    assert (parts + [part])[..|parts|] == parts;
  }

  /** A response in progress: `left` more resumptions of the client, `next` chunks of `total` bytes read. */
  ghost predicate InProgress(gate: EventGate, observer: ResponseStreamObserver, ins: Inspector, upstream: seq<Upstream>,
                             received: seq<seq<byte>>, forwarded: seq<seq<byte>>,
                             patience: nat, left: nat, next: nat, total: nat)
    reads gate, observer
  {
    && Relaying(gate, observer, ins, upstream, received, forwarded)
    && |received| == next <= |upstream| && total == |Flatten(received)|
    && left + |forwarded| + (if next > 0 then next else 1) == patience
  }

  lemma AtStart(dec: O.Decoder, ins: Inspector, upstream: seq<Upstream>)
    ensures FeedAll(FRESH, []) == Some(Reading(FRESH, [])) && Watching(dec, []) == O.Fresh(EVENT_LIMIT)
    ensures AllPlain(dec, ins, []) && Flatten([]) == [] && DeliveredBy([], upstream)
  {
  }

  lemma GoneIsAccounted(dec: O.Decoder, ins: Inspector, upstream: seq<Upstream>, maxStreamBytes: nat,
                        received: seq<seq<byte>>, forwarded: seq<seq<byte>>)
    requires DeliveredBy(received, upstream) && SentAll(received, forwarded) && AllPlain(dec, ins, forwarded)
    ensures Accounted(dec, ins, Some(ClientDisconnect), upstream, maxStreamBytes, received, forwarded, true,
                      Watching(dec, forwarded).usage)
  {
    EventsLetThrough(received);
    UsageNow(dec, Some(ClientDisconnect), received, forwarded);
  }

  lemma CountGone(dec: O.Decoder, ins: Inspector, reason: Option<Reason>, upstream: seq<Upstream>, maxStreamBytes: nat,
                  received: seq<seq<byte>>, forwarded: seq<seq<byte>>, gone: bool, goneNow: bool, usage: Option<Usage>)
    requires Accounted(dec, ins, reason, upstream, maxStreamBytes, received, forwarded, gone, usage)
    requires gone ==> goneNow
    ensures Accounted(dec, ins, reason, upstream, maxStreamBytes, received, forwarded, goneNow, usage)
  {
  }

  /**
   * The client is gone: it no longer came back after a frame, or when the
   * relay had to wait for the upstream with nothing left to send. It comes
   * back once at first, once for every chunk after the first and once for
   * every frame.
   */
  ghost predicate ClientLeft(patience: nat, received: seq<seq<byte>>, forwarded: seq<seq<byte>>) {
    || patience < |received| + |forwarded|
    || (patience == |received| + |forwarded| && NothingPending(received, forwarded))
  }

  /** A response that does not end with a terminal event ends by disconnection exactly when the client left. */
  ghost predicate Explained(upstream: seq<Upstream>, reason: Reason, patience: nat, received: seq<seq<byte>>,
                            forwarded: seq<seq<byte>>)
  {
    && (reason != TerminalEvent ==> (reason == ClientDisconnect <==> ClientLeft(patience, received, forwarded)))
    && (IsRefusal(Some(reason)) ==> |forwarded| < |LetThrough(upstream, received)|)
  }

  lemma JudgedIsExplained(upstream: seq<Upstream>, reason: Reason, patience: nat, received: seq<seq<byte>>,
                          taken: seq<seq<byte>>, earlier: nat, forwarded: seq<seq<byte>>, count: nat, budget: nat)
    requires Judged(upstream, reason, received, taken, forwarded, count, budget)
    requires |forwarded| == earlier + count && patience == budget + earlier + |received| + 1
    ensures Explained(upstream, reason, patience, taken, forwarded)
  {
  }

  lemma GoneIsExplained(upstream: seq<Upstream>, patience: nat, received: seq<seq<byte>>, forwarded: seq<seq<byte>>)
    requires SentAll(received, forwarded) && patience == |received| + |forwarded|
    ensures Explained(upstream, ClientDisconnect, patience, received, forwarded)
  {
  }

  /** One turn of the relay for a client that has come back. */
  method TurnFor(gate: EventGate, observer: ResponseStreamObserver, ins: Inspector, upstream: seq<Upstream>,
                 maxStreamBytes: nat,
                 ghost patience: nat, budget: nat, next: nat, total: nat,
                 ghost received: seq<seq<byte>>, ghost forwarded: seq<seq<byte>>)
    returns (frames: seq<seq<byte>>, reason: Option<Reason>, left: nat, size: nat, ghost taken: seq<seq<byte>>)
    requires Relaying(gate, observer, ins, upstream, received, forwarded) && Faithful(observer.decoder, ins)
    requires next == |received| <= |upstream| && total == |Flatten(received)| <= maxStreamBytes
    requires patience == budget + |forwarded| + next + 1
    modifies gate, observer
    ensures |Flatten(taken)| <= maxStreamBytes
    ensures Accounted(observer.decoder, ins, reason, upstream, maxStreamBytes, taken, forwarded + frames,
                      patience <= |taken| + |forwarded + frames|, observer.usage)
    ensures reason.Some? ==> Explained(upstream, reason.value, patience, taken, forwarded + frames)
    ensures reason.None? ==>
              && Relaying(gate, observer, ins, upstream, taken, forwarded + frames)
              && |taken| == next + 1 && size == |Flatten(taken)| && left == budget - |frames|
  {
    frames, reason, left, size, taken :=
      Turn(gate, observer, ins, upstream, maxStreamBytes, budget, next, total, received, forwarded);
    CountGone(observer.decoder, ins, reason, upstream, maxStreamBytes, taken, forwarded + frames,
              |frames| == budget + 1, patience <= |taken| + |forwarded + frames|, observer.usage);
    if reason.Some? {
      JudgedIsExplained(upstream, reason.value, patience, received, taken, |forwarded|, forwarded + frames, |frames|,
                        budget);
    }
  }

  /** The client resumes the response, or is gone; then one turn of the relay. */
  method Resume(gate: EventGate, observer: ResponseStreamObserver, ins: Inspector, upstream: seq<Upstream>,
                maxStreamBytes: nat,
                ghost patience: nat, budget: nat, next: nat, total: nat,
                ghost received: seq<seq<byte>>, ghost forwarded: seq<seq<byte>>)
    returns (frames: seq<seq<byte>>, reason: Option<Reason>, left: nat, size: nat, ghost taken: seq<seq<byte>>)
    requires Faithful(observer.decoder, ins)
    requires InProgress(gate, observer, ins, upstream, received, forwarded, patience, budget, next, total)
    requires |Flatten(received)| <= maxStreamBytes
    modifies gate, observer
    ensures |Flatten(taken)| <= maxStreamBytes
    ensures Accounted(observer.decoder, ins, reason, upstream, maxStreamBytes, taken, forwarded + frames,
                      patience <= |taken| + |forwarded + frames|, observer.usage)
    ensures reason.Some? ==> Explained(upstream, reason.value, patience, taken, forwarded + frames)
    ensures reason.None? ==>
              InProgress(gate, observer, ins, upstream, taken, forwarded + frames, patience, left, next + 1, size)
  {
    // The first chunk is at hand; later the client may leave while waiting.
    if next > 0 && budget == 0 {
      frames, reason, left, size, taken := [], Some(ClientDisconnect), 0, total, received;
      assert forwarded + [] == forwarded;
      GoneIsAccounted(observer.decoder, ins, upstream, maxStreamBytes, received, forwarded);
      GoneIsExplained(upstream, patience, received, forwarded);
    } else {
      frames, reason, left, size, taken :=
        TurnFor(gate, observer, ins, upstream, maxStreamBytes, patience, if next > 0 then budget - 1 else budget,
                next, total, received, forwarded);
    }
  }

  /**
   * The relay without its attempt: what is forwarded and why it ends.
   * `upstream` is what the upstream does, from the first chunk, which is at
   * hand, and `patience` how often the client resumes the response before it
   * goes away: at the first poll, at each wait for the upstream and after each
   * frame.
   */
  method RelayEvents(upstream: seq<Upstream>, maxStreamBytes: nat, dec: O.Decoder, ins: Inspector, patience: nat)
    returns (forwarded: seq<seq<byte>>, reason: Reason, usage: Option<Usage>, ghost received: seq<seq<byte>>)
    requires Faithful(dec, ins) && upstream != [] && upstream[0].Chunk?
    ensures Accounted(dec, ins, Some(reason), upstream, maxStreamBytes, received, forwarded,
                      patience <= |received| + |forwarded|, usage)
    ensures Explained(upstream, reason, patience, received, forwarded) && |Flatten(received)| <= maxStreamBytes
  {
    forwarded, received := [], [];
    AtStart(dec, ins, upstream);
    if patience == 0 {
      GoneIsAccounted(dec, ins, upstream, maxStreamBytes, [], []);
      return [], ClientDisconnect, None, [];
    }
    var left: nat := patience - 1;
    var gate := new EventGate();
    var observer := new ResponseStreamObserver(EVENT_LIMIT, dec);
    var stopped: Option<Reason> := None;
    var next: nat, total: nat := 0, 0;
    while stopped.None?
      invariant observer.decoder == dec && fresh(observer) && fresh(gate) && |Flatten(received)| <= maxStreamBytes
      invariant stopped.None? ==>
                InProgress(gate, observer, ins, upstream, received, forwarded, patience, left, next, total)
      invariant stopped.Some? ==>
                  Accounted(dec, ins, stopped, upstream, maxStreamBytes, received, forwarded,
                            patience <= |received| + |forwarded|, observer.usage)
      invariant stopped.Some? ==> Explained(upstream, stopped.value, patience, received, forwarded)
      decreases stopped.None?, |upstream| - next
    {
      var frames;
      frames, stopped, left, total, received :=
        Resume(gate, observer, ins, upstream, maxStreamBytes, patience, left, next, total, received, forwarded);
      forwarded, next := forwarded + frames, next + 1;
    }
    reason, usage := stopped.value, observer.usage;
  }

  /**
   * What becomes of the attempt: each end of the relay finishes the guard,
   * except that a client that is gone only drops it; it is dropped in any case.
   */
  method SettleResponse(guard: AttemptGuard, inner: Inner, reason: Reason, usage: Option<Usage>, at: real)
    requires inner.Valid() && guard.Holds(inner) && !guard.finished
    modifies guard`finished, inner, inner.budgets.Values
    ensures guard.finished && inner.Valid()
    ensures inner.Value()
              == A.Next(old(inner.Value()),
                        A.Step.Settle(guard.id, OutcomeOf(reason), ReportedUsage(reason, usage), at))
    ensures SettledNext(old(inner.settled), inner.settled, guard.id, OutcomeOf(reason), ReportedUsage(reason, usage))
    ensures |inner.settled| == |old(inner.settled)| + 1
    ensures var x := inner.settled[|old(inner.settled)|];
            && (x.outcome == A.Completed <==> reason == TerminalEvent)
            && (x.outcome == A.Failed <==> reason == StreamFailed)
            && (x.outcome == A.ClientDisconnected <==> reason == ClientDisconnect)
            && x.usage == (if reason == ClientDisconnect then None else usage)
  {
    match reason {
      case TerminalEvent => guard.Finish(inner, A.Completed, usage, at);
      case StreamFailed => guard.Finish(inner, A.Failed, usage, at);
      case ClientDisconnect =>
      case _ => guard.Finish(inner, A.UpstreamInterrupted, usage, at);
    }
    guard.Drop(inner, at);
  }

  // ---------------------------------------------------------------------
  // The outcome, from what was received and sent
  // ---------------------------------------------------------------------

  /** The last frame sent ended the response. */
  ghost predicate Completes(dec: O.Decoder, ins: Inspector, forwarded: seq<seq<byte>>) {
    forwarded != [] && IsLast(dec, ins, forwarded[|forwarded| - 1])
  }

  /** The first event let through but not sent is an explicit error that the observer does not classify. */
  ghost predicate MeetsError(dec: O.Decoder, ins: Inspector, upstream: seq<Upstream>, received: seq<seq<byte>>,
                             forwarded: seq<seq<byte>>)
  {
    var events := LetThrough(upstream, received);
    && |forwarded| < |events| && ExplicitError(ins, events[|forwarded|])
    && T.Classified(dec, EventRecord(events[|forwarded|])) == None
  }

  /** What the attempt comes to, said without the reason for which the relay ended. */
  ghost predicate OutcomeFits(outcome: A.Outcome, dec: O.Decoder, ins: Inspector, upstream: seq<Upstream>,
                              received: seq<seq<byte>>, forwarded: seq<seq<byte>>, patience: nat)
  {
    var completed := Completes(dec, ins, forwarded);
    var left := !completed && ClientLeft(patience, received, forwarded);
    var failed := !completed && !left && MeetsError(dec, ins, upstream, received, forwarded);
    && (outcome == A.Completed <==> completed)
    && (outcome == A.ClientDisconnected <==> left)
    && (outcome == A.Failed <==> failed)
    && (outcome == A.UpstreamInterrupted <==> !completed && !left && !failed)
  }

  lemma CompletedIsTerminal(dec: O.Decoder, ins: Inspector, forwarded: seq<seq<byte>>, ended: bool)
    requires Forwarded(dec, ins, forwarded, ended)
    ensures Completes(dec, ins, forwarded) <==> ended
  {
  }

  /** The first event after those sent is the same, seen from the gate and from the whole stream. */
  lemma NextEvent(upstream: seq<Upstream>, received: seq<seq<byte>>, n: nat)
    requires n < |LetThrough(upstream, received)|
    ensures n < |Events(Flatten(received))| && LetThrough(upstream, received)[n] == Events(Flatten(received))[n]
  {
    if |received| != |upstream| {
      EventsLetThrough(received);
    }
  }

  /** Every other reason than a refused frame leaves nothing of what the gate let through. */
  lemma FailureIsMet(dec: O.Decoder, ins: Inspector, reason: Reason, upstream: seq<Upstream>, maxStreamBytes: nat,
                     received: seq<seq<byte>>, forwarded: seq<seq<byte>>, patience: nat)
    requires reason != TerminalEvent && reason != ClientDisconnect
    requires Justified(dec, ins, reason, upstream, maxStreamBytes, received, forwarded, true)
    requires IsRefusal(Some(reason)) ==> |forwarded| < |LetThrough(upstream, received)|
    ensures reason == StreamFailed <==> MeetsError(dec, ins, upstream, received, forwarded)
  {
    if |forwarded| < |LetThrough(upstream, received)| {
      NextEvent(upstream, received, |forwarded|);
    }
  }

  /** The reason gives the outcome that what was received and sent calls for. */
  lemma ReasonFits(dec: O.Decoder, ins: Inspector, reason: Reason, upstream: seq<Upstream>, maxStreamBytes: nat,
                   received: seq<seq<byte>>, forwarded: seq<seq<byte>>, gone: bool, patience: nat, usage: Option<Usage>)
    requires Accounted(dec, ins, Some(reason), upstream, maxStreamBytes, received, forwarded, gone, usage)
    requires Explained(upstream, reason, patience, received, forwarded)
    ensures OutcomeFits(OutcomeOf(reason), dec, ins, upstream, received, forwarded, patience)
    ensures reason == ClientDisconnect <==> OutcomeOf(reason) == A.ClientDisconnected
  {
    CompletedIsTerminal(dec, ins, forwarded, reason == TerminalEvent);
    if reason != TerminalEvent && reason != ClientDisconnect {
      FailureIsMet(dec, ins, reason, upstream, maxStreamBytes, received, forwarded, patience);
    }
  }

  /**
   * The whole relay. The client receives a prefix of the stream's events,
   * untouched and in order, no explicit error among them and nothing after a
   * terminal one, then at most the fixed error event. The attempt is settled
   * once, with the usage observed so far, as completed just when the last
   * forwarded frame ended the response, and otherwise for a reason that really
   * holds.
   */
  method StreamResponse(guard: AttemptGuard, inner: Inner, upstream: seq<Upstream>, maxStreamBytes: nat,
                        reconnectFailover: bool, dec: O.Decoder, ins: Inspector, patience: nat, at: real)
    returns (sent: seq<seq<byte>>, reason: Reason, forwarded: seq<seq<byte>>, ghost received: seq<seq<byte>>,
             ghost observed: Option<Usage>)
    requires Faithful(dec, ins) && upstream != [] && upstream[0].Chunk?
    requires inner.Valid() && guard.Holds(inner) && !guard.finished
    modifies guard`finished, inner, inner.budgets.Values
    ensures Accounted(dec, ins, Some(reason), upstream, maxStreamBytes, received, forwarded,
                      patience <= |received| + |forwarded|, observed)
    ensures |Flatten(received)| <= maxStreamBytes
    ensures sent == forwarded + if ShowsError(OutcomeOf(reason), reconnectFailover) then [ERROR_EVENT] else []
    ensures guard.finished && inner.Valid()
    ensures inner.Value()
              == A.Next(old(inner.Value()),
                        A.Step.Settle(guard.id, OutcomeOf(reason), ReportedUsage(reason, observed), at))
    ensures SettledNext(old(inner.settled), inner.settled, guard.id, OutcomeOf(reason), ReportedUsage(reason, observed))
    ensures |inner.settled| == |old(inner.settled)| + 1
    ensures var x := inner.settled[|old(inner.settled)|];
            && OutcomeFits(x.outcome, dec, ins, upstream, received, forwarded, patience)
            && x.usage == (if x.outcome == A.ClientDisconnected then None else observed)
            && sent == forwarded
                       + (if x.outcome == A.Failed || (x.outcome == A.UpstreamInterrupted && !reconnectFailover)
                          then [ERROR_EVENT] else [])
  {
    var usage;
    forwarded, reason, usage, received := RelayEvents(upstream, maxStreamBytes, dec, ins, patience);
    observed := usage;
    ReasonFits(dec, ins, reason, upstream, maxStreamBytes, received, forwarded, patience <= |received| + |forwarded|,
               patience, usage);
    SettleResponse(guard, inner, reason, usage, at);
    sent := forwarded + if ShowsError(OutcomeOf(reason), reconnectFailover) then [ERROR_EVENT] else [];
  }
}
