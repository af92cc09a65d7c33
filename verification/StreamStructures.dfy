/** The two stream automata as the proxy mutates them, byte by byte. */
module StreamStructures {
  import opened Prelude
  import opened EventStream
  import G = EventGates
  import O = Observers

  class EventGate {
    var frame: seq<byte>
    var lineLength: nat
    var previousCr: bool

    function Value(): G.Gate
      reads this
    {
      G.Gate(frame, lineLength, previousCr)
    }

    constructor ()
      ensures Value() == G.FRESH
    {
      frame, lineLength, previousCr := [], 0, false;
    }

    method Newline() returns (frames: seq<seq<byte>>)
      modifies this
      ensures G.Reading(Value(), frames) == G.Newline(old(Value()))
    {
      var empty := lineLength == 0;
      lineLength := 0;
      frames := [];
      if empty {
        frames := [frame];
        frame := [];
      }
    }

    /** Feeding a chunk yields the frames it completes, or fails when a limit is exceeded. */
    method Feed(chunk: seq<byte>) returns (result: Result<seq<seq<byte>>, ()>)
      modifies this
      ensures result.Ok? <==> G.Feed(old(Value()), chunk).Some?
      ensures result.Ok? ==> G.Feed(old(Value()), chunk) == Some(G.Reading(Value(), result.value))
    {
      var frames := [];
      ghost var start := Value();
      for i := 0 to |chunk|
        invariant G.Feed(start, chunk[..i]) == Some(G.Reading(Value(), frames))
      {
        assert chunk[..i + 1][..i] == chunk[..i] && chunk[..i + 1][i] == chunk[i];
        if |frames| >= G.FRAMES_PER_CHUNK {
          RejectedPrefix(start, chunk, i + 1);
          return Err(());
        }
        var step := FeedByte(chunk[i]);
        if step.Err? {
          RejectedPrefix(start, chunk, i + 1);
          return Err(());
        }
        frames := frames + step.value;
      }
      assert chunk[..|chunk|] == chunk;
      result := Ok(frames);
    }

    method FeedByte(b: byte) returns (result: Result<seq<seq<byte>>, ()>)
      modifies this
      ensures result.Ok? <==> G.Step(old(Value()), b).Some?
      ensures result.Ok? ==> G.Step(old(Value()), b) == Some(G.Reading(Value(), result.value))
    {
      var frames := [];
      if previousCr {
        if b == LF {
          frame := frame + [b];
          if |frame| > G.EVENT_LIMIT {
            return Err(());
          }
        }
        previousCr := false;
        frames := Newline();
        if b == LF {
          return Ok(frames);
        }
      }
      frame := frame + [b];
      if |frame| > G.EVENT_LIMIT {
        return Err(());
      }
      if b == CR {
        previousCr := true;
      } else if b == LF {
        frames := Newline();
      } else {
        lineLength := lineLength + 1;
      }
      assert frames + [] == frames;
      result := Ok(frames);
    }

    method Finish() returns (frames: seq<seq<byte>>)
      modifies this
      ensures frames == G.Finish(old(Value()))
    {
      frames := [];
      if previousCr {
        previousCr := false;
        frames := Newline();
      }
    }
  }

  lemma {:induction false} RejectedPrefix(g: G.Gate, chunk: seq<byte>, n: nat)
    requires n <= |chunk| && G.Feed(g, chunk[..n]).None?
    ensures G.Feed(g, chunk).None?
    decreases |chunk| - n
  {
    if n == |chunk| {
      assert chunk[..n] == chunk;
    } else {
      assert chunk[..n + 1][..n] == chunk[..n];
      RejectedPrefix(g, chunk, n + 1);
    }
  }

  class ResponseStreamObserver {
    const decoder: O.Decoder
    const limit: nat
    var buffer: seq<byte>
    var data: seq<byte>
    var eventName: seq<byte>
    var oversized: bool
    var droppingLine: bool
    var skipLf: bool
    var terminal: bool
    var terminalEvent: seq<byte>
    var usage: Option<Usage>
    ghost var records: seq<O.Record>

    function Value(): O.Observer
      reads this
    {
      O.Observer(limit, buffer, data, eventName, oversized, droppingLine, skipLf, terminal, terminalEvent, usage)
    }

    /** The limit is at least one byte. */
    constructor (maxEventBytes: nat, decoder: O.Decoder)
      ensures this.decoder == decoder && records == []
      ensures Value() == O.Fresh(if maxEventBytes == 0 then 1 else maxEventBytes)
    {
      this.decoder, this.limit := decoder, if maxEventBytes == 0 then 1 else maxEventBytes;
      buffer, data, eventName := [], [], [];
      oversized, droppingLine, skipLf, terminal := false, false, false, false;
      terminalEvent, usage, records := [], None, [];
    }

    /** What an operation saw, given the dispatches recorded before it. */
    ghost predicate Saw(seen: O.Seen, failure: Option<O.StreamFailure>, before: seq<O.Record>)
      reads this
    {
      Value() == seen.observer && failure == seen.failure && records == before + seen.records
    }

    /** The decoded event and the name that decides whether it is terminal. */
    method Decode() returns (event: Option<O.Event>, name: seq<byte>)
      ensures event == O.Decoded(decoder, O.Record(eventName, data, oversized))
      ensures name == O.EventName(decoder, O.Record(eventName, data, oversized))
    {
      event := if !oversized && data != [] then decoder.parse(data) else None;
      name := eventName;
      if event.Some? && event.value.kind.Some? {
        name := event.value.kind.value;
      }
      // A conflicting JSON type does not downgrade an explicit error.
      if O.IsErrorName(eventName) {
        name := eventName;
      }
    }

    /** Note whether an event ends the response. */
    method Judge(event: Option<O.Event>, name: seq<byte>)
      modifies this`terminal, this`terminalEvent, this`usage
      ensures Value() == if O.IsTerminalName(name) then
                           old(Value()).(terminal := true, terminalEvent := name,
                                         usage := if event.Some? then event.value.usage else None)
                         else if O.Trim(data) == O.DONE_MARK then
                           old(Value()).(terminal := true, terminalEvent := O.DONE)
                         else old(Value())
    {
      if O.IsTerminalName(name) {
        terminal := true;
        terminalEvent := name;
        usage := if event.Some? then event.value.usage else None;
      } else if O.Trim(data) == O.DONE_MARK {
        terminal := true;
        terminalEvent := O.DONE;
      }
    }

    method Dispatch() returns (failure: Option<O.StreamFailure>)
      modifies this
      ensures Saw(O.Dispatch(old(Value()), decoder), failure, old(records))
    {
      var event, name := Decode();
      records := records + [O.Record(eventName, data, oversized)];
      failure := None;
      if !terminal {
        if event.Some? {
          failure := decoder.classify(event.value, eventName);
        }
        Judge(event, name);
      }
      eventName, data, oversized := [], [], false;
    }

    method Line() returns (failure: Option<O.StreamFailure>)
      modifies this
      ensures Saw(O.Line(old(Value()), decoder), failure, old(records))
    {
      failure := None;
      if droppingLine {
        droppingLine := false;
        buffer := [];
      } else if buffer == [] {
        failure := Dispatch();
      } else {
        if O.StartsWith(buffer, O.EVENT_FIELD) {
          eventName := O.NameOf(buffer[|O.EVENT_FIELD|..]);
        } else if O.StartsWith(buffer, O.DATA_FIELD) && !oversized {
          var value := O.WithoutSpace(buffer[|O.DATA_FIELD|..]);
          if |data| + |value| + 1 > limit {
            oversized := true;
            data := [];
          } else {
            data := data + value + [LF];
          }
        }
        buffer := [];
      }
    }

    /** One chunk: the last failure found, with the terminal state frozen once reached. */
    method Feed(chunk: seq<byte>) returns (failure: Option<O.StreamFailure>)
      modifies this
      ensures Saw(O.Feed(old(Value()), decoder, chunk), failure, old(records))
    {
      failure := None;
      ghost var start := Value();
      if terminal {
        O.TerminalIsFinal(start, decoder, chunk);
        return;
      }
      for i := 0 to |chunk|
        invariant Saw(O.Feed(start, decoder, chunk[..i]), failure, old(records))
        invariant !terminal
      {
        failure := FeedNth(chunk, i, failure, start, old(records));
        if terminal {
          O.FeedStops(start, decoder, chunk, i + 1);
          return;
        }
      }
      assert chunk[..|chunk|] == chunk;
    }

    /** One more byte of a chunk; a failure it brings replaces the one found before. */
    method FeedNth(chunk: seq<byte>, i: nat, found: Option<O.StreamFailure>, ghost start: O.Observer,
                   ghost before: seq<O.Record>)
      returns (failure: Option<O.StreamFailure>)
      requires i < |chunk| && !terminal && Saw(O.Feed(start, decoder, chunk[..i]), found, before)
      modifies this
      ensures Saw(O.Feed(start, decoder, chunk[..i + 1]), failure, before)
    {
      O.FeedNext(start, decoder, chunk, i);
      ghost var now, earlier := Value(), records;
      failure := FeedByte(chunk[i]);
      assert Saw(O.Step(now, decoder, chunk[i]), failure, earlier);
      if failure.None? {
        failure := found;
      }
    }

    method FeedByte(b: byte) returns (failure: Option<O.StreamFailure>)
      requires !terminal
      modifies this
      ensures Saw(O.Step(old(Value()), decoder, b), failure, old(records))
    {
      failure := None;
      if skipLf {
        skipLf := false;
        if b == LF {
          return;
        }
      }
      if IsBreak(b) {
        skipLf := b == CR;
        failure := Line();
      } else if !droppingLine {
        if |buffer| >= limit {
          buffer, data, oversized, droppingLine := [], [], true, true;
        } else {
          buffer := buffer + [b];
        }
      }
    }
  }
}
