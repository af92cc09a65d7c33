/**
 * Which streams the gate accepts (src/proxy/runtime.rs, `EventGate::feed`),
 * said of the events of the stream alone: none of them, nor the unfinished
 * rest, is longer than a mebibyte, and no chunk goes on after completing 4096.
 */
module EventAcceptance {
  import opened Prelude
  import opened EventStream
  import opened EventGates

  // ---------------------------------------------------------------------
  // What the gate remembers
  // ---------------------------------------------------------------------

  /** Reachable gates: a line is no longer than its frame, and a CR held back is the last byte of it. */
  ghost predicate Sane(g: Gate) {
    g.lineLength <= |g.frame| && (g.previousCr ==> g.frame != [] && g.frame[|g.frame| - 1] == CR)
  }

  lemma StepKeepsSane(g: Gate, b: byte)
    requires Sane(g) && Step(g, b).Some?
    ensures Sane(Step(g, b).value.gate) && (Step(g, b).value.gate.previousCr <==> b == CR)
  {
  }

  lemma {:induction false} ReadKeepsSane(g: Gate, bytes: seq<byte>)
    requires Sane(g) && Read(g, bytes).Some?
    ensures Sane(Read(g, bytes).value.gate)
    ensures bytes != [] ==> (Read(g, bytes).value.gate.previousCr <==> bytes[|bytes| - 1] == CR)
    decreases |bytes|
  {
    if bytes == [] {
    } else {
      ReadKeepsSane(g, bytes[..|bytes| - 1]);
      StepKeepsSane(Read(g, bytes[..|bytes| - 1]).value.gate, bytes[|bytes| - 1]);
    }
  }

  lemma StepAccepts(g: Gate, b: byte)
    requires |g.frame| < EVENT_LIMIT
    ensures Step(g, b).Some?
  {
  }

  /** As long as all bytes fit into one frame, they are accepted. */
  lemma {:induction false} ShortIsRead(g: Gate, bytes: seq<byte>)
    requires |g.frame| + |bytes| <= EVENT_LIMIT
    ensures Read(g, bytes).Some?
    decreases |bytes|
  {
    if bytes == [] {
    } else {
      var init := bytes[..|bytes| - 1];
      ShortIsRead(g, init);
      ReadIsLossless(g, init);
      StepAccepts(Read(g, init).value.gate, bytes[|bytes| - 1]);
    }
  }

  // ---------------------------------------------------------------------
  // One event
  // ---------------------------------------------------------------------

  lemma EventsOfFrame(pending: seq<byte>, f: seq<byte>)
    requires IsFrame(f)
    ensures EventsAfter(pending, f) == [pending + f]
  {
    assert f[..|f|] == f && f[|f|..] == [];
    assert EventEnd([]) == None && Events([]) == [];
  }

  /** After a frame the gate is fresh, or holds back the CR the frame ends with. */
  lemma AfterFrame(pending: seq<byte>, f: seq<byte>)
    requires IsFrame(f) && Read(Gate(pending, 0, false), f).Some?
    ensures var r := Read(Gate(pending, 0, false), f).value;
            || (r == Reading(FRESH, [pending + f]) && f[|f| - 1] != CR)
            || (r == Reading(Gate(pending + f, 0, true), []) && f[|f| - 1] == CR)
  {
    var g := Gate(pending, 0, false);
    var r := Read(g, f).value;
    GateCutsAtEvents(pending, f);
    EventsOfFrame(pending, f);
    ReadIsLossless(g, f);
    ReadKeepsSane(g, f);
    if r.gate.previousCr {
      HeldFrame(r, pending + f);
    } else {
      assert r.frames == [pending + f];
      FlattenOne(pending + f);
      assert r.gate.frame == [];
    }
  }

  lemma FlattenOne(f: seq<byte>)
    ensures Flatten([f]) == f
  {
    FlattenCons(f, []);
    assert [f] + [] == [f];
  }

  lemma HeldFrame(r: Reading, f: seq<byte>)
    requires Sane(r.gate) && r.gate.previousCr && r.frames + Finish(r.gate) == [f]
    requires Flatten(r.frames) + r.gate.frame == f
    ensures r == Reading(Gate(f, 0, true), [])
  {
    if r.frames != [] {
      assert r.frames == [f];
      FlattenOne(f);
      assert false;
    }
  }

  /** Whatever follows a frame is accepted exactly when a fresh gate accepts it. */
  lemma FrameThenRest(pending: seq<byte>, f: seq<byte>, rest: seq<byte>)
    requires IsFrame(f) && |pending| + |f| <= EVENT_LIMIT
    requires rest != [] && f[|f| - 1] == CR ==> rest[0] != LF
    ensures Read(Gate(pending, 0, false), f + rest).Some? <==> Read(FRESH, rest).Some?
  {
    var g := Gate(pending, 0, false);
    ShortIsRead(g, f);
    AfterFrame(pending, f);
    ReadConcat(g, f, rest);
    var held := Read(g, f).value.gate;
    if held.previousCr && rest != [] {
      DelayedCr(held, rest[0], rest[1..]);
      assert rest == [rest[0]] + rest[1..];
    }
  }

  // ---------------------------------------------------------------------
  // Whole streams
  // ---------------------------------------------------------------------

  lemma FitsFirst(f: seq<byte>, rest: seq<byte>, bytes: seq<byte>)
    requires bytes == f + rest && Events(bytes) == [f] + Events(rest) && EventsFit(bytes, EVENT_LIMIT)
    ensures |f| <= EVENT_LIMIT && EventsFit(rest, EVENT_LIMIT)
  {
    FlattenCons(f, Events(rest));
    assert Events(bytes)[0] == f;
    forall x | x in Events(rest) ensures |x| <= EVENT_LIMIT {
      assert x in Events(bytes);
    }
  }

  lemma {:induction false} FittingIsRead(bytes: seq<byte>)
    requires EventsFit(bytes, EVENT_LIMIT)
    ensures Read(FRESH, bytes).Some?
    decreases |bytes|
  {
    if EventEnd(bytes).None? {
      assert Events(bytes) == [] && Flatten([]) == [];
      ShortIsRead(FRESH, bytes);
    } else {
      var f, rest := FirstEvent(bytes);
      FitsFirst(f, rest, bytes);
      FittingIsRead(rest);
      FrameThenRest([], f, rest);
    }
  }

  lemma ReadFits(bytes: seq<byte>)
    requires Read(FRESH, bytes).Some?
    ensures EventsFit(bytes, EVENT_LIMIT)
  {
    ReadIsLossless(FRESH, bytes);
    ReadIsBounded(FRESH, bytes);
    GateCutsAtEvents([], bytes);
    EventsFromStart(bytes);
    var r := Read(FRESH, bytes).value;
    assert [] + bytes == bytes;
    FlattenConcat(r.frames, Finish(r.gate));
    forall f | f in Events(bytes) ensures |f| <= EVENT_LIMIT {
      assert f in r.frames || f in Finish(r.gate);
    }
  }

  /** The last event ends with the stream, in a CR that a LF may still follow. */
  ghost predicate EndsHeldBack(bytes: seq<byte>) {
    bytes != [] && bytes[|bytes| - 1] == CR && Flatten(Events(bytes)) == bytes
  }

  /** The events of a stream that are settled, whatever follows. */
  ghost function SettledEvents(bytes: seq<byte>): int {
    |Events(bytes)| - if EndsHeldBack(bytes) then 1 else 0
  }

  lemma FramesAreSettled(bytes: seq<byte>)
    requires Read(FRESH, bytes).Some?
    ensures |Read(FRESH, bytes).value.frames| == SettledEvents(bytes)
  {
    var r := Read(FRESH, bytes).value;
    GateCutsAtEvents([], bytes);
    EventsFromStart(bytes);
    ReadIsLossless(FRESH, bytes);
    ReadKeepsSane(FRESH, bytes);
    assert [] + bytes == bytes;
    if Finish(r.gate) == [] {
      assert r.frames + [] == r.frames == Events(bytes);
      assert EndsHeldBack(bytes) ==> r.gate.frame == [];
    } else {
      FlattenConcat(r.frames, [r.gate.frame]);
      FlattenOne(r.gate.frame);
    }
  }

  /** All but the last byte of a chunk complete few enough events. */
  ghost predicate NotCrowded(chunks: seq<seq<byte>>, i: nat)
    requires i < |chunks|
  {
    chunks[i] != [] ==>
      var before := Flatten(chunks[..i]);
      SettledEvents(before + chunks[i][..|chunks[i]| - 1]) - SettledEvents(before) < FRAMES_PER_CHUNK
  }

  /**
   * A stream is accepted, however it is cut into chunks, exactly when its
   * events and its rest fit and no chunk goes on after too many events.
   */
  lemma {:induction false} AcceptedExactly(chunks: seq<seq<byte>>)
    ensures FeedAll(FRESH, chunks).Some? <==>
              EventsFit(Flatten(chunks), EVENT_LIMIT) && forall i :: 0 <= i < |chunks| ==> NotCrowded(chunks, i)
    decreases |chunks|
  {
    if chunks == [] {
      FittingIsRead([]);
      assert EventsFit([], EVENT_LIMIT);
    } else {
      var init, last := chunks[..|chunks| - 1], chunks[|chunks| - 1];
      AcceptedExactly(init);
      LastChunk(init, last);
      assert chunks == init + [last];
      forall i | 0 <= i < |init| ensures NotCrowded(chunks, i) <==> NotCrowded(init, i) {
        assert chunks[..i] == init[..i];
      }
      assert chunks[..|init|] == init;
    }
  }

  lemma LastChunk(init: seq<seq<byte>>, last: seq<byte>)
    requires FeedAll(FRESH, init).Some? ==> EventsFit(Flatten(init), EVENT_LIMIT)
    ensures FeedAll(FRESH, init + [last]).Some? <==>
              && FeedAll(FRESH, init).Some? && EventsFit(Flatten(init) + last, EVENT_LIMIT)
              && NotCrowded(init + [last], |init|)
    ensures EventsFit(Flatten(init) + last, EVENT_LIMIT) ==> EventsFit(Flatten(init), EVENT_LIMIT)
    ensures Flatten(init + [last]) == Flatten(init) + last
  {
    var chunks, before := init + [last], Flatten(init);
    assert chunks[..|init|] == init;
    ReadConcat(FRESH, before, last);
    FitsIsRead(before + last);
    FitsIsRead(before);
    if FeedAll(FRESH, init).Some? {
      FeedAllIsRead(FRESH, init);
      FeedIsRead(FeedAll(FRESH, init).value.gate, last);
      if last != [] && Read(FRESH, before + last).Some? {
        FramesOfPart(before, last[..|last| - 1], last);
      }
    }
  }

  lemma FitsIsRead(bytes: seq<byte>)
    ensures Read(FRESH, bytes).Some? <==> EventsFit(bytes, EVENT_LIMIT)
  {
    if EventsFit(bytes, EVENT_LIMIT) {
      FittingIsRead(bytes);
    }
    if Read(FRESH, bytes).Some? {
      ReadFits(bytes);
    }
  }

  lemma FramesOfPart(before: seq<byte>, part: seq<byte>, whole: seq<byte>)
    requires part <= whole && Read(FRESH, before + whole).Some?
    ensures Read(FRESH, before).Some? && Read(Read(FRESH, before).value.gate, part).Some?
    ensures |Read(Read(FRESH, before).value.gate, part).value.frames|
            == SettledEvents(before + part) - SettledEvents(before)
  {
    ReadPrefix(FRESH, before + whole, |before| + |part|);
    assert (before + whole)[..|before| + |part|] == before + part;
    ReadConcat(FRESH, before, part);
    FramesAreSettled(before);
    FramesAreSettled(before + part);
  }
}
