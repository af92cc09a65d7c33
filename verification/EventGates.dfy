/**
 * The gate that cuts an upstream byte stream into whole events before any of
 * them is forwarded (src/proxy/runtime.rs, `EventGate`). It holds back a CR
 * until the next byte shows whether a CRLF is meant.
 */
module EventGates {
  import opened Prelude
  import opened EventStream

  const EVENT_LIMIT: nat := 1024 * 1024
  const FRAMES_PER_CHUNK: nat := 4096

  datatype Gate = Gate(frame: seq<byte>, lineLength: nat, previousCr: bool)

  const FRESH: Gate := Gate([], 0, false)

  /** What reading some bytes leaves behind and lets through. */
  datatype Reading = Reading(gate: Gate, frames: seq<seq<byte>>)

  // ---------------------------------------------------------------------
  // The automaton
  // ---------------------------------------------------------------------

  /** A line has ended; an empty one completes the frame. */
  function Newline(g: Gate): Reading {
    if g.lineLength == 0 then Reading(g.(frame := []), [g.frame])
    else Reading(g.(lineLength := 0), [])
  }

  /** Append one byte that does not complete a CRLF; `None` is an oversized frame. */
  function Push(g: Gate, b: byte): Option<Reading> {
    var g := g.(frame := g.frame + [b]);
    if |g.frame| > EVENT_LIMIT then None
    else if b == CR then Some(Reading(g.(previousCr := true), []))
    else if b == LF then Some(Newline(g))
    else Some(Reading(g.(lineLength := g.lineLength + 1), []))
  }

  function Step(g: Gate, b: byte): Option<Reading> {
    if !g.previousCr then Push(g, b)
    else if b == LF then
      var g := g.(frame := g.frame + [b], previousCr := false);
      if |g.frame| > EVENT_LIMIT then None else Some(Newline(g))
    else
      var settled := Newline(g.(previousCr := false));
      Prefixed(settled.frames, Push(settled.gate, b))
  }

  function Prefixed(frames: seq<seq<byte>>, reading: Option<Reading>): Option<Reading> {
    if reading.None? then None else Some(Reading(reading.value.gate, frames + reading.value.frames))
  }

  /** Reading bytes with no limit on the number of frames. */
  function Read(g: Gate, bytes: seq<byte>): Option<Reading> {
    if bytes == [] then Some(Reading(g, []))
    else Then(Read(g, bytes[..|bytes| - 1]), bytes[|bytes| - 1])
  }

  function Then(reading: Option<Reading>, b: byte): Option<Reading> {
    if reading.None? then None else Prefixed(reading.value.frames, Step(reading.value.gate, b))
  }

  /** One chunk as the proxy feeds it: a chunk may not go on after too many frames. */
  function Feed(g: Gate, chunk: seq<byte>): Option<Reading> {
    if chunk == [] then Some(Reading(g, []))
    else
      var before := Feed(g, chunk[..|chunk| - 1]);
      if before.None? || |before.value.frames| >= FRAMES_PER_CHUNK then None
      else Then(before, chunk[|chunk| - 1])
  }

  function FeedAll(g: Gate, chunks: seq<seq<byte>>): Option<Reading> {
    if chunks == [] then Some(Reading(g, []))
    else
      var before := FeedAll(g, chunks[..|chunks| - 1]);
      if before.None? then None
      else Prefixed(before.value.frames, Feed(before.value.gate, chunks[|chunks| - 1]))
  }

  /** At the end of the stream a held-back CR ends its line after all. */
  function Finish(g: Gate): seq<seq<byte>> {
    if g.previousCr then Newline(g.(previousCr := false)).frames else []
  }

  // ---------------------------------------------------------------------
  // Fragmentation
  // ---------------------------------------------------------------------

  lemma {:induction false} ReadConcat(g: Gate, a: seq<byte>, b: seq<byte>)
    ensures Read(g, a + b) ==
            if Read(g, a).None? then None else Prefixed(Read(g, a).value.frames, Read(Read(g, a).value.gate, b))
    decreases |b|
  {
    if b == [] {
      assert a + b == a;
      assert Read(g, a).Some? ==> Read(g, a).value.frames + [] == Read(g, a).value.frames;
    } else {
      var init, last := b[..|b| - 1], b[|b| - 1];
      assert (a + b)[..|a + b| - 1] == a + init;
      ReadConcat(g, a, init);
      if Read(g, a).Some? && Read(Read(g, a).value.gate, init).Some? {
        var first, second := Read(g, a).value, Read(Read(g, a).value.gate, init).value;
        var third := Step(second.gate, last);
        assert third.Some? ==>
            (first.frames + second.frames) + third.value.frames == first.frames + (second.frames + third.value.frames);
      }
    }
  }

  /** A chunk is accepted exactly when its bytes are and all but the last of them complete few enough frames. */
  lemma {:induction false} FeedIsRead(g: Gate, chunk: seq<byte>)
    ensures Feed(g, chunk).Some? ==> Feed(g, chunk) == Read(g, chunk)
    ensures Feed(g, chunk).Some? <==>
            && Read(g, chunk).Some?
            && (chunk != [] ==> |Read(g, chunk[..|chunk| - 1]).value.frames| < FRAMES_PER_CHUNK)
    decreases |chunk|
  {
    if chunk == [] {
    } else {
      var init := chunk[..|chunk| - 1];
      FeedIsRead(g, init);
      if init != [] && Read(g, init).Some? {
        assert |Read(g, init[..|init| - 1]).value.frames| <= |Read(g, init).value.frames|;
      }
    }
  }

  lemma {:induction false} FeedAllIsRead(g: Gate, chunks: seq<seq<byte>>)
    requires FeedAll(g, chunks).Some?
    ensures FeedAll(g, chunks) == Read(g, Flatten(chunks))
    decreases |chunks|
  {
    if chunks == [] {
    } else {
      var init, last := chunks[..|chunks| - 1], chunks[|chunks| - 1];
      FeedAllIsRead(g, init);
      FeedIsRead(FeedAll(g, init).value.gate, last);
      ReadConcat(g, Flatten(init), last);
    }
  }

  lemma ReadPrefix(g: Gate, bytes: seq<byte>, n: nat)
    requires n <= |bytes| && Read(g, bytes).Some?
    ensures Read(g, bytes[..n]).Some? && Read(g, bytes[..n]).value.frames <= Read(g, bytes).value.frames
    ensures Read(Read(g, bytes[..n]).value.gate, bytes[n..]).Some?
  {
    assert bytes == bytes[..n] + bytes[n..];
    ReadConcat(g, bytes[..n], bytes[n..]);
  }

  lemma FeedSplit(g: Gate, a: seq<byte>, b: seq<byte>)
    requires Feed(g, a + b).Some?
    ensures Feed(g, a).Some? && Feed(Feed(g, a).value.gate, b).Some?
    ensures Feed(g, a + b) == Prefixed(Feed(g, a).value.frames, Feed(Feed(g, a).value.gate, b))
  {
    FeedIsRead(g, a + b);
    ReadConcat(g, a, b);
    FeedIsRead(g, a);
    if a != [] {
      var shorter := a[..|a| - 1];
      var almost := (a + b)[..|a + b| - 1];
      ReadPrefix(g, almost, |shorter|);
      assert almost[..|shorter|] == shorter;
    }
    var middle := Read(g, a).value;
    FeedIsRead(middle.gate, b);
    if b != [] {
      var shorter := b[..|b| - 1];
      assert (a + b)[..|a + b| - 1] == a + shorter;
      ReadConcat(g, a, shorter);
    }
  }

  /** Whatever way an accepted chunk is fragmented, the frames and the state are the same. */
  lemma {:induction false} FragmentationIsInvisible(g: Gate, chunks: seq<seq<byte>>)
    requires Feed(g, Flatten(chunks)).Some?
    ensures FeedAll(g, chunks) == Feed(g, Flatten(chunks))
    decreases |chunks|
  {
    if chunks == [] {
    } else {
      var init, last := chunks[..|chunks| - 1], chunks[|chunks| - 1];
      FeedSplit(g, Flatten(init), last);
      FragmentationIsInvisible(g, init);
    }
  }

  // ---------------------------------------------------------------------
  // Nothing is lost
  // ---------------------------------------------------------------------

  lemma StepIsLossless(g: Gate, b: byte)
    requires Step(g, b).Some?
    ensures Flatten(Step(g, b).value.frames) + Step(g, b).value.gate.frame == g.frame + [b]
  {
    var r := Step(g, b).value;
    if r.frames != [] {
      assert r.frames == [r.frames[0]];
      assert Flatten(r.frames) == r.frames[0] by {
        FlattenCons(r.frames[0], []);
        assert r.frames == [r.frames[0]] + [];
      }
    }
  }

  lemma {:induction false} ReadIsLossless(g: Gate, bytes: seq<byte>)
    requires Read(g, bytes).Some?
    ensures Flatten(Read(g, bytes).value.frames) + Read(g, bytes).value.gate.frame == g.frame + bytes
    decreases |bytes|
  {
    if bytes == [] {
    } else {
      var init, last := bytes[..|bytes| - 1], bytes[|bytes| - 1];
      ReadIsLossless(g, init);
      var before := Read(g, init).value;
      StepIsLossless(before.gate, last);
      var step := Step(before.gate, last).value;
      FlattenConcat(before.frames, step.frames);
      Regroup(Flatten(before.frames), Flatten(step.frames), step.gate.frame, before.gate.frame, g.frame, init, last);
      assert bytes == init + [last];
    }
  }

  lemma Regroup(a: seq<byte>, b: seq<byte>, c: seq<byte>, d: seq<byte>, e: seq<byte>, init: seq<byte>, last: byte)
    requires b + c == d + [last] && a + d == e + init
    ensures (a + b) + c == e + (init + [last])
  {
    assert (a + b) + c == a + (b + c);
    assert a + (d + [last]) == (a + d) + [last];
    assert (e + init) + [last] == e + (init + [last]);
  }

  lemma {:induction false} ReadIsBounded(g: Gate, bytes: seq<byte>)
    requires |g.frame| <= EVENT_LIMIT && Read(g, bytes).Some?
    ensures |Read(g, bytes).value.gate.frame| <= EVENT_LIMIT
    ensures forall f :: f in Read(g, bytes).value.frames ==> |f| <= EVENT_LIMIT
    decreases |bytes|
  {
    if bytes == [] {
    } else {
      ReadIsBounded(g, bytes[..|bytes| - 1]);
    }
  }

  // ---------------------------------------------------------------------
  // The gate cuts exactly at the events of the stream
  // ---------------------------------------------------------------------

  ghost predicate AtLineStart(g: Gate) {
    g.lineLength == 0 && !g.previousCr
  }

  /** The events of a stream whose first bytes, `pending`, have been read already. */
  function EventsAfter(pending: seq<byte>, bytes: seq<byte>): seq<seq<byte>> {
    Assemble(pending, bytes, EventEnd(bytes))
  }

  function Assemble(pending: seq<byte>, bytes: seq<byte>, end: Option<nat>): seq<seq<byte>>
    requires end.Some? ==> end.value <= |bytes|
  {
    match end
    case None => []
    case Some(n) => [pending + bytes[..n]] + Events(bytes[n..])
  }

  lemma {:induction false} ReadContent(g: Gate, content: seq<byte>)
    requires !g.previousCr && (forall b :: b in content ==> !IsBreak(b)) && Read(g, content).Some?
    ensures Read(g, content).value == Reading(Gate(g.frame + content, g.lineLength + |content|, false), [])
    decreases |content|
  {
    if content == [] {
      assert g.frame + content == g.frame;
    } else {
      var init, last := content[..|content| - 1], content[|content| - 1];
      ReadContent(g, init);
      assert last in content && content == init + [last];
      assert Step(Gate(g.frame + init, g.lineLength + |init|, false), last).value
          == Reading(Gate(g.frame + init + [last], g.lineLength + |init| + 1, false), []);
      assert g.frame + init + [last] == g.frame + content;
    }
  }

  lemma ReadOne(g: Gate, b: byte)
    ensures Read(g, [b]) == Step(g, b)
  {
    assert [b][..0] == [];
    assert Step(g, b).Some? ==> [] + Step(g, b).value.frames == Step(g, b).value.frames;
  }

  lemma PrefixedTwice(a: seq<seq<byte>>, b: seq<seq<byte>>, reading: Option<Reading>)
    ensures Prefixed(a, Prefixed(b, reading)) == Prefixed(a + b, reading)
  {
    assert reading.Some? ==> a + (b + reading.value.frames) == (a + b) + reading.value.frames;
  }

  function GoOn(reading: Option<Reading>, rest: seq<byte>): Option<Reading> {
    if reading.None? then None else Prefixed(reading.value.frames, Read(reading.value.gate, rest))
  }

  lemma ReadCons(g: Gate, b: byte, rest: seq<byte>)
    ensures Read(g, [b] + rest) == GoOn(Step(g, b), rest)
  {
    ReadConcat(g, [b], rest);
    ReadOne(g, b);
  }

  /** A held-back CR acts as a line end once a byte other than LF follows. */
  lemma DelayedCr(g: Gate, b: byte, rest: seq<byte>)
    requires g.previousCr && b != LF
    ensures var settled := Newline(g.(previousCr := false));
            Read(g, [b] + rest) == Prefixed(settled.frames, Read(settled.gate, [b] + rest))
  {
    var settled := Newline(g.(previousCr := false));
    ReadCons(g, b, rest);
    ReadCons(settled.gate, b, rest);
    var pushed := Push(settled.gate, b);
    if pushed.Some? {
      PrefixedTwice(settled.frames, pushed.value.frames, Read(pushed.value.gate, rest));
    }
  }

  /** The effect of a complete line terminator. */
  function Broken(g: Gate, terminator: seq<byte>): Reading {
    Newline(g.(frame := g.frame + terminator, previousCr := false))
  }

  ghost predicate CompleteBreak(terminator: seq<byte>, rest: seq<byte>) {
    || terminator == [LF]
    || terminator == [CR, LF]
    || (terminator == [CR] && rest != [] && rest[0] != LF)
  }

  lemma PrefixedNothing(reading: Option<Reading>)
    ensures Prefixed([], reading) == reading
  {
    assert reading.Some? ==> [] + reading.value.frames == reading.value.frames;
  }

  /** Reading a CR only holds it back. */
  lemma ReadHeldCr(g: Gate, rest: seq<byte>)
    requires !g.previousCr && Read(g, [CR] + rest).Some?
    ensures Read(g, [CR] + rest) == Read(Gate(g.frame + [CR], g.lineLength, true), rest)
  {
    ReadCons(g, CR, rest);
    PrefixedNothing(Read(Gate(g.frame + [CR], g.lineLength, true), rest));
  }

  lemma ReadBreak(g: Gate, terminator: seq<byte>, rest: seq<byte>)
    requires !g.previousCr && CompleteBreak(terminator, rest)
    requires Read(g, terminator + rest).Some?
    ensures var broken := Broken(g, terminator);
            Read(g, terminator + rest) == Prefixed(broken.frames, Read(broken.gate, rest))
  {
    var held := Gate(g.frame + [CR], g.lineLength, true);
    if terminator == [LF] {
      ReadCons(g, LF, rest);
    } else if terminator == [CR] {
      ReadHeldCr(g, rest);
      assert rest == [rest[0]] + rest[1..];
      DelayedCr(held, rest[0], rest[1..]);
    } else {
      assert terminator + rest == [CR] + ([LF] + rest);
      ReadHeldCr(g, [LF] + rest);
      ReadCons(held, LF, rest);
      assert held.frame + [LF] == g.frame + terminator;
    }
  }

  lemma ReadPastContent(g: Gate, content: seq<byte>, rest: seq<byte>)
    requires AtLineStart(g) && (forall b :: b in content ==> !IsBreak(b))
    requires Read(g, content + rest).Some?
    ensures Read(g, content + rest) == Read(Gate(g.frame + content, |content|, false), rest)
  {
    ReadConcat(g, content, rest);
    ReadContent(g, content);
    PrefixedNothing(Read(Gate(g.frame + content, |content|, false), rest));
  }

  lemma ReadLineParts(pending: seq<byte>, content: seq<byte>, terminator: seq<byte>, rest: seq<byte>)
    requires (forall b :: b in content ==> !IsBreak(b)) && CompleteBreak(terminator, rest)
    requires Read(Gate(pending, 0, false), content + (terminator + rest)).Some?
    ensures Read(Gate(pending, 0, false), content + (terminator + rest))
            == if content == [] then Prefixed([pending + terminator], Read(FRESH, rest))
               else Read(Gate(pending + content + terminator, 0, false), rest)
  {
    var after := Gate(pending + content, |content|, false);
    ReadPastContent(Gate(pending, 0, false), content, terminator + rest);
    ReadBreak(after, terminator, rest);
    if content == [] {
      assert pending + content == pending;
    } else {
      PrefixedNothing(Read(Gate(pending + content + terminator, 0, false), rest));
    }
  }

  /** The gate at the start of a stream whose first line is complete. */
  lemma ReadLine(pending: seq<byte>, bytes: seq<byte>)
    requires HasLine(bytes) && Read(Gate(pending, 0, false), bytes).Some?
    requires LineEnd(bytes) < |bytes| || bytes[|bytes| - 1] == LF
    ensures var k := LineEnd(bytes);
            Read(Gate(pending, 0, false), bytes)
            == if LineLength(bytes) == 0 then Prefixed([pending + bytes[..k]], Read(FRESH, bytes[k..]))
               else Read(Gate(pending + bytes[..k], 0, false), bytes[k..])
  {
    var n, k := LineLength(bytes), LineEnd(bytes);
    Rejoin(pending, bytes, n, k);
    NoBreakInLine(bytes);
    BreakIsComplete(bytes, n);
    ReadLineParts(pending, bytes[..n], bytes[n..k], bytes[k..]);
  }

  lemma Rejoin(pending: seq<byte>, bytes: seq<byte>, n: nat, k: nat)
    requires n <= k <= |bytes|
    ensures bytes[..n] + (bytes[n..k] + bytes[k..]) == bytes
    ensures pending + bytes[..n] + bytes[n..k] == pending + bytes[..k]
    ensures n == 0 ==> bytes[n..k] == bytes[..k]
  {
  }

  lemma BreakIsComplete(bytes: seq<byte>, n: nat)
    requires n < |bytes| && IsBreak(bytes[n])
    requires n + BreakLength(bytes, n) < |bytes| || bytes[|bytes| - 1] == LF
    ensures CompleteBreak(bytes[n..n + BreakLength(bytes, n)], bytes[n + BreakLength(bytes, n)..])
  {
    var k := n + BreakLength(bytes, n);
    var terminator, rest := bytes[n..k], bytes[k..];
    assert terminator[0] == bytes[n];
    if k == n + 2 {
      assert terminator[1] == bytes[n + 1];
    } else if bytes[n] == CR {
      assert rest[0] == bytes[n + 1];
    }
  }

  /**
   * From a line start, the frames let through, together with what the end of
   * the stream still lets through, are exactly the events of the stream.
   */
  lemma {:induction false} GateCutsAtEvents(pending: seq<byte>, bytes: seq<byte>)
    requires Read(Gate(pending, 0, false), bytes).Some?
    ensures var r := Read(Gate(pending, 0, false), bytes).value;
            r.frames + Finish(r.gate) == EventsAfter(pending, bytes)
    decreases |bytes|
  {
    var g := Gate(pending, 0, false);
    NoBreakInLine(bytes);
    if !HasLine(bytes) {
      assert bytes[..|bytes|] == bytes;
      ReadContent(g, bytes);
    } else if LineEnd(bytes) == |bytes| && bytes[|bytes| - 1] == CR {
      assert bytes == bytes[..LineLength(bytes)] + [CR];
      HeldCrAtEnd(pending, bytes[..LineLength(bytes)]);
    } else {
      var k := LineEnd(bytes);
      ReadLine(pending, bytes);
      if LineLength(bytes) == 0 {
        GateCutsAtEvents([], bytes[k..]);
        EventsFromStart(bytes[k..]);
      } else {
        GateCutsAtEvents(pending + bytes[..k], bytes[k..]);
        EventsPastLine(pending, bytes);
      }
    }
  }

  lemma EventsFromStart(bytes: seq<byte>)
    ensures EventsAfter([], bytes) == Events(bytes)
  {
    if EventEnd(bytes).Some? {
      assert [] + bytes[..EventEnd(bytes).value] == bytes[..EventEnd(bytes).value];
    }
  }

  lemma EventsPastLine(pending: seq<byte>, bytes: seq<byte>)
    requires HasLine(bytes) && LineLength(bytes) > 0
    ensures EventsAfter(pending, bytes) == EventsAfter(pending + bytes[..LineEnd(bytes)], bytes[LineEnd(bytes)..])
  {
    var k := LineEnd(bytes);
    var rest := EventEnd(bytes[k..]);
    EventEndPastLine(bytes);
    if rest.Some? {
      AssembleAt(pending, bytes, k, rest.value);
    }
  }

  lemma AssembleAt(pending: seq<byte>, bytes: seq<byte>, k: nat, n: nat)
    requires k + n <= |bytes|
    ensures Assemble(pending, bytes, Some(k + n)) == Assemble(pending + bytes[..k], bytes[k..], Some(n))
  {
    JoinAt(pending, bytes, k, n);
  }

  lemma JoinAt(pending: seq<byte>, bytes: seq<byte>, k: nat, n: nat)
    requires k + n <= |bytes|
    ensures pending + bytes[..k] + bytes[k..][..n] == pending + bytes[..k + n]
    ensures bytes[k..][n..] == bytes[k + n..]
  {
  }

  lemma EventEndPastLine(bytes: seq<byte>)
    requires HasLine(bytes) && LineLength(bytes) > 0
    ensures EventEnd(bytes) == var rest := EventEnd(bytes[LineEnd(bytes)..]);
                               if rest.None? then None else Some(LineEnd(bytes) + rest.value)
  {
  }

  lemma ReadHeldLine(pending: seq<byte>, content: seq<byte>)
    requires (forall b :: b in content ==> !IsBreak(b)) && Read(Gate(pending, 0, false), content + [CR]).Some?
    ensures Read(Gate(pending, 0, false), content + [CR])
            == Some(Reading(Gate(pending + content + [CR], |content|, true), []))
  {
    ReadPastContent(Gate(pending, 0, false), content, [CR]);
    ReadOne(Gate(pending + content, |content|, false), CR);
  }

  lemma HeldCrAtEnd(pending: seq<byte>, content: seq<byte>)
    requires forall b :: b in content ==> !IsBreak(b)
    requires Read(Gate(pending, 0, false), content + [CR]).Some?
    ensures var r := Read(Gate(pending, 0, false), content + [CR]).value;
            r.frames + Finish(r.gate) == EventsAfter(pending, content + [CR])
  {
    ReadHeldLine(pending, content);
    HeldCrEvents(pending, content);
    assert [] + EventsAfter(pending, content + [CR]) == EventsAfter(pending, content + [CR]);
  }

  lemma HeldCrEvents(pending: seq<byte>, content: seq<byte>)
    requires forall b :: b in content ==> !IsBreak(b)
    ensures EventsAfter(pending, content + [CR]) == Finish(Gate(pending + content + [CR], |content|, true))
  {
    var bytes := content + [CR];
    LineLengthIs(bytes, |content|);
    assert bytes[|bytes|..] == [] && bytes[..|bytes|] == bytes;
    assert EventEnd([]) == None && Events([]) == [];
    assert pending + content + [CR] == pending + bytes;
  }

  /**
   * The gate on a whole stream: its frames and the held-back rest are the
   * stream's events in order, and nothing of the stream is lost or altered.
   */
  lemma WholeStream(chunks: seq<seq<byte>>)
    requires FeedAll(FRESH, chunks).Some?
    ensures var r := FeedAll(FRESH, chunks).value;
            && r.frames + Finish(r.gate) == Events(Flatten(chunks))
            && Flatten(r.frames) + r.gate.frame == Flatten(chunks)
            && (forall f :: f in Events(Flatten(chunks)) ==> IsFrame(f) && |f| <= EVENT_LIMIT)
            && |Flatten(chunks)| - |Flatten(Events(Flatten(chunks)))| <= EVENT_LIMIT
  {
    var bytes := Flatten(chunks);
    FeedAllIsRead(FRESH, chunks);
    GateCutsAtEvents([], bytes);
    EventsFromStart(bytes);
    ReadIsLossless(FRESH, bytes);
    ReadIsBounded(FRESH, bytes);
    EventsAreFrames(bytes);
    assert [] + bytes == bytes;
    var r := FeedAll(FRESH, chunks).value;
    FlattenConcat(r.frames, Finish(r.gate));
    forall f | f in Events(bytes) ensures |f| <= EVENT_LIMIT {
      assert f in r.frames || f in Finish(r.gate);
    }
  }
}
