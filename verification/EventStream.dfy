/**
 * Reference reading of a server-sent event stream, written on whole byte
 * strings: where lines and events end. Lines end at LF, CR or CRLF (section
 * 9.2.5 of the WHATWG HTML standard); an event ends with an empty line, and
 * an unfinished last event is dropped (section 9.2.6).
 */
module EventStream {
  import opened Prelude

  type byte = b: nat | b < 256

  const LF: byte := 10
  const CR: byte := 13
  const SPACE: byte := 32

  predicate IsBreak(b: byte) {
    b == LF || b == CR
  }

  /** The first line break at or after position `i`, or the end. */
  function NextBreak(s: seq<byte>, i: nat): (n: nat)
    requires i <= |s|
    ensures i <= n <= |s|
    decreases |s| - i
  {
    if i == |s| || IsBreak(s[i]) then i else NextBreak(s, i + 1)
  }

  /** The length of the first line, without its terminator. */
  function LineLength(s: seq<byte>): (n: nat)
    ensures n <= |s|
    ensures n < |s| ==> IsBreak(s[n])
  {
    NextBreakStops(s, 0);
    NextBreak(s, 0)
  }

  lemma {:induction false} NextBreakStops(s: seq<byte>, i: nat)
    requires i <= |s|
    ensures NextBreak(s, i) < |s| ==> IsBreak(s[NextBreak(s, i)])
    ensures forall j :: i <= j < NextBreak(s, i) ==> !IsBreak(s[j])
    decreases |s| - i
  {
    if i == |s| || IsBreak(s[i]) {
    } else {
      NextBreakStops(s, i + 1);
    }
  }

  /** The length of the line terminator at position `n`; CRLF is one terminator. */
  function BreakLength(s: seq<byte>, n: nat): (length: nat)
    requires n < |s| && IsBreak(s[n])
    ensures 1 <= length <= 2 && n + length <= |s|
  {
    if s[n] == CR && n + 1 < |s| && s[n + 1] == LF then 2 else 1
  }

  /** Whether `s` contains a terminated line. */
  predicate HasLine(s: seq<byte>) {
    LineLength(s) < |s|
  }

  /** Where the first line, terminator included, ends. */
  function LineEnd(s: seq<byte>): (n: nat)
    requires HasLine(s)
    ensures LineLength(s) < n <= |s|
  {
    LineLength(s) + BreakLength(s, LineLength(s))
  }

  /** Where the first event ends: after the terminator of the first empty line. */
  function EventEnd(s: seq<byte>): (end: Option<nat>)
    ensures end.Some? ==> 0 < end.value <= |s|
    decreases |s|
  {
    if !HasLine(s) then None
    else if LineLength(s) == 0 then Some(LineEnd(s))
    else
      match EventEnd(s[LineEnd(s)..])
      case None => None
      case Some(n) => Some(LineEnd(s) + n)
  }

  /** The complete events of a stream. */
  function Events(s: seq<byte>): seq<seq<byte>>
    decreases |s|
  {
    match EventEnd(s)
    case None => []
    case Some(n) => [s[..n]] + Events(s[n..])
  }

  /** A frame is exactly one event: it ends at an empty line and contains no earlier one. */
  predicate IsFrame(s: seq<byte>) {
    EventEnd(s) == Some(|s|)
  }

  function Flatten(parts: seq<seq<byte>>): seq<byte> {
    if parts == [] then [] else Flatten(parts[..|parts| - 1]) + parts[|parts| - 1]
  }

  lemma {:induction false} FlattenConcat(a: seq<seq<byte>>, b: seq<seq<byte>>)
    ensures Flatten(a + b) == Flatten(a) + Flatten(b)
    decreases |b|
  {
    if b == [] {
      assert a + b == a;
    } else {
      var init := b[..|b| - 1];
      assert (a + b)[..|a + b| - 1] == a + init;
      FlattenConcat(a, init);
    }
  }

  lemma FlattenCons(a: seq<byte>, rest: seq<seq<byte>>)
    ensures Flatten([a] + rest) == a + Flatten(rest)
  {
    FlattenConcat([a], rest);
    assert Flatten([a]) == Flatten([]) + a by { assert [a][..0] == []; }
  }

  /** No event, nor the unfinished rest, exceeds the limit. */
  ghost predicate EventsFit(bytes: seq<byte>, limit: nat) {
    && (forall f :: f in Events(bytes) ==> |f| <= limit)
    && |bytes| - |Flatten(Events(bytes))| <= limit
  }

  // ---------------------------------------------------------------------
  // Reading a prefix
  // ---------------------------------------------------------------------

  lemma LineLengthIs(s: seq<byte>, n: nat)
    requires n <= |s| && (forall i :: 0 <= i < n ==> !IsBreak(s[i])) && (n < |s| ==> IsBreak(s[n]))
    ensures LineLength(s) == n
  {
    NextBreakIs(s, 0, n);
  }

  lemma {:induction false} NextBreakIs(s: seq<byte>, i: nat, n: nat)
    requires i <= n <= |s| && (forall j :: i <= j < n ==> !IsBreak(s[j])) && (n < |s| ==> IsBreak(s[n]))
    ensures NextBreak(s, i) == n
    decreases n - i
  {
    if i == n {
    } else {
      NextBreakIs(s, i + 1, n);
    }
  }

  lemma NoBreakInLine(s: seq<byte>)
    ensures forall b :: b in s[..LineLength(s)] ==> !IsBreak(b)
  {
    NextBreakStops(s, 0);
  }

  lemma DropDrop<T>(s: seq<T>, a: nat, b: nat)
    requires a + b <= |s|
    ensures s[a..][b..] == s[a + b..]
  {
  }

  lemma TakeDrop<T>(s: seq<T>, end: nat, a: nat)
    requires a <= end <= |s|
    ensures s[..end][a..] == s[a..][..end - a]
  {
  }

  /** A line reads the same in a prefix that contains it. */
  lemma LineInPrefix(s: seq<byte>, end: nat)
    requires HasLine(s) && LineEnd(s) <= end <= |s|
    ensures HasLine(s[..end]) && LineLength(s[..end]) == LineLength(s) && LineEnd(s[..end]) == LineEnd(s)
  {
    NextBreakStops(s, 0);
    LineLengthIs(s[..end], LineLength(s));
  }

  /** The first event of a stream is the first event of every longer or equal prefix. */
  lemma {:induction false} EventInPrefix(s: seq<byte>, end: nat)
    requires EventEnd(s).Some? && EventEnd(s).value <= end <= |s|
    ensures EventEnd(s[..end]) == EventEnd(s)
    decreases |s|
  {
    var k := LineEnd(s);
    LineInPrefix(s, end);
    if LineLength(s) == 0 {
    } else {
      EventInPrefix(s[k..], end - k);
      TakeDrop(s, end, k);
    }
  }

  /** The first event of a stream is a frame of its own. */
  lemma EventIsFrame(s: seq<byte>)
    requires EventEnd(s).Some?
    ensures IsFrame(s[..EventEnd(s).value])
  {
    EventInPrefix(s, EventEnd(s).value);
  }

  /** After an event that ends in CR the stream does not continue with LF. */
  lemma {:induction false} EventTakesWholeBreak(s: seq<byte>)
    requires EventEnd(s).Some? && EventEnd(s).value < |s| && s[EventEnd(s).value - 1] == CR
    ensures s[EventEnd(s).value] != LF
    decreases |s|
  {
    var k := LineEnd(s);
    if LineLength(s) == 0 {
    } else {
      var end := EventEnd(s[k..]).value;
      assert s[k..][end - 1] == s[k + end - 1] && s[k..][end] == s[k + end];
      EventTakesWholeBreak(s[k..]);
    }
  }

  /** A stream taken apart after its first event. */
  lemma FirstEvent(s: seq<byte>) returns (f: seq<byte>, rest: seq<byte>)
    requires EventEnd(s).Some?
    ensures s == f + rest && Events(s) == [f] + Events(rest) && |rest| < |s|
    ensures IsFrame(f) && (f[|f| - 1] == CR && rest != [] ==> rest[0] != LF)
  {
    var n := EventEnd(s).value;
    f, rest := s[..n], s[n..];
    EventIsFrame(s);
    if f[n - 1] == CR && rest != [] {
      EventTakesWholeBreak(s);
    }
  }

  lemma {:induction false} EventsAreFrames(s: seq<byte>)
    ensures forall f :: f in Events(s) ==> IsFrame(f)
    decreases |s|
  {
    if EventEnd(s).None? {
    } else {
      EventIsFrame(s);
      EventsAreFrames(s[EventEnd(s).value..]);
    }
  }

  lemma AfterPrefix(s: seq<byte>, n: nat, rest: seq<byte>)
    requires n <= |s| && rest <= s[n..]
    ensures s[..n] + rest <= s && s[|s[..n] + rest|..] == s[n..][|rest|..]
  {
    DropDrop(s, n, |rest|);
  }

  /** The events are a prefix of the stream, and what follows them holds no complete event. */
  lemma {:induction false} EventsArePrefix(s: seq<byte>)
    ensures Flatten(Events(s)) <= s
    ensures EventEnd(s[|Flatten(Events(s))|..]) == None
    decreases |s|
  {
    if EventEnd(s).Some? {
      var n := EventEnd(s).value;
      var rest := Flatten(Events(s[n..]));
      EventsArePrefix(s[n..]);
      FlattenCons(s[..n], Events(s[n..]));
      AfterPrefix(s, n, rest);
    } else {
      assert s[0..] == s;
    }
  }

  /** Without the unfinished rest, a stream has the same events. */
  lemma {:induction false} EventsOfEvents(s: seq<byte>)
    ensures Events(Flatten(Events(s))) == Events(s)
    decreases |s|
  {
    if EventEnd(s).None? {
    } else {
      var n := EventEnd(s).value;
      var flat := Flatten(Events(s));
      EventsArePrefix(s);
      FlattenCons(s[..n], Events(s[n..]));
      assert flat == s[..|flat|];
      EventInPrefix(s, |flat|);
      assert flat[n..] == Flatten(Events(s[n..])) && flat[..n] == s[..n];
      EventsOfEvents(s[n..]);
    }
  }
}
