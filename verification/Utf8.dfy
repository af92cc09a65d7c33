/**
 * Lossy decoding of event names (src/proxy/sse.rs, `line`): every maximal
 * invalid part of a byte string is replaced by U+FFFD, as the Unicode standard
 * recommends in section 3.9. Strings are kept as their encoded bytes.
 */
module Utf8 {
  import opened EventStream

  /** U+FFFD. */
  const REPLACEMENT: seq<byte> := [0xEF, 0xBF, 0xBD]

  predicate IsAscii(s: seq<byte>) {
    forall i :: 0 <= i < |s| ==> s[i] < 0x80
  }

  predicate IsContinuation(s: seq<byte>, i: nat) {
    i < |s| && 0x80 <= s[i] < 0xC0
  }

  /** The number of bytes a first byte announces, or none. */
  function Width(b: byte): nat {
    if b < 0x80 then 1
    else if b < 0xC2 then 0
    else if b < 0xE0 then 2
    else if b < 0xF0 then 3
    else if b < 0xF5 then 4
    else 0
  }

  /** Whether a second byte may follow a first byte that announces three or four. */
  predicate MayFollow(first: byte, s: seq<byte>, i: nat) {
    && IsContinuation(s, i)
    && (first == 0xE0 ==> s[i] >= 0xA0) && (first == 0xED ==> s[i] < 0xA0)
    && (first == 0xF0 ==> s[i] >= 0x90) && (first == 0xF4 ==> s[i] < 0x90)
  }

  /** What a byte string begins with: a character, or a maximal invalid part, and its length. */
  datatype Start = Character(length: nat) | Invalid(length: nat)

  function StartOf(s: seq<byte>): (start: Start)
    requires s != []
    ensures 1 <= start.length <= |s|
    ensures s[0] < 0x80 ==> start == Character(1)
    ensures start.Character? && s[0] >= 0x80 ==> start.length > 1
  {
    match Width(s[0])
    case 1 => Character(1)
    case 2 => if IsContinuation(s, 1) then Character(2) else Invalid(1)
    case 3 =>
      if !MayFollow(s[0], s, 1) then Invalid(1)
      else if !IsContinuation(s, 2) then Invalid(2)
      else Character(3)
    case 4 =>
      if !MayFollow(s[0], s, 1) then Invalid(1)
      else if !IsContinuation(s, 2) then Invalid(2)
      else if !IsContinuation(s, 3) then Invalid(3)
      else Character(4)
    case _ => Invalid(1)
  }

  function Lossy(s: seq<byte>): (t: seq<byte>)
    decreases |s|
  {
    if s == [] then []
    else
      var start := StartOf(s);
      (if start.Character? then s[..start.length] else REPLACEMENT) + Lossy(s[start.length..])
  }

  /** Decoding invents no ASCII text: an ASCII result is the input itself, and ASCII text is kept. */
  lemma {:induction false} AsciiIsKept(s: seq<byte>)
    ensures IsAscii(Lossy(s)) <==> IsAscii(s)
    ensures IsAscii(s) ==> Lossy(s) == s
    decreases |s|
  {
    if s == [] {
    } else {
      var start := StartOf(s);
      var head, rest := if start.Character? then s[..start.length] else REPLACEMENT, s[start.length..];
      AsciiIsKept(rest);
      assert s == s[..start.length] + rest;
      AsciiJoin(head, Lossy(rest));
      AsciiJoin(s[..start.length], rest);
      assert REPLACEMENT[0] >= 0x80;
      assert s[0] == s[..start.length][0];
    }
  }

  lemma AsciiJoin(a: seq<byte>, b: seq<byte>)
    ensures IsAscii(a + b) <==> IsAscii(a) && IsAscii(b)
  {
    forall i | 0 <= i < |a| && IsAscii(a + b) ensures a[i] < 0x80 {
      assert (a + b)[i] == a[i];
    }
    forall i | 0 <= i < |b| && IsAscii(a + b) ensures b[i] < 0x80 {
      assert (a + b)[|a| + i] == b[i];
    }
  }

  /** Text is valid when it is all characters. */
  predicate IsUtf8(s: seq<byte>)
    decreases |s|
  {
    s == [] || (StartOf(s).Character? && IsUtf8(s[StartOf(s).length..]))
  }

  /** What follows a whole character does not change it. */
  lemma StartStays(s: seq<byte>, more: seq<byte>)
    requires s != [] && StartOf(s).Character?
    ensures StartOf(s + more) == StartOf(s)
  {
    assert forall i :: 0 <= i < |s| ==> (s + more)[i] == s[i];
  }

  /** A character in front of valid text. */
  lemma Utf8Cons(head: seq<byte>, rest: seq<byte>)
    requires head != [] && StartOf(head) == Character(|head|) && IsUtf8(rest)
    ensures IsUtf8(head + rest)
  {
    StartStays(head, rest);
    assert (head + rest)[|head|..] == rest;
  }

  /** A first character, and the replacement, are one whole character on their own. */
  lemma HeadIsCharacter(s: seq<byte>)
    requires s != []
    ensures StartOf(REPLACEMENT) == Character(3)
    ensures StartOf(s).Character? ==> StartOf(s[..StartOf(s).length]) == StartOf(s)
  {
    assert REPLACEMENT[0] == 0xEF && REPLACEMENT[1] == 0xBF && REPLACEMENT[2] == 0xBD;
  }

  /** The result is always valid text. */
  lemma {:induction false} LossyIsUtf8(s: seq<byte>)
    ensures IsUtf8(Lossy(s))
    decreases |s|
  {
    if s == [] {
    } else {
      var start := StartOf(s);
      LossyIsUtf8(s[start.length..]);
      HeadIsCharacter(s);
      Utf8Cons(if start.Character? then s[..start.length] else REPLACEMENT, Lossy(s[start.length..]));
    }
  }

  /** Valid text is kept. */
  lemma {:induction false} Utf8IsKept(s: seq<byte>)
    requires IsUtf8(s)
    ensures Lossy(s) == s
    decreases |s|
  {
    if s == [] {
    } else {
      Utf8IsKept(s[StartOf(s).length..]);
    }
  }
}
