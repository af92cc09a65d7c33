/**
 * Lossy decoding against the encoding itself (section 3 of RFC 3629): what is
 * kept are the encodings of characters, and what is replaced are the longest
 * beginnings of one, or single bytes that begin none.
 */
module Utf8Encoding {
  import opened EventStream
  import opened Utf8

  /** A code point that is no surrogate. */
  ghost predicate IsScalar(c: nat) {
    c < 0xD800 || 0xE000 <= c <= 0x10_FFFF
  }

  ghost function Encode(c: nat): seq<byte>
    requires IsScalar(c)
  {
    if c < 0x80 then [c]
    else if c < 0x800 then [0xC0 + c / 0x40, 0x80 + c % 0x40]
    else if c < 0x1_0000 then [0xE0 + c / 0x1000, 0x80 + c / 0x40 % 0x40, 0x80 + c % 0x40]
    else [0xF0 + c / 0x4_0000, 0x80 + c / 0x1000 % 0x40, 0x80 + c / 0x40 % 0x40, 0x80 + c % 0x40]
  }

  /** The first `n` bytes of `s` are, or begin, the encoding of `c`. */
  ghost predicate Begins(s: seq<byte>, n: nat, c: nat) {
    IsScalar(c) && n <= |s| && s[..n] <= Encode(c)
  }

  lemma EncodingIsCharacter(s: seq<byte>, c: nat)
    requires IsScalar(c) && Encode(c) <= s
    ensures StartOf(s) == Character(|Encode(c)|)
  {
    var e := Encode(c);
    assert forall i :: 0 <= i < |e| ==> s[i] == e[i];
  }

  /** The code point of two, three or four bytes. */
  ghost function Decode2(a: nat, b: nat): int {
    (a - 0xC0) * 0x40 + (b - 0x80)
  }

  ghost function Decode3(a: nat, b: nat, c: nat): int {
    (a - 0xE0) * 0x1000 + (b - 0x80) * 0x40 + (c - 0x80)
  }

  ghost function Decode4(a: nat, b: nat, c: nat, d: nat): int {
    (a - 0xF0) * 0x4_0000 + (b - 0x80) * 0x1000 + (c - 0x80) * 0x40 + (d - 0x80)
  }

  lemma EncodeTwo(a: byte, b: byte)
    requires 0xC2 <= a < 0xE0 && 0x80 <= b < 0xC0
    ensures var c := Decode2(a, b); 0x80 <= c < 0x800 && Encode(c) == [a, b]
  {
  }

  lemma EncodeThree(a: byte, b: byte, c: byte)
    requires 0xE0 <= a < 0xF0 && 0x80 <= b < 0xC0 && 0x80 <= c < 0xC0
    requires (a == 0xE0 ==> b >= 0xA0) && (a == 0xED ==> b < 0xA0)
    ensures var d := Decode3(a, b, c); d >= 0 && IsScalar(d) && Encode(d) == [a, b, c]
  {
  }

  lemma LastSix(x: nat, y: nat)
    requires y < 0x40
    ensures (x * 0x40 + y) / 0x40 == x && (x * 0x40 + y) % 0x40 == y
  {
  }

  lemma EncodeFour(a: byte, b: byte, c: byte, d: byte)
    requires 0xF0 <= a < 0xF5 && 0x80 <= b < 0xC0 && 0x80 <= c < 0xC0 && 0x80 <= d < 0xC0
    requires (a == 0xF0 ==> b >= 0x90) && (a == 0xF4 ==> b < 0x90)
    ensures var e := Decode4(a, b, c, d); e >= 0 && IsScalar(e) && Encode(e) == [a, b, c, d]
  {
    var x: nat := (a - 0xF0) * 0x40 + (b - 0x80);
    var y: nat := x * 0x40 + (c - 0x80);
    var e: nat := y * 0x40 + (d - 0x80);
    LastSix(a - 0xF0, b - 0x80);
    LastSix(x, c - 0x80);
    LastSix(y, d - 0x80);
    assert e == Decode4(a, b, c, d) && e >= 0x1_0000;
    assert e / 0x40 == y && e / 0x1000 == x && e / 0x4_0000 == a - 0xF0;
  }

  /** What is kept is the encoding of a character. */
  lemma CharacterIsEncoding(s: seq<byte>) returns (c: nat)
    requires s != [] && StartOf(s).Character?
    ensures IsScalar(c) && Encode(c) == s[..StartOf(s).length]
  {
    match Width(s[0])
    case 1 => c := s[0];
    case 2 =>
      EncodeTwo(s[0], s[1]);
      c := Decode2(s[0], s[1]);
    case 3 =>
      EncodeThree(s[0], s[1], s[2]);
      c := Decode3(s[0], s[1], s[2]);
    case 4 =>
      EncodeFour(s[0], s[1], s[2], s[3]);
      c := Decode4(s[0], s[1], s[2], s[3]);
  }

  /** What is replaced begins an encoding, unless it is a single byte. */
  lemma InvalidBegins(s: seq<byte>) returns (c: nat)
    requires s != [] && StartOf(s).Invalid? && StartOf(s).length > 1
    ensures Begins(s, StartOf(s).length, c)
  {
    if Width(s[0]) == 3 {
      EncodeThree(s[0], s[1], 0x80);
      c := Decode3(s[0], s[1], 0x80);
    } else if StartOf(s).length == 2 {
      EncodeFour(s[0], s[1], 0x80, 0x80);
      c := Decode4(s[0], s[1], 0x80, 0x80);
    } else {
      EncodeFour(s[0], s[1], s[2], 0x80);
      c := Decode4(s[0], s[1], s[2], 0x80);
    }
  }

  /** No longer part begins an encoding. */
  lemma InvalidEnds(s: seq<byte>, c: nat)
    requires s != [] && StartOf(s).Invalid? && StartOf(s).length < |s|
    ensures !Begins(s, StartOf(s).length + 1, c)
  {
    if Begins(s, StartOf(s).length + 1, c) {
      var n, e := StartOf(s).length + 1, Encode(c);
      assert forall i :: 0 <= i < n ==> s[i] == e[i];
      assert false;
    }
  }

  /**
   * A byte string begins with a whole character exactly when it begins with
   * the encoding of one, and otherwise with the longest part that begins an
   * encoding, or with one byte if there is none.
   */
  lemma StartIsExact(s: seq<byte>)
    requires s != []
    ensures StartOf(s).Character? <==> exists c :: IsScalar(c) && Encode(c) <= s
    ensures StartOf(s).Character? ==> exists c :: IsScalar(c) && Encode(c) == s[..StartOf(s).length]
    ensures StartOf(s).Invalid? ==>
              var n := StartOf(s).length;
              && (n > 1 ==> exists c :: Begins(s, n, c))
              && forall m, c :: n < m <= |s| ==> !Begins(s, m, c)
  {
    if c :| IsScalar(c) && Encode(c) <= s {
      EncodingIsCharacter(s, c);
    }
    if StartOf(s).Character? {
      var c := CharacterIsEncoding(s);
    } else {
      var n := StartOf(s).length;
      if n > 1 {
        var c := InvalidBegins(s);
      }
      forall m, c | n < m <= |s| ensures !Begins(s, m, c) {
        InvalidEnds(s, c);
        assert s[..m][..n + 1] == s[..n + 1];
      }
    }
  }
}
