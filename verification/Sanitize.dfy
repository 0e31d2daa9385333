/** utf8/sanitize.go, over the byte sequences of section 4 of RFC 3629. */
module Sanitize {
  type byte = x: int | 0 <= x < 0x100

  const REPLACEMENT: byte := 63

  predicate Tail(b: byte) {
    0x80 <= b <= 0xBF
  }

  /** The second byte that may follow a first byte of three or four. */
  predicate Second(a: byte, b: byte) {
    match a
    case 0xE0 => 0xA0 <= b <= 0xBF
    case 0xED => 0x80 <= b <= 0x9F
    case 0xF0 => 0x90 <= b <= 0xBF
    case 0xF4 => 0x80 <= b <= 0x8F
    case _ => Tail(b)
  }

  /** The length of the character the bytes begin with; 0 when they begin with none, for which utf8.DecodeRune
      reports an error of size 1. */
  function Width(b: seq<byte>): (n: nat)
    ensures n <= |b|
  {
    if b == [] then 0
    else if b[0] <= 0x7F then 1
    else if 0xC2 <= b[0] <= 0xDF then if |b| >= 2 && Tail(b[1]) then 2 else 0
    else if 0xE0 <= b[0] <= 0xEF then if |b| >= 3 && Second(b[0], b[1]) && Tail(b[2]) then 3 else 0
    else if 0xF0 <= b[0] <= 0xF4 then if |b| >= 4 && Second(b[0], b[1]) && Tail(b[2]) && Tail(b[3]) then 4 else 0
    else 0
  }

  /** A sequence of characters. */
  predicate WellFormed(b: seq<byte>) {
    b == [] || (Width(b) > 0 && WellFormed(b[Width(b)..]))
  }

  // ---------------------------------------------------------------- the encoder

  /** A character's number: none is a surrogate. */
  type Scalar = c: int | 0 <= c < 0xD800 || 0xE000 <= c < 0x110000

  /** The bytes of a character, six bits to a byte after the first. */
  function Encoding(c: Scalar): (b: seq<byte>)
    ensures b != []
  {
    if c < 0x80 then [c]
    else if c < 0x800 then [0xC0 + c / 0x40, 0x80 + c % 0x40]
    else if c < 0x10000 then [0xE0 + c / 0x1000, 0x80 + c / 0x40 % 0x40, 0x80 + c % 0x40]
    else [0xF0 + c / 0x40000, 0x80 + c / 0x1000 % 0x40, 0x80 + c / 0x40 % 0x40, 0x80 + c % 0x40]
  }

  function Encoded(cs: seq<Scalar>): seq<byte> {
    if cs == [] then [] else Encoding(cs[0]) + Encoded(cs[1..])
  }

  /** The bytes of a character are found at once, whatever follows them. */
  lemma EncodingIsFound(c: Scalar, rest: seq<byte>)
    ensures Width(Encoding(c) + rest) == |Encoding(c)|
  {
  }

  /** The digits of a number in base 64. */
  lemma Digits(x: nat, y: nat, z: nat)
    requires y < 0x40 && z < 0x40
    ensures var c := x * 0x1000 + y * 0x40 + z; c / 0x1000 == x && c / 0x40 == x * 0x40 + y && c / 0x40 % 0x40 == y && c % 0x40 == z
  {
  }

  lemma FirstDigit(w: nat, low: nat)
    requires low < 0x40000
    ensures (w * 0x40000 + low) / 0x40000 == w
  {
  }

  lemma HighDigits(w: nat, x: nat, rest: nat)
    requires x < 0x40 && rest < 0x1000
    ensures var c := w * 0x40000 + x * 0x1000 + rest; c / 0x40000 == w && c / 0x1000 % 0x40 == x
  {
    var c, high := w * 0x40000 + x * 0x1000 + rest, w * 0x40 + x;
    FirstDigit(w, x * 0x1000 + rest);
    assert c == high * 0x1000 + rest;
    assert c / 0x1000 == high && high % 0x40 == x;
  }

  lemma TwoOrThreeBytes(b: seq<byte>) returns (c: Scalar)
    requires Width(b) == 2 || Width(b) == 3
    ensures b[..Width(b)] == Encoding(c)
  {
    var first: int := b[0];
    if Width(b) == 2 {
      Digits(0, first - 0xC0, Bits(b[1]));
      c := (first - 0xC0) * 0x40 + Bits(b[1]);
    } else {
      Digits(first - 0xE0, Bits(b[1]), Bits(b[2]));
      c := (first - 0xE0) * 0x1000 + Bits(b[1]) * 0x40 + Bits(b[2]);
    }
  }

  lemma FourBytes(b: seq<byte>) returns (c: Scalar)
    requires Width(b) == 4
    ensures b[..4] == Encoding(c)
  {
    var first: int := b[0];
    Digits((first - 0xF0) * 0x40 + Bits(b[1]), Bits(b[2]), Bits(b[3]));
    HighDigits(first - 0xF0, Bits(b[1]), Bits(b[2]) * 0x40 + Bits(b[3]));
    c := (first - 0xF0) * 0x40000 + Bits(b[1]) * 0x1000 + Bits(b[2]) * 0x40 + Bits(b[3]);
  }

  /** What the width finds is the bytes of a character. */
  lemma FoundIsEncoding(b: seq<byte>) returns (c: Scalar)
    requires Width(b) > 0
    ensures b[..Width(b)] == Encoding(c)
  {
    if Width(b) == 1 {
      c := b[0];
    } else if Width(b) == 4 {
      c := FourBytes(b);
    } else {
      c := TwoOrThreeBytes(b);
    }
  }

  /** The six bits of a byte after the first. */
  function Bits(b: byte): int {
    b as int - 0x80
  }

  lemma {:induction false} EncodedIsWellFormed(cs: seq<Scalar>)
    ensures WellFormed(Encoded(cs))
  {
    hide Width, Encoding;
    if cs != [] {
      var e, rest := Encoding(cs[0]), Encoded(cs[1..]);
      EncodingIsFound(cs[0], rest);
      EncodedIsWellFormed(cs[1..]);
      assert (e + rest)[|e|..] == rest;
    }
  }

  lemma {:induction false} WellFormedIsEncoded(b: seq<byte>) returns (cs: seq<Scalar>)
    requires WellFormed(b)
    ensures Encoded(cs) == b
  {
    hide Width, Encoding;
    if b == [] {
      cs := [];
    } else {
      var n := Width(b);
      var c := FoundIsEncoding(b);
      var rest := WellFormedIsEncoded(b[n..]);
      cs := [c] + rest;
      assert cs[1..] == rest && b == b[..n] + b[n..];
    }
  }

  /** The well-formed sequences are exactly the encodings of sequences of characters. */
  lemma WellFormedExactly(b: seq<byte>)
    ensures WellFormed(b) <==> exists cs :: Encoded(cs) == b
  {
    if WellFormed(b) {
      var cs := WellFormedIsEncoded(b);
    } else if cs :| Encoded(cs) == b {
      EncodedIsWellFormed(cs);
    }
  }

  /** Characters stay, and each other byte is replaced. */
  function Sanitized(b: seq<byte>): (r: seq<byte>)
    ensures |r| == |b|
  {
    if b == [] then []
    else if Width(b) == 0 then [REPLACEMENT] + Sanitized(b[1..])
    else b[..Width(b)] + Sanitized(b[Width(b)..])
  }

  /** A character is told by its own bytes. */
  lemma WidthOfPrefix(b: seq<byte>, rest: seq<byte>)
    requires Width(b) > 0
    ensures Width(b[..Width(b)] + rest) == Width(b)
  {
  }

  lemma {:induction false} SanitizedIsWellFormed(b: seq<byte>)
    ensures WellFormed(Sanitized(b))
  {
    if b != [] {
      var n := Width(b);
      if n == 0 {
        SanitizedIsWellFormed(b[1..]);
        assert Sanitized(b)[1..] == Sanitized(b[1..]) && Width(Sanitized(b)) == 1;
      } else {
        SanitizedIsWellFormed(b[n..]);
        WidthOfPrefix(b, Sanitized(b[n..]));
        assert Sanitized(b)[n..] == Sanitized(b[n..]);
      }
    }
  }

  /** From the front: a character's bytes stay, and a byte with which no character's bytes begin is replaced. */
  lemma SanitizesFromTheFront(c: Scalar, b: seq<byte>)
    ensures Sanitized(Encoding(c) + b) == Encoding(c) + Sanitized(b)
    ensures b != [] && (forall d: Scalar :: !(Encoding(d) <= b)) ==> Sanitized(b) == [REPLACEMENT] + Sanitized(b[1..])
  {
    hide Width, Encoding;
    EncodingIsFound(c, b);
    var e := Encoding(c);
    assert (e + b)[..|e|] == e && (e + b)[|e|..] == b;
    if b != [] && Width(b) > 0 {
      var d := FoundIsEncoding(b);
      assert Encoding(d) <= b;
    }
  }

  lemma AsciiIsWide(b: seq<byte>)
    requires b != [] && b[0] < 0x80
    ensures Width(b) == 1
  {
  }

  /** Exactly the well-formed sequences stay as they are. */
  lemma {:induction false} UnchangedExactly(b: seq<byte>)
    ensures Sanitized(b) == b <==> WellFormed(b)
  {
    hide Width;
    if b != [] {
      var n := Width(b);
      if n == 0 {
        if b[0] == REPLACEMENT {
          AsciiIsWide(b);
        }
        assert Sanitized(b)[0] == REPLACEMENT != b[0];
      } else {
        UnchangedExactly(b[n..]);
        assert b == b[..n] + b[n..] && Sanitized(b)[n..] == Sanitized(b[n..]);
      }
    }
  }

  /** No byte below 0x80 is touched, and every byte touched becomes the replacement. */
  lemma {:induction false} OnlyReplaces(b: seq<byte>, i: nat)
    requires i < |b|
    ensures Sanitized(b)[i] == b[i] || (b[i] >= 0x80 && Sanitized(b)[i] == '?' as int)
  {
    var n := Width(b);
    if n == 0 && i > 0 {
      OnlyReplaces(b[1..], i - 1);
    } else if n > 0 && i >= n {
      OnlyReplaces(b[n..], i - n);
    }
  }

  /** What one turn of the loop makes of the bytes it is at. */
  function Turned(b: seq<byte>, i: nat): seq<byte>
    requires i < |b|
  {
    if Width(b[i..]) == 0 then [REPLACEMENT] else b[i..i + Width(b[i..])]
  }

  lemma TurnedLength(b: seq<byte>, i: nat)
    requires i < |b|
    ensures |Turned(b, i)| == (if Width(b[i..]) == 0 then 1 else Width(b[i..])) && i + |Turned(b, i)| <= |b|
  {
  }

  lemma Unfolded(b: seq<byte>, i: nat)
    requires i < |b|
    ensures i + |Turned(b, i)| <= |b| && Sanitized(b[i..]) == Turned(b, i) + Sanitized(b[i + |Turned(b, i)|..])
  {
    hide Sanitized, Width;
    var n := if Width(b[i..]) == 0 then 1 else Width(b[i..]);
    TurnedLength(b, i);
    Definition(b[i..]);
    Slices(b, i, n);
  }

  lemma Definition(b: seq<byte>)
    requires b != []
    ensures Sanitized(b) == if Width(b) == 0 then [REPLACEMENT] + Sanitized(b[1..]) else b[..Width(b)] + Sanitized(b[Width(b)..])
  {
    hide Width;
  }

  lemma Slices<X>(b: seq<X>, i: nat, n: nat)
    requires i + n <= |b|
    ensures b[i..][n..] == b[i + n..] && b[i..][..n] == b[i..i + n]
  {
  }

  lemma Chain<X>(whole: seq<X>, done: seq<X>, tail: seq<X>, mid: seq<X>, rest: seq<X>)
    requires done + tail == whole && tail == mid + rest
    ensures (done + mid) + rest == whole
  {
  }

  method Sanitize(data: array<byte>)
    modifies data
    ensures data[..] == Sanitized(old(data[..]))
  {
    hide Width, Sanitized;
    ghost var was, done := data[..], [];
    var i := 0;
    assert was[0..] == was;
    while i < data.Length
      invariant 0 <= i <= data.Length && data[..i] == done && data[i..] == was[i..]
      invariant done + Sanitized(was[i..]) == Sanitized(was)
    {
      Unfolded(was, i);
      TurnedLength(was, i);
      Chain(Sanitized(was), done, Sanitized(was[i..]), Turned(was, i), Sanitized(was[i + |Turned(was, i)|..]));
      var size := Width(data[i..]);
      if size == 0 {
        data[i] := REPLACEMENT;
        size := 1;
      }
      done := done + Turned(was, i);
      assert data[..i + size] == data[..i] + Turned(was, i);
      i := i + size;
    }
    Nothing(was[i..]);
  }

  lemma Nothing(b: seq<byte>)
    requires b == []
    ensures Sanitized(b) == []
  {
  }
}
