/** Octets, ASCII text and the UTF-8 encoding of runes, as Go strings hold them. */
module Bytes {

  /** Go's byte. */
  newtype byte = x: int | 0 <= x < 256

  const NL: byte := 10
  const SP: byte := 32
  const Slash: byte := 47
  const Colon: byte := 58
  const Dot: byte := 46

  /** Go's conversion byte(x) of an integer: keeps the low eight bits. */
  function ByteOf(x: int): byte
  {
    (x % 256) as byte
  }

  /** byte(x) differs from x by a multiple of 256 and is x itself when x fits. */
  lemma ByteOfWraps(x: int)
    ensures (ByteOf(x) as int - x) % 256 == 0
    ensures 0 <= x < 256 ==> ByteOf(x) as int == x
  {
  }

  /** Regrouping appends, stated once for byte strings so that proofs about long
      concatenations need not compare them byte by byte. */
  lemma Assoc(a: seq<byte>, b: seq<byte>, c: seq<byte>)
    ensures a + b + c == a + (b + c)
  {
  }

  /** The empty string is a unit of concatenation. */
  lemma AppendEmpty(s: seq<byte>)
    ensures [] + s == s && s + [] == s
  {
  }

  predicate IsAscii(s: string) {
    forall i :: 0 <= i < |s| ==> s[i] as int < 128
  }

  /** The bytes of an ASCII string literal. */
  function Ascii(s: string): seq<byte>
    requires IsAscii(s)
  {
    seq(|s|, i requires 0 <= i < |s| => s[i] as int as byte)
  }

  /** ASCII text is its own UTF-8 encoding. */
  lemma {:induction false} AsciiUtf8(s: string)
    requires IsAscii(s)
    ensures Utf8(s) == Ascii(s)
  {
    if s != [] {
      AsciiUtf8(s[1..]);
      assert Ascii(s) == [s[0] as int as byte] + Ascii(s[1..]);
    }
  }

  /** The UTF-8 encoding of one rune (what bytes.Buffer.WriteRune appends). */
  function Utf8Rune(c: char): (r: seq<byte>)
    ensures 1 <= |r| <= 4
    ensures |r| == 1 <==> c as int < 0x80
    ensures |r| == 1 ==> r[0] as int == c as int
    ensures |r| > 1 ==> r[|r| - 1] as int >= 0x80
  {
    var n := c as int;
    if n < 0x80 then
      [n as byte]
    else if n < 0x800 then
      [(0xC0 + n / 0x40) as byte, (0x80 + n % 0x40) as byte]
    else if n < 0x1_0000 then
      [(0xE0 + n / 0x1000) as byte, (0x80 + n / 0x40 % 0x40) as byte, (0x80 + n % 0x40) as byte]
    else
      [(0xF0 + n / 0x4_0000) as byte, (0x80 + n / 0x1000 % 0x40) as byte,
       (0x80 + n / 0x40 % 0x40) as byte, (0x80 + n % 0x40) as byte]
  }

  /** The UTF-8 bytes of a sequence of runes: the Go string whose runes they are. */
  function Utf8(s: string): seq<byte>
  {
    if s == [] then [] else Utf8Rune(s[0]) + Utf8(s[1..])
  }

  /** A one-rune string is encoded as that rune. */
  lemma Utf8Single(c: char)
    ensures Utf8([c]) == Utf8Rune(c)
  {
    AppendEmpty(Utf8Rune(c));
  }

  lemma {:induction false} Utf8Concat(a: string, b: string)
    ensures Utf8(a + b) == Utf8(a) + Utf8(b)
  {
    if a == [] {
      assert a + b == b;
    } else {
      assert (a + b)[0] == a[0] && (a + b)[1..] == a[1..] + b;
      Utf8Concat(a[1..], b);
    }
  }

  /** Encoding keeps emptiness: an empty string has no bytes, and a non-empty one
      ends with the last byte of its last rune. */
  lemma {:induction false} Utf8Last(s: string)
    ensures |Utf8(s)| == 0 <==> s == []
    ensures s != [] ==> Utf8(s)[|Utf8(s)| - 1] == Utf8Rune(s[|s| - 1])[|Utf8Rune(s[|s| - 1])| - 1]
  {
    if s != [] {
      var init := s[..|s| - 1];
      assert s == init + [s[|s| - 1]];
      Utf8Concat(init, [s[|s| - 1]]);
      assert Utf8([s[|s| - 1]]) == Utf8Rune(s[|s| - 1]) + Utf8([]);
    }
  }

  /** A Go string ends in the byte '\n' exactly when its last rune is '\n': the
      bytes of a multi-byte rune are all at least 0x80. */
  lemma Utf8EndsInNewline(s: string)
    ensures (|Utf8(s)| > 0 && Utf8(s)[|Utf8(s)| - 1] == NL) <==> (|s| > 0 && s[|s| - 1] == '\n')
  {
    Utf8Last(s);
  }
}
