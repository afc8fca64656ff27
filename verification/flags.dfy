/** The format flag bits shared by log.go and buf_appender.go, and the int32 cell
    log.go keeps them in. */
module Flags {

  /** A flag constant: a positive power of two. */
  type Flag = x: int | x > 0 witness 1

  // In log.go the constant block starts with the four level strings, so iota is 4
  // at Ldate and the flag bits start at 1 << 4.
  const Ldate: Flag := 16           // 1 << 4
  const Ltime: Flag := 32           // 1 << 5
  const Lmicroseconds: Flag := 64   // 1 << 6
  const Llongfile: Flag := 128      // 1 << 7
  const Lshortfile: Flag := 256     // 1 << 8
  const LUTC: Flag := 512           // 1 << 9
  const LstdFlags: Flag := Lshortfile
  /** Used by BufferAppender but declared in none of the modelled files: a bit no
      other flag uses. */
  const Lcompact: Flag := 1024      // 1 << 10

  /** Go's test flags&flag != 0 for a single-bit flag, on the two's complement bits
      of flags (Dafny's / rounds down for a positive divisor, so negative flags
      read correctly too). A test against a union of flags is the disjunction of
      the single-bit tests. */
  predicate Has(flags: int, flag: Flag) {
    (flags / flag) % 2 == 1
  }

  /** A value of Go's int32. */
  type int32 = x: int | -0x8000_0000 <= x < 0x8000_0000

  /** Go's conversion int32(x): keeps the low 32 bits, read as a signed number. */
  function Int32(x: int): (r: int32)
    ensures (r - x) % 0x1_0000_0000 == 0
    ensures -0x8000_0000 <= x < 0x8000_0000 ==> r == x
  {
    (x + 0x8000_0000) % 0x1_0000_0000 - 0x8000_0000
  }

  /** 2 to the power k. */
  function Pow2(k: nat): nat {
    if k == 0 then 1 else 2 * Pow2(k - 1)
  }

  /** Every flag of the formatter, in declaration order; flag i is bit i + 4. */
  const AllFlags: seq<Flag> := [Ldate, Ltime, Lmicroseconds, Llongfile, Lshortfile, LUTC, Lcompact]

  /** The flags are single bits, one after another from bit 4, so no two are equal;
      a word holding just one of them tests positive for that one and no other;
      LstdFlags is Lshortfile. */
  lemma FlagsAreDistinctBits()
    ensures forall i :: 0 <= i < |AllFlags| ==> AllFlags[i] == Pow2(i + 4)
    ensures forall i, j :: 0 <= i < |AllFlags| && 0 <= j < |AllFlags| ==>
      (Has(AllFlags[i], AllFlags[j]) <==> i == j)
    ensures LstdFlags == Lshortfile
  {
    assert Pow2(4) == 16 by {
      assert Pow2(2) == 4;
    }
    assert Pow2(5) == 32;
    assert Pow2(6) == 64;
    assert Pow2(7) == 128;
    assert Pow2(8) == 256;
    assert Pow2(9) == 512;
    assert Pow2(10) == 1024;
  }
}
