/** Decimal rendering as the hand-written encoder in log.go (itoa) and its copy in
    buf_appender.go (itoaBuf) perform it, and the digit strings it is meant to give. */
module Decimal {
  import opened Bytes

  const Zero: byte := 48

  /** A value of Go's 64-bit int. */
  predicate Int64(i: int) {
    -0x8000_0000_0000_0000 <= i < 0x8000_0000_0000_0000
  }

  /** Go's integer quotient i / 10, which truncates toward zero (Dafny's / does not
      for negative i). */
  function Quo10(i: int): int
  {
    if i >= 0 then i / 10 else -((-i) / 10)
  }

  /** Truncation moves the quotient toward zero: 10 * q + r == i with r of i's sign
      and |r| < 10. */
  lemma Quo10Truncates(i: int)
    ensures var q := Quo10(i);
      (i >= 0 ==> q == i / 10 && 0 <= i - 10 * q < 10) &&
      (i > 0 ==> 0 <= q < i) &&
      (i <= 0 ==> i <= q <= 0 && -10 < i - 10 * q <= 0) &&
      (Int64(i) ==> Int64(q))
  {
  }

  /** The bytes itoa appends for (i, wid): while `i >= 10 || wid > 1` the loop
      takes a turn; at the end it stores the final `byte('0' + i)`. */
  function ItoaBytes(i: int, wid: int): seq<byte>
    decreases if i > 0 then i else 0, if wid > 0 then wid else 0, 1
  {
    if i >= 10 || wid > 1 then ItoaTurn(i, wid) else [ByteOf(48 + i)]
  }

  /** One turn of itoa's loop stores the last digit of i, `byte('0' + i - q*10)`,
      into the scratch array from the right, so it ends up after everything the
      remaining turns (on q = i / 10 and wid - 1) put in front of it. */
  function ItoaTurn(i: int, wid: int): seq<byte>
    requires i >= 10 || wid > 1
    decreases if i > 0 then i else 0, if wid > 0 then wid else 0, 0
  {
    Quo10Truncates(i);
    var q := Quo10(i);
    ItoaBytes(q, wid - 1) + [ByteOf(48 + i - q * 10)]
  }

  /** One turn of the loop, as the loop itself sees it: the digit goes after what
      the remaining turns write, which is at least one byte, and the turns stop. */
  lemma ItoaStep(i: int, wid: int)
    requires i >= 10 || wid > 1
    ensures var q := Quo10(i);
      ItoaBytes(i, wid) == ItoaBytes(q, wid - 1) + [ByteOf(48 + i - q * 10)] &&
      |ItoaBytes(q, wid - 1)| >= 1 &&
      (i > 0 ==> 0 <= q < i) && (i <= 0 ==> q <= 0)
  {
    Quo10Truncates(i);
    assert ItoaBytes(i, wid) == ItoaTurn(i, wid);
    ItoaNonEmpty(Quo10(i), wid - 1);
  }

  /** itoa always writes at least its final digit. */
  lemma ItoaNonEmpty(i: int, wid: int)
    ensures |ItoaBytes(i, wid)| >= 1
  {
    if i >= 10 || wid > 1 {
      assert ItoaBytes(i, wid) == ItoaTurn(i, wid);
    }
  }

  /** The shortest decimal numeral of n. */
  function Digits(n: nat): seq<byte>
  {
    if n < 10 then [(48 + n) as byte] else Digits(n / 10) + [(48 + n % 10) as byte]
  }

  /** k ASCII '0' bytes. */
  function Zeros(k: nat): seq<byte>
  {
    seq(k, _ => Zero)
  }

  predicate AllDigits(s: seq<byte>) {
    forall j :: 0 <= j < |s| ==> 48 <= s[j] <= 57
  }

  /** The number a string of ASCII digits denotes (a reader's strconv.Atoi). */
  function Value(s: seq<byte>): nat
    requires AllDigits(s)
  {
    if s == [] then 0 else Value(s[..|s| - 1]) * 10 + (s[|s| - 1] - 48) as int
  }

  function Max(a: int, b: int): int {
    if a < b then b else a
  }

  function Pow10(k: nat): nat {
    if k == 0 then 1 else 10 * Pow10(k - 1)
  }

  /** Digits gives a numeral: only digits, no leading zero, and it reads back as n. */
  lemma {:induction false} DigitsNumeral(n: nat)
    ensures |Digits(n)| >= 1 && AllDigits(Digits(n))
    ensures Value(Digits(n)) == n
    ensures Digits(n)[0] == Zero <==> n == 0
  {
    if n >= 10 {
      DigitsNumeral(n / 10);
      var d := Digits(n);
      assert d[..|d| - 1] == Digits(n / 10);
    }
  }

  /** Leading zeros do not change the number a numeral denotes. */
  lemma {:induction false} ValueLeadingZeros(k: nat, s: seq<byte>)
    requires AllDigits(s)
    ensures AllDigits(Zeros(k) + s) && Value(Zeros(k) + s) == Value(s)
  {
    if s == [] {
      assert Zeros(k) + s == Zeros(k);
      if k > 0 {
        assert Zeros(k)[..k - 1] == Zeros(k - 1);
        ValueLeadingZeros(k - 1, []);
        assert Zeros(k - 1) + [] == Zeros(k - 1);
      }
    } else {
      var init := s[..|s| - 1];
      ValueLeadingZeros(k, init);
      assert (Zeros(k) + s)[..|Zeros(k) + s| - 1] == Zeros(k) + init;
    }
  }

  /** A numeral of n has at most k digits when n < 10^k. */
  lemma {:induction false} DigitsBound(n: nat, k: nat)
    requires n < Pow10(k)
    ensures |Digits(n)| <= Max(k, 1)
  {
    if n >= 10 {
      assert Pow10(0) == 1 && Pow10(1) == 10;
      DigitsBound(n / 10, k - 1);
    }
  }

  /** For a non-negative i, itoa writes the numeral of i left-padded with '0' to wid
      bytes; a width of 1 or less (the negative width included) pads nothing. */
  lemma {:induction false} ItoaPadded(i: nat, wid: int)
    ensures ItoaBytes(i, wid) == Zeros(Max(wid - |Digits(i)|, 0)) + Digits(i)
    decreases i, if wid > 0 then wid else 0
  {
    if i >= 10 || wid > 1 {
      ItoaStep(i, wid);
      var q := i / 10;
      var d := ByteOf(48 + i - q * 10);
      assert Quo10(i) == q && d as int == 48 + i % 10;
      ItoaPadded(q, wid - 1);
      if i >= 10 {
        assert Digits(i) == Digits(q) + [d];
        Assoc(Zeros(Max(wid - 1 - |Digits(q)|, 0)), Digits(q), [d]);
      } else {
        assert Digits(q) == [Zero] && Digits(i) == [d];
        assert Zeros(wid - 2) + [Zero] == Zeros(wid - 1);
        Assoc(Zeros(wid - 2), [Zero], [d]);
      }
    }
  }

  /** For 0 <= i, itoa appends exactly max(wid, digits(i)) ASCII digits, and they
      read back as i. */
  lemma ItoaReadsBack(i: nat, wid: int)
    ensures |ItoaBytes(i, wid)| == Max(wid, |Digits(i)|)
    ensures AllDigits(ItoaBytes(i, wid)) && Value(ItoaBytes(i, wid)) == i
  {
    ItoaPadded(i, wid);
    DigitsNumeral(i);
    ValueLeadingZeros(Max(wid - |Digits(i)|, 0), Digits(i));
  }

  /** With a width below 2 (log.go passes -1) itoa writes the unpadded numeral: no
      leading zero, and "0" for 0. */
  lemma ItoaUnpadded(i: nat, wid: int)
    requires wid < 2
    ensures ItoaBytes(i, wid) == Digits(i)
    ensures ItoaBytes(i, wid)[0] == Zero <==> i == 0
    ensures i == 0 ==> ItoaBytes(i, wid) == [Zero]
  {
    ItoaPadded(i, wid);
    DigitsNumeral(i);
    assert Zeros(0) + Digits(i) == Digits(i);
  }

  /** For a non-positive i the loop only runs down the width, so the output is
      max(wid, 1) bytes long. */
  lemma {:induction false} ItoaNonPositiveLength(i: int, wid: int)
    requires i <= 0
    ensures |ItoaBytes(i, wid)| == Max(wid, 1)
    decreases if wid > 0 then wid else 0
  {
    if wid > 1 {
      Quo10Truncates(i);
      ItoaNonPositiveLength(Quo10(i), wid - 1);
    }
  }

  /** Every Go int with a width of at most 20 fits itoa's 20-byte scratch array. */
  lemma ItoaFits(i: int, wid: int)
    requires Int64(i) && wid <= 20
    ensures |ItoaBytes(i, wid)| <= 20
  {
    if i > 0 {
      assert Pow10(5) == 100_000;
      assert Pow10(10) == 10_000_000_000;
      assert Pow10(15) == 1_000_000_000_000_000;
      assert Pow10(19) == 10_000_000_000_000_000_000;
      DigitsBound(i, 19);
      ItoaReadsBack(i, wid);
    } else {
      ItoaNonPositiveLength(i, wid);
    }
  }
}
