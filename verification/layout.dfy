/** The fields log.go's output and BufferAppender.Append lay out in the same order
    and under the same flag tests: date, time, file location and the trailing
    newline. The two differ only in the integer encoder they call, so each field is
    given for either encoder. */
module Layout {
  import opened Bytes
  import opened Flags
  import opened Decimal
  import opened Location
  import opened Wrappers

  /** One instant read in one time zone: what time.Time's Date, Clock and
      Nanosecond return. */
  datatype Civil = Civil(year: int, month: int, day: int, hour: int, min: int, sec: int, nsec: int)
  {
    predicate WellFormed() {
      Int64(year) && 1 <= month <= 12 && 1 <= day <= 31 &&
      0 <= hour < 24 && 0 <= min < 60 && 0 <= sec < 60 && 0 <= nsec < 1_000_000_000
    }
  }

  /** The time.Now() of one call, in the local zone and in UTC; LUTC picks which. */
  datatype Instant = Instant(local: Civil, utc: Civil)
  {
    predicate WellFormed() {
      local.WellFormed() && utc.WellFormed()
    }
  }

  /** log.go's itoa appends b[bp:]; buf_appender.go's itoaBuf appends all of b[:]. */
  datatype Encoder = Trimmed | WholeArray

  /** Zero bytes in front of a number up to 20 bytes: the untouched head of
      itoaBuf's scratch array. (itoaBuf is never given a number of more than 20
      digits; see ItoaFits.) */
  function NulPadded(s: seq<byte>): seq<byte> {
    Nuls(Max(20 - |s|, 0)) + s
  }

  /** k zero bytes. */
  function Nuls(k: nat): seq<byte> {
    seq(k, _ => 0 as byte)
  }

  /** What the encoder appends for (i, wid). */
  function Num(e: Encoder, i: int, wid: int): seq<byte> {
    match e
    case Trimmed => ItoaBytes(i, wid)
    case WholeArray => NulPadded(ItoaBytes(i, wid))
  }

  /** With itoaBuf, every number takes the whole 20-byte array: zero bytes, then
      the digits itoa would have written. */
  lemma WholeArrayNum(i: int, wid: int)
    requires Int64(i) && wid <= 20
    ensures var r := Num(WholeArray, i, wid);
      |r| == 20 && r[20 - |ItoaBytes(i, wid)|..] == ItoaBytes(i, wid) &&
      forall j :: 0 <= j < 20 - |ItoaBytes(i, wid)| ==> r[j] == 0
  {
    ItoaFits(i, wid);
  }

  /** One append of output's time section: literal bytes, or a number through the
      encoder. */
  datatype Piece = Text(bytes: seq<byte>) | Number(value: int, width: int)

  function Show(e: Encoder, p: Piece): seq<byte> {
    match p
    case Text(b) => b
    case Number(i, wid) => Num(e, i, wid)
  }

  /** The bytes a run of appends leaves in the buffer. */
  function Render(e: Encoder, ps: seq<Piece>): seq<byte> {
    if ps == [] then [] else Render(e, ps[..|ps| - 1]) + Show(e, ps[|ps| - 1])
  }

  /** Rendering distributes over concatenation of appends. */
  lemma {:induction false} RenderConcat(e: Encoder, p: seq<Piece>, q: seq<Piece>)
    ensures Render(e, p + q) == Render(e, p) + Render(e, q)
    decreases |q|
  {
    if q == [] {
      assert p + q == p;
    } else {
      var n := |q| - 1;
      RenderConcat(e, p, q[..n]);
      assert (p + q)[..|p + q| - 1] == p + q[..n];
      assert (p + q)[|p + q| - 1] == q[n];
      Assoc(Render(e, p), Render(e, q[..n]), Show(e, q[n]));
    }
  }

  /** The appends for "YYYY/MM/DD ". */
  function DatePieces(c: Civil): seq<Piece> {
    [Number(c.year, 4), Text([Slash]), Number(c.month, 2), Text([Slash]), Number(c.day, 2), Text([SP])]
  }

  /** The appends for "HH:MM:SS " or, with microseconds, "HH:MM:SS.uuuuuu ". */
  function ClockPieces(c: Civil, micro: bool): seq<Piece> {
    [Number(c.hour, 2), Text([Colon]), Number(c.min, 2), Text([Colon]), Number(c.sec, 2)] +
    (if micro then [Text([Dot]), Number(c.nsec / 1000, 6)] else []) + [Text([SP])]
  }

  function DateField(e: Encoder, c: Civil): seq<byte> {
    Render(e, DatePieces(c))
  }

  function ClockField(e: Encoder, c: Civil, micro: bool): seq<byte> {
    Render(e, ClockPieces(c, micro))
  }

  /** The date field byte by byte: year to width 4, '/', month to width 2, '/',
      day to width 2, ' '. */
  lemma DateFieldBytes(e: Encoder, c: Civil)
    ensures DateField(e, c) ==
      Num(e, c.year, 4) + [Slash] + Num(e, c.month, 2) + [Slash] + Num(e, c.day, 2) + [SP]
  {
    var p := DatePieces(c);
    RenderConcat(e, p[..3], p[3..]);
    assert p[..3] + p[3..] == p;
    RenderSteps3(e, p[..3]);
    RenderSteps3(e, p[3..]);
    var ym := Num(e, c.year, 4) + [Slash] + Num(e, c.month, 2);
    Assoc(ym, [Slash], Num(e, c.day, 2));
    Assoc(ym, [Slash] + Num(e, c.day, 2), [SP]);
    Assoc(ym + [Slash], Num(e, c.day, 2), [SP]);
  }

  /** The clock field byte by byte: hour, ':', minute, ':', second, each to width 2,
      then '.' and the microseconds to width 6 when asked, then ' '. */
  lemma ClockFieldBytes(e: Encoder, c: Civil, micro: bool)
    ensures ClockField(e, c, micro) ==
      Num(e, c.hour, 2) + [Colon] + Num(e, c.min, 2) + [Colon] + Num(e, c.sec, 2) +
      (if micro then [Dot] + Num(e, c.nsec / 1000, 6) else []) + [SP]
  {
    var hms: seq<Piece> := [Number(c.hour, 2), Text([Colon]), Number(c.min, 2)];
    var rest: seq<Piece> := [Text([Colon]), Number(c.sec, 2)];
    var us: seq<Piece> := if micro then [Text([Dot]), Number(c.nsec / 1000, 6)] else [];
    assert ClockPieces(c, micro) == hms + rest + us + [Text([SP])];
    RenderConcat(e, hms + rest + us, [Text([SP])]);
    RenderConcat(e, hms + rest, us);
    RenderConcat(e, hms, rest);
    RenderSteps3(e, hms);
    RenderSteps2(e, rest);
    if micro {
      RenderSteps2(e, us);
    }
    RenderSteps1(e, [Text([SP])]);
    Assoc(Num(e, c.hour, 2) + [Colon] + Num(e, c.min, 2), [Colon], Num(e, c.sec, 2));
  }

  lemma RenderSteps1(e: Encoder, p: seq<Piece>)
    requires |p| == 1
    ensures Render(e, p) == Show(e, p[0])
  {
    assert p[..0] == [];
  }

  lemma RenderSteps2(e: Encoder, p: seq<Piece>)
    requires |p| == 2
    ensures Render(e, p) == Show(e, p[0]) + Show(e, p[1])
  {
    RenderSteps1(e, p[..1]);
  }

  lemma RenderSteps3(e: Encoder, p: seq<Piece>)
    requires |p| == 3
    ensures Render(e, p) == Show(e, p[0]) + Show(e, p[1]) + Show(e, p[2])
  {
    RenderSteps2(e, p[..2]);
  }

  /** The reading the flags select: UTC under LUTC, local time otherwise. */
  function Reading(flags: int, t: Instant): Civil {
    if Has(flags, LUTC) then t.utc else t.local
  }

  /** The time section, with the nested flag tests of log.go:158-187. */
  function TimeFields(e: Encoder, flags: int, t: Instant): seq<byte>
  {
    if Has(flags, Ldate) || Has(flags, Ltime) || Has(flags, Lmicroseconds) || Has(flags, LUTC) then
      var c := Reading(flags, t);
      if Has(flags, Ldate) || Has(flags, Ltime) || Has(flags, Lmicroseconds) then
        (if Has(flags, Ldate) then DateField(e, c) else []) +
        (if Has(flags, Ltime) || Has(flags, Lmicroseconds) then ClockField(e, c, Has(flags, Lmicroseconds)) else [])
      else []
    else []
  }

  /** The prefix and one space, or nothing for the empty prefix. */
  function PrefixField(prefix: seq<byte>): seq<byte> {
    if |prefix| == 0 then [] else prefix + [SP]
  }

  /** The file and line runtime.Caller reports, or "???" and 0 when it fails. */
  function CallerFile(caller: Option<Caller>): seq<byte> {
    if caller.Some? then caller.value.file else Unknown
  }

  function CallerLine(caller: Option<Caller>): int {
    if caller.Some? then caller.value.line else 0
  }

  /** "file:line " under Lshortfile or Llongfile; Lshortfile shortens the path. */
  function FileField(e: Encoder, flags: int, caller: Option<Caller>): seq<byte>
  {
    if Has(flags, Lshortfile) || Has(flags, Llongfile) then
      var file := CallerFile(caller);
      var name := if Has(flags, Lshortfile) then ShortName(file) else file;
      name + [Colon] + Num(e, CallerLine(caller), -1) + [SP]
    else []
  }

  /** The newline appended after the message: one byte when the message is empty or
      does not end in '\n', none otherwise. */
  function Newline(msg: seq<byte>): seq<byte> {
    if |msg| == 0 || msg[|msg| - 1] != NL then [NL] else []
  }

  /** Exactly one '\n' is added iff the message is empty or its last byte is not
      '\n'; the message is kept verbatim and the result always ends in '\n'. */
  lemma NewlineRule(msg: seq<byte>)
    ensures |Newline(msg)| <= 1
    ensures |Newline(msg)| == 1 <==> (|msg| == 0 || msg[|msg| - 1] != NL)
    ensures var r := msg + Newline(msg); r[..|msg|] == msg && r[|r| - 1] == NL
  {
  }

  /** With log.go's encoder, the date field of a year in 0..9999 is the eleven bytes
      "YYYY/MM/DD ", each number zero-padded and reading back as the date. */
  lemma DateFieldShape(c: Civil)
    requires c.WellFormed() && 0 <= c.year < 10000
    ensures var r := DateField(Trimmed, c);
      |r| == 11 && r[4] == Slash && r[7] == Slash && r[10] == SP &&
      AllDigits(r[0..4]) && Value(r[0..4]) == c.year &&
      AllDigits(r[5..7]) && Value(r[5..7]) == c.month &&
      AllDigits(r[8..10]) && Value(r[8..10]) == c.day
  {
    DateFieldBytes(Trimmed, c);
    TwoDigits(c.month);
    TwoDigits(c.day);
    ItoaReadsBack(c.year, 4);
    assert Pow10(4) == 10000 by {
      assert Pow10(2) == 100;
    }
    DigitsBound(c.year, 4);
    var r := DateField(Trimmed, c);
    assert r[0..4] == ItoaBytes(c.year, 4);
    assert r[5..7] == ItoaBytes(c.month, 2);
    assert r[8..10] == ItoaBytes(c.day, 2);
  }

  /** A number below 100 fills a width of 2 exactly. */
  lemma TwoDigits(n: nat)
    requires n < 100
    ensures |ItoaBytes(n, 2)| == 2 && AllDigits(ItoaBytes(n, 2)) && Value(ItoaBytes(n, 2)) == n
  {
    ItoaReadsBack(n, 2);
    assert Pow10(2) == 100;
    DigitsBound(n, 2);
  }

  /** With log.go's encoder, the clock field is "HH:MM:SS " (nine bytes) or
      "HH:MM:SS.uuuuuu " (sixteen bytes), each number reading back as the clock. */
  lemma ClockFieldShape(c: Civil, micro: bool)
    requires c.WellFormed()
    ensures var r := ClockField(Trimmed, c, micro);
      |r| == (if micro then 16 else 9) && r[2] == Colon && r[5] == Colon && r[|r| - 1] == SP &&
      AllDigits(r[0..2]) && Value(r[0..2]) == c.hour &&
      AllDigits(r[3..5]) && Value(r[3..5]) == c.min &&
      AllDigits(r[6..8]) && Value(r[6..8]) == c.sec &&
      (micro ==> r[8] == Dot && AllDigits(r[9..15]) && Value(r[9..15]) == c.nsec / 1000)
  {
    ClockFieldBytes(Trimmed, c, micro);
    TwoDigits(c.hour);
    TwoDigits(c.min);
    TwoDigits(c.sec);
    var r := ClockField(Trimmed, c, micro);
    assert r[0..2] == ItoaBytes(c.hour, 2);
    assert r[3..5] == ItoaBytes(c.min, 2);
    assert r[6..8] == ItoaBytes(c.sec, 2);
    if micro {
      var us := c.nsec / 1000;
      ItoaReadsBack(us, 6);
      assert Pow10(6) == 1_000_000 by {
        assert Pow10(3) == 1000;
      }
      DigitsBound(us, 6);
      assert r[9..15] == ItoaBytes(us, 6);
    }
  }

  /** The date field appears exactly under Ldate, the clock under Ltime or
      Lmicroseconds, the microseconds only under Lmicroseconds, date before time;
      LUTC alone writes nothing and only chooses the reading. */
  lemma TimeFieldsGating(e: Encoder, flags: int, t: Instant)
    ensures TimeFields(e, flags, t) ==
      (if Has(flags, Ldate) then DateField(e, Reading(flags, t)) else []) +
      (if Has(flags, Ltime) || Has(flags, Lmicroseconds)
       then ClockField(e, Reading(flags, t), Has(flags, Lmicroseconds)) else [])
  {
  }

  /** An unavailable caller is written as "???:0 " in either file mode. */
  lemma UnknownCallerField(flags: int)
    requires Has(flags, Lshortfile) || Has(flags, Llongfile)
    ensures FileField(Trimmed, flags, None) == Unknown + [Colon, Zero, SP]
  {
    assert ShortName(Unknown) == Unknown;
    ItoaUnpadded(0, -1);
  }

  /** Under a file flag the field is the (short or long) name, ':', the unpadded
      line number and one space; without one it is empty. */
  lemma FileFieldShape(flags: int, c: Caller)
    requires Int64(c.line) && c.line >= 0
    ensures !Has(flags, Lshortfile) && !Has(flags, Llongfile) ==> FileField(Trimmed, flags, Some(c)) == []
    ensures Has(flags, Lshortfile) ==> FileField(Trimmed, flags, Some(c)) == ShortName(c.file) + [Colon] + Digits(c.line) + [SP]
    ensures !Has(flags, Lshortfile) && Has(flags, Llongfile) ==> FileField(Trimmed, flags, Some(c)) == c.file + [Colon] + Digits(c.line) + [SP]
  {
    ItoaUnpadded(c.line, -1);
  }
}
