/** log.go: a logger holding a replaceable output and a replaceable flag word, which
    builds each line by successive appends and hands it to the output in one Write. */
module Logger {
  import opened Bytes
  import opened Flags
  import opened Decimal
  import opened Location
  import opened Layout
  import opened Wrappers
  import opened Sink

  const INFO: seq<byte> := Ascii("INFO")
  const WARNING: seq<byte> := Ascii("WARNING")
  const ERROR: seq<byte> := Ascii("ERROR")
  const CRITICAL: seq<byte> := Ascii("CRITICAL")

  /** The line output writes: [date] [time] level, prefix, [file:line] message and
      the newline rule. */
  function Line(flags: int, level: seq<byte>, prefix: seq<byte>, t: Instant,
                caller: Option<Caller>, msg: seq<byte>): seq<byte>
  {
    TimeFields(Trimmed, flags, t) + level + [SP] + PrefixField(prefix) +
    FileField(Trimmed, flags, caller) + msg + Newline(msg)
  }

  /** itoa: appends the decimal of i, zero-padded to wid, assembling it backwards
      in a 20-byte scratch array and appending b[bp:]. A width above 20 or a number
      beyond Go's int would index outside the array. */
  method Itoa(buf: seq<byte>, i: int, wid: int) returns (r: seq<byte>)
    requires Int64(i) && wid <= 20
    ensures r == buf + ItoaBytes(i, wid)
  {
    var b := new byte[20](_ => 0);
    var bp := 19;
    var n, w := i, wid;
    ghost var tail: seq<byte> := [];
    ItoaFits(i, wid);
    while n >= 10 || w > 1
      invariant 0 <= bp <= 19 && |tail| == 19 - bp
      invariant forall j :: bp < j < 20 ==> b[j] == tail[j - bp - 1]
      invariant |ItoaBytes(n, w)| <= bp + 1
      invariant ItoaBytes(n, w) + tail == ItoaBytes(i, wid)
      decreases bp
    {
      ItoaStep(n, w);
      var q := Quo10(n);
      var d := ByteOf(48 + n - q * 10);
      Assoc(ItoaBytes(q, w - 1), [d], tail);
      b[bp] := d;
      tail := [d] + tail;
      w := w - 1;
      bp := bp - 1;
      n := q;
    }
    b[bp] := ByteOf(48 + n);
    assert ItoaBytes(n, w) == [b[bp]];
    assert b[bp..] == [b[bp]] + tail;
    r := buf + b[bp..];
  }

  /** The date part of output's time section: year, month and day through itoa. */
  method AppendDate(buf: seq<byte>, c: Civil) returns (r: seq<byte>)
    requires c.WellFormed()
    ensures r == buf + DateField(Trimmed, c)
  {
    DateFieldBytes(Trimmed, c);
    // f is the part of the field appended so far: r == buf + f throughout.
    ghost var f := ItoaBytes(c.year, 4);
    r := Itoa(buf, c.year, 4);
    r := r + [Slash];
    Assoc(buf, f, [Slash]);
    f := f + [Slash];
    r := Itoa(r, c.month, 2);
    Assoc(buf, f, ItoaBytes(c.month, 2));
    f := f + ItoaBytes(c.month, 2);
    r := r + [Slash];
    Assoc(buf, f, [Slash]);
    f := f + [Slash];
    r := Itoa(r, c.day, 2);
    Assoc(buf, f, ItoaBytes(c.day, 2));
    f := f + ItoaBytes(c.day, 2);
    r := r + [SP];
    Assoc(buf, f, [SP]);
  }

  /** The clock part of output's time section, with microseconds when asked. */
  method AppendClock(buf: seq<byte>, c: Civil, micro: bool) returns (r: seq<byte>)
    requires c.WellFormed()
    ensures r == buf + ClockField(Trimmed, c, micro)
  {
    ClockFieldBytes(Trimmed, c, micro);
    // f is the part of the field appended so far: r == buf + f throughout.
    ghost var f := ItoaBytes(c.hour, 2);
    r := Itoa(buf, c.hour, 2);
    r := r + [Colon];
    Assoc(buf, f, [Colon]);
    f := f + [Colon];
    r := Itoa(r, c.min, 2);
    Assoc(buf, f, ItoaBytes(c.min, 2));
    f := f + ItoaBytes(c.min, 2);
    r := r + [Colon];
    Assoc(buf, f, [Colon]);
    f := f + [Colon];
    r := Itoa(r, c.sec, 2);
    Assoc(buf, f, ItoaBytes(c.sec, 2));
    f := f + ItoaBytes(c.sec, 2);
    ghost var s := f;
    if micro {
      r := r + [Dot];
      Assoc(buf, f, [Dot]);
      f := f + [Dot];
      r := Itoa(r, c.nsec / 1000, 6);
      Assoc(buf, f, ItoaBytes(c.nsec / 1000, 6));
      f := f + ItoaBytes(c.nsec / 1000, 6);
      Assoc(s, [Dot], ItoaBytes(c.nsec / 1000, 6));
    } else {
      assert f == s + [];
    }
    r := r + [SP];
    Assoc(buf, f, [SP]);
  }

  /** output's time section under the flag tests, reading the clock in UTC under
      LUTC. */
  method AppendTime(buf: seq<byte>, flags: int, t: Instant) returns (r: seq<byte>)
    requires t.WellFormed()
    ensures r == buf + TimeFields(Trimmed, flags, t)
  {
    r := buf;
    if Has(flags, Ldate) || Has(flags, Ltime) || Has(flags, Lmicroseconds) || Has(flags, LUTC) {
      var c := if Has(flags, LUTC) then t.utc else t.local;
      if Has(flags, Ldate) || Has(flags, Ltime) || Has(flags, Lmicroseconds) {
        ghost var date: seq<byte> := [];
        if Has(flags, Ldate) {
          r := AppendDate(r, c);
          date := DateField(Trimmed, c);
        }
        ghost var clock: seq<byte> := [];
        if Has(flags, Ltime) || Has(flags, Lmicroseconds) {
          r := AppendClock(r, c, Has(flags, Lmicroseconds));
          clock := ClockField(Trimmed, c, Has(flags, Lmicroseconds));
        }
        Assoc(buf, date, clock);
      }
    }
  }

  /** output's file section: under Lshortfile or Llongfile the caller's file
      (shortened to its last element under Lshortfile), ':', the line and a space. */
  method AppendFile(buf: seq<byte>, flags: int, caller: Option<Caller>) returns (r: seq<byte>)
    requires Resolvable(caller)
    ensures r == buf + FileField(Trimmed, flags, caller)
  {
    r := buf;
    if Has(flags, Lshortfile) || Has(flags, Llongfile) {
      var file, lineNo := CallerFile(caller), CallerLine(caller);
      if Has(flags, Lshortfile) {
        file := TrimToShort(file);
      }
      ghost var n := ItoaBytes(lineNo, -1);
      r := r + file;
      r := r + [Colon];
      Assoc(buf, file, [Colon]);
      r := Itoa(r, lineNo, -1);
      Assoc(buf, file + [Colon], n);
      r := r + [SP];
      Assoc(buf, file + [Colon] + n, [SP]);
    }
  }

  class Log {
    /** The output cell (outputPtr). */
    var output: Writer
    /** The flag cell (flagsPtr), an int32. */
    var flags: int32
    /** Empty when NewLog got the empty prefix (log.go keeps nil then). */
    const prefix: seq<byte>
    const callDepth: int

    /** NewLog. */
    constructor (output: Writer, prefix: seq<byte>, flags: int)
      ensures this.output == output && this.flags == Int32(flags)
      ensures this.prefix == prefix && callDepth == 2
    {
      this.output := output;
      this.flags := Int32(flags);
      this.prefix := prefix;
      callDepth := 2;
    }

    /** A new logger with its own cells, starting from this logger's current output
        and flags and the given prefix. */
    method GetLog(prefix: seq<byte>) returns (res: Log)
      ensures fresh(res)
      ensures res.output == output && res.flags == flags && res.prefix == prefix && res.callDepth == 2
    {
      res := new Log(output, prefix, Flags());
    }

    method SetOutput(output: Writer)
      modifies this
      ensures this.output == output && flags == old(flags)
    {
      this.output := output;
    }

    /** Stores int32(flags). */
    method SetFlags(flags: int)
      modifies this
      ensures this.flags == Int32(flags) && output == old(output)
    {
      this.flags := Int32(flags);
    }

    function Flags(): (f: int)
      reads this
      ensures -0x8000_0000 <= f < 0x8000_0000 && f == flags
    {
      flags
    }

    function Prefix(): (p: seq<byte>)
      ensures p == prefix
    {
      prefix
    }

    /** output: builds the line field by field and writes it to the current
        output in exactly one Write. The clock reading and the caller location are
        the inputs time.Now and runtime.Caller would supply. */
    method Output(level: seq<byte>, line: seq<byte>, t: Instant, caller: Option<Caller>)
      requires t.WellFormed() && Resolvable(caller)
      modifies output
      ensures output.writes == old(output.writes) + [Line(flags, level, prefix, t, caller, line)]
    {
      var f := Flags();
      var buf := AppendTime([], f, t);
      AppendEmpty(TimeFields(Trimmed, f, t));
      buf := buf + level;
      buf := buf + [SP];
      ghost var head := buf;
      if |prefix| > 0 {
        buf := buf + prefix;
        buf := buf + [SP];
        Assoc(head, prefix, [SP]);
      } else {
        AppendEmpty(head);
      }
      buf := AppendFile(buf, f, caller);
      buf := buf + line;
      if |line| == 0 || line[|line| - 1] != NL {
        buf := buf + [NL];
      } else {
        AppendEmpty(buf);
      }
      output.Write(buf);
    }

    /** Info and Infof (and their synonyms Print and Printf): an INFO line. */
    method Info(msg: seq<byte>, t: Instant, caller: Option<Caller>)
      requires t.WellFormed() && Resolvable(caller)
      modifies output
      ensures output.writes == old(output.writes) + [Line(flags, INFO, prefix, t, caller, msg)]
    {
      Output(INFO, msg, t, caller);
    }

    /** Warning and Warningf: a WARNING line. */
    method Warning(msg: seq<byte>, t: Instant, caller: Option<Caller>)
      requires t.WellFormed() && Resolvable(caller)
      modifies output
      ensures output.writes == old(output.writes) + [Line(flags, WARNING, prefix, t, caller, msg)]
    {
      Output(WARNING, msg, t, caller);
    }

    /** Error and Errorf: an ERROR line. */
    method Error(msg: seq<byte>, t: Instant, caller: Option<Caller>)
      requires t.WellFormed() && Resolvable(caller)
      modifies output
      ensures output.writes == old(output.writes) + [Line(flags, ERROR, prefix, t, caller, msg)]
    {
      Output(ERROR, msg, t, caller);
    }

    /** Critical and Criticalf: a CRITICAL line. */
    method Critical(msg: seq<byte>, t: Instant, caller: Option<Caller>)
      requires t.WellFormed() && Resolvable(caller)
      modifies output
      ensures output.writes == old(output.writes) + [Line(flags, CRITICAL, prefix, t, caller, msg)]
    {
      Output(CRITICAL, msg, t, caller);
    }
  }

  /** A child made by GetLog keeps the output and flags it started from: replacing
      the parent's output does not reach the child, and changing the child's flags
      does not reach the parent. */
  method ChildIsSnapshot(w1: Writer, w2: Writer, p: seq<byte>, q: seq<byte>, f: int32, g: int)
    returns (parent: Log, child: Log)
    ensures parent.output == w2 && parent.flags == f && parent.prefix == p
    ensures child.output == w1 && child.flags == Int32(g) && child.prefix == q
  {
    parent := new Log(w1, p, f);
    child := parent.GetLog(q);
    parent.SetOutput(w2);
    child.SetFlags(g);
  }

  /** Flags() after SetFlags(f) returns f for every f in int32 range, and the
      truncated value otherwise. */
  lemma FlagsReadBack(f: int)
    ensures Int32(f) == f <==> -0x8000_0000 <= f < 0x8000_0000
  {
  }

  /** With no date, time or file flag and no prefix, the line is the level, one
      space, the message and the newline rule. */
  lemma BareLine(flags: int, level: seq<byte>, t: Instant, caller: Option<Caller>, msg: seq<byte>)
    requires t.WellFormed() && Resolvable(caller)
    requires !Has(flags, Ldate) && !Has(flags, Ltime) && !Has(flags, Lmicroseconds)
    requires !Has(flags, Lshortfile) && !Has(flags, Llongfile)
    ensures Line(flags, level, [], t, caller, msg) == level + [SP] + msg + Newline(msg)
  {
    assert TimeFields(Trimmed, flags, t) == [];
    assert FileField(Trimmed, flags, caller) == [];
  }

  /** A logger with flags 0 and no prefix writes "DEBUG test\n" for the level
      "DEBUG" and the message "test". */
  lemma BareLineExample(t: Instant, caller: Option<Caller>)
    requires t.WellFormed() && Resolvable(caller)
    ensures Line(0, Ascii("DEBUG"), [], t, caller, Ascii("test")) == Ascii("DEBUG test\n")
  {
    BareLine(0, Ascii("DEBUG"), t, caller, Ascii("test"));
    assert Ascii("DEBUG") + [SP] + Ascii("test") + [NL] == Ascii("DEBUG test\n");
  }

  /** Every line ends in '\n' and carries the message verbatim just before the
      newline rule's byte; the level, then a space, follows the time section. */
  lemma LineFraming(flags: int, level: seq<byte>, prefix: seq<byte>, t: Instant,
                    caller: Option<Caller>, msg: seq<byte>)
    requires t.WellFormed() && Resolvable(caller)
    ensures var r := Line(flags, level, prefix, t, caller, msg);
      var k := |TimeFields(Trimmed, flags, t)|;
      var m := |r| - |Newline(msg)| - |msg|;
      r[|r| - 1] == NL && 0 <= m && r[m..|r| - |Newline(msg)|] == msg &&
      r[k..k + |level| + 1] == level + [SP]
  {
    Framing(TimeFields(Trimmed, flags, t), level, PrefixField(prefix), FileField(Trimmed, flags, caller), msg);
  }

  lemma Framing(stamp: seq<byte>, level: seq<byte>, pre: seq<byte>, place: seq<byte>, msg: seq<byte>)
    ensures var r := stamp + level + [SP] + pre + place + msg + Newline(msg);
      var k := |stamp|;
      var m := |r| - |Newline(msg)| - |msg|;
      r[|r| - 1] == NL && 0 <= m && r[m..|r| - |Newline(msg)|] == msg &&
      r[k..k + |level| + 1] == level + [SP]
  {
    NewlineRule(msg);
    var r := stamp + level + [SP] + pre + place + msg + Newline(msg);
    assert r == stamp + (level + [SP]) + (pre + place) + (msg + Newline(msg));
  }

  /** The stamped layout: with Ldate|Ltime (no prefix, no file) the line is the
      11-byte date, the 9-byte clock, then the level from byte 20 on. */
  lemma StampedLine(t: Instant, level: seq<byte>, caller: Option<Caller>, msg: seq<byte>)
    requires t.WellFormed() && Resolvable(caller) && 0 <= t.local.year < 10000
    ensures var d, k := DateField(Trimmed, t.local), ClockField(Trimmed, t.local, false);
      var r := Line(Ldate + Ltime, level, [], t, caller, msg);
      |d| == 11 && |k| == 9 && r == d + k + level + [SP] + msg + Newline(msg) &&
      r[..11] == d && r[11..20] == k && r[20..20 + |level|] == level
  {
    var d, k := DateField(Trimmed, t.local), ClockField(Trimmed, t.local, false);
    assert |d| == 11 by {
      DateFieldShape(t.local);
    }
    assert |k| == 9 by {
      ClockFieldShape(t.local, false);
    }
    var f := Ldate + Ltime;
    assert Has(f, Ldate) && Has(f, Ltime) && !Has(f, Lmicroseconds) && !Has(f, LUTC);
    assert !Has(f, Lshortfile) && !Has(f, Llongfile);
    assert TimeFields(Trimmed, f, t) == d + k;
    assert FileField(Trimmed, f, caller) == [];
  }
}
