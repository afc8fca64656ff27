/** logx.go: a level-gated logger over Go's standard log.Logger. Each call renders
    "LEVEL file:line: message" and hands it to the standard logger, which writes it
    only when the call's level is at least the logger's threshold. */
module LevelLog {
  import opened Bytes
  import opened Decimal
  import opened Location
  import opened Layout
  import opened Wrappers
  import opened Sink

  const TraceLog := 0
  const DebugLog := 1
  const InfoLog := 2
  const WarningLog := 3
  const ErrorLog := 4
  const FatalLog := 5
  const PanicLog := 6

  // The level labels, as bytes.
  const TRACE: seq<byte> := [84, 82, 65, 67, 69]
  const DEBUG: seq<byte> := [68, 69, 66, 85, 71]
  const INFO: seq<byte> := [73, 78, 70, 79]
  const WARNING: seq<byte> := [87, 65, 82, 78, 73, 78, 71]
  const ERROR: seq<byte> := [69, 82, 82, 79, 82]
  const FATAL: seq<byte> := [70, 65, 84, 65, 76]
  const PANIC: seq<byte> := [80, 65, 78, 73, 67]

  /** The labels spell the level names. */
  lemma LabelsSpellNames()
    ensures TRACE == Ascii("TRACE") && DEBUG == Ascii("DEBUG") && INFO == Ascii("INFO")
    ensures WARNING == Ascii("WARNING") && ERROR == Ascii("ERROR")
    ensures FATAL == Ascii("FATAL") && PANIC == Ascii("PANIC")
  {
  }

  /** logLevels: the level names, each at its level's index. */
  const Levels: seq<seq<byte>> := [TRACE, DEBUG, INFO, WARNING, ERROR, FATAL, PANIC]

  /** The level indices are ordered from TRACE to PANIC, each name in logLevels is
      the label of the level at its index, and no two names are equal. */
  lemma LevelsAreOrdered()
    ensures TraceLog < DebugLog < InfoLog < WarningLog < ErrorLog < FatalLog < PanicLog
    ensures |Levels| == 7 && Levels[TraceLog] == TRACE && Levels[DebugLog] == DEBUG
    ensures Levels[InfoLog] == INFO && Levels[WarningLog] == WARNING && Levels[ErrorLog] == ERROR
    ensures Levels[FatalLog] == FATAL && Levels[PanicLog] == PANIC
    ensures forall i, j :: 0 <= i < j < |Levels| ==> Levels[i] != Levels[j]
  {
  }

  /** The first index at or after i whose name is `name`, or ErrorLog when there is
      none. */
  function FindLevel(name: seq<byte>, i: nat): int
    decreases |Levels| - i
  {
    if i >= |Levels| then ErrorLog
    else if Levels[i] == name then i
    else FindLevel(name, i + 1)
  }

  /** The level SetLevel selects for an already upper-cased name. */
  function LevelIndex(name: seq<byte>): int {
    FindLevel(name, 0)
  }

  lemma {:induction false} FindLevelSpec(name: seq<byte>, i: nat)
    requires i <= |Levels|
    ensures var r := FindLevel(name, i);
      ((exists j :: i <= j < |Levels| && Levels[j] == name) ==>
        i <= r < |Levels| && Levels[r] == name && forall j :: i <= j < r ==> Levels[j] != name) &&
      ((forall j :: i <= j < |Levels| ==> Levels[j] != name) ==> r == ErrorLog)
    decreases |Levels| - i
  {
    if i < |Levels| && Levels[i] != name {
      FindLevelSpec(name, i + 1);
    }
  }

  /** A known name selects its index in logLevels, and every other string selects
      ERROR; the names are distinct, so each known name selects its own level. */
  lemma LevelIndexSpec(name: seq<byte>)
    ensures 0 <= LevelIndex(name) < |Levels|
    ensures forall j :: 0 <= j < |Levels| && Levels[j] == name ==> LevelIndex(name) == j
    ensures (forall j :: 0 <= j < |Levels| ==> Levels[j] != name) ==> LevelIndex(name) == ErrorLog
  {
    FindLevelSpec(name, 0);
  }

  /** Every name in logLevels reads back as its own index. */
  lemma LevelNamesRoundTrip(i: nat)
    requires i < |Levels|
    ensures LevelIndex(Levels[i]) == i
  {
    LevelIndexSpec(Levels[i]);
  }

  /** ASCII upper-casing: what strings.ToUpper does to ASCII text. */
  function AsciiUpper(s: seq<byte>): seq<byte> {
    seq(|s|, i requires 0 <= i < |s| => if 97 <= s[i] <= 122 then s[i] - 32 else s[i])
  }

  /** Upper-casing keeps the length and every byte outside a-z, moves each of a-z
      to its capital, leaves no lower-case letter behind, and changes nothing the
      second time. */
  lemma AsciiUpperFacts(s: seq<byte>)
    ensures var r := AsciiUpper(s);
      |r| == |s| &&
      (forall i :: 0 <= i < |s| && !(97 <= s[i] <= 122) ==> r[i] == s[i]) &&
      (forall i :: 0 <= i < |s| && 97 <= s[i] <= 122 ==> r[i] as int == s[i] as int - 32) &&
      (forall i :: 0 <= i < |s| ==> !(97 <= r[i] <= 122)) &&
      AsciiUpper(r) == r
  {
  }

  /** s spells the upper-case word w with any mix of capital and small letters. */
  predicate SpellsAnyCase(s: seq<byte>, w: seq<byte>) {
    |s| == |w| && forall i :: 0 <= i < |s| ==> s[i] == w[i] || s[i] as int == w[i] as int + 32
  }

  /** Every byte of w is a capital letter A-Z. */
  predicate Capitals(w: seq<byte>) {
    forall i :: 0 <= i < |w| ==> 65 <= w[i] <= 90
  }

  /** A string upper-cases to a word of capitals exactly when it spells that word
      in any case. */
  lemma UpperIsAnyCase(s: seq<byte>, w: seq<byte>)
    requires Capitals(w)
    ensures AsciiUpper(s) == w <==> SpellsAnyCase(s, w)
  {
    if SpellsAnyCase(s, w) {
      forall i | 0 <= i < |s|
        ensures AsciiUpper(s)[i] == w[i]
      {
        if s[i] != w[i] {
          assert s[i] as int == w[i] as int + 32;
        }
      }
    }
  }

  /** With ASCII upper-casing, SetLevel's lookup ignores case: a name selects the
      level j other than ERROR exactly when it spells logLevels[j] in any mix of
      capital and small letters, and any spelling of ERROR selects ERROR. */
  lemma LevelNameIgnoresCase(s: seq<byte>, j: nat)
    requires j < |Levels|
    ensures SpellsAnyCase(s, Levels[j]) ==> LevelIndex(AsciiUpper(s)) == j
    ensures j != ErrorLog ==> (LevelIndex(AsciiUpper(s)) == j <==> SpellsAnyCase(s, Levels[j]))
  {
    assert Capitals(Levels[j]) by {
      assert Capitals(TRACE) && Capitals(DEBUG) && Capitals(INFO) && Capitals(WARNING);
      assert Capitals(ERROR) && Capitals(FATAL) && Capitals(PANIC);
    }
    UpperIsAnyCase(s, Levels[j]);
    LevelIndexSpec(AsciiUpper(s));
  }

  /** Examples: "warning" selects WARNING, "Debug" selects DEBUG, and a name that
      is no level, such as "verbose", selects ERROR. */
  lemma LevelNameExamples()
    ensures LevelIndex(AsciiUpper(Ascii("warning"))) == WarningLog
    ensures LevelIndex(AsciiUpper(Ascii("Debug"))) == DebugLog
    ensures LevelIndex(AsciiUpper(Ascii("verbose"))) == ErrorLog
  {
    assert AsciiUpper(Ascii("warning")) == WARNING;
    assert AsciiUpper(Ascii("Debug")) == DEBUG;
    var v := AsciiUpper(Ascii("verbose"));
    assert v[0] == 86;
    LevelIndexSpec(v);
  }

  /** A line at level lvl passes a logger whose threshold is `threshold`. */
  predicate Emits(lvl: int, threshold: int) {
    lvl >= threshold
  }

  /** The levels that produce output at a threshold. */
  function Emitted(threshold: int): set<int> {
    set l | TraceLog <= l <= PanicLog && Emits(l, threshold)
  }

  /** Raising the threshold never lets more levels through, and PANIC always
      passes a threshold set by SetLevel. */
  lemma {:induction false} RaisingLevelNarrows(lo: int, hi: int)
    requires lo <= hi
    ensures Emitted(hi) <= Emitted(lo)
    ensures hi <= PanicLog ==> PanicLog in Emitted(hi)
  {
    forall l | l in Emitted(hi)
      ensures l in Emitted(lo)
    {
      assert Emits(l, hi);
    }
    if hi <= PanicLog {
      assert Emits(PanicLog, hi);
    }
  }

  /** Go's log.Logger as logx creates it (flags 0): each Output writes the prefix,
      the text, and a newline unless the text already ends in one, in one Write. */
  class StdLogger {
    var out: Writer
    var prefix: seq<byte>

    constructor (out: Writer, prefix: seq<byte>)
      ensures this.out == out && this.prefix == prefix
    {
      this.out := out;
      this.prefix := prefix;
    }

    method SetOutput(w: Writer)
      modifies this
      ensures out == w && prefix == old(prefix)
    {
      out := w;
    }

    method SetPrefix(p: seq<byte>)
      modifies this
      ensures prefix == p && out == old(out)
    {
      prefix := p;
    }

    method Output(s: seq<byte>)
      modifies out
      ensures out.writes == old(out.writes) + [prefix + s + Newline(s)]
    {
      out.Write(prefix + s + Newline(s));
    }
  }

  /** The file header names: the base name of a resolved caller's file, "???" when
      the caller is unavailable (runtime.Caller then reports the empty file). */
  function HeaderFile(caller: Option<Caller>): seq<byte> {
    var file := if caller.Some? then Base(caller.value.file) else [];
    if |file| == 0 then Unknown else file
  }

  /** The line number header writes: the caller's line, 0 when it is unavailable or
      negative. */
  function HeaderLine(caller: Option<Caller>): nat {
    if caller.Some? && caller.value.line >= 0 then caller.value.line else 0
  }

  /** header: "LVL file:line: msg", the Sprintf of "%s %s:%d: %s". */
  function Header(lvl: seq<byte>, msg: seq<byte>, caller: Option<Caller>): seq<byte> {
    lvl + [SP] + HeaderFile(caller) + [Colon] + Digits(HeaderLine(caller)) + [Colon, SP] + msg
  }

  /** The file header writes is the base name of a resolved caller's file (never
      "???", as a base name is never empty) and "???" otherwise; the line is the
      caller's line clamped at 0, and 0 when the caller is unavailable. */
  lemma HeaderFields(caller: Option<Caller>)
    ensures caller.None? ==> HeaderFile(caller) == Unknown && HeaderLine(caller) == 0
    ensures caller.Some? ==>
      HeaderFile(caller) == Base(caller.value.file) && HeaderLine(caller) == Max(caller.value.line, 0)
  {
  }

  /** The header starts with the level and a space and ends with ": " and the
      message; the line number between them is unpadded decimal that reads back as
      the clamped line. */
  lemma HeaderShape(lvl: seq<byte>, msg: seq<byte>, caller: Option<Caller>)
    ensures var r, d := Header(lvl, msg, caller), Digits(HeaderLine(caller));
      r[..|lvl|] == lvl && r[|lvl|] == SP && r[|r| - |msg|..] == msg &&
      r[|r| - |msg| - 2..|r| - |msg|] == [Colon, SP] &&
      |d| > 0 && AllDigits(d) && Value(d) == HeaderLine(caller) &&
      (d[0] == Zero <==> HeaderLine(caller) == 0)
  {
    var f, d := HeaderFile(caller), Digits(HeaderLine(caller));
    DigitsNumeral(HeaderLine(caller));
    Assoc(lvl, [SP], f);
    Assoc(lvl, [SP] + f, [Colon]);
    Assoc(lvl, [SP] + f + [Colon], d);
    var a := lvl + [SP] + f + [Colon] + d;
    Assoc(a, [Colon, SP], msg);
  }

  /** prepend: head, then the tail in order. */
  function Prepend<V>(head: V, tail: seq<V>): (r: seq<V>)
    ensures |r| == 1 + |tail| && r[0] == head && r[1..] == tail
  {
    [head] + tail
  }

  /** What an output call at level lvl adds to the sink: one line, or nothing
      below the threshold. */
  function Written(lvl: int, threshold: int, prefix: seq<byte>, line: seq<byte>): seq<seq<byte>> {
    if Emits(lvl, threshold) then [prefix + line + Newline(line)] else []
  }

  /** The logger. The rendered message of each call (fmt.Sprint or fmt.Sprintf of
      its arguments) and the caller runtime.Caller(calldepth) reports are inputs;
      a method stands for both the plain and the formatting variant where they
      differ only in how the message is rendered. */
  class Log {
    const logger: StdLogger
    var level: int
    const calldepth: int

    /** New: a standard logger on stderr with no prefix, threshold ERROR, call
        depth 2. */
    constructor (stderr: Writer)
      ensures fresh(logger) && logger.out == stderr && logger.prefix == []
      ensures level == ErrorLog && calldepth == 2
    {
      logger := new StdLogger(stderr, []);
      level := ErrorLog;
      calldepth := 2;
    }

    /** SetLevel: looks the upper-cased name up in logLevels, falling back to ERROR.
        strings.ToUpper is the parameter toUpper. */
    method SetLevel(name: seq<byte>, toUpper: seq<byte> -> seq<byte>)
      modifies this
      ensures level == LevelIndex(toUpper(name))
    {
      var upper := toUpper(name);
      LevelIndexSpec(upper);
      var i := 0;
      while i < |Levels|
        invariant 0 <= i <= |Levels|
        invariant forall j :: 0 <= j < i ==> Levels[j] != upper
      {
        if Levels[i] == upper {
          level := i;
          return;
        }
        i := i + 1;
      }
      level := ErrorLog;
    }

    method SetOutput(w: Writer)
      modifies logger
      ensures logger.out == w && logger.prefix == old(logger.prefix)
    {
      logger.SetOutput(w);
    }

    method SetPrefix(prefix: seq<byte>)
      modifies logger
      ensures logger.prefix == prefix && logger.out == old(logger.out)
    {
      logger.SetPrefix(prefix);
    }

    /** output: hands the line to the standard logger iff lvl is at least the
        threshold. */
    method Output(lvl: int, line: seq<byte>)
      modifies logger.out
      ensures logger.out.writes == old(logger.out.writes) + Written(lvl, level, logger.prefix, line)
    {
      if lvl >= level {
        logger.Output(line);
      } else {
        assert old(logger.out.writes) + [] == old(logger.out.writes);
      }
    }

    /** Trace and Tracef. */
    method Trace(msg: seq<byte>, caller: Option<Caller>)
      modifies logger.out
      ensures logger.out.writes ==
        old(logger.out.writes) + Written(TraceLog, level, logger.prefix, Header(TRACE, msg, caller))
    {
      Output(TraceLog, Header(TRACE, msg, caller));
    }

    /** Debug and Debugf. */
    method Debug(msg: seq<byte>, caller: Option<Caller>)
      modifies logger.out
      ensures logger.out.writes ==
        old(logger.out.writes) + Written(DebugLog, level, logger.prefix, Header(DEBUG, msg, caller))
    {
      Output(DebugLog, Header(DEBUG, msg, caller));
    }

    /** Info and Infof. */
    method Info(msg: seq<byte>, caller: Option<Caller>)
      modifies logger.out
      ensures logger.out.writes ==
        old(logger.out.writes) + Written(InfoLog, level, logger.prefix, Header(INFO, msg, caller))
    {
      Output(InfoLog, Header(INFO, msg, caller));
    }

    /** Warning and Warningf. */
    method Warning(msg: seq<byte>, caller: Option<Caller>)
      modifies logger.out
      ensures logger.out.writes ==
        old(logger.out.writes) + Written(WarningLog, level, logger.prefix, Header(WARNING, msg, caller))
    {
      Output(WarningLog, Header(WARNING, msg, caller));
    }

    /** Error and Errorf. */
    method Error(msg: seq<byte>, caller: Option<Caller>)
      modifies logger.out
      ensures logger.out.writes ==
        old(logger.out.writes) + Written(ErrorLog, level, logger.prefix, Header(ERROR, msg, caller))
    {
      Output(ErrorLog, Header(ERROR, msg, caller));
    }

    /** Fatal: a FATAL line, then the process exits with status 1 (the result). */
    method Fatal(msg: seq<byte>, caller: Option<Caller>) returns (exitCode: int)
      modifies logger.out
      ensures exitCode == 1
      ensures logger.out.writes ==
        old(logger.out.writes) + Written(FatalLog, level, logger.prefix, Header(FATAL, msg, caller))
    {
      Output(FatalLog, Header(FATAL, msg, caller));
      exitCode := 1;
    }

    /** Fatalf: gated at FATAL but labelled ERROR, then exit status 1. */
    method Fatalf(msg: seq<byte>, caller: Option<Caller>) returns (exitCode: int)
      modifies logger.out
      ensures exitCode == 1
      ensures logger.out.writes ==
        old(logger.out.writes) + Written(FatalLog, level, logger.prefix, Header(ERROR, msg, caller))
    {
      Output(FatalLog, Header(ERROR, msg, caller));
      exitCode := 1;
    }

    /** Panic and Panicf: a PANIC line, then a panic whose value (the result) is the
        rendered header. */
    method Panic(msg: seq<byte>, caller: Option<Caller>) returns (panicValue: seq<byte>)
      modifies logger.out
      ensures panicValue == Header(PANIC, msg, caller)
      ensures logger.out.writes == old(logger.out.writes) + Written(PanicLog, level, logger.prefix, panicValue)
    {
      panicValue := Header(PANIC, msg, caller);
      Output(PanicLog, panicValue);
    }

    /** OnWarning: when err is not nil, a WARNING line whose message is the Sprint
        of err followed by v; always returns nil. */
    method OnWarning<V>(err: Option<V>, v: seq<V>, sprint: seq<V> -> seq<byte>, caller: Option<Caller>)
      returns (r: Option<V>)
      modifies logger.out
      ensures r == None
      ensures err.None? ==> logger.out.writes == old(logger.out.writes)
      ensures err.Some? ==> (logger.out.writes == old(logger.out.writes) +
        Written(WarningLog, level, logger.prefix, Header(WARNING, sprint(Prepend(err.value, v)), caller)))
    {
      if err.Some? {
        Output(WarningLog, Header(WARNING, sprint(Prepend(err.value, v)), caller));
      }
      r := None;
    }

    /** OnWarningf: when err is not nil, a WARNING line with the formatted message
        (err itself is not part of it); always returns nil. */
    method OnWarningf<V>(err: Option<V>, msg: seq<byte>, caller: Option<Caller>) returns (r: Option<V>)
      modifies logger.out
      ensures r == None
      ensures err.None? ==> logger.out.writes == old(logger.out.writes)
      ensures err.Some? ==> (logger.out.writes == old(logger.out.writes) +
        Written(WarningLog, level, logger.prefix, Header(WARNING, msg, caller)))
    {
      if err.Some? {
        Output(WarningLog, Header(WARNING, msg, caller));
      }
      r := None;
    }

    /** OnError: as OnWarning, at ERROR. */
    method OnError<V>(err: Option<V>, v: seq<V>, sprint: seq<V> -> seq<byte>, caller: Option<Caller>)
      returns (r: Option<V>)
      modifies logger.out
      ensures r == None
      ensures err.None? ==> logger.out.writes == old(logger.out.writes)
      ensures err.Some? ==> (logger.out.writes == old(logger.out.writes) +
        Written(ErrorLog, level, logger.prefix, Header(ERROR, sprint(Prepend(err.value, v)), caller)))
    {
      if err.Some? {
        Output(ErrorLog, Header(ERROR, sprint(Prepend(err.value, v)), caller));
      }
      r := None;
    }

    /** OnErrorf: as OnWarningf, at ERROR. */
    method OnErrorf<V>(err: Option<V>, msg: seq<byte>, caller: Option<Caller>) returns (r: Option<V>)
      modifies logger.out
      ensures r == None
      ensures err.None? ==> logger.out.writes == old(logger.out.writes)
      ensures err.Some? ==> (logger.out.writes == old(logger.out.writes) +
        Written(ErrorLog, level, logger.prefix, Header(ERROR, msg, caller)))
    {
      if err.Some? {
        Output(ErrorLog, Header(ERROR, msg, caller));
      }
      r := None;
    }

    /** OnFatal: when err is not nil, a FATAL line with err and v, then exit status
        1; nothing otherwise. */
    method OnFatal<V>(err: Option<V>, v: seq<V>, sprint: seq<V> -> seq<byte>, caller: Option<Caller>)
      returns (exitCode: Option<int>)
      modifies logger.out
      ensures err.None? ==> exitCode == None && logger.out.writes == old(logger.out.writes)
      ensures err.Some? ==> (exitCode == Some(1) && logger.out.writes == old(logger.out.writes) +
        Written(FatalLog, level, logger.prefix, Header(FATAL, sprint(Prepend(err.value, v)), caller)))
    {
      exitCode := None;
      if err.Some? {
        Output(FatalLog, Header(FATAL, sprint(Prepend(err.value, v)), caller));
        exitCode := Some(1);
      }
    }

    /** OnFatalf: when err is not nil, a line gated at FATAL but labelled ERROR,
        then exit status 1; nothing otherwise. */
    method OnFatalf<V>(err: Option<V>, msg: seq<byte>, caller: Option<Caller>) returns (exitCode: Option<int>)
      modifies logger.out
      ensures err.None? ==> exitCode == None && logger.out.writes == old(logger.out.writes)
      ensures err.Some? ==> (exitCode == Some(1) && logger.out.writes == old(logger.out.writes) +
        Written(FatalLog, level, logger.prefix, Header(ERROR, msg, caller)))
    {
      exitCode := None;
      if err.Some? {
        Output(FatalLog, Header(ERROR, msg, caller));
        exitCode := Some(1);
      }
    }

    /** OnPanic: when err is not nil, a PANIC line with err and v, then a panic with
        the rendered header; nothing otherwise. */
    method OnPanic<V>(err: Option<V>, v: seq<V>, sprint: seq<V> -> seq<byte>, caller: Option<Caller>)
      returns (panicValue: Option<seq<byte>>)
      modifies logger.out
      ensures err.None? ==> panicValue == None && logger.out.writes == old(logger.out.writes)
      ensures err.Some? ==>
        panicValue == Some(Header(PANIC, sprint(Prepend(err.value, v)), caller)) &&
        logger.out.writes == old(logger.out.writes) + Written(PanicLog, level, logger.prefix, panicValue.value)
    {
      panicValue := None;
      if err.Some? {
        var msg := Header(PANIC, sprint(Prepend(err.value, v)), caller);
        Output(PanicLog, msg);
        panicValue := Some(msg);
      }
    }

    /** OnPanicf: as OnPanic, with the formatted message. */
    method OnPanicf<V>(err: Option<V>, msg: seq<byte>, caller: Option<Caller>)
      returns (panicValue: Option<seq<byte>>)
      modifies logger.out
      ensures err.None? ==> panicValue == None && logger.out.writes == old(logger.out.writes)
      ensures err.Some? ==>
        panicValue == Some(Header(PANIC, msg, caller)) &&
        logger.out.writes == old(logger.out.writes) + Written(PanicLog, level, logger.prefix, panicValue.value)
    {
      panicValue := None;
      if err.Some? {
        var line := Header(PANIC, msg, caller);
        Output(PanicLog, line);
        panicValue := Some(line);
      }
    }
  }

  /** A new logger drops INFO lines and writes ERROR lines: after New, Info leaves
      the sink as it was and Error adds one line. */
  method DefaultThreshold(stderr: Writer, msg: seq<byte>, caller: Option<Caller>) returns (l: Log)
    modifies stderr
    ensures l.logger.out == stderr
    ensures stderr.writes == old(stderr.writes) + [Header(ERROR, msg, caller) + Newline(Header(ERROR, msg, caller))]
  {
    l := new Log(stderr);
    l.Info(msg, caller);
    l.Error(msg, caller);
    assert [] + Header(ERROR, msg, caller) == Header(ERROR, msg, caller);
  }
}
