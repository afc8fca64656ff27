# logx line formatter, modelled in Dafny

logx is a small Go logging package. Its core is the code that turns one logging
call into one line of bytes and hands that line to an `io.Writer` in a single
write. The package holds three variants of that code, and this project models all
three side by side:

- **`Logger`** (`logger.dfy`, log.go). `Log` keeps an output cell, an int32 flag
  cell, a fixed prefix and a call depth. Its `output` builds each line by
  successive appends:
  - date `YYYY/MM/DD `, then time `HH:MM:SS[.uuuuuu] `, under the flag bits;
  - the level and a space;
  - the prefix and a space, when there is a prefix;
  - `file:line `, under a file flag;
  - the message, plus `\n` unless the message already ends in one.

  Numbers are written by the hand-written `itoa`, which fills a 20-byte scratch
  array backwards.
- **`BufAppender`** (`buf_appender.dfy`, buf_appender.go). `BufferAppender.Append`
  uses the same layout with two additions: a `[tag tag] ` field, and a compact mode
  (`Lcompact`) in which every run of whitespace in the message becomes one space.
  It writes into a `bytes.Buffer` taken from a pool, writes the buffer out with one
  `WriteTo`, resets it and returns it to the pool. Its number encoder `itoaBuf`
  writes the whole 20-byte scratch array, so every number is preceded by NUL
  bytes. The model keeps that behaviour as written (`Layout.WholeArrayNum`).
- **`LevelLog`** (`logx.dfy`, logx.go). An older logger gated by a level
  threshold. `SetLevel` looks the level name up case-insensitively and falls back
  to ERROR. Each call renders `LEVEL file:line: message` and hands it to Go's
  standard `log.Logger` only when the call's level is at least the threshold. The
  `On*` helpers log only for a non-nil error.

The shared modules are:
- `Bytes`: octets, ASCII and UTF-8.
- `Flags`: the flag bits, Go's `flags&flag != 0` test and the `int32` conversion.
- `Decimal`: `itoa` as a function, Go's truncating division, and the decimal
  numerals it is meant to produce.
- `Location`: caller locations, the short-file loop and `filepath.Base`.
- `Layout`: the time, file and newline fields, for either integer encoder.
- `Sink`: an `io.Writer` whose only observable state is the sequence of `Write`
  calls it received.
- `Wrappers`: `Option`.

## Model

| member | source | states |
|---|---|---|
| Bytes.ByteOfWraps | log.go:240-245 | `byte('0' + …)` keeps the value modulo 256, and keeps it unchanged when it fits in a byte |
| Bytes.Utf8Rune | buf_appender.go:151 | WriteRune appends 1 to 4 bytes; exactly one byte, the rune itself, for ASCII; a multi-byte rune ends in a byte of at least 0x80 |
| Bytes.Utf8EndsInNewline | buf_appender.go:119 | the byte test `line[len(line)-1] != '\n'` on a Go string agrees with a test on its last rune |
| Flags.FlagsAreDistinctBits | log.go:12-39 | Ldate, Ltime, Lmicroseconds, Llongfile, Lshortfile, LUTC and Lcompact are the single bits 2^4 … 2^10; for every pair, a word holding just flag i tests positive for flag j iff i = j; LstdFlags is Lshortfile |
| Flags.Int32 | log.go:86-89 | the stored flag word equals the argument modulo 2^32, and is the argument itself in int32 range |
| Decimal.Quo10Truncates | log.go:239 | Go's `i / 10` truncates toward zero: the remainder has i's sign and is below 10 in magnitude; the quotient shrinks toward 0 and stays a Go int |
| Decimal.ItoaStep | log.go:237-243 | one loop turn puts the last digit after everything the remaining turns write, which is at least one byte, and moves i toward 0 |
| Decimal.ItoaNonEmpty | log.go:244-246 | itoa always writes at least its final digit |
| Decimal.ItoaPadded | log.go:231-247 | for i >= 0, itoa writes the shortest numeral of i, left-padded with '0' up to wid bytes |
| Decimal.ItoaReadsBack | log.go:233-247 | for i >= 0 it writes exactly max(wid, digits(i)) ASCII digits, and parsing them gives back i |
| Decimal.ItoaUnpadded | log.go:231-232 | with a width below 2 (log.go passes -1), no zero padding: the first digit is '0' only for i = 0, and 0 is "0" |
| Decimal.ItoaNonPositiveLength | log.go:237-245 | for i <= 0 the loop only counts the width down, so max(wid, 1) bytes are written |
| Decimal.ItoaFits | log.go:235-246 | every Go int at a width of at most 20 fits the 20-byte scratch array |
| Decimal.DigitsNumeral | log.go:231-232 | the reference numeral has digits only, has no leading zero, and reads back as n |
| Location.LastSlash | log.go:208-213 | the backward search finds the last '/' at an index above 0, or reports that there is none |
| Location.ShortNameIsLastElement | log.go:206-215 | the short name is a suffix of the path: the whole path when no '/' stands above index 0, otherwise exactly what follows the last such '/', with no '/' in it |
| Location.TrimToShort | log.go:206-215 | the search loop's result is the short name |
| Location.Base | logx.go:251-253 | filepath.Base gives "." for the empty path and "/" for a path of slashes only; otherwise it gives the last element: a slash-free slice of the path that starts at the path's start or after a '/' and is followed only by '/'; never empty |
| Location.AfterLastSlash | logx.go:252 | the last path element is a suffix of the path that contains no '/' and follows a '/' when shorter than the path |
| Location.TrimTrailingSlashes | logx.go:252 | stripping trailing slashes gives a prefix that does not end in '/', and every byte removed is '/' |
| Layout.WholeArrayNum | buf_appender.go:127-140 | itoaBuf always appends exactly 20 bytes: zero bytes, then the digits itoa would write |
| Layout.RenderConcat | log.go:164-185 | appending pieces in two runs gives the concatenation of the two runs |
| Layout.DateFieldBytes | log.go:164-172 | the date field is year (width 4), '/', month (width 2), '/', day (width 2), ' ' |
| Layout.ClockFieldBytes | log.go:173-185 | the clock field is hour, ':', minute, ':', second (width 2 each), then '.' and microseconds (width 6) when asked, then ' ' |
| Layout.DateFieldShape | log.go:164-172 | for years 0..9999 the date field is the 11 bytes "YYYY/MM/DD ", each number zero-padded and reading back as the date |
| Layout.ClockFieldShape | log.go:173-185 | the clock field is 9 bytes "HH:MM:SS ", or 16 with ".uuuuuu", each number reading back as the clock and the microseconds as nsec / 1000 |
| Layout.TimeFieldsGating | log.go:157-187 | the date appears exactly under Ldate, the clock under Ltime or Lmicroseconds, microseconds only under Lmicroseconds, date before clock; LUTC only picks the reading |
| Layout.NewlineRule | log.go:222-226 | exactly one '\n' is added iff the message is empty or does not end in '\n'; the message is kept verbatim and the line ends in '\n' |
| Layout.UnknownCallerField | log.go:200-205 | an unavailable caller is written "???:0 " |
| Layout.FileFieldShape | log.go:199-220 | with no file flag the field is empty; under Lshortfile it is the short name, ':', the unpadded line and ' '; under Llongfile alone the full path is used |
| Logger.Itoa | log.go:233-247 | the array loop appends exactly the bytes `ItoaBytes(i, wid)` after the old buffer, which it keeps as a prefix |
| Logger.AppendDate | log.go:164-172 | appends the date field |
| Logger.AppendClock | log.go:173-185 | appends the clock field, with microseconds when asked |
| Logger.AppendTime | log.go:157-187 | appends the time section under the flag tests |
| Logger.AppendFile | log.go:199-220 | appends the file section, shortened under Lshortfile, "???" and 0 for an unavailable caller |
| Logger.Log.constructor | log.go:57-70 | NewLog stores the output, int32(flags) and the prefix, with call depth 2 |
| Logger.Log.GetLog | log.go:72-79 | a fresh log with the parent's current output and flags and the new prefix |
| Logger.Log.SetOutput | log.go:81-84 | replaces the output cell and leaves the flags |
| Logger.Log.SetFlags | log.go:86-89 | stores int32(flags) and leaves the output |
| Logger.Log.Flags | log.go:91-95 | returns the flag cell, an int32 value |
| Logger.Log.Prefix | log.go:97-101 | returns the prefix |
| Logger.Log.Output | log.go:153-229 | exactly one Write to the current output, of the line: time section, level and ' ', prefix field, file section, message, newline rule |
| Logger.Log.Info | log.go:103-121 | Print, Printf, Info and Infof write one INFO line |
| Logger.Log.Warning | log.go:123-131 | one WARNING line |
| Logger.Log.Error | log.go:133-141 | one ERROR line |
| Logger.Log.Critical | log.go:143-151 | one CRITICAL line |
| Logger.ChildIsSnapshot | log.go:72-89 | after GetLog, replacing the parent's output does not reach the child, and changing the child's flags does not reach the parent |
| Logger.FlagsReadBack | log.go:86-95 | Flags() after SetFlags(f) gives back f exactly when f is in int32 range |
| Logger.BareLine | log.go:189-191 | with no time or file flag and no prefix, the line is level, ' ', message and the newline rule |
| Logger.BareLineExample | debug_on_test.go:12-16 | a log with flags 0 and no prefix writes "DEBUG test\n" for DEBUG and "test" |
| Logger.LineFraming | log.go:189-226 | every line ends in '\n' and carries the message verbatim before the newline rule's byte; the level and ' ' follow the time section |
| Logger.Framing | log.go:189-226 | the same framing for any time, prefix and file fields |
| Logger.StampedLine | log.go:157-191 | under Ldate\|Ltime the line is the 11-byte date, the 9-byte clock, then the level from byte 20 on |
| BufAppender.Buffer.WriteTo | buf_appender.go:122 | hands all unread bytes to the writer in one Write (none when empty) and drains the buffer |
| BufAppender.StripBuf | buf_appender.go:142-155 | the rune loop with its `white` flag appends the UTF-8 bytes of the compacted text |
| BufAppender.StripStep | buf_appender.go:144-153 | one more rune adds its step: the rune, one ' ' at the start of a whitespace run, or nothing inside one |
| BufAppender.StripCompacts | buf_appender.go:142-155 | the output's only whitespace is ' ', never two in a row; it ends in whitespace iff the input does; it is no longer than the input |
| BufAppender.StripKeepsText | buf_appender.go:142-155 | deleting whitespace from the output gives the input with its whitespace deleted |
| BufAppender.StripFixes | buf_appender.go:142-155 | text already in compact form is left unchanged |
| BufAppender.StripIdempotent | buf_appender.go:142-155 | compacting twice is compacting once |
| BufAppender.StripSplits | buf_appender.go:142-155 | compacting splits at every point that is not inside a whitespace run |
| BufAppender.StripRun | buf_appender.go:145-149 | a non-empty run of whitespace becomes exactly one ' ' |
| BufAppender.StripExample | buf_appender.go:142-155 | "abc\n" compacts to "abc " |
| BufAppender.LastSpace | buf_appender.go:81-86 | finds the last space of a string: no space follows it |
| BufAppender.LastSpaceBefore | buf_appender.go:81-86 | in a + " " + b, with no space in b, the last space is the one after a |
| BufAppender.SplitJoin | buf_appender.go:81-86 | tags joined by single spaces split back into the same tags when no tag holds a space |
| BufAppender.TagsFieldShape | buf_appender.go:77-88 | no tags, no brackets; otherwise '[', fields that split back into the tags, then "] " |
| BufAppender.TagsExample | buf_appender.go:77-88 | tags "a" and "b" give "[a b] " |
| BufAppender.AppendTags | buf_appender.go:77-88 | the tag loop appends the tag field |
| BufAppender.ItoaBuf | buf_appender.go:127-140 | the array loop appends NUL bytes, then the digits itoa would write, 20 bytes in all |
| BufAppender.AppendDate | buf_appender.go:42-50 | appends the date field through itoaBuf |
| BufAppender.AppendClock | buf_appender.go:51-63 | appends the clock field through itoaBuf |
| BufAppender.AppendTime | buf_appender.go:35-65 | appends the time section under the same flag tests as log.go |
| BufAppender.AppendFile | buf_appender.go:90-111 | appends the file section as log.go does, numbers through itoaBuf |
| BufAppender.FillHead | buf_appender.go:35-75 | into an empty buffer: time section, level and ' ', the prefix and ' ' only for a non-empty prefix |
| BufAppender.Fill | buf_appender.go:35-121 | into an empty buffer: the whole line, with the tag field after the prefix and the newline test on the original line |
| BufAppender.BufferAppender.constructor | buf_appender.go:19-30 | NewBufferAppender keeps output and flags, with an empty pool |
| BufAppender.BufferAppender.Append | buf_appender.go:32-125 | exactly one write of the whole line to the output; every pooled buffer is empty before and after, so each call starts from an empty buffer |
| BufAppender.SameLayoutAsLogger | buf_appender.go:35-121 | with no time, file or compact flag and no tags, Append writes exactly the line log.go's output writes |
| BufAppender.CompactDropsFinalNewline | buf_appender.go:113-121 | in compact mode a line ending in '\n' ends in ' ', with no newline added |
| BufAppender.CompactBareLine | buf_appender.go:113-121 | with Lcompact only, the line is level, ' ', the compacted message, and the newline rule applied to the original message |
| BufAppender.CompactExample | buf_appender.go:113-121 | "abc\n" under Lcompact is written as level, ' ', "abc ", with no newline |
| LevelLog.LabelsSpellNames | logx.go:26-32 | the level labels spell TRACE … PANIC |
| LevelLog.LevelsAreOrdered | logx.go:17-45 | trace < debug < … < panic; logLevels[i] is the label of level i; the names are distinct |
| LevelLog.FindLevelSpec | logx.go:96-102 | the search from i finds the first matching name, or gives errorLog when none matches |
| LevelLog.LevelIndexSpec | logx.go:94-103 | a known name selects its index, any other name selects errorLog = 4, and the result is always a level |
| LevelLog.LevelNamesRoundTrip | logx.go:36-44 | every name in logLevels selects its own index |
| LevelLog.AsciiUpperFacts | logx.go:95 | ASCII upper-casing keeps the length and every byte outside a-z, maps a-z to A-Z, leaves no small letter, and is idempotent |
| LevelLog.UpperIsAnyCase | logx.go:95-97 | a name upper-cases to a word of capitals exactly when it spells that word in any mix of capital and small letters |
| LevelLog.LevelNameIgnoresCase | logx.go:94-103 | for every name and every level j: any-case spelling of logLevels[j] selects j, and for j other than ERROR only such spellings select j |
| LevelLog.LevelNameExamples | logx.go:94-103 | "warning" selects WARNING, "Debug" selects DEBUG, and "verbose" selects ERROR |
| LevelLog.RaisingLevelNarrows | logx.go:243-247 | raising the threshold never lets more levels through; PANIC passes every threshold up to panicLog |
| LevelLog.StdLogger.Output | logx.go:245 | the standard logger (flags 0) writes prefix, text and the newline rule in one Write |
| LevelLog.StdLogger.SetOutput | logx.go:107 | replaces the standard logger's writer and keeps its prefix |
| LevelLog.StdLogger.SetPrefix | logx.go:111 | replaces the standard logger's prefix and keeps its writer |
| LevelLog.HeaderFields | logx.go:250-261 | an unavailable caller is written as "???" and line 0; a resolved one as filepath.Base of its file and its line clamped at 0 |
| LevelLog.HeaderShape | logx.go:249-264 | the header starts with the level and ' ', ends with ": " and the message, and its line number is an unpadded numeral that reads back as the clamped line |
| LevelLog.Prepend | logx.go:266-268 | the head comes first, then the tail in order; the length is 1 + the tail's |
| LevelLog.Log.constructor | logx.go:84-91 | New: a standard logger on stderr with no prefix, threshold errorLog (4), call depth 2 |
| LevelLog.Log.SetLevel | logx.go:93-103 | the lookup loop sets the threshold to the index of the upper-cased name, or errorLog |
| LevelLog.Log.SetOutput | logx.go:105-108 | replaces the standard logger's writer |
| LevelLog.Log.SetPrefix | logx.go:110-112 | replaces the standard logger's prefix |
| LevelLog.Log.Output | logx.go:243-247 | writes one line iff lvl >= threshold, and nothing otherwise |
| LevelLog.Log.Trace | logx.go:114-120 | Trace and Tracef: a TRACE header gated at traceLog |
| LevelLog.Log.Debug | logx.go:122-128 | Debug and Debugf: a DEBUG header gated at debugLog |
| LevelLog.Log.Info | logx.go:130-136 | Info and Infof: an INFO header gated at infoLog |
| LevelLog.Log.Warning | logx.go:138-144 | Warning and Warningf: a WARNING header gated at warningLog |
| LevelLog.Log.Error | logx.go:146-152 | Error and Errorf: an ERROR header gated at errorLog |
| LevelLog.Log.Fatal | logx.go:154-157 | a FATAL header gated at fatalLog, then exit status 1 |
| LevelLog.Log.Fatalf | logx.go:159-162 | labelled ERROR but gated at fatalLog, then exit status 1 |
| LevelLog.Log.Panic | logx.go:164-174 | a PANIC header gated at panicLog, then a panic whose value is the header |
| LevelLog.Log.OnWarning | logx.go:176-183 | returns nil; writes nothing for a nil err, otherwise a WARNING line of err followed by v |
| LevelLog.Log.OnWarningf | logx.go:185-191 | returns nil; writes nothing for a nil err, otherwise a WARNING line of the formatted message |
| LevelLog.Log.OnError | logx.go:193-199 | returns nil; writes nothing for a nil err, otherwise an ERROR line of err followed by v |
| LevelLog.Log.OnErrorf | logx.go:201-207 | returns nil; writes nothing for a nil err, otherwise an ERROR line of the formatted message |
| LevelLog.Log.OnFatal | logx.go:209-215 | nothing for a nil err; otherwise a FATAL line gated at fatalLog, then exit status 1 |
| LevelLog.Log.OnFatalf | logx.go:217-223 | nothing for a nil err; otherwise a line labelled ERROR gated at fatalLog, then exit status 1 |
| LevelLog.Log.OnPanic | logx.go:225-232 | nothing for a nil err; otherwise a PANIC line, then a panic with the header |
| LevelLog.Log.OnPanicf | logx.go:234-241 | as OnPanic, with the formatted message |
| LevelLog.DefaultThreshold | logx.go:85-91 | a new logger drops an INFO line and writes an ERROR line |

## Left out

- Concurrency. log.go keeps its output and flags behind `atomic` pointer loads and stores (log.go:75-93, 228). The model keeps them as plain fields of `Logger.Log`.
- BufAppender.BufferAppender.Append: `sync.Pool` is modelled as a sequence of returned buffers, and `Get` takes the last one or a new buffer. The real pool may hand back any pooled buffer or drop buffers. The proof relies only on every pooled buffer being empty, which holds for any such choice.
- Process termination. `os.Exit(1)` and `panic(msg)` in the Fatal, Panic and On* methods (logx.go:154-241) become results: the exit status, and the panic value. That nothing runs after them is not modelled.
- Write errors. They are ignored by every `Write` and `WriteTo` in the source, so the writer has no error path.
- Message rendering. `fmt.Sprint` and `fmt.Sprintf` produce the message, which is an input. The plain and formatting variants therefore share one method where they differ only in rendering: Info/Infof, Print/Printf and the like. Fatalf, OnWarningf, OnErrorf, OnFatalf and OnPanicf keep their own method because their line differs. The On* methods without `f` take `fmt.Sprint` as a function parameter `sprint`, applied to the prepended arguments.
- Caller and clock. `runtime.Caller` and `time.Now`/`Date`/`Clock`/`Nanosecond`/`UTC` are inputs: an `Option<Caller>`, and an `Instant` with a local and a UTC reading. The call depths are kept as fields but do not select anything.
- LevelLog.Log.SetLevel: `strings.ToUpper` is the parameter `toUpper`. The lemmas use `AsciiUpper`, which agrees with it on ASCII text. Go's Unicode case mapping is not modelled; for example, it maps "ınfo" (dotless i) to "INFO".
- `unicode.IsSpace` is written out from Go's definition: the Latin-1 list plus the White_Space table above it. `filepath.Base` follows its documentation for '/'-separated paths.
- Go's standard `log.Logger`, which logx.go writes through, is modelled only as logx uses it: flags 0, with prefix + text + newline rule in one write. Its other flags are not modelled.
- BufAppender.StripBuf: the message is taken as a sequence of runes. Go's `range` over invalid UTF-8, which yields U+FFFD, is not modelled.
- BufAppender.BufferAppender.Append: the message is a sequence of runes in every mode, so the bytes written are its UTF-8 encoding. A non-compact Append of a message that is not valid UTF-8, which Go's WriteString copies unchanged, is outside the model. The same holds for `BufAppender.Line`, `BufAppender.Fill` and `BufAppender.SameLayoutAsLogger`.
- `Lcompact` is used in buf_appender.go:113 but declared in none of these files. It is modelled as the next free bit, 1 << 10.
- Logger.Itoa: requires a Go int and a width of at most 20. Wider input would index outside Go's 20-byte array and panic. The callers pass only 4, 2, 6 and -1.
- std.go, appender.go, debug_on.go, trace_off.go and the test files are not part of this model. They hold forwarding glue, an interface, and build-tag stubs.
