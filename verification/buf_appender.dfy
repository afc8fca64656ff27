/** buf_appender.go: an appender that lays a line out like log.go's output, with a
    tag field and a compact mode, into a pooled bytes.Buffer, and writes the buffer
    to its output in one WriteTo. */
module BufAppender {
  import opened Bytes
  import opened Flags
  import opened Decimal
  import opened Location
  import opened Layout
  import opened Wrappers
  import opened Sink
  import Logger

  const LBracket: byte := 91
  const RBracket: byte := 93

  /** Go's bytes.Buffer, as far as Append uses it: the unread bytes. */
  class Buffer {
    var data: seq<byte>

    constructor ()
      ensures data == []
    {
      data := [];
    }

    /** Write and WriteString. */
    method Write(p: seq<byte>)
      modifies this
      ensures data == old(data) + p
    {
      data := data + p;
    }

    method WriteByte(c: byte)
      modifies this
      ensures data == old(data) + [c]
    {
      data := data + [c];
    }

    method WriteRune(c: char)
      modifies this
      ensures data == old(data) + Utf8Rune(c)
    {
      data := data + Utf8Rune(c);
    }

    /** Hands all unread bytes to w in one Write (none when there are none) and
        leaves the buffer drained. */
    method WriteTo(w: Writer)
      modifies this, w
      ensures data == []
      ensures w.writes == old(w.writes) + (if old(data) == [] then [] else [old(data)])
    {
      if data != [] {
        w.Write(data);
      }
      data := [];
    }

    method Reset()
      modifies this
      ensures data == []
    {
      data := [];
    }
  }

  // ---------------------------------------------------------------------------
  // Whitespace and compact mode

  /** Go's unicode.IsSpace: '\t', '\n', '\v', '\f', '\r', ' ', U+0085 and U+00A0 in
      Latin-1, and the other White_Space runes above it. */
  predicate IsSpace(c: char) {
    var n := c as int;
    (9 <= n <= 13) || n == 0x20 || n == 0x85 || n == 0xA0 ||
    n == 0x1680 || (0x2000 <= n <= 0x200A) || n == 0x2028 || n == 0x2029 ||
    n == 0x202F || n == 0x205F || n == 0x3000
  }

  /** stripBuf's `white` flag after a run of runes: the last one was whitespace. */
  predicate EndsWhite(s: string) {
    |s| > 0 && IsSpace(s[|s| - 1])
  }

  /** The runes stripBuf writes for src: a non-space rune as it is, and one ' ' for
      the first rune of each run of whitespace. */
  function Strip(src: string): string {
    if src == [] then [] else Strip(src[..|src| - 1]) + Step(src[|src| - 1], EndsWhite(src[..|src| - 1]))
  }

  /** What stripBuf writes for the rune c when the rune before it was whitespace
      (white) or not. */
  function Step(c: char, white: bool): string {
    if !IsSpace(c) then [c] else if white then [] else [' ']
  }

  /** One more rune of input adds its Step. */
  lemma StripStep(src: string, i: nat)
    requires i < |src|
    ensures Strip(src[..i + 1]) == Strip(src[..i]) + Step(src[i], EndsWhite(src[..i]))
    ensures EndsWhite(src[..i + 1]) == IsSpace(src[i])
  {
    assert src[..i + 1][..i] == src[..i];
  }

  /** The bytes of a Step: one space, nothing, or the rune's UTF-8 encoding. */
  lemma Utf8Step(c: char, white: bool)
    ensures Utf8(Step(c, white)) == if !IsSpace(c) then Utf8Rune(c) else if white then [] else [SP]
  {
    Utf8Single(c);
    Utf8Single(' ');
  }

  /** The non-whitespace runes of s, in order. */
  function NonSpace(s: string): string {
    if s == [] then []
    else NonSpace(s[..|s| - 1]) + (if IsSpace(s[|s| - 1]) then [] else [s[|s| - 1]])
  }

  /** A string in compact form: its only whitespace is ' ', never two in a row. */
  predicate Compacted(s: string) {
    (forall i :: 0 <= i < |s| && IsSpace(s[i]) ==> s[i] == ' ') &&
    (forall i :: 0 < i < |s| ==> !(IsSpace(s[i - 1]) && IsSpace(s[i])))
  }

  /** stripBuf: walks the runes of src with the `white` flag, writing a space for
      the first of each run of whitespace and every other rune as it is. */
  method StripBuf(buf: Buffer, src: string)
    modifies buf
    ensures buf.data == old(buf.data) + Utf8(Strip(src))
  {
    var white := false;
    var i := 0;
    while i < |src|
      invariant 0 <= i <= |src|
      invariant white == EndsWhite(src[..i])
      invariant buf.data == old(buf.data) + Utf8(Strip(src[..i]))
    {
      var c := src[i];
      StripStep(src, i);
      Utf8Step(c, white);
      Utf8Concat(Strip(src[..i]), Step(c, white));
      Assoc(old(buf.data), Utf8(Strip(src[..i])), Utf8(Step(c, white)));
      if IsSpace(c) {
        if !white {
          buf.WriteByte(SP);
        } else {
          AppendEmpty(buf.data);
        }
        white := true;
      } else {
        buf.WriteRune(c);
        white := false;
      }
      i := i + 1;
    }
    assert src[..|src|] == src;
  }

  /** stripBuf's output is compact, and ends in whitespace exactly when its input
      does. */
  lemma {:induction false} StripCompacts(s: string)
    ensures Compacted(Strip(s)) && EndsWhite(Strip(s)) == EndsWhite(s)
    ensures |Strip(s)| <= |s|
  {
    if s != [] {
      StripCompacts(s[..|s| - 1]);
    }
  }

  lemma {:induction false} NonSpaceConcat(a: string, b: string)
    ensures NonSpace(a + b) == NonSpace(a) + NonSpace(b)
    decreases |b|
  {
    if b == [] {
      assert a + b == a;
    } else {
      var n := |b| - 1;
      NonSpaceConcat(a, b[..n]);
      assert (a + b)[..|a + b| - 1] == a + b[..n] && (a + b)[|a + b| - 1] == b[n];
    }
  }

  /** Compacting keeps every non-whitespace rune, in order: deleting the
      whitespace from stripBuf's output gives the input with its whitespace
      deleted. */
  lemma {:induction false} StripKeepsText(s: string)
    ensures NonSpace(Strip(s)) == NonSpace(s)
  {
    if s != [] {
      var init, c := s[..|s| - 1], s[|s| - 1];
      var step := Step(c, EndsWhite(init));
      StripKeepsText(init);
      NonSpaceConcat(Strip(init), step);
      assert step != [] ==> step[..0] == [];
    }
  }

  /** A string already in compact form is left as it is. */
  lemma {:induction false} StripFixes(s: string)
    requires Compacted(s)
    ensures Strip(s) == s
  {
    if s != [] {
      var init, c := s[..|s| - 1], s[|s| - 1];
      assert Compacted(init) by {
        forall i | 0 <= i < |init| && IsSpace(init[i])
          ensures init[i] == ' '
        {
          assert init[i] == s[i];
        }
        forall i | 0 < i < |init|
          ensures !(IsSpace(init[i - 1]) && IsSpace(init[i]))
        {
          assert init[i - 1] == s[i - 1] && init[i] == s[i];
        }
      }
      StripFixes(init);
      assert Strip(s) == Strip(init) + Step(c, EndsWhite(init));
      assert Step(c, EndsWhite(init)) == [c] by {
        if IsSpace(c) {
          assert c == ' ';
          assert |s| > 1 ==> !IsSpace(s[|s| - 2]);
        }
      }
      assert s == init + [c];
    }
  }

  /** Compacting twice is compacting once. */
  lemma StripIdempotent(s: string)
    ensures Strip(Strip(s)) == Strip(s)
  {
    StripCompacts(s);
    StripFixes(Strip(s));
  }

  /** Compacting works run by run: it splits at any point that is not inside a
      run of whitespace. */
  lemma {:induction false} StripSplits(a: string, b: string)
    requires !EndsWhite(a) || b == [] || !IsSpace(b[0])
    ensures Strip(a + b) == Strip(a) + Strip(b)
    decreases |b|
  {
    if b == [] {
      assert a + b == a;
    } else {
      var n := |b| - 1;
      assert (a + b)[..|a + b| - 1] == a + b[..n] && (a + b)[|a + b| - 1] == b[n];
      if n == 0 {
        assert a + b[..n] == a;
        assert b[..n] == [];
      } else {
        StripSplits(a, b[..n]);
        assert EndsWhite(a + b[..n]) == EndsWhite(b[..n]);
      }
    }
  }

  /** A non-empty run of whitespace becomes exactly one ' '. */
  lemma {:induction false} StripRun(w: string)
    requires |w| > 0 && forall i :: 0 <= i < |w| ==> IsSpace(w[i])
    ensures Strip(w) == [' ']
  {
    if |w| > 1 {
      StripRun(w[..|w| - 1]);
    } else {
      assert w[..0] == [];
    }
  }

  /** A trailing newline is compacted into a space: "abc\n" becomes "abc ". */
  lemma StripExample()
    ensures Strip("abc\n") == "abc "
  {
    assert "abc" + "\n" == "abc\n";
    StripSplits("abc", "\n");
    StripFixes("abc");
    StripRun("\n");
  }

  // ---------------------------------------------------------------------------
  // Tags

  /** The tags joined by single spaces. */
  function Join(tags: seq<seq<byte>>): seq<byte> {
    if |tags| == 0 then []
    else if |tags| == 1 then tags[0]
    else Join(tags[..|tags| - 1]) + [SP] + tags[|tags| - 1]
  }

  /** "[" + the joined tags + "] ", or nothing for no tags. */
  function TagsField(tags: seq<seq<byte>>): seq<byte> {
    if |tags| == 0 then [] else [LBracket] + Join(tags) + [RBracket, SP]
  }

  /** The index of the last space in s. */
  function LastSpace(s: seq<byte>): (k: nat)
    requires SP in s
    ensures k < |s| && s[k] == SP && forall j :: k < j < |s| ==> s[j] != SP
  {
    if s[|s| - 1] == SP then |s| - 1
    else
      LastSpace(s[..|s| - 1])
  }

  /** The fields of s between single spaces (strings.Split(s, " ")). */
  function Split(s: seq<byte>): seq<seq<byte>>
    decreases |s|
  {
    if SP !in s then [s]
    else
      var k := LastSpace(s);
      Split(s[..k]) + [s[k + 1..]]
  }

  lemma JoinStep(tags: seq<seq<byte>>, i: nat)
    requires i < |tags|
    ensures Join(tags[..i + 1]) == if i == 0 then tags[0] else Join(tags[..i]) + [SP] + tags[i]
  {
    assert tags[..i + 1][..i] == tags[..i];
  }

  /** The last space of a + " " + b, when b holds none, is the one after a. */
  lemma {:induction false} LastSpaceBefore(a: seq<byte>, b: seq<byte>)
    requires SP !in b
    ensures LastSpace(a + [SP] + b) == |a|
    decreases |b|
  {
    var s := a + [SP] + b;
    if b != [] {
      var n := |b| - 1;
      assert s[|s| - 1] == b[n];
      assert s[..|s| - 1] == a + [SP] + b[..n];
      assert SP !in b[..n] by {
        assert forall x :: x in b[..n] ==> x in b;
      }
      LastSpaceBefore(a, b[..n]);
    }
  }

  /** Joined tags split back into the same tags when no tag holds a space (an
      empty tag included). */
  lemma {:induction false} SplitJoin(tags: seq<seq<byte>>)
    requires |tags| > 0 && forall j :: 0 <= j < |tags| ==> SP !in tags[j]
    ensures Split(Join(tags)) == tags
  {
    var n := |tags| - 1;
    if n > 0 {
      var init := tags[..n];
      SplitJoin(init);
      var s := Join(tags);
      assert s == Join(init) + [SP] + tags[n];
      LastSpaceBefore(Join(init), tags[n]);
      var k := LastSpace(s);
      assert s[..k] == Join(init) && s[k + 1..] == tags[n];
      assert init + [tags[n]] == tags;
    } else {
      assert [tags[0]] == tags;
    }
  }

  /** No tags leave no brackets; n > 0 tags without spaces in them give "[",
      fields that split back into the tags, then "] ". */
  lemma TagsFieldShape(tags: seq<seq<byte>>)
    requires forall j :: 0 <= j < |tags| ==> SP !in tags[j]
    ensures |tags| == 0 <==> TagsField(tags) == []
    ensures var r := TagsField(tags);
      |tags| > 0 ==>
        |r| >= 3 && r[0] == LBracket && r[|r| - 2..] == [RBracket, SP] && Split(r[1..|r| - 2]) == tags
  {
    if |tags| > 0 {
      SplitJoin(tags);
      var r := TagsField(tags);
      assert r[1..|r| - 2] == Join(tags);
    }
  }

  /** The tags "a" and "b" give "[a b] ". */
  lemma TagsExample()
    ensures TagsField([Ascii("a"), Ascii("b")]) == Ascii("[a b] ")
  {
    var tags := [Ascii("a"), Ascii("b")];
    assert tags[..1] == [Ascii("a")];
  }

  /** The tag loop: each tag, with a space after every one but the last, between
      "[" and "] ". */
  method AppendTags(buf: Buffer, tags: seq<seq<byte>>)
    modifies buf
    ensures buf.data == old(buf.data) + TagsField(tags)
  {
    if |tags| != 0 {
      buf.WriteByte(LBracket);
      var i := 0;
      // buf.data == old(buf.data) + [LBracket] + f throughout
      ghost var f: seq<byte> := [];
      while i < |tags|
        invariant 0 <= i <= |tags|
        invariant f == Join(tags[..i]) + (if 0 < i < |tags| then [SP] else [])
        invariant buf.data == old(buf.data) + [LBracket] + f
      {
        JoinStep(tags, i);
        buf.Write(tags[i]);
        Assoc(old(buf.data) + [LBracket], f, tags[i]);
        f := f + tags[i];
        if i == 0 {
          assert f == Join(tags[..1]);
        }
        if i < |tags| - 1 {
          buf.WriteByte(SP);
          Assoc(old(buf.data) + [LBracket], f, [SP]);
          f := f + [SP];
        } else {
          AppendEmpty(f);
        }
        i := i + 1;
      }
      assert tags[..|tags|] == tags;
      buf.Write([RBracket, SP]);
      Assoc(old(buf.data) + [LBracket], f, [RBracket, SP]);
      Assoc(old(buf.data), [LBracket] + f, [RBracket, SP]);
      Assoc(old(buf.data), [LBracket], f);
    } else {
      AppendEmpty(buf.data);
    }
  }

  // ---------------------------------------------------------------------------
  // Numbers and the time and file fields

  /** itoaBuf: the same backwards loop as log.go's itoa over a 20-byte array, but
      it writes the whole array, so the digits come after 20 - n zero bytes. */
  method ItoaBuf(buf: Buffer, i: int, wid: int)
    requires Int64(i) && wid <= 20
    modifies buf
    ensures buf.data == old(buf.data) + Num(WholeArray, i, wid)
  {
    var b := new byte[20](_ => 0);
    var bp := 19;
    var n, w := i, wid;
    ghost var tail: seq<byte> := [];
    ItoaFits(i, wid);
    while n >= 10 || w > 1
      invariant 0 <= bp <= 19 && |tail| == 19 - bp
      invariant forall j :: 0 <= j <= bp ==> b[j] == 0
      invariant forall j :: bp < j < 20 ==> b[j] == tail[j - bp - 1]
      invariant |ItoaBytes(n, w)| <= bp + 1
      invariant ItoaBytes(n, w) + tail == ItoaBytes(i, wid)
      modifies b
      decreases bp
    {
      ItoaStep(n, w);
      var q := Quo10(n);
      var d := ByteOf(48 + n - q * 10);
      Assoc(ItoaBytes(q, w - 1), [d], tail);
      b[bp] := d;
      tail := [d] + tail;
      w := w - 1;
      bp := bp - 1;
      n := q;
    }
    b[bp] := ByteOf(48 + n);
    assert ItoaBytes(n, w) == [b[bp]];
    assert |ItoaBytes(i, wid)| == 20 - bp;
    assert b[..] == Nuls(bp) + ItoaBytes(i, wid);
    buf.Write(b[..]);
  }

  /** The date part of the time section, through itoaBuf. */
  method AppendDate(buf: Buffer, c: Civil)
    requires c.WellFormed()
    modifies buf
    ensures buf.data == old(buf.data) + DateField(WholeArray, c)
  {
    DateFieldBytes(WholeArray, c);
    ghost var start := buf.data;
    // f is the part of the field written so far: buf.data == start + f throughout.
    ghost var f := Num(WholeArray, c.year, 4);
    ItoaBuf(buf, c.year, 4);
    buf.WriteByte(Slash);
    Assoc(start, f, [Slash]);
    f := f + [Slash];
    ItoaBuf(buf, c.month, 2);
    Assoc(start, f, Num(WholeArray, c.month, 2));
    f := f + Num(WholeArray, c.month, 2);
    buf.WriteByte(Slash);
    Assoc(start, f, [Slash]);
    f := f + [Slash];
    ItoaBuf(buf, c.day, 2);
    Assoc(start, f, Num(WholeArray, c.day, 2));
    f := f + Num(WholeArray, c.day, 2);
    buf.WriteByte(SP);
    Assoc(start, f, [SP]);
  }

  /** The clock part of the time section, with microseconds when asked. */
  method AppendClock(buf: Buffer, c: Civil, micro: bool)
    requires c.WellFormed()
    modifies buf
    ensures buf.data == old(buf.data) + ClockField(WholeArray, c, micro)
  {
    ClockFieldBytes(WholeArray, c, micro);
    ghost var start := buf.data;
    // f is the part of the field written so far: buf.data == start + f throughout.
    ghost var f := Num(WholeArray, c.hour, 2);
    ItoaBuf(buf, c.hour, 2);
    buf.WriteByte(Colon);
    Assoc(start, f, [Colon]);
    f := f + [Colon];
    ItoaBuf(buf, c.min, 2);
    Assoc(start, f, Num(WholeArray, c.min, 2));
    f := f + Num(WholeArray, c.min, 2);
    buf.WriteByte(Colon);
    Assoc(start, f, [Colon]);
    f := f + [Colon];
    ItoaBuf(buf, c.sec, 2);
    Assoc(start, f, Num(WholeArray, c.sec, 2));
    f := f + Num(WholeArray, c.sec, 2);
    ghost var s := f;
    if micro {
      buf.WriteByte(Dot);
      Assoc(start, f, [Dot]);
      f := f + [Dot];
      ItoaBuf(buf, c.nsec / 1000, 6);
      Assoc(start, f, Num(WholeArray, c.nsec / 1000, 6));
      f := f + Num(WholeArray, c.nsec / 1000, 6);
      Assoc(s, [Dot], Num(WholeArray, c.nsec / 1000, 6));
    } else {
      assert f == s + [];
    }
    buf.WriteByte(SP);
    Assoc(start, f, [SP]);
  }

  /** The time section under the flag tests, in UTC under LUTC. */
  method AppendTime(buf: Buffer, flags: int, t: Instant)
    requires t.WellFormed()
    modifies buf
    ensures buf.data == old(buf.data) + TimeFields(WholeArray, flags, t)
  {
    ghost var start := buf.data;
    if Has(flags, Ldate) || Has(flags, Ltime) || Has(flags, Lmicroseconds) || Has(flags, LUTC) {
      var c := if Has(flags, LUTC) then t.utc else t.local;
      if Has(flags, Ldate) || Has(flags, Ltime) || Has(flags, Lmicroseconds) {
        ghost var date: seq<byte> := [];
        if Has(flags, Ldate) {
          AppendDate(buf, c);
          date := DateField(WholeArray, c);
        } else {
          AppendEmpty(start);
        }
        ghost var clock: seq<byte> := [];
        if Has(flags, Ltime) || Has(flags, Lmicroseconds) {
          AppendClock(buf, c, Has(flags, Lmicroseconds));
          clock := ClockField(WholeArray, c, Has(flags, Lmicroseconds));
        } else {
          AppendEmpty(buf.data);
        }
        Assoc(start, date, clock);
      } else {
        AppendEmpty(start);
      }
    } else {
      AppendEmpty(start);
    }
  }

  /** The file section: the caller's file (its last element under Lshortfile),
      ':', the line through itoaBuf and a space. */
  method AppendFile(buf: Buffer, flags: int, caller: Option<Caller>)
    requires Resolvable(caller)
    modifies buf
    ensures buf.data == old(buf.data) + FileField(WholeArray, flags, caller)
  {
    ghost var start := buf.data;
    if Has(flags, Lshortfile) || Has(flags, Llongfile) {
      var file, lineNo := CallerFile(caller), CallerLine(caller);
      if Has(flags, Lshortfile) {
        file := TrimToShort(file);
      }
      ghost var n := Num(WholeArray, lineNo, -1);
      buf.Write(file);
      buf.WriteByte(Colon);
      Assoc(start, file, [Colon]);
      ItoaBuf(buf, lineNo, -1);
      Assoc(start, file + [Colon], n);
      buf.WriteByte(SP);
      Assoc(start, file + [Colon] + n, [SP]);
    } else {
      AppendEmpty(start);
    }
  }

  // ---------------------------------------------------------------------------
  // The appender

  /** The message as written: compacted under Lcompact, verbatim otherwise. */
  function Body(flags: int, line: string): seq<byte> {
    if Has(flags, Lcompact) then Utf8(Strip(line)) else Utf8(line)
  }

  /** The bytes one Append writes: time section, level and a space, prefix field,
      tag field, file section, the message, and a newline when the ORIGINAL line
      does not end in one. */
  function Line(flags: int, level: seq<byte>, prefix: seq<byte>, tags: seq<seq<byte>>,
                line: string, t: Instant, caller: Option<Caller>): seq<byte>
  {
    TimeFields(WholeArray, flags, t) + level + [SP] + PrefixField(prefix) + TagsField(tags) +
    FileField(WholeArray, flags, caller) + Body(flags, line) + Newline(Utf8(line))
  }

  /** The time section, the level and a space, and the prefix field, into an
      empty buffer. */
  method FillHead(buf: Buffer, flags: int, level: seq<byte>, prefix: seq<byte>, t: Instant)
    requires buf.data == [] && t.WellFormed()
    modifies buf
    ensures buf.data == TimeFields(WholeArray, flags, t) + level + [SP] + PrefixField(prefix)
  {
    AppendTime(buf, flags, t);
    AppendEmpty(TimeFields(WholeArray, flags, t));
    buf.Write(level);
    buf.WriteByte(SP);
    ghost var head := buf.data;
    if |prefix| > 0 {
      buf.Write(prefix);
      buf.WriteByte(SP);
      Assoc(head, prefix, [SP]);
    } else {
      AppendEmpty(head);
    }
  }

  /** The body of Append between taking the buffer and writing it out: the line,
      field by field, into an empty buffer. */
  method Fill(buf: Buffer, flags: int, level: seq<byte>, prefix: seq<byte>, line: string,
              tags: seq<seq<byte>>, t: Instant, caller: Option<Caller>)
    requires buf.data == [] && t.WellFormed() && Resolvable(caller)
    modifies buf
    ensures buf.data == Line(flags, level, prefix, tags, line, t, caller)
  {
    FillHead(buf, flags, level, prefix, t);
    AppendTags(buf, tags);
    AppendFile(buf, flags, caller);
    if Has(flags, Lcompact) {
      StripBuf(buf, line);
    } else {
      buf.Write(Utf8(line));
    }
    var bytes := Utf8(line);
    if |bytes| == 0 || bytes[|bytes| - 1] != NL {
      buf.WriteByte(NL);
    } else {
      AppendEmpty(buf.data);
    }
  }

  class BufferAppender {
    const output: Writer
    const flags: int
    /** The buffers returned to the pool and not yet taken again. */
    var pool: seq<Buffer>

    /** Every pooled buffer is empty. */
    ghost predicate Valid()
      reads this, pool
    {
      forall k :: 0 <= k < |pool| ==> pool[k].data == []
    }

    /** NewBufferAppender. */
    constructor (output: Writer, flags: int)
      ensures this.output == output && this.flags == flags && pool == [] && Valid()
    {
      this.output := output;
      this.flags := flags;
      pool := [];
    }

    /** Takes an empty buffer from the pool (a new one when the pool has none),
        writes the line into it, hands it to the output in one WriteTo, and returns
        it reset to the pool. The clock reading and the caller location are the
        inputs time.Now and runtime.Caller would supply. */
    method Append(level: seq<byte>, prefix: seq<byte>, line: string, tags: seq<seq<byte>>,
                  t: Instant, caller: Option<Caller>)
      requires Valid() && t.WellFormed() && Resolvable(caller)
      modifies this, output, pool
      ensures Valid()
      ensures output.writes == old(output.writes) + [Line(flags, level, prefix, tags, line, t, caller)]
    {
      var buf: Buffer;
      if |pool| == 0 {
        buf := new Buffer();
      } else {
        buf := pool[|pool| - 1];
        pool := pool[..|pool| - 1];
      }
      Fill(buf, flags, level, prefix, line, tags, t, caller);
      buf.WriteTo(output);
      buf.Reset();
      pool := pool + [buf];
    }
  }

  /** With no time, file or compact flag and no tags, Append writes exactly the
      line log.go's output writes for the same level, prefix and message. */
  lemma SameLayoutAsLogger(flags: int, level: seq<byte>, prefix: seq<byte>, line: string,
                           t: Instant, caller: Option<Caller>)
    requires !Has(flags, Ldate) && !Has(flags, Ltime) && !Has(flags, Lmicroseconds)
    requires !Has(flags, Lshortfile) && !Has(flags, Llongfile) && !Has(flags, Lcompact)
    ensures Line(flags, level, prefix, [], line, t, caller) ==
      Logger.Line(flags, level, prefix, t, caller, Utf8(line))
  {
    assert TimeFields(WholeArray, flags, t) == [] == TimeFields(Trimmed, flags, t);
    assert FileField(WholeArray, flags, caller) == [] == FileField(Trimmed, flags, caller);
    assert TagsField([]) == [];
  }

  /** In compact mode a line ending in '\n' ends in ' ' instead: the newline is
      compacted into a space, and the newline test, made on the original line,
      adds none. */
  lemma CompactDropsFinalNewline(flags: int, level: seq<byte>, prefix: seq<byte>,
                                 tags: seq<seq<byte>>, line: string, t: Instant, caller: Option<Caller>)
    requires Has(flags, Lcompact) && |line| > 0 && line[|line| - 1] == '\n'
    ensures var r := Line(flags, level, prefix, tags, line, t, caller);
      |r| > 0 && r[|r| - 1] == SP
  {
    Utf8EndsInNewline(line);
    assert Newline(Utf8(line)) == [];
    var st := Strip(line);
    StripCompacts(line);
    assert st[|st| - 1] == ' ';
    Utf8Last(st);
    Utf8Single(' ');
  }

  /** In compact mode with no other flag, no prefix and no tags, the line is the
      level, a space, the compacted message and the newline rule on the original
      message. */
  lemma CompactBareLine(level: seq<byte>, line: string, t: Instant, caller: Option<Caller>)
    ensures Line(Lcompact, level, [], [], line, t, caller) ==
      level + [SP] + Utf8(Strip(line)) + Newline(Utf8(line))
  {
    assert !Has(Lcompact, Ldate) && !Has(Lcompact, Ltime) && !Has(Lcompact, Lmicroseconds);
    assert !Has(Lcompact, LUTC) && !Has(Lcompact, Llongfile) && !Has(Lcompact, Lshortfile);
    var time := TimeFields(WholeArray, Lcompact, t);
    var file := FileField(WholeArray, Lcompact, caller);
    var body := Body(Lcompact, line);
    var nl := Newline(Utf8(line));
    assert time == [] && file == [];
    assert PrefixField([]) == [] && TagsField([]) == [];
    assert body == Utf8(Strip(line)) by {
      assert Has(Lcompact, Lcompact);
    }
    var head := level + [SP];
    AppendEmpty(head);
    assert time + level + [SP] == head by {
      Assoc([], level, [SP]);
    }
    AppendEmpty(head + []);
  }

  /** "abc\n" in compact mode, with no other flag, no prefix and no tags, is
      written as the level, a space and "abc " with no newline. */
  lemma CompactExample(level: seq<byte>, t: Instant, caller: Option<Caller>)
    ensures Line(Lcompact, level, [], [], "abc\n", t, caller) == level + [SP] + Ascii("abc ")
  {
    var line := "abc\n";
    CompactBareLine(level, line, t, caller);
    Utf8EndsInNewline(line);
    StripExample();
    AsciiUtf8("abc ");
    AppendEmpty(level + [SP] + Ascii("abc "));
  }
}
