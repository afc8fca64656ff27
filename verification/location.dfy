/** Caller locations: what runtime.Caller reports, and the two ways the variants
    shorten a file path. */
module Location {
  import opened Bytes
  import opened Decimal
  import opened Wrappers

  /** A resolved caller: source file path and line number. runtime.Caller's `ok ==
      false` is the None of an Option<Caller>. */
  datatype Caller = Caller(file: seq<byte>, line: int)

  /** A location whose line number is a Go int. */
  predicate Resolvable(caller: Option<Caller>) {
    caller.Some? ==> Int64(caller.value.line)
  }

  /** The placeholder file name written when the caller is unavailable: "???". */
  const Unknown: seq<byte> := [63, 63, 63]

  /** The largest index k with 0 < k <= i and file[k] == '/', or 0 when there is none. */
  function LastSlash(file: seq<byte>, i: int): (k: nat)
    requires i < |file|
    ensures k == 0 || (0 < k <= i && file[k] == Slash)
    ensures forall j :: k < j <= i ==> file[j] != Slash
    decreases i
  {
    if i <= 0 then 0 else if file[i] == Slash then i else LastSlash(file, i - 1)
  }

  /** Short-file mode: the text after the last '/' found at an index greater than 0;
      the whole path when there is none (a leading '/' alone is kept). */
  function ShortName(file: seq<byte>): seq<byte>
  {
    var k := LastSlash(file, |file| - 1);
    if k == 0 then file else file[k + 1..]
  }

  /** The short name is a suffix of the path: all of it when no '/' stands at an
      index above 0, and otherwise exactly what follows the last such '/', which
      itself holds no '/'. */
  lemma ShortNameIsLastElement(file: seq<byte>)
    ensures var r := ShortName(file);
      |r| <= |file| && r == file[|file| - |r|..] &&
      ((forall j :: 0 < j < |file| ==> file[j] != Slash) ==> r == file) &&
      ((exists j :: 0 < j < |file| && file[j] == Slash) ==>
        0 < |file| - |r| - 1 && file[|file| - |r| - 1] == Slash && Slash !in r)
  {
    var k := LastSlash(file, |file| - 1);
    if k > 0 {
      var r := file[k + 1..];
      assert forall j :: 0 <= j < |r| ==> r[j] == file[k + 1 + j];
    }
  }

  /** The search loop log.go and buf_appender.go run over the path, backwards from
      its last byte down to index 1. */
  method TrimToShort(file: seq<byte>) returns (short: seq<byte>)
    ensures short == ShortName(file)
  {
    ShortNameIsLastElement(file);
    short := file;
    var i := |file| - 1;
    while i > 0
      invariant -1 <= i <= |file| - 1
      invariant short == file
      invariant forall j :: i < j < |file| && 0 <= j ==> file[j] != Slash
    {
      if file[i] == Slash {
        short := file[i + 1..];
        break;
      }
      i := i - 1;
    }
  }

  /** The path with every trailing '/' removed. */
  function TrimTrailingSlashes(p: seq<byte>): (r: seq<byte>)
    ensures |r| <= |p| && r == p[..|r|]
    ensures |r| > 0 ==> r[|r| - 1] != Slash
    ensures forall j :: |r| <= j < |p| ==> p[j] == Slash
  {
    if |p| > 0 && p[|p| - 1] == Slash then TrimTrailingSlashes(p[..|p| - 1]) else p
  }

  /** The bytes after the last '/' (all of p when it has none). */
  function AfterLastSlash(p: seq<byte>): (r: seq<byte>)
    ensures |r| <= |p| && r == p[|p| - |r|..] && Slash !in r
    ensures |r| < |p| ==> p[|p| - |r| - 1] == Slash
  {
    if |p| == 0 then p
    else if p[|p| - 1] == Slash then []
    else AfterLastSlash(p[..|p| - 1]) + [p[|p| - 1]]
  }

  /** Go's path/filepath.Base for '/'-separated paths, as its documentation states
      it: "." for the empty path, "/" for a path of slashes only, otherwise the last
      element after trailing slashes are removed. */
  function Base(p: seq<byte>): (r: seq<byte>)
    ensures |r| > 0
    ensures Slash in r ==> r == [Slash]
    ensures p == [] ==> r == [Dot]
    ensures p != [] && (forall j :: 0 <= j < |p| ==> p[j] == Slash) ==> r == [Slash]
    ensures (exists j :: 0 <= j < |p| && p[j] != Slash) ==>
      Slash !in r &&
      exists i, k :: 0 <= i < k <= |p| && r == p[i..k] && (i == 0 || p[i - 1] == Slash) &&
        forall j :: k <= j < |p| ==> p[j] == Slash
  {
    if p == [] then [Dot]
    else
      var t := TrimTrailingSlashes(p);
      var e := AfterLastSlash(t);
      if e == [] then
        assert t == [];
        [Slash]
      else
        assert e == p[|t| - |e|..|t|];
        e
  }
}
