/** The byte sink every variant writes to (Go's io.Writer). Only the sequence of
    Write calls it receives is observable; write errors are ignored by every caller
    in the logging code, so the sink has no error path. */
module Sink {
  import opened Bytes

  class Writer {
    /** One entry per Write call, in call order. */
    ghost var writes: seq<seq<byte>>

    constructor ()
      ensures writes == []
    {
      writes := [];
    }

    method Write(p: seq<byte>)
      modifies this
      ensures writes == old(writes) + [p]
    {
      writes := writes + [p];
    }
  }
}
