/** The byte sinks the wrappers write to: the child's stdin, the wrapper's
    stdout, a Go `io.Writer`. A write either delivers all its bytes or, once
    the reading end is gone, fails and delivers none. */
module Streams {
  import opened Framing

  class Pipe {
    /** Every byte delivered so far, in order. */
    var written: seq<byte>
    /** Whether the reading end still accepts bytes. */
    var open: bool

    constructor (open: bool)
      ensures written == [] && this.open == open
    {
      written := [];
      this.open := open;
    }

    method Write(data: seq<byte>) returns (ok: bool)
      modifies this
      ensures open == old(open) && ok == open
      ensures written == if ok then old(written) + data else old(written)
    {
      ok := open;
      if ok {
        written := written + data;
      }
    }
  }
}
