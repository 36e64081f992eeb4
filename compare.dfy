/** Where the two decoders agree and where they part: on one frame per
    chunk they deliver the same bytes and end in the same state; on two
    frames in one chunk, a `Z` right after a frame, or a stray byte between
    frames, they do not. */
module Compare {
  import opened Framing
  import Wp
  import Wrappipe

  /** Inside a frame the two transition tables are the same table. */
  lemma InFrameStepsAgree(st: State, b: byte)
    requires st != Idle
    ensures Wp.Next(st, b).Invalid? <==> Wrappipe.LoopStep(st, b).InvalidEscape?
    ensures Wp.Next(st, b).Advance? ==>
      Wrappipe.LoopStep(st, b) == Wrappipe.Continue(Wp.Next(st, b).next, Wp.Next(st, b).emit)
  {
  }

  /** One frame in one chunk: both decoders deliver its payload and return
      to the state between frames; neither sees an error or the end. */
  lemma AgreeOnFrame(b: seq<byte>, c: nat)
    ensures var r, g := Wp.Scan(Idle, c, Frame(b)), Wrappipe.PlanWrite(Idle, Frame(b));
      && r.stop.Running? && g.Deliver?
      && r.out == g.out == b
      && r.state == g.state == Idle
  {
    Wp.RoundTrip(b, c);
    Wrappipe.GoRoundTrip(b, []);
    assert Frame(b) + [] == Frame(b);
  }

  /** Two frames in one chunk: the Rust decoder delivers both payloads, the
      Go decoder only the first, because its loop drops every byte it meets
      between frames. */
  lemma TwoFramesInOneChunk(a: seq<byte>, b: seq<byte>, c: nat)
    ensures var x := Frame(a) + Frame(b);
      && Wp.Scan(Idle, c, x) == Wp.ScanResult(Idle, c + |x|, a + b, Wp.Running)
      && Wrappipe.PlanWrite(Idle, x) == Wrappipe.Deliver(Idle, a, 1)
  {
    Wp.RunAppend(Idle, c, Frame(a), Frame(b), []);
    Wp.RunFrame(a, c, []);
    Wp.RunFrame(b, c + |Frame(a)|, [] + a);
    assert [] + a == a;
    Wrappipe.GoRoundTrip(a, Frame(b));
  }

  /** So the two differ on such a chunk exactly when the second payload is
      not empty. */
  lemma TwoFramesDiffer(a: seq<byte>, b: seq<byte>, c: nat)
    ensures var x := Frame(a) + Frame(b); var g := Wrappipe.PlanWrite(Idle, x);
      g.Deliver? && (Wp.Scan(Idle, c, x).out == g.out <==> b == [])
  {
    TwoFramesInOneChunk(a, b, c);
    if b != [] {
      assert |a + b| > |a|;
    } else {
      assert a + b == a;
    }
  }

  /** A `Z` in the same chunk as the frame before it: the Rust decoder stops
      with the end of transmission seen, the Go decoder drops the `Z` and
      never records success. */
  lemma TrailingEof(b: seq<byte>, c: nat)
    ensures var x := Frame(b) + [EOF];
      && Wp.Scan(Idle, c, x) == Wp.ScanResult(Idle, c + |x|, b, Wp.EofSeen)
      && Wrappipe.PlanWrite(Idle, x) == Wrappipe.Deliver(Idle, b, 1)
  {
    Wp.RunAppend(Idle, c, Frame(b), [EOF], []);
    Wp.RunFrame(b, c, []);
    assert [] + b == b;
    Wrappipe.GoRoundTrip(b, [EOF]);
  }

  /** A chunk that starts between frames with a byte other than `<` or `Z`:
      the Rust decoder reports bad input at that byte, the Go decoder drops
      the whole chunk and reports it consumed. */
  lemma StrayByte(x: byte, rest: seq<byte>, c: nat)
    requires x != SOB && x != EOF
    ensures Wp.Scan(Idle, c, [x] + rest).stop == Wp.Malformed(c)
    ensures Wrappipe.PlanWrite(Idle, [x] + rest) == Wrappipe.Deliver(Idle, [], 0)
  {
    assert ([x] + rest)[0] == x;
    Wrappipe.StrayFirstByte([x] + rest);
  }
}
