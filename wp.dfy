/** The Rust wrapper `wp`: its streaming decoder `Decapper`, its encoder
    `encap`, the loops of its two worker threads over a sequence of chunks,
    and the rule that turns the child's wait status into the wrapper's exit
    code and the permission to send the end-of-transmission marker. */
module Wp {
  import opened Framing
  import opened Streams

  /** What one scanned byte does to the decoder. */
  datatype Move = Advance(next: State, emit: seq<byte>) | EndOfTransmission | Invalid

  /** The transition table of `Decapper::add`. */
  function Next(st: State, b: byte): (m: Move)
    ensures m.Advance? ==> |m.emit| <= 1
    ensures m.EndOfTransmission? <==> st == Idle && b == EOF
    ensures m.Invalid? <==> (st == Idle && b != EOF && b != SOB) || (st == DataEsc && !Completion(b))
    ensures m.Advance? && m.next == Idle ==> st == Data && b == EOB && m.emit == []
  {
    match st
    case Idle =>
      if b == EOF then EndOfTransmission
      else if b == SOB then Advance(Data, [])
      else Invalid
    case Data =>
      if b == EOB then Advance(Idle, [])
      else if b == ESC then Advance(DataEsc, [])
      else Advance(Data, [b])
    case DataEsc =>
      if b == EESC then Advance(Data, [ESC])
      else if b == ESOB then Advance(Data, [SOB])
      else if b == EEOB then Advance(Data, [EOB])
      else Invalid
  }

  /** How a scan of a chunk, or a whole session, ended. `Malformed` carries
      the index the decoder reports for the offending byte. */
  datatype Stop = Running | EofSeen | Malformed(index: nat) | WriteFailed

  /** The decoder after a scan, with the bytes decoded on the way. */
  datatype ScanResult = ScanResult(state: State, count: nat, out: seq<byte>, stop: Stop)

  /** The decoder run over the bytes `x` of a chunk whose earlier bytes
      decoded to `acc`, byte by byte through `Next`, until `Z` between
      frames, an invalid byte or the end of the chunk (see RunBounds). */
  function Run(st: State, count: nat, x: seq<byte>, acc: seq<byte>): ScanResult
    decreases |x|
  {
    if x == [] then ScanResult(st, count, acc, Running)
    else
      match Next(st, x[0])
      case Invalid => ScanResult(st, count + 1, acc, Malformed(count))
      case EndOfTransmission => ScanResult(st, count + 1, acc, EofSeen)
      case Advance(st', e) => Run(st', count + 1, x[1..], acc + e)
  }

  /** The decoder run over one whole chunk. */
  function Scan(st: State, count: nat, x: seq<byte>): ScanResult {
    Run(st, count, x, [])
  }

  /** The bytes `add` hands to the child's stdin after scanning to `s`:
      nothing on bad input, nothing through a closed pipe. */
  function Delivered(s: ScanResult, open: bool): seq<byte> {
    if s.stop.Malformed? || !open then [] else s.out
  }

  /** What `add` returns after scanning to `s`: `None` on bad input or a
      failed write, otherwise `Some` of whether `Z` was seen. A chunk that
      decodes to nothing performs no write and so cannot fail one. */
  function Verdict(s: ScanResult, open: bool): (v: Option<bool>)
    ensures v == None <==> s.stop.Malformed? || (!open && s.out != [])
    ensures v == Some(true) ==> s.stop.EofSeen?
    ensures v != None ==> v == Some(s.stop.EofSeen?)
  {
    if s.stop.Malformed? then None
    else if s.out == [] || open then Some(s.stop.EofSeen?)
    else None
  }

  class Decapper {
    var state: State
    var count: nat

    constructor ()
      ensures state == Idle && count == 0
    {
      state := Idle;
      count := 0;
    }

    /** Scans chunk `x`, writes what it decoded to `next` and reports
        whether to carry on (`Some(false)`), whether `Z` was seen
        (`Some(true)`), or whether the session must stop (`None`). */
    method Add(next: Pipe, x: seq<byte>) returns (r: Option<bool>)
      modifies this, next
      ensures var s := Scan(old(state), old(count), x);
        && state == s.state && count == s.count
        && r == Verdict(s, old(next.open))
        && next.open == old(next.open)
        && next.written == old(next.written) + Delivered(s, old(next.open))
    {
      ghost var whole := Scan(state, count, x);
      var out: seq<byte> := [];
      var ret := false;
      var i := 0;
      while i < |x|
        invariant 0 <= i <= |x| && !ret
        invariant whole == Run(state, count, x[i..], out)
        invariant next.written == old(next.written) && next.open == old(next.open)
      {
        var ch := x[i];
        assert x[i..][0] == ch && x[i..][1..] == x[i + 1..];
        assert out + [] == out;
        count := count + 1;
        match state {
          case Idle =>
            if ch == EOF {
              ret := true;
              break;
            } else if ch == SOB {
              state := Data;
            } else {
              return None;
            }
          case Data =>
            if ch == EOB {
              state := Idle;
            } else if ch == ESC {
              state := DataEsc;
            } else {
              out := out + [ch];
            }
          case DataEsc =>
            if ch == EESC {
              out := out + [ESC];
              state := Data;
            } else if ch == ESOB {
              out := out + [SOB];
              state := Data;
            } else if ch == EEOB {
              out := out + [EOB];
              state := Data;
            } else {
              return None;
            }
        }
        i := i + 1;
      }
      if |out| == 0 {
        return Some(ret);
      }
      var ok := next.Write(out);
      if ok {
        return Some(ret);
      }
      return None;
    }
  }

  /** A whole input session, continuing one that already delivered `acc`:
      chunk after chunk handed to `add` until it reports `Z` or bad input or
      the chunks run out. `out` is what reached the child's stdin; `Running`
      means the input ended before `Z`. */
  function FeedFrom(st: State, count: nat, cs: seq<seq<byte>>, open: bool, acc: seq<byte>): ScanResult
    decreases |cs|
  {
    if cs == [] then ScanResult(st, count, acc, Running)
    else
      var s := Scan(st, count, cs[0]);
      var d := acc + Delivered(s, open);
      match Verdict(s, open)
      case Some(false) => FeedFrom(s.state, s.count, cs[1..], open, d)
      case Some(true) => s.(out := d)
      case None => s.(out := d, stop := if s.stop.Malformed? then s.stop else WriteFailed)
  }

  /** A whole input session from its first chunk. */
  function Feed(st: State, count: nat, cs: seq<seq<byte>>, open: bool): ScanResult {
    FeedFrom(st, count, cs, open, [])
  }

  /** The input thread's loop: feed each chunk read from the wrapper's stdin
      to the decoder and forward the decoded bytes to the child. The chunks
      are the reads before the zero-length one that ends the loop, so none
      is empty. It returns true only when `Z` was seen; any other ending is
      the kill path. */
  method Pump(dec: Decapper, chunks: seq<seq<byte>>, childIn: Pipe) returns (clean: bool)
    requires forall k | 0 <= k < |chunks| :: chunks[k] != []
    modifies dec, childIn
    ensures var f := Feed(old(dec.state), old(dec.count), chunks, old(childIn.open));
      && clean == f.stop.EofSeen?
      && dec.state == f.state && dec.count == f.count
      && childIn.open == old(childIn.open)
      && childIn.written == old(childIn.written) + f.out
  {
    ghost var whole := FeedFrom(dec.state, dec.count, chunks, childIn.open, childIn.written);
    FeedAcc(dec.state, dec.count, chunks, childIn.open, childIn.written);
    var k := 0;
    while k < |chunks|
      invariant 0 <= k <= |chunks|
      invariant childIn.open == old(childIn.open)
      invariant whole == FeedFrom(dec.state, dec.count, chunks[k..], childIn.open, childIn.written)
    {
      assert chunks[k..][0] == chunks[k] && chunks[k..][1..] == chunks[k + 1..];
      var r := dec.Add(childIn, chunks[k]);
      if r == Some(true) {
        return true;
      } else if r == None {
        return false;
      }
      k := k + 1;
    }
    return false;
  }

  /** A session that already delivered `acc` goes on as a fresh one would. */
  lemma {:induction false} FeedAcc(st: State, c: nat, cs: seq<seq<byte>>, open: bool, acc: seq<byte>)
    ensures var f := Feed(st, c, cs, open);
      FeedFrom(st, c, cs, open, acc) == f.(out := acc + f.out)
    decreases |cs|
  {
    if cs != [] {
      var s := Scan(st, c, cs[0]);
      var d := Delivered(s, open);
      assert [] + d == d;
      if Verdict(s, open) == Some(false) {
        FeedAcc(s.state, s.count, cs[1..], open, acc + d);
        FeedAcc(s.state, s.count, cs[1..], open, d);
        AppendAssoc(acc, d, Feed(s.state, s.count, cs[1..], open).out);
      }
    }
  }

  /** The encoder `encap`: the frame for one chunk of the child's output. */
  method Encap(inp: seq<byte>) returns (out: seq<byte>)
    ensures out == Frame(inp)
    ensures |inp| + 2 <= |out| <= 2 * |inp| + 2
    ensures out[0] == SOB && out[|out| - 1] == EOB
  {
    out := [SOB];
    var i := 0;
    while i < |inp|
      invariant 0 <= i <= |inp|
      invariant out == [SOB] + Escape(inp[..i])
    {
      var ch := inp[i];
      assert Escape(inp[..i + 1]) == Escape(inp[..i]) + Stuff(ch) by {
        EscapeAppend(inp[..i], [ch]);
        assert inp[..i + 1] == inp[..i] + [ch];
      }
      AppendAssoc([SOB], Escape(inp[..i]), Stuff(ch));
      if ch == ESC {
        out := out + [ESC, EESC];
      } else if ch == SOB {
        out := out + [ESC, ESOB];
      } else if ch == EOB {
        out := out + [ESC, EEOB];
      } else {
        out := out + [ch];
      }
      i := i + 1;
    }
    assert inp[..i] == inp;
    out := out + [EOB];
    FrameShape(inp);
  }

  /** What the output thread writes to the wrapper's stdout: one frame per
      chunk read from the child, then `Z` if it was given permission. */
  function Transmission(chunks: seq<seq<byte>>, permit: bool): seq<byte> {
    Frames(chunks) + (if permit then [EOF] else [])
  }

  /** The output thread's loop: frame each chunk read from the child's stdout
      (none empty: a zero-length read ends the loop) and write it to the
      wrapper's stdout, then, once the main thread allows it, write `Z`. It
      returns false where a failed write panics the thread; the buffering of
      Rust's stdout, which can delay or swallow such a failure, is not
      modelled. */
  method OutputWorker(chunks: seq<seq<byte>>, permit: bool, stdout: Pipe) returns (ok: bool)
    requires forall k | 0 <= k < |chunks| :: chunks[k] != []
    modifies stdout
    ensures stdout.open == old(stdout.open)
    ensures ok <==> old(stdout.open) || (chunks == [] && !permit)
    ensures stdout.written == old(stdout.written) + (if old(stdout.open) then Transmission(chunks, permit) else [])
  {
    var k := 0;
    while k < |chunks|
      invariant 0 <= k <= |chunks|
      invariant stdout.open == old(stdout.open)
      invariant stdout.open ==> stdout.written == old(stdout.written) + Frames(chunks[..k])
      invariant !stdout.open ==> k == 0 && stdout.written == old(stdout.written)
    {
      var frame := Encap(chunks[k]);
      var w := stdout.Write(frame);
      if !w {
        return false;
      }
      assert stdout.written == old(stdout.written) + Frames(chunks[..k + 1]) by {
        FramesSnoc(chunks, k);
        AppendAssoc(old(stdout.written), Frames(chunks[..k]), frame);
      }
      k := k + 1;
    }
    assert chunks[..k] == chunks;
    if permit {
      var w := stdout.Write([EOF]);
      if !w {
        return false;
      }
    }
    return true;
  }

  /** Exit codes a normally exited child can report. */
  type ExitCode = c: int | 0 <= c < 256

  /** The child's fate as `child.wait()` reports it. */
  datatype WaitStatus = Exited(code: ExitCode) | Signaled(signal: int) | NoCodeNoSignal | WaitError

  /** How the wrapper ends: with an exit code, having let the output thread
      write `Z` or not, or by panicking. */
  datatype Ending = Exit(code: ExitCode, emitEof: bool) | Panic

  /** The main thread's decision once the input thread reported the wait
      status; `inputClean` is the input thread's return value (false on the
      kill path), `outputFraming` is the `-o` flag and `outputOk` says the
      output thread ended without panicking (`OutputWorker`'s result). After
      a successful status the main thread sends the output thread its
      permission and joins it; both panic if that thread has panicked. */
  function Conclude(status: WaitStatus, inputClean: bool, outputFraming: bool, outputOk: bool): (e: Ending)
    ensures e.Panic? <==> status.WaitError? || (status == Exited(0) && outputFraming && !outputOk)
    ensures e.Exit? && e.code == 0 <==> status == Exited(0) && inputClean && (!outputFraming || outputOk)
    ensures e.Exit? && e.emitEof <==> status == Exited(0) && outputFraming && outputOk
    ensures status.Exited? && status.code != 0 ==> e == Exit(status.code, false)
    ensures status.Signaled? || status.NoCodeNoSignal? ==> e == Exit(1, false)
    ensures status == Exited(0) && !inputClean && (!outputFraming || outputOk) ==> e == Exit(1, outputFraming)
  {
    match status
    case WaitError => Panic
    case Exited(code) =>
      if code != 0 then Exit(code, false)
      else if outputFraming && !outputOk then Panic
      else Exit(if inputClean then 0 else 1, outputFraming)
    case Signaled(_) => Exit(1, false)
    case NoCodeNoSignal => Exit(1, false)
  }


  /** The count goes up by one for every byte scanned, the scan stops at
      `Z` between frames or at the first invalid byte, whose index it
      reports, and at most one byte is decoded per byte scanned. */
  lemma {:induction false} RunBounds(st: State, count: nat, x: seq<byte>, acc: seq<byte>)
    ensures var r := Run(st, count, x, acc);
      && |r.out| <= |acc| + |x| && !r.stop.WriteFailed?
      && (r.stop.Running? ==> r.count == count + |x|)
      && (r.stop.EofSeen? ==> count < r.count <= count + |x| && r.state == Idle)
      && (r.stop.Malformed? ==> count <= r.stop.index < count + |x| && r.count == r.stop.index + 1)
    decreases |x|
  {
    if x != [] {
      match Next(st, x[0])
      case Advance(st', e) =>
        RunBounds(st', count + 1, x[1..], acc + e);
      case EndOfTransmission =>
      case Invalid =>
    }
  }

  /** Once a chunk's scan has stopped, later bytes change nothing; while it
      runs, the scan of a longer chunk continues from where it left off. */
  lemma {:induction false} RunAppend(st: State, c: nat, x: seq<byte>, y: seq<byte>, acc: seq<byte>)
    ensures var s := Run(st, c, x, acc);
      Run(st, c, x + y, acc) == if s.stop.Running? then Run(s.state, s.count, y, s.out) else s
    decreases |x|
  {
    if x == [] {
      assert x + y == y;
    } else {
      assert (x + y)[0] == x[0] && (x + y)[1..] == x[1..] + y;
      match Next(st, x[0])
      case Advance(st', e) =>
        RunAppend(st', c + 1, x[1..], y, acc + e);
      case EndOfTransmission =>
      case Invalid =>
    }
  }

  /** The bytes decoded earlier in a chunk only prefix what the rest decodes. */
  lemma {:induction false} RunAcc(st: State, c: nat, x: seq<byte>, acc: seq<byte>)
    ensures var s := Scan(st, c, x);
      Run(st, c, x, acc) == s.(out := acc + s.out)
    decreases |x|
  {
    if x != [] {
      match Next(st, x[0])
      case Advance(st', e) =>
        RunAcc(st', c + 1, x[1..], acc + e);
        RunAcc(st', c + 1, x[1..], [] + e);
        assert [] + e == e;
        AppendAssoc(acc, e, Scan(st', c + 1, x[1..]).out);
      case EndOfTransmission =>
      case Invalid =>
    }
  }

  /** A stuffed payload byte decodes back to itself. */
  lemma RunStuffed(h: byte, c: nat, tail: seq<byte>, acc: seq<byte>)
    ensures Run(Data, c, Stuff(h) + tail, acc) == Run(Data, c + |Stuff(h)|, tail, acc + [h])
  {
    var x := Stuff(h) + tail;
    if Reserved(h) {
      assert x[0] == ESC && x[1] == Stuff(h)[1] && x[1..][1..] == tail;
      assert acc + [] == acc;
    } else {
      assert x[0] == h && x[1..] == tail;
    }
  }

  /** A frame body, followed by anything, decodes to its payload and leaves
      the decoder inside the frame. */
  lemma {:induction false} RunEscaped(b: seq<byte>, c: nat, rest: seq<byte>, acc: seq<byte>)
    ensures Run(Data, c, Escape(b) + rest, acc) == Run(Data, c + |Escape(b)|, rest, acc + b)
    decreases |b|
  {
    if b == [] {
      assert Escape(b) + rest == rest && acc + b == acc;
    } else {
      var h, t := b[0], b[1..];
      AppendAssoc(Stuff(h), Escape(t), rest);
      RunStuffed(h, c, Escape(t) + rest, acc);
      RunEscaped(t, c + |Stuff(h)|, rest, acc + [h]);
      AppendAssoc(acc, [h], t);
      assert [h] + t == b;
    }
  }

  /** Round trip: a decoder between frames fed the frame for `b` decodes
      exactly `b`, scans every byte and is back between frames. */
  lemma RunFrame(b: seq<byte>, c: nat, acc: seq<byte>)
    ensures Run(Idle, c, Frame(b), acc) == ScanResult(Idle, c + |Frame(b)|, acc + b, Running)
  {
    var f := Frame(b);
    assert f[0] == SOB && f[1..] == Escape(b) + [EOB];
    assert acc + [] == acc;
    RunEscaped(b, c + 1, [EOB], acc);
    assert [EOB][1..] == [];
  }

  /** The round trip from a fresh scan of one chunk. */
  lemma RoundTrip(b: seq<byte>, c: nat)
    ensures Scan(Idle, c, Frame(b)) == ScanResult(Idle, c + |Frame(b)|, b, Running)
  {
    RunFrame(b, c, []);
    assert [] + b == b;
  }

  /** Frames one after the other decode to their payloads one after the other. */
  lemma {:induction false} RunFrames(ps: seq<seq<byte>>, c: nat, acc: seq<byte>)
    ensures Run(Idle, c, Frames(ps), acc) == ScanResult(Idle, c + |Frames(ps)|, acc + Concat(ps), Running)
    decreases |ps|
  {
    if ps == [] {
      assert acc + [] == acc;
    } else {
      RunAppend(Idle, c, Frame(ps[0]), Frames(ps[1..]), acc);
      RunFrame(ps[0], c, acc);
      RunFrames(ps[1..], c + |Frame(ps[0])|, acc + ps[0]);
      AppendAssoc(acc, ps[0], Concat(ps[1..]));
    }
  }

  /** The session `f` and the one-chunk scan `s` reach the same state, count
      and ending; they deliver the same bytes, except that bad input
      withholds only its own chunk, so a session delivers a prefix. */
  predicate Agrees(f: ScanResult, s: ScanResult) {
    && f.state == s.state && f.count == s.count && f.stop == s.stop
    && if s.stop.Malformed? then f.out <= s.out else f.out == s.out
  }

  lemma {:induction false} FeedFromIsRun(st: State, c: nat, cs: seq<seq<byte>>, acc: seq<byte>)
    ensures Agrees(FeedFrom(st, c, cs, true, acc), Run(st, c, Concat(cs), acc))
    decreases |cs|
  {
    if cs != [] {
      var s := Scan(st, c, cs[0]);
      RunBounds(st, c, cs[0], []);
      RunAcc(st, c, cs[0], acc);
      RunAppend(st, c, cs[0], Concat(cs[1..]), acc);
      if s.stop.Running? {
        FeedFromIsRun(s.state, s.count, cs[1..], acc + s.out);
      }
    }
  }

  /** Streaming equivalence: splitting the input into chunks, anywhere,
      changes neither the decoder's final state, nor its count, nor how the
      session ends (with the same error index), nor the decoded bytes. */
  lemma FeedIsScan(st: State, c: nat, cs: seq<seq<byte>>)
    ensures Agrees(Feed(st, c, cs, true), Scan(st, c, Concat(cs)))
  {
    FeedFromIsRun(st, c, cs, []);
  }

  /** Any split of several frames into chunks decodes to the payloads, with
      every chunk answered `Some(false)`, and leaves the decoder between
      frames: the session never stops on its own. */
  lemma FramedSession(ps: seq<seq<byte>>, cs: seq<seq<byte>>, c: nat)
    requires Concat(cs) == Frames(ps)
    ensures Feed(Idle, c, cs, true) == ScanResult(Idle, c + |Frames(ps)|, Concat(ps), Running)
  {
    FeedIsScan(Idle, c, cs);
    RunFrames(ps, c, []);
    assert [] + Concat(ps) == Concat(ps);
  }

  /** The single-frame case of FramedSession. */
  lemma RoundTripAnySplit(b: seq<byte>, cs: seq<seq<byte>>, c: nat)
    requires Concat(cs) == Frame(b)
    ensures Feed(Idle, c, cs, true) == ScanResult(Idle, c + |Frame(b)|, b, Running)
  {
    assert Frames([b]) == Frame(b) + [];
    assert Concat([b]) == b + [];
    FramedSession([b], cs, c);
  }

  /** End to end: what one wrapper's output thread writes, read by another
      wrapper's input thread in any chunks, delivers exactly the first
      child's output, and ends cleanly exactly when `Z` was permitted. */
  lemma Session(ps: seq<seq<byte>>, permit: bool, cs: seq<seq<byte>>, c: nat)
    requires Concat(cs) == Transmission(ps, permit)
    ensures var f := Feed(Idle, c, cs, true);
      && f.out == Concat(ps) && f.state == Idle
      && f.stop == (if permit then EofSeen else Running)
  {
    FeedIsScan(Idle, c, cs);
    RunAppend(Idle, c, Frames(ps), if permit then [EOF] else [], []);
    RunFrames(ps, c, []);
    assert [] + Concat(ps) == Concat(ps);
  }

  /** `Z` between frames stops the scan of the chunk: the rest of the chunk
      is ignored, and the bytes decoded before it are still kept. */
  lemma EofStopsChunk(st: State, c: nat, x: seq<byte>, y: seq<byte>)
    requires Scan(st, c, x).stop.Running? && Scan(st, c, x).state == Idle
    ensures var s := Scan(st, c, x);
      Scan(st, c, x + [EOF] + y) == ScanResult(Idle, s.count + 1, s.out, EofSeen)
  {
    RunAppend(st, c, x, [EOF] + y, []);
    assert x + [EOF] + y == x + ([EOF] + y);
  }

  /** The error index names the offending byte: the scan up to it ran
      without stopping, and that byte is invalid in the state it reached. */
  lemma {:induction false} MalformedIndex(st: State, c: nat, x: seq<byte>, acc: seq<byte>)
    requires Run(st, c, x, acc).stop.Malformed?
    ensures var s := Run(st, c, x, acc); var k := s.stop.index - c;
      && 0 <= k < |x|
      && Run(st, c, x[..k], acc) == ScanResult(s.state, s.stop.index, s.out, Running)
      && Next(s.state, x[k]).Invalid?
    decreases |x|
  {
    RunBounds(st, c, x, acc);
    match Next(st, x[0])
    case Advance(st', e) =>
      MalformedIndex(st', c + 1, x[1..], acc + e);
      var k := Run(st, c, x, acc).stop.index - c;
      assert x[..k][0] == x[0] && x[..k][1..] == x[1..][..k - 1];
    case Invalid =>
      assert x[..0] == [];
    case EndOfTransmission =>
  }

  /** Conversely, a byte invalid in the state the scan reached is reported
      at its own position, whatever follows it. */
  lemma InvalidByteReported(st: State, c: nat, p: seq<byte>, b: byte, y: seq<byte>)
    requires Scan(st, c, p).stop.Running? && Next(Scan(st, c, p).state, b).Invalid?
    ensures Scan(st, c, p + [b] + y).stop == Malformed(c + |p|)
  {
    RunBounds(st, c, p, []);
    RunAppend(st, c, p, [b] + y, []);
    assert p + [b] + y == p + ([b] + y);
  }

  /** Counting from zero over a whole session, the reported index is the
      0-based position of the offending byte in everything read. */
  lemma ReportedIndex(cs: seq<seq<byte>>)
    requires Feed(Idle, 0, cs, true).stop.Malformed?
    ensures var i := Feed(Idle, 0, cs, true).stop.index; var all := Concat(cs);
      && i < |all|
      && Scan(Idle, 0, all[..i]).stop.Running?
      && Next(Scan(Idle, 0, all[..i]).state, all[i]).Invalid?
  {
    FeedIsScan(Idle, 0, cs);
    MalformedIndex(Idle, 0, Concat(cs), []);
  }

  /** End to end with the exit rule: a child that exits successfully, fed
      a transmission that ends in `Z`, leaves the wrapper exiting 0 unless
      the output thread panicked. */
  lemma CleanSessionExitsZero(ps: seq<seq<byte>>, cs: seq<seq<byte>>, outputFraming: bool, outputOk: bool)
    requires Concat(cs) == Transmission(ps, true)
    ensures Conclude(Exited(0), Feed(Idle, 0, cs, true).stop.EofSeen?, outputFraming, outputOk)
      == if outputFraming && !outputOk then Panic else Exit(0, outputFraming)
  {
    Session(ps, true, cs, 0);
  }

  /** A transmission cut off before `Z` makes the input thread take the kill
      path, so the wrapper exits 1 even when the child reported success
      (or panics if the output thread did). */
  lemma CutSessionExitsOne(ps: seq<seq<byte>>, cs: seq<seq<byte>>, outputFraming: bool, outputOk: bool)
    requires Concat(cs) == Transmission(ps, false)
    ensures Conclude(Exited(0), Feed(Idle, 0, cs, true).stop.EofSeen?, outputFraming, outputOk)
      == if outputFraming && !outputOk then Panic else Exit(1, outputFraming)
  {
    Session(ps, false, cs, 0);
  }
}
