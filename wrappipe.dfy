/** The Go wrapper `wrappipe`: its encoder `encapper`, built from three
    whole-string replacements, and its decoder `decapper`, which keeps its
    automaton state across calls to `Write` but treats each call's first
    byte specially and drops whatever follows the end of a frame. */
module Wrappipe {
  import opened Framing
  import opened Streams

  /** `strings.ReplaceAll` for a one-byte pattern: every occurrence of `b`
      in `s` becomes `rep`, every other byte is kept. */
  function ReplaceByte(s: seq<byte>, b: byte, rep: seq<byte>): (r: seq<byte>)
    ensures b !in s ==> r == s
    ensures b !in rep ==> b !in r
    ensures |rep| == 2 ==> |s| <= |r| <= 2 * |s|
    decreases |s|
  {
    if s == [] then [] else (if s[0] == b then rep else [s[0]]) + ReplaceByte(s[1..], b, rep)
  }

  /** The three replacements of `encapper.Write`, escape introducer first. */
  function EscapeAll(s: seq<byte>): seq<byte> {
    var s1 := ReplaceByte(s, ESC, [ESC, EESC]);
    var s2 := ReplaceByte(s1, SOB, [ESC, ESOB]);
    ReplaceByte(s2, EOB, [ESC, EEOB])
  }

  /** The bytes `encapper.Write` hands to stdout for `data`. */
  function Encapsulate(data: seq<byte>): seq<byte> {
    [SOB] + EscapeAll(data) + [EOB]
  }

  /** Replacement works byte by byte, so it distributes over concatenation. */
  lemma {:induction false} ReplaceAppend(x: seq<byte>, y: seq<byte>, b: byte, rep: seq<byte>)
    ensures ReplaceByte(x + y, b, rep) == ReplaceByte(x, b, rep) + ReplaceByte(y, b, rep)
    decreases |x|
  {
    if x == [] {
      assert x + y == y;
    } else {
      assert (x + y)[0] == x[0] && (x + y)[1..] == x[1..] + y;
      ReplaceAppend(x[1..], y, b, rep);
      AppendAssoc(if x[0] == b then rep else [x[0]], ReplaceByte(x[1..], b, rep), ReplaceByte(y, b, rep));
    }
  }

  /** On a single byte the three passes stuff it exactly as the Rust encoder
      does: the `_` that the second and third passes introduce is not
      escaped again, because the first pass has already run. */
  lemma EscapeAllByte(h: byte)
    ensures EscapeAll([h]) == Stuff(h)
  {
  }

  /** The three passes of `encapper.Write` agree with byte-by-byte stuffing. */
  lemma {:induction false} EscapeAllIsEscape(s: seq<byte>)
    ensures EscapeAll(s) == Escape(s)
    decreases |s|
  {
    if s != [] {
      var h, t := s[0], s[1..];
      assert s == [h] + t;
      var s1, t1 := ReplaceByte([h], ESC, [ESC, EESC]), ReplaceByte(t, ESC, [ESC, EESC]);
      ReplaceAppend([h], t, ESC, [ESC, EESC]);
      var s2, t2 := ReplaceByte(s1, SOB, [ESC, ESOB]), ReplaceByte(t1, SOB, [ESC, ESOB]);
      ReplaceAppend(s1, t1, SOB, [ESC, ESOB]);
      ReplaceAppend(s2, t2, EOB, [ESC, EEOB]);
      EscapeAllByte(h);
      EscapeAllIsEscape(t);
    }
  }

  /** `encapper.Write` produces exactly the frame the Rust encoder produces. */
  lemma EncapsulateIsFrame(data: seq<byte>)
    ensures Encapsulate(data) == Frame(data)
  {
    EscapeAllIsEscape(data);
  }

  /** How a Go `Write` ended: the count of bytes it reports and whether it
      returned an error, or the process died in `log.Fatal`. */
  datatype WriteResult = Wrote(n: nat, failed: bool) | Died

  /** `encapper.Write`: one frame per call, written in one piece; a short
      write is fatal, otherwise the whole input is reported consumed. */
  method EncapperWrite(stdout: Pipe, data: seq<byte>) returns (r: WriteResult)
    modifies stdout
    ensures stdout.open == old(stdout.open)
    ensures old(stdout.open) ==> r == Wrote(|data|, false) && stdout.written == old(stdout.written) + Frame(data)
    ensures !old(stdout.open) ==> r == Died && stdout.written == old(stdout.written)
  {
    var s := data;
    s := ReplaceByte(s, ESC, [ESC, EESC]);
    s := ReplaceByte(s, SOB, [ESC, ESOB]);
    s := ReplaceByte(s, EOB, [ESC, EEOB]);
    var out := [SOB] + s + [EOB];
    var ok := stdout.Write(out);
    var n := if ok then |out| else 0;
    if n != |out| {
      return Died;
    }
    EncapsulateIsFrame(data);
    return Wrote(|data|, false);
  }

  /** `encapper.EOF`: the single byte `Z`; a failed write is fatal. */
  method EncapperEOF(stdout: Pipe) returns (died: bool)
    modifies stdout
    ensures stdout.open == old(stdout.open) && died == !old(stdout.open)
    ensures stdout.written == old(stdout.written) + (if died then [] else [EOF])
  {
    var ok := stdout.Write([EOF]);
    died := !ok;
  }

  /** What one byte does inside the decoder's loop. */
  datatype LoopMove = Continue(next: State, emit: seq<byte>) | InvalidEscape

  /** The loop body of `decapper.Write`: between frames every byte is
      ignored, inside a frame it is decoded, and after an escape introducer
      only the three completion bytes are accepted. */
  function LoopStep(st: State, b: byte): (m: LoopMove)
    ensures m.InvalidEscape? <==> st == DataEsc && !Completion(b)
    ensures st == Idle ==> m == Continue(Idle, [])
    ensures m.Continue? ==> |m.emit| <= 1
  {
    match st
    case Idle => Continue(Idle, [])
    case Data =>
      if b == ESC then Continue(DataEsc, [])
      else if b == EOB then Continue(Idle, [])
      else Continue(Data, [b])
    case DataEsc =>
      if b == ESOB then Continue(Data, [SOB])
      else if b == EEOB then Continue(Data, [EOB])
      else if b == EESC then Continue(Data, [ESC])
      else InvalidEscape
  }

  /** The decoder state and the decoded bytes after the loop. */
  datatype Loop = Loop(state: State, out: seq<byte>)

  /** The loop of `decapper.Write` over `x`, after bytes that decoded to
      `acc`; `None` where an invalid escape is fatal. */
  function Sweep(st: State, x: seq<byte>, acc: seq<byte>): (r: Option<Loop>)
    ensures r.Some? ==> |r.value.out| <= |acc| + |x|
    decreases |x|
  {
    if x == [] then Some(Loop(st, acc))
    else
      match LoopStep(st, x[0])
      case InvalidEscape => None
      case Continue(st', e) => Sweep(st', x[1..], acc + e)
  }

  /** What a call of `decapper.Write` does: die, take a leading `Z` as the
      end of transmission, or decode and deliver bytes. `lead` is 1 when a
      leading `<` was taken before the loop ran on the rest. */
  datatype Plan = Fatal | EofMarker | Deliver(state: State, out: seq<byte>, lead: nat)

  function PlanWrite(st: State, data: seq<byte>): (p: Plan)
    requires st != Idle || |data| > 0
    ensures p.EofMarker? <==> st == Idle && data[0] == EOF
    ensures p.Deliver? ==> p.lead == (if st == Idle && data[0] == SOB then 1 else 0)
    ensures p.Deliver? ==> |p.out| <= |data|
  {
    if st == Idle && data[0] == SOB then
      match Sweep(Data, data[1..], [])
      case None => Fatal
      case Some(l) => Deliver(l.state, l.out, 1)
    else if st == Idle && data[0] == EOF then EofMarker
    else
      match Sweep(st, data, [])
      case None => Fatal
      case Some(l) => Deliver(l.state, l.out, 0)
  }

  class Decapper {
    var state: State
    var succeeded: bool
    const out: Pipe

    constructor (out: Pipe)
      ensures state == Idle && !succeeded && this.out == out
    {
      state := Idle;
      succeeded := false;
      this.out := out;
    }

    /** `decapper.Write`. The caller never passes an empty slice; on one the
        source would index past its end while between frames. */
    method Write(data: seq<byte>) returns (r: WriteResult)
      requires state != Idle || |data| > 0
      modifies this, out
      decreases |data|
      ensures out.open == old(out.open)
      ensures match PlanWrite(old(state), data)
        case Fatal => r == Died && out.written == old(out.written)
        case EofMarker =>
          && r == Wrote(1, false) && succeeded && state == Idle
          && out.written == old(out.written)
        case Deliver(st', o, lead) =>
          && state == st' && succeeded == old(succeeded)
          && out.written == old(out.written) + (if old(out.open) then o else [])
          && r == (if old(out.open) then Wrote(|data|, false) else Wrote(lead, true))
    {
      if state == Idle {
        if data[0] == SOB {
          state := Data;
          var inner := Write(data[1..]);
          match inner {
            case Died => return Died;
            case Wrote(n, failed) => return Wrote(n + 1, failed);
          }
        } else if data[0] == EOF {
          succeeded := true;
          return Wrote(1, false);
        }
      }
      ghost var whole := Sweep(state, data, []);
      var o: seq<byte> := [];
      var n := 0;
      while n < |data|
        invariant 0 <= n <= |data|
        invariant whole == Sweep(state, data[n..], o)
        invariant out.written == old(out.written) && out.open == old(out.open)
        invariant succeeded == old(succeeded)
      {
        assert data[n..][0] == data[n] && data[n..][1..] == data[n + 1..];
        assert o + [] == o;
        match state {
          case Idle =>
          case Data =>
            if data[n] == ESC {
              state := DataEsc;
            } else if data[n] == EOB {
              state := Idle;
            } else {
              o := o + [data[n]];
            }
          case DataEsc =>
            if data[n] == ESOB {
              state := Data;
              o := o + [SOB];
            } else if data[n] == EEOB {
              state := Data;
              o := o + [EOB];
            } else if data[n] == EESC {
              state := Data;
              o := o + [ESC];
            } else {
              return Died;
            }
        }
        n := n + 1;
      }
      var ok := out.Write(o);
      if !ok {
        return Wrote(0, true);
      }
      return Wrote(|data|, false);
    }
  }

  /** Bytes met between frames inside the loop are dropped, however many. */
  lemma {:induction false} SweepIdle(x: seq<byte>, acc: seq<byte>)
    ensures Sweep(Idle, x, acc) == Some(Loop(Idle, acc))
    decreases |x|
  {
    if x != [] {
      assert acc + [] == acc;
      SweepIdle(x[1..], acc);
    }
  }

  /** A stuffed payload byte decodes back to itself and returns to `Data`. */
  lemma SweepStuffed(h: byte, tail: seq<byte>, acc: seq<byte>)
    ensures Sweep(Data, Stuff(h) + tail, acc) == Sweep(Data, tail, acc + [h])
  {
    var x := Stuff(h) + tail;
    if Reserved(h) {
      assert x[0] == ESC && x[1] == Stuff(h)[1] && x[1..][1..] == tail;
      assert acc + [] == acc;
    } else {
      assert x[0] == h && x[1..] == tail;
    }
  }

  /** A frame body, followed by anything, decodes to its payload and leaves
      the loop inside the frame. */
  lemma {:induction false} SweepEscaped(b: seq<byte>, rest: seq<byte>, acc: seq<byte>)
    ensures Sweep(Data, Escape(b) + rest, acc) == Sweep(Data, rest, acc + b)
    decreases |b|
  {
    if b == [] {
      assert Escape(b) + rest == rest && acc + b == acc;
    } else {
      var h, t := b[0], b[1..];
      var tail := Escape(t) + rest;
      AppendAssoc(Stuff(h), Escape(t), rest);
      SweepStuffed(h, tail, acc);
      SweepEscaped(t, rest, acc + [h]);
      AppendAssoc(acc, [h], t);
      assert [h] + t == b;
    }
  }

  /** Single-chunk round trip: a decoder between frames given the frame for
      `b`, followed by anything, decodes exactly `b`, ends between frames and
      drops whatever followed the frame in that call. */
  lemma GoRoundTrip(b: seq<byte>, rest: seq<byte>)
    ensures PlanWrite(Idle, Frame(b) + rest) == Deliver(Idle, b, 1)
  {
    var x, y := Frame(b) + rest, [EOB] + rest;
    assert x[0] == SOB && x[1..] == Escape(b) + y;
    assert Sweep(Data, Escape(b) + y, []) == Sweep(Data, y, b) by {
      SweepEscaped(b, y, []);
      assert [] + b == b;
    }
    assert Sweep(Data, y, b) == Some(Loop(Idle, b)) by {
      assert y[0] == EOB && y[1..] == rest && b + [] == b;
      SweepIdle(rest, b);
    }
  }

  /** What `encapper.Write` produces, handed whole to a fresh `decapper`,
      comes out as the original bytes. */
  lemma EncapsulateRoundTrip(b: seq<byte>)
    ensures PlanWrite(Idle, Encapsulate(b)) == Deliver(Idle, b, 1)
  {
    EncapsulateIsFrame(b);
    GoRoundTrip(b, []);
    assert Frame(b) + [] == Frame(b);
  }

  /** A first byte between frames other than `<` and `Z` falls through to
      the loop, which drops the whole call's bytes. */
  lemma StrayFirstByte(data: seq<byte>)
    requires |data| > 0 && data[0] != SOB && data[0] != EOF
    ensures PlanWrite(Idle, data) == Deliver(Idle, [], 0)
  {
    SweepIdle(data, []);
  }

  /** The loop runs over a concatenation as over its parts in turn. */
  lemma {:induction false} SweepAppend(st: State, x: seq<byte>, y: seq<byte>, acc: seq<byte>)
    ensures Sweep(st, x + y, acc) == match Sweep(st, x, acc)
      case None => None
      case Some(l) => Sweep(l.state, y, l.out)
    decreases |x|
  {
    if x == [] {
      assert x + y == y;
    } else {
      assert (x + y)[0] == x[0] && (x + y)[1..] == x[1..] + y;
      match LoopStep(st, x[0])
      case Continue(st', e) =>
        SweepAppend(st', x[1..], y, acc + e);
      case InvalidEscape =>
    }
  }

  /** Inside a frame a call's chunk may be split anywhere: two calls decode
      what one call over both halves decodes and leave the same state, or
      both die, as long as the first call does not end between frames. */
  lemma InFrameSplit(st: State, x: seq<byte>, y: seq<byte>)
    requires st != Idle
    requires var p := PlanWrite(st, x); p.Deliver? && p.state != Idle
    ensures var p := PlanWrite(st, x); var q := PlanWrite(p.state, y);
      PlanWrite(st, x + y) == if q.Deliver? then Deliver(q.state, p.out + q.out, 0) else Fatal
  {
    var l := Sweep(st, x, []).value;
    SweepAppend(st, x, y, []);
    SweepAcc(l.state, y, l.out);
  }

  /** Bytes decoded earlier only prefix what the rest decodes. */
  lemma {:induction false} SweepAcc(st: State, x: seq<byte>, acc: seq<byte>)
    ensures Sweep(st, x, acc) == match Sweep(st, x, [])
      case None => None
      case Some(l) => Some(Loop(l.state, acc + l.out))
    decreases |x|
  {
    if x == [] {
      assert acc + [] == acc;
    } else {
      match LoopStep(st, x[0])
      case Continue(st', e) =>
        SweepAcc(st', x[1..], acc + e);
        SweepAcc(st', x[1..], [] + e);
        assert [] + e == e;
        match Sweep(st', x[1..], []) {
          case None =>
          case Some(l) => AppendAssoc(acc, e, l.out);
        }
      case InvalidEscape =>
    }
  }
}
