/** The wire format shared by the Rust wrapper `wp` and the Go wrapper
    `wrappipe`: the seven reserved bytes, the three decoder states, and the
    byte-stuffed frame that both encoders produce. */
module Framing {

  type byte = b: int | 0 <= b < 256

  datatype Option<T> = None | Some(value: T)

  const ESC: byte := '_' as int   // escape introducer
  const EESC: byte := '-' as int  // completes an escaped escape introducer
  const EOF: byte := 'Z' as int   // end of transmission, meaningful only between frames
  const SOB: byte := '<' as int   // start of block
  const EOB: byte := '>' as int   // end of block
  const ESOB: byte := '[' as int  // completes an escaped start of block
  const EEOB: byte := ']' as int  // completes an escaped end of block

  /** The decoder automaton's states: between frames, inside a frame, and
      inside a frame just after an escape introducer. */
  datatype State = Idle | Data | DataEsc

  /** The payload bytes that must be stuffed inside a frame. */
  predicate Reserved(b: byte) {
    b == ESC || b == SOB || b == EOB
  }

  /** The bytes that may follow an escape introducer. */
  predicate Completion(b: byte) {
    b == EESC || b == ESOB || b == EEOB
  }

  /** One payload byte as it appears inside a frame. */
  function Stuff(b: byte): seq<byte> {
    if b == ESC then [ESC, EESC]
    else if b == SOB then [ESC, ESOB]
    else if b == EOB then [ESC, EEOB]
    else [b]
  }

  /** The body of a frame: every payload byte stuffed in turn. The body is
      at most twice as long as the payload and holds no bare sentinel. */
  function Escape(s: seq<byte>): (r: seq<byte>)
    ensures |s| <= |r| <= 2 * |s|
    ensures SOB !in r && EOB !in r
    decreases |s|
  {
    if s == [] then [] else Stuff(s[0]) + Escape(s[1..])
  }

  /** The frame that carries payload `s`. */
  function Frame(s: seq<byte>): seq<byte> {
    [SOB] + Escape(s) + [EOB]
  }

  /** Several payloads framed one after the other. */
  function Frames(ps: seq<seq<byte>>): (r: seq<byte>)
    ensures |r| >= 2 * |ps|
    decreases |ps|
  {
    if ps == [] then [] else Frame(ps[0]) + Frames(ps[1..])
  }

  /** The bytes of several chunks, in order. */
  function Concat(cs: seq<seq<byte>>): (r: seq<byte>)
    ensures |r| == 0 <==> forall i :: 0 <= i < |cs| ==> cs[i] == []
    decreases |cs|
  {
    if cs == [] then [] else cs[0] + Concat(cs[1..])
  }

  /** Concatenation is associative; stated once so that proofs can name the
      regrouping they need. */
  lemma AppendAssoc<T>(a: seq<T>, b: seq<T>, c: seq<T>)
    ensures (a + b) + c == a + (b + c)
  {
  }

  /** Stuffing works byte by byte, so it distributes over concatenation. */
  lemma {:induction false} EscapeAppend(a: seq<byte>, b: seq<byte>)
    ensures Escape(a + b) == Escape(a) + Escape(b)
    decreases |a|
  {
    if a != [] {
      calc {
        Escape(a + b);
        { assert (a + b)[0] == a[0]; assert (a + b)[1..] == a[1..] + b; }
        Stuff(a[0]) + Escape(a[1..] + b);
        { EscapeAppend(a[1..], b); }
        Stuff(a[0]) + (Escape(a[1..]) + Escape(b));
        { AppendAssoc(Stuff(a[0]), Escape(a[1..]), Escape(b)); }
        Escape(a) + Escape(b);
      }
    } else {
      assert a + b == b;
    }
  }

  /** Framing several payloads distributes over concatenation. */
  lemma {:induction false} FramesAppend(a: seq<seq<byte>>, b: seq<seq<byte>>)
    ensures Frames(a + b) == Frames(a) + Frames(b)
    decreases |a|
  {
    if a == [] {
      assert a + b == b;
    } else {
      assert (a + b)[0] == a[0] && (a + b)[1..] == a[1..] + b;
      FramesAppend(a[1..], b);
    }
  }

  /** Framing one more payload appends its frame. */
  lemma FramesSnoc(ps: seq<seq<byte>>, k: nat)
    requires k < |ps|
    ensures Frames(ps[..k + 1]) == Frames(ps[..k]) + Frame(ps[k])
  {
    assert ps[..k + 1] == ps[..k] + [ps[k]];
    FramesAppend(ps[..k], [ps[k]]);
    assert Frames([ps[k]]) == Frame(ps[k]) + Frames([]);
  }

  /** A frame starts with `<`, ends with `>`, holds no other sentinel, and
      is between |s| + 2 and 2 |s| + 2 bytes long, even for an empty payload. */
  lemma FrameShape(s: seq<byte>)
    ensures var f := Frame(s);
      && |s| + 2 <= |f| <= 2 * |s| + 2
      && f[0] == SOB && f[|f| - 1] == EOB
      && forall i :: 0 < i < |f| - 1 ==> f[i] != SOB && f[i] != EOB
  {
  }

  /** Bytes other than `_`, `<` and `>` are copied into the body unchanged. */
  lemma {:induction false} EscapePlain(s: seq<byte>)
    requires forall i :: 0 <= i < |s| ==> !Reserved(s[i])
    ensures Escape(s) == s
    decreases |s|
  {
    if s != [] {
      EscapePlain(s[1..]);
    }
  }

  /** Every escape introducer in `r` is followed by a completion byte. */
  predicate WellStuffed(r: seq<byte>) {
    forall i :: 0 <= i < |r| && r[i] == ESC ==> i + 1 < |r| && Completion(r[i + 1])
  }

  /** In a frame body every escape introducer is followed by one of the three
      completion bytes. */
  lemma {:induction false} EscapeWellStuffed(s: seq<byte>)
    ensures WellStuffed(Escape(s))
    decreases |s|
  {
    if s != [] {
      EscapeWellStuffed(s[1..]);
      var h, t := Stuff(s[0]), Escape(s[1..]);
      var r := Escape(s);
      assert r == h + t;
      forall i | 0 <= i < |r| && r[i] == ESC ensures i + 1 < |r| && Completion(r[i + 1]) {
        if i < |h| {
          assert Reserved(s[0]) && i == 0 && r[1] == h[1];
        } else {
          var j := i - |h|;
          assert t[j] == ESC;
          assert j + 1 < |t| && Completion(t[j + 1]);
          assert r[i + 1] == t[j + 1];
        }
      }
    }
  }
}
