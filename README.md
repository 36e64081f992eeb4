# goodpipe framing codec, in Dafny

goodpipe runs a pipeline of programs, each wrapped so that its standard
streams carry frames instead of raw bytes. Two wrappers do the wrapping:

- `wp`, written in Rust.
- `wrappipe`, written in Go.

Both use the same byte-stuffing format:

- A frame starts with `<` and ends with `>`.
- Inside a frame, `_`, `<` and `>` are written as `_-`, `_[` and `_]`.
- Between frames, `Z` marks the end of the whole transmission.

This project models that codec in both languages, plus `wp`'s decision on
its own exit code, and proves their properties. The modules are:

- `Framing` (`framing.dfy`): the seven reserved bytes, the three decoder
  states and the frame format itself (`Escape`, `Frame`, `Frames`), with the
  lemmas about the format alone.
- `Streams` (`streams.dfy`): a byte sink (`Pipe`) that stands for the
  child's stdin, the wrapper's stdout and a Go `io.Writer`. A write delivers
  all its bytes, or fails and delivers none once the reading end is gone.
  Rust's `io::stdout()` is buffered, which this sink does not model: there a
  write to a gone reader can succeed and fail only later, or never (see
  "## Left out").
- `Wp` (`wp.dfy`): the Rust wrapper.
  - The streaming decoder `Decapper` with `add` is a class whose loop is
    proved against the scan function `Run`/`Scan`.
  - The encoder `encap` is a method proved against `Frame`.
  - The loops of the input thread (`Pump`) and of the output thread
    (`OutputWorker`) run over a sequence of chunks.
  - The exit rule is the function `Conclude`.
  - The lemmas cover:
    - the round trip over any split of the input into chunks;
    - stopping at `Z`;
    - error detection and its reported index;
    - what a whole session delivers.
- `Wrappipe` (`wrappipe.dfy`): the Go wrapper.
  - `encapper.Write` is modelled as three `strings.ReplaceAll` passes, and
    is proved to produce the same frame as the Rust encoder.
  - `encapper.EOF` is modelled as a method.
  - `decapper` is a class with a recursive `Write`, proved against the
    function `PlanWrite`.
- `Compare` (`compare.dfy`): where the two decoders agree (one frame per
  chunk) and where they differ:
  - two frames in one chunk;
  - a `Z` in the same chunk as the frame before it;
  - a stray byte between frames.

Bytes are integers in 0..255. Go's `state int` and Rust's `enum State` are
both the datatype `Framing.State`.

Two behaviours of the source are easy to miss:

- **`Z` permission on the kill path.** When the child's status is success,
  `wp` tells its output thread to emit `Z` before it checks whether the
  input thread took the kill path. So `Z` is emitted even when the wrapper
  then exits 1 (`Wp.Conclude`).
- **The Go decoder.** It is not a faithful streaming decoder:
  - bytes met between frames inside a chunk are dropped;
  - a leading `Z` consumes only one byte.

  The lemmas in `Compare` state these differences exactly.

## Model

| member | source | states |
|---|---|---|
| Framing.Escape | cmd/wp/src/main.rs:135-153 | a frame body is between \|s\| and 2\|s\| bytes long and holds no bare `<` or `>` |
| Framing.EscapeAppend | cmd/wp/src/main.rs:135-153 | stuffing works byte by byte: the body of `a + b` is the body of `a` followed by the body of `b` |
| Framing.FrameShape | cmd/wp/src/main.rs:132-156 | a frame starts with `<`, ends with `>`, holds no other sentinel, and is between \|s\|+2 and 2\|s\|+2 bytes long, even for an empty payload |
| Framing.EscapePlain | cmd/wp/src/main.rs:149-151 | a payload without `_`, `<` or `>` is copied into the body unchanged |
| Framing.EscapeWellStuffed | cmd/wp/src/main.rs:136-148 | in a frame body every `_` is followed by one of `-`, `[`, `]` |
| Streams.Pipe.Write | cmd/wp/src/main.rs:122-128 | a write to an open pipe appends all its bytes and succeeds; a write to a closed pipe fails and appends nothing |
| Wp.Next | cmd/wp/src/main.rs:60-117 | the transition table: `Z` ends the transmission exactly between frames; a byte is invalid exactly when it is neither `Z` nor `<` between frames, or neither `-`, `[` nor `]` after `_`; at most one byte is emitted; only `>` inside a frame returns to Idle |
| Wp.RunBounds | cmd/wp/src/main.rs:58-118 | the count grows by exactly one per byte scanned, including the offending byte; a scan that runs to the end counts every byte; `Z` leaves the decoder Idle; the reported error index is the count before the offending byte; at most one byte is decoded per byte scanned |
| Wp.Verdict | cmd/wp/src/main.rs:119-128 | `add` answers `None` exactly on bad input, or on a write of a nonempty result to a closed pipe; otherwise it answers `Some` of whether `Z` was seen |
| Wp.Decapper.constructor | cmd/wp/src/main.rs:45-50 | a new decoder is Idle with count 0 |
| Wp.Decapper.Add | cmd/wp/src/main.rs:55-129 | state and count end as the scan of the chunk says; the answer is the verdict; the child's stdin receives exactly the decoded bytes, or nothing on bad input or a closed pipe |
| Wp.Pump | cmd/wp/src/main.rs:250-272 | given the nonempty reads that precede the zero-length one, the input thread's loop ends with the decoder and the child's stdin as the chunk-by-chunk session says, and returns true exactly when `Z` was seen |
| Wp.Encap | cmd/wp/src/main.rs:132-156 | the output is the frame for the input: it starts with `<`, ends with `>`, and is between \|in\|+2 and 2\|in\|+2 bytes long |
| Wp.OutputWorker | cmd/wp/src/main.rs:216-236 | given the nonempty reads that precede the zero-length one, through an open stdout the output thread writes one frame per chunk, in order, then `Z` when permitted; through a closed one it writes nothing and fails at its first write |
| Wp.Conclude | cmd/wp/src/main.rs:298-324 | the wrapper panics exactly when the wait fails, or when the status is success, `-o` is set and the output thread panicked (the send or the join fails); the exit code is 0 exactly for status success on the clean input path with no such panic; a nonzero code propagates unchanged without `Z`; a signal or a missing code exits 1 without `Z`; `Z` is permitted exactly when the status is success, `-o` is set and the output thread is alive, even on the kill path, which exits 1 |
| Wp.RunAppend | cmd/wp/src/main.rs:58-118 | once a chunk's scan has stopped, later bytes change nothing; while it runs, a longer chunk continues from where the shorter one ended |
| Wp.RunStuffed | cmd/wp/src/main.rs:81-104 | a stuffed payload byte decodes back to itself and returns to Data |
| Wp.RunEscaped | cmd/wp/src/main.rs:81-104 | a frame body decodes to its payload, whatever follows it, and leaves the decoder inside the frame |
| Wp.RunFrame | cmd/wp/src/main.rs:55-129 | a decoder between frames decodes the frame for `b` to exactly `b`, scans all of it and ends Idle |
| Wp.RoundTrip | cmd/wp/src/main.rs:132-156 | a fresh scan of `encap(b)` decodes exactly `b` and ends Idle without stopping |
| Wp.RunFrames | cmd/wp/src/main.rs:55-129 | consecutive frames decode to their payloads, concatenated in order |
| Wp.FeedIsScan | cmd/wp/src/main.rs:250-272 | streaming equivalence: feeding chunks one by one ends in the same state, count and ending (with the same error index) as scanning their concatenation, and delivers the same bytes, or on bad input a prefix of them |
| Wp.FramedSession | cmd/wp/src/main.rs:250-272 | any split of several frames into chunks delivers exactly the concatenated payloads, ends Idle, and never stops the session |
| Wp.RoundTripAnySplit | cmd/wp/src/main.rs:250-272 | any split of `encap(b)` into chunks delivers exactly `b`, ends Idle, and every chunk is answered `Some(false)` |
| Wp.Session | cmd/wp/src/main.rs:216-272 | what one wrapper's output thread writes, read in any chunks by another wrapper's input thread, delivers exactly the first child's output and ends with `Z` seen exactly when `Z` was permitted |
| Wp.EofStopsChunk | cmd/wp/src/main.rs:61-65 | a `Z` between frames stops the scan of its chunk: the rest of the chunk is ignored and the bytes decoded before it are kept |
| Wp.MalformedIndex | cmd/wp/src/main.rs:69-79 | on bad input the reported index names the offending byte: the scan up to it ran without stopping, and that byte is invalid in the state reached |
| Wp.InvalidByteReported | cmd/wp/src/main.rs:105-115 | conversely, a byte invalid in the state reached is reported at its own position, whatever follows it |
| Wp.ReportedIndex | cmd/wp/src/main.rs:72-75 | over a whole session from count 0, the reported index is the 0-based position of the offending byte in everything read |
| Wp.CleanSessionExitsZero | cmd/wp/src/main.rs:316-324 | a transmission ending in `Z`, with the child exiting 0, makes the wrapper exit 0, unless under `-o` the output thread panicked, which panics the wrapper |
| Wp.CutSessionExitsOne | cmd/wp/src/main.rs:273-288 | a transmission cut off before `Z` takes the kill path, and the wrapper exits 1 even when the child reported success (it panics instead if under `-o` the output thread panicked) |
| Wrappipe.ReplaceByte | cmd/wrappipe/wrappipe.go:65-69 | a replacement leaves a string without the pattern unchanged; it leaves no pattern byte when the replacement holds none; with a two-byte replacement it at most doubles the length |
| Wrappipe.ReplaceAppend | cmd/wrappipe/wrappipe.go:65-69 | replacement distributes over concatenation |
| Wrappipe.EscapeAllByte | cmd/wrappipe/wrappipe.go:64-69 | on one byte, the three passes (`_` first) give the same two-byte stuffing as the Rust encoder: the `_` introduced for `<` and `>` is not escaped again |
| Wrappipe.EscapeAllIsEscape | cmd/wrappipe/wrappipe.go:61-71 | the three passes equal per-byte stuffing on every input |
| Wrappipe.EncapsulateIsFrame | cmd/wrappipe/wrappipe.go:61-71 | `encapper.Write`'s bytes are `<` + stuffed input + `>`, the same frame as `encap` |
| Wrappipe.EncapperWrite | cmd/wrappipe/wrappipe.go:61-77 | through an open stdout, writes exactly the frame and reports `len(in)` with no error; through a closed one the process dies (SIGPIPE, or `log.Fatal` on a short write) and nothing is written |
| Wrappipe.EncapperEOF | cmd/wrappipe/wrappipe.go:55-59 | writes exactly the single byte `Z`, or dies when the write fails |
| Wrappipe.LoopStep | cmd/wrappipe/wrappipe.go:105-131 | in the loop, every byte met between frames is ignored; an escape completion other than `[`, `]`, `-` is fatal; at most one byte is emitted |
| Wrappipe.Sweep | cmd/wrappipe/wrappipe.go:104-131 | the loop decodes at most one byte per byte read |
| Wrappipe.PlanWrite | cmd/wrappipe/wrappipe.go:91-136 | a call between frames that starts with `Z` takes it as the end of transmission; a call between frames that starts with `<` counts one byte before running the loop on the rest; no more bytes are decoded than read |
| Wrappipe.Decapper.constructor | cmd/wrappipe/wrappipe.go:85-89 | a new decoder is Idle and has not seen `Z` |
| Wrappipe.Decapper.Write | cmd/wrappipe/wrappipe.go:91-136 | the call dies on a bad escape with nothing written. A leading `Z` between frames sets `succeeded` and reports 1 byte. Otherwise the state ends as the plan says and the writer receives the decoded bytes. The call reports `len(in)` on success, or (1 if a leading `<` was taken, else 0) with an error on a failed write |
| Wrappipe.SweepIdle | cmd/wrappipe/wrappipe.go:105-106 | bytes met between frames inside the loop are dropped, however many |
| Wrappipe.SweepStuffed | cmd/wrappipe/wrappipe.go:116-129 | a stuffed payload byte decodes back to itself and returns to Data |
| Wrappipe.SweepEscaped | cmd/wrappipe/wrappipe.go:107-129 | a frame body decodes to its payload, whatever follows it |
| Wrappipe.GoRoundTrip | cmd/wrappipe/wrappipe.go:91-136 | a call between frames carrying the frame for `b` and then anything delivers exactly `b`, ends Idle, and drops what followed the frame in that call |
| Wrappipe.EncapsulateRoundTrip | cmd/wrappipe/wrappipe.go:61-136 | `encapper.Write`'s frame for `b`, handed whole to a fresh `decapper`, delivers exactly `b` and leaves it Idle |
| Wrappipe.StrayFirstByte | cmd/wrappipe/wrappipe.go:92-106 | a call between frames whose first byte is neither `<` nor `Z` delivers nothing and stays Idle |
| Wrappipe.SweepAppend | cmd/wrappipe/wrappipe.go:105-131 | the loop over a concatenation runs over its parts in turn |
| Wrappipe.InFrameSplit | cmd/wrappipe/wrappipe.go:91-136 | inside a frame, two calls decode what one call over both halves decodes and leave the same state (or both die), provided the first call does not end between frames |
| Compare.InFrameStepsAgree | cmd/wrappipe/wrappipe.go:105-131 | inside a frame, the Go loop step and the Rust transition are the same table |
| Compare.AgreeOnFrame | cmd/wrappipe/wrappipe.go:91-136 | for one frame in one chunk both decoders deliver the payload and end Idle, with no error and no end of transmission |
| Compare.TwoFramesInOneChunk | cmd/wrappipe/wrappipe.go:111-112 | for two frames in one chunk, Rust delivers both payloads and Go only the first |
| Compare.TwoFramesDiffer | cmd/wrappipe/wrappipe.go:111-112 | on such a chunk the two deliveries differ exactly when the second payload is not empty |
| Compare.TrailingEof | cmd/wrappipe/wrappipe.go:105-112 | a `Z` in the same chunk right after a frame ends the Rust session with `Z` seen, while Go drops it and delivers the payload only |
| Compare.StrayByte | cmd/wp/src/main.rs:69-79 | a chunk that starts between frames with a byte other than `<` or `Z` is bad input at that byte for Rust, and is silently dropped whole by Go |

## Left out

- Processes and threads are not modelled: spawning the child, `child.kill`/`child.wait`, the two `mpsc` channels and the thread joins (cmd/wp/src/main.rs:195-296). Only their results enter the model: `Conclude` takes the wait status, the input thread's return value and whether the output thread ended without panicking (the result of `OutputWorker`), and `OutputWorker` takes the permission to write `Z`. Concurrency is left out because the worker loops are sequential.
- Reads are not modelled: each stream is the sequence of nonempty chunks `read` returned before the zero-length read that ends the loop (cmd/wp/src/main.rs:222-224, 257-259). Read errors, which panic through `expect`, are not modelled. The session functions `Feed` and `Transmission` and their lemmas also accept empty chunks; only `Pump` and `OutputWorker` require none.
- Command-line parsing with clap, and Go's `flag` package, are not part of this model.
- Diagnostic text (`eprintln!`, `log.Errorf`) is left out. Only the error, and for bad input its index, is modelled.
- Go's `main` is not part of this model. That covers the `io.Copy` callers, the unconditional `e.EOF()` after copying, the `succeeded` check, and context cancellation (cmd/wrappipe/wrappipe.go:138-210). One consequence is only recorded here: `decapper.Write` reports 1 for a chunk `Z…` longer than one byte, so `io.Copy` would stop with a short-write error.
- goodpipe.go (the pipeline runner) and goodpipe_test.go are not part of this model. The Rust no-op test `blatest` is left out as well.
- Wp.OutputWorker: `io::stdout()` is a line-buffered writer with a 1 KiB buffer, which is not modelled. A frame with no newline that fits the buffer is accepted with `Ok` without reaching the reader. A write error then shows up only at a later flush, forced by a newline or a full buffer, or is lost at exit. The model instead fails at the first write once the reader is gone. So the model's `Panic` from `Conclude` for a child that exits 0 with a short output under `-o` can be, in the source, a clean exit.
- Streams.Pipe.Write: a Rust `write` that accepts only part of its bytes and returns `Ok` is not modelled; the model's writes are all-or-nothing, so the unwritten tail that `add` and the output thread would lose is not captured.
- Wp.Decapper.Add: `count` is a `u64` in the source and an unbounded `nat` here; overflow after 2^64 bytes is not modelled.
- Wp.Conclude: a normally exited child's code is taken in 0..255. The Unix exit status cannot carry more. A panic is the outcome `Panic`; its exit code 101 is not modelled.
- `log.Fatal` is modelled as the outcome `Died`, not as process termination. Rust's `expect` panics are modelled as `Panic`, or as a worker returning false.
