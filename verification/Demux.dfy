/**
 The exec-stream demultiplexer (supervisor/internal/agentcontainer/demux.go).

 The Docker Engine API ("Attach to a container", section "Stream format") frames both output
 streams of an exec into one byte stream: an 8-byte header [stream, pad, pad, pad, size (4 bytes,
 big-endian)] and then `size` payload bytes. `DemuxRawStream` is the supervisor's loop over that
 stream; `Demux` is the function it computes, whatever sizes the reads come back in.
 */
module Demux {

  newtype Byte = b: int | 0 <= b < 256

  const HEADER_SIZE: nat := 8
  const MAX_PAYLOAD: nat := 0x1_0000_0000

  /** How the raw body stops yielding bytes: io.EOF, or any other read error. */
  datatype Tail = CleanEof | TornDown

  /** What both demuxed readers see once their bytes are drained. */
  datatype End = Eof | UnexpectedEof | Torn | Malformed(stream: Byte)

  datatype Split = Split(out: seq<Byte>, err: seq<Byte>, end: End)

  datatype Frame = Frame(stream: Byte, pad: seq<Byte>, payload: seq<Byte>)

  // ---------------------------------------------------------------- the function computed

  function EndOf(tail: Tail): End {
    if tail.CleanEof? then Eof else Torn
  }

  function BigEndian(b: seq<Byte>): (n: nat)
    requires |b| == 4
    ensures n < MAX_PAYLOAD
  {
    b[0] as nat * 0x100_0000 + b[1] as nat * 0x1_0000 + b[2] as nat * 0x100 + b[3] as nat
  }

  /** `s` with more bytes in front of both of its outputs. */
  function Prepend(out: seq<Byte>, err: seq<Byte>, s: Split): Split {
    s.(out := out + s.out, err := err + s.err)
  }

  function OutPart(stream: Byte, payload: seq<Byte>): seq<Byte> {
    if stream == 2 then [] else payload
  }

  function ErrPart(stream: Byte, payload: seq<Byte>): seq<Byte> {
    if stream == 2 then payload else []
  }

  /** Does `data` start with a whole frame? */
  predicate HasFrame(data: seq<Byte>) {
    |data| >= HEADER_SIZE && data[0] <= 2 && SizeField(data) <= |data| - HEADER_SIZE
  }

  function SizeField(data: seq<Byte>): nat
    requires |data| >= HEADER_SIZE
  {
    BigEndian(data[4..HEADER_SIZE])
  }

  function Payload(data: seq<Byte>): seq<Byte>
    requires HasFrame(data)
  {
    data[HEADER_SIZE..HEADER_SIZE + SizeField(data)]
  }

  function After(data: seq<Byte>): (rest: seq<Byte>)
    requires HasFrame(data)
    ensures |rest| < |data|
  {
    data[HEADER_SIZE + SizeField(data)..]
  }

  /** What a remainder without a whole frame delivers, and how it ends. */
  function Remainder(data: seq<Byte>, tail: Tail): Split
    requires !HasFrame(data)
  {
    if |data| == 0 then
      Split([], [], EndOf(tail))
    else if |data| < HEADER_SIZE then
      Split([], [], if tail.CleanEof? then UnexpectedEof else Torn)
    else if data[0] > 2 then
      Split([], [], Malformed(data[0]))
    else
      Split(OutPart(data[0], data[HEADER_SIZE..]), ErrPart(data[0], data[HEADER_SIZE..]), EndOf(tail))
  }

  function Demux(data: seq<Byte>, tail: Tail): Split
    decreases |data|
  {
    if HasFrame(data) then
      Prepend(OutPart(data[0], Payload(data)), ErrPart(data[0], Payload(data)), Demux(After(data), tail))
    else
      Remainder(data, tail)
  }

  // ---------------------------------------------------------------- the encoder it inverts

  predicate ValidFrame(f: Frame) {
    f.stream <= 2 && |f.pad| == 3 && |f.payload| < MAX_PAYLOAD
  }

  ghost predicate ValidFrames(frames: seq<Frame>) {
    forall i :: 0 <= i < |frames| ==> ValidFrame(frames[i])
  }

  function EncodeSize(n: nat): (b: seq<Byte>)
    requires n < MAX_PAYLOAD
    ensures |b| == 4
  {
    [(n / 0x100_0000) as Byte, (n / 0x1_0000 % 0x100) as Byte, (n / 0x100 % 0x100) as Byte, (n % 0x100) as Byte]
  }

  function EncodeFrame(f: Frame): (b: seq<Byte>)
    requires ValidFrame(f)
    ensures |b| == HEADER_SIZE + |f.payload|
  {
    [f.stream] + f.pad + EncodeSize(|f.payload|) + f.payload
  }

  function Encode(frames: seq<Frame>): seq<Byte>
    requires ValidFrames(frames)
  {
    if frames == [] then [] else EncodeFrame(frames[0]) + Encode(frames[1..])
  }

  /** Everything the process wrote to its standard output (and the stdin echo). */
  function Stdout(frames: seq<Frame>): seq<Byte> {
    if frames == [] then [] else (if frames[0].stream != 2 then frames[0].payload else []) + Stdout(frames[1..])
  }

  function Stderr(frames: seq<Frame>): seq<Byte> {
    if frames == [] then [] else (if frames[0].stream == 2 then frames[0].payload else []) + Stderr(frames[1..])
  }

  // ---------------------------------------------------------------- round trip

  lemma SizeRoundTrip(n: nat)
    requires n < MAX_PAYLOAD
    ensures BigEndian(EncodeSize(n)) == n
  {
    assert n / 0x1_0000 == n / 0x100 / 0x100;
    assert n / 0x100_0000 == n / 0x1_0000 / 0x100;
  }

  lemma {:induction false} HeadFrame(f: Frame, rest: seq<Byte>)
    requires ValidFrame(f)
    ensures var data := EncodeFrame(f) + rest;
            HasFrame(data) && data[0] == f.stream && Payload(data) == f.payload && After(data) == rest
  {
    var data := EncodeFrame(f) + rest;
    SizeRoundTrip(|f.payload|);
    assert data[4..8] == EncodeSize(|f.payload|);
    assert data[8..8 + |f.payload|] == f.payload;
  }

  lemma PrependTwice(o1: seq<Byte>, e1: seq<Byte>, o2: seq<Byte>, e2: seq<Byte>, s: Split)
    ensures Prepend(o1, e1, Prepend(o2, e2, s)) == Prepend(o1 + o2, e1 + e2, s)
  {
    assert o1 + (o2 + s.out) == o1 + o2 + s.out;
    assert e1 + (e2 + s.err) == e1 + e2 + s.err;
  }

  lemma {:induction false} DemuxFrame(f: Frame, rest: seq<Byte>, tail: Tail)
    requires ValidFrame(f)
    ensures Demux(EncodeFrame(f) + rest, tail)
         == Prepend(OutPart(f.stream, f.payload), ErrPart(f.stream, f.payload), Demux(rest, tail))
  {
    HeadFrame(f, rest);
  }

  /** Whole frames in front are delivered whole, and the rest is demuxed as if it were alone. */
  lemma {:induction false} DemuxFrames(frames: seq<Frame>, rest: seq<Byte>, tail: Tail)
    requires ValidFrames(frames)
    ensures Demux(Encode(frames) + rest, tail) == Prepend(Stdout(frames), Stderr(frames), Demux(rest, tail))
  {
    hide Demux;
    if frames == [] {
      assert Encode(frames) + rest == rest;
    } else {
      hide EncodeFrame;
      var f, others := frames[0], frames[1..];
      var more := Encode(others) + rest;
      assert Encode(frames) + rest == EncodeFrame(f) + more;
      DemuxFrame(f, more, tail);
      DemuxFrames(others, rest, tail);
      PrependTwice(OutPart(f.stream, f.payload), ErrPart(f.stream, f.payload),
                   Stdout(others), Stderr(others), Demux(rest, tail));
    }
  }

  /** Demultiplexing undoes framing, for every frame list and whatever the pad bytes hold. */
  lemma {:induction false} RoundTrip(frames: seq<Frame>, tail: Tail)
    requires ValidFrames(frames)
    ensures Demux(Encode(frames), tail) == Split(Stdout(frames), Stderr(frames), EndOf(tail))
  {
    DemuxFrames(frames, [], tail);
    assert Encode(frames) + [] == Encode(frames);
  }

  /** A header with an unknown stream byte ends both sides with that error, after everything before it. */
  lemma {:induction false} UnknownStreamEndsBoth(frames: seq<Frame>, bad: seq<Byte>, tail: Tail)
    requires ValidFrames(frames)
    requires |bad| >= HEADER_SIZE && bad[0] > 2
    ensures Demux(Encode(frames) + bad, tail) == Split(Stdout(frames), Stderr(frames), Malformed(bad[0]))
  {
    DemuxFrames(frames, bad, tail);
  }

  // ---------------------------------------------------------------- truncation

  /**
   Cutting any input anywhere, framed or not, never changes or reorders a byte already delivered:
   both outputs are prefixes of what the uncut input gives.
   */
  lemma {:induction false} CutIsPrefix(data: seq<Byte>, k: nat, cutTail: Tail, tail: Tail)
    requires k <= |data|
    ensures Demux(data[..k], cutTail).out <= Demux(data, tail).out
    ensures Demux(data[..k], cutTail).err <= Demux(data, tail).err
    decreases |data|
  {
    var cut := data[..k];
    if k >= HEADER_SIZE && data[0] <= 2 {
      assert cut[4..8] == data[4..8];
      var size := SizeField(data);
      assert SizeField(cut) == size;
      if HasFrame(cut) {
        CutAfterFrame(data, k);
        hide HasFrame, SizeField, BigEndian;
        var more, cutMore := Demux(After(data), tail), Demux(After(cut), cutTail);
        CutIsPrefix(After(data), k - 8 - size, cutTail, tail);
        PrependKeepsPrefix(OutPart(data[0], Payload(data)), cutMore.out, more.out);
        PrependKeepsPrefix(ErrPart(data[0], Payload(data)), cutMore.err, more.err);
      } else {
        CutPayloadIsPrefix(data, k, tail);
      }
    }
  }

  lemma CutAfterFrame(data: seq<Byte>, k: nat)
    requires k <= |data| && HasFrame(data[..k])
    ensures HasFrame(data) && SizeField(data[..k]) == SizeField(data)
    ensures Payload(data[..k]) == Payload(data)
    ensures After(data[..k]) == After(data)[..k - 8 - SizeField(data)]
  {
    assert data[..k][4..8] == data[4..8];
  }

  lemma PrependKeepsPrefix(front: seq<Byte>, a: seq<Byte>, b: seq<Byte>)
    requires a <= b
    ensures front + a <= front + b
  {
  }

  lemma CutPayloadIsPrefix(data: seq<Byte>, k: nat, tail: Tail)
    requires HEADER_SIZE <= k <= |data| && data[0] <= 2 && k < HEADER_SIZE + SizeField(data)
    ensures OutPart(data[0], data[8..k]) <= Demux(data, tail).out
    ensures ErrPart(data[0], data[8..k]) <= Demux(data, tail).err
  {
    if HasFrame(data) {
      assert data[8..k] <= Payload(data);
    } else {
      assert data[8..k] <= data[8..];
    }
  }

  /** The whole frames at the front of `data`, and what is left once no further frame is complete. */
  function Whole(data: seq<Byte>): (r: (seq<Frame>, seq<Byte>))
    decreases |data|
  {
    if HasFrame(data) then
      var (frames, rest) := Whole(After(data));
      ([Frame(data[0], data[1..4], Payload(data))] + frames, rest)
    else
      ([], data)
  }

  lemma {:induction false} SizeUnique(b: seq<Byte>)
    requires |b| == 4
    ensures EncodeSize(BigEndian(b)) == b
  {
    var n, b0, b1, b2, b3 := BigEndian(b), b[0] as nat, b[1] as nat, b[2] as nat, b[3] as nat;
    assert n % 0x100 == b3;
    assert n / 0x100 == b0 * 0x1_0000 + b1 * 0x100 + b2;
    assert n / 0x1_0000 == n / 0x100 / 0x100 == b0 * 0x100 + b1;
    assert n / 0x100_0000 == n / 0x1_0000 / 0x100 == b0;
  }

  /** The first byte that differs decides which size is larger: the most significant one comes first. */
  lemma {:induction false} BigEndianOrder(a: seq<Byte>, b: seq<Byte>, k: nat)
    requires |a| == |b| == 4 && k < 4 && a[..k] == b[..k] && a[k] < b[k]
    ensures BigEndian(a) < BigEndian(b)
  {
    assert forall i :: 0 <= i < k ==> a[i] == a[..k][i] == b[..k][i] == b[i];
  }

  /** A whole frame in front is the encoding of its own parts. */
  lemma {:induction false} FrameInFront(data: seq<Byte>)
    requires HasFrame(data)
    ensures var f := Frame(data[0], data[1..4], Payload(data));
            ValidFrame(f) && data == EncodeFrame(f) + After(data)
  {
    SizeUnique(data[4..8]);
    assert data[..4] == [data[0]] + data[1..4];
    assert data == data[..4] + data[4..8] + Payload(data) + After(data);
  }

  /** Every byte string is some whole frames followed by a remainder that holds no complete frame. */
  lemma {:induction false} WholeDecomposes(data: seq<Byte>)
    ensures ValidFrames(Whole(data).0)
    ensures data == Encode(Whole(data).0) + Whole(data).1
    ensures !HasFrame(Whole(data).1)
    decreases |data|
  {
    if HasFrame(data) {
      WholeDecomposes(After(data));
      FrameInFront(data);
      var f := Frame(data[0], data[1..4], Payload(data));
      var (frames, rest) := Whole(After(data));
      assert ([f] + frames)[1..] == frames;
      assert EncodeFrame(f) + (Encode(frames) + rest) == EncodeFrame(f) + Encode(frames) + rest;
    } else {
      assert Encode([]) + data == data;
    }
  }

  /**
   The end both readers see, for every byte string: it depends only on the incomplete remainder.
   A cut payload (header complete, payload short) is not told apart from a clean end: `io.CopyN`
   answers a short copy with io.EOF, and closing a pipe with io.EOF is closing it cleanly.
   */
  lemma {:induction false} EndClassified(data: seq<Byte>)
    ensures var rest := Whole(data).1; var end := Demux(data, CleanEof).end;
            && (end == UnexpectedEof <==> 0 < |rest| < HEADER_SIZE)
            && (end.Malformed? <==> |rest| >= HEADER_SIZE && rest[0] > 2)
            && (end == Eof <==> rest == [] || (|rest| >= HEADER_SIZE && rest[0] <= 2))
            && Demux(data, TornDown).end == (if end.Malformed? then end else Torn)
  {
    WholeDecomposes(data);
    DemuxFrames(Whole(data).0, Whole(data).1, CleanEof);
    DemuxFrames(Whole(data).0, Whole(data).1, TornDown);
  }

  /** The bytes delivered, for every byte string: the whole frames and, after them, the cut payload. */
  lemma {:induction false} BytesDelivered(data: seq<Byte>, tail: Tail)
    ensures var (frames, rest) := Whole(data);
            var partial := if |rest| >= HEADER_SIZE && rest[0] <= 2 then rest[8..] else [];
            && Demux(data, tail).out == Stdout(frames) + (if partial != [] && rest[0] != 2 then partial else [])
            && Demux(data, tail).err == Stderr(frames) + (if partial != [] && rest[0] == 2 then partial else [])
  {
    WholeDecomposes(data);
    DemuxFrames(Whole(data).0, Whole(data).1, tail);
  }

  /** Is a cut after `k` bytes strictly inside one of the frames' headers? */
  predicate InsideHeader(frames: seq<Frame>, k: nat) {
    if frames == [] || k == 0 then false
    else if k < HEADER_SIZE then true
    else if k <= HEADER_SIZE + |frames[0].payload| then false
    else InsideHeader(frames[1..], k - HEADER_SIZE - |frames[0].payload|)
  }

  /** How many of the first `k` bytes are header bytes. */
  function HeaderBytes(frames: seq<Frame>, k: nat): nat {
    if frames == [] then 0
    else if k <= HEADER_SIZE then k
    else if k <= HEADER_SIZE + |frames[0].payload| then HEADER_SIZE
    else HEADER_SIZE + HeaderBytes(frames[1..], k - HEADER_SIZE - |frames[0].payload|)
  }

  /**
   A well-framed stream cut after any `k` bytes: the readers get an error exactly when the cut is
   inside a header, and every payload byte among those `k` is delivered, none lost.
   */
  lemma {:induction false} CutStream(frames: seq<Frame>, k: nat)
    requires ValidFrames(frames) && k <= |Encode(frames)|
    ensures var s := Demux(Encode(frames)[..k], CleanEof);
            && s.end == (if InsideHeader(frames, k) then UnexpectedEof else Eof)
            && |s.out| + |s.err| + HeaderBytes(frames, k) == k
    decreases |frames|
  {
    if frames != [] {
      var f, len := frames[0], HEADER_SIZE + |frames[0].payload|;
      var cut := Encode(frames)[..k];
      if k < len {
        CutFrame(f, Encode(frames[1..]), k);
      } else {
        assert cut == EncodeFrame(f) + Encode(frames[1..])[..k - len];
        HeadFrame(f, Encode(frames[1..])[..k - len]);
        CutStream(frames[1..], k - len);
      }
    }
  }

  lemma {:induction false} CutFrame(f: Frame, rest: seq<Byte>, k: nat)
    requires ValidFrame(f) && k < HEADER_SIZE + |f.payload|
    ensures var s := Demux((EncodeFrame(f) + rest)[..k], CleanEof);
            && s.end == (if 0 < k < HEADER_SIZE then UnexpectedEof else Eof)
            && |s.out| + |s.err| == if k < HEADER_SIZE then 0 else k - HEADER_SIZE
  {
    var cut := (EncodeFrame(f) + rest)[..k];
    if k >= HEADER_SIZE {
      SizeRoundTrip(|f.payload|);
      assert cut[4..8] == EncodeSize(|f.payload|);
      assert !HasFrame(cut);
    }
  }

  // ---------------------------------------------------------------- the reader and the loop

  datatype ReadError = NoError | Stop(tail: Tail)

  /** The exec-start response body: `Read` hands out any non-empty chunk it likes. */
  class RawStream {
    const data: seq<Byte>
    const tail: Tail
    var pos: nat

    constructor (data: seq<Byte>, tail: Tail)
      ensures this.data == data && this.tail == tail && pos == 0
    {
      this.data, this.tail, pos := data, tail, 0;
    }

    ghost predicate Valid()
      reads this
    {
      pos <= |data|
    }

    /** Reads at most `limit` bytes; the final error may come with the last bytes or after them. */
    method Read(limit: nat) returns (chunk: seq<Byte>, err: ReadError)
      requires Valid() && limit > 0
      modifies this`pos
      ensures Valid() && pos == old(pos) + |chunk| && chunk == data[old(pos)..pos]
      ensures |chunk| <= limit
      ensures err.NoError? ==> chunk != []
      ensures err.Stop? ==> err.tail == tail && pos == |data|
    {
      if pos == |data| {
        return [], Stop(tail);
      }
      var n: nat :| 0 < n <= limit && pos + n <= |data|;
      chunk := data[pos..pos + n];
      pos := pos + n;
      err := NoError;
      if pos == |data| {
        var eager: bool := *;
        if eager {
          err := Stop(tail);
        }
      }
    }
  }

  /** One side of the demuxed output: what was written to it, and how it was closed. */
  class PipeWriter {
    var written: seq<Byte>
    var closed: bool
    var end: End

    constructor ()
      ensures written == [] && !closed
    {
      written, closed, end := [], false, Eof;
    }

    method Write(bytes: seq<Byte>)
      requires !closed
      modifies this`written
      ensures written == old(written) + bytes
    {
      written := written + bytes;
    }

    method CloseWithError(e: End)
      requires !closed
      modifies this`closed, this`end
      ensures closed && end == e
    {
      closed, end := true, e;
    }
  }

  datatype FullRead = Full(header: seq<Byte>) | Short(end: End)

  /** io.ReadFull: keeps reading until `n` bytes are in, or says how the stream ended. */
  method ReadFull(raw: RawStream, n: nat) returns (r: FullRead)
    requires raw.Valid() && n > 0
    modifies raw`pos
    ensures raw.Valid()
    ensures var left := |raw.data| - old(raw.pos);
            if n <= left then
              r == Full(raw.data[old(raw.pos)..old(raw.pos) + n]) && raw.pos == old(raw.pos) + n
            else
              raw.pos == |raw.data|
              && r == Short(if raw.tail.TornDown? then Torn else if left == 0 then Eof else UnexpectedEof)
  {
    var got: seq<Byte> := [];
    var err := NoError;
    while |got| < n && err.NoError?
      invariant raw.Valid() && |got| <= n
      invariant raw.pos == old(raw.pos) + |got| && got == raw.data[old(raw.pos)..raw.pos]
      invariant err.Stop? ==> err.tail == raw.tail && raw.pos == |raw.data|
      decreases n - |got|, err.NoError?
    {
      var chunk;
      chunk, err := raw.Read(n - |got|);
      got := got + chunk;
    }
    if |got| == n {
      return Full(got);
    } else if err.tail.TornDown? {
      return Short(Torn);
    } else {
      return Short(if got == [] then Eof else UnexpectedEof);
    }
  }

  /** io.CopyN: a short copy that hit io.EOF reports io.EOF, not an unexpected end. */
  method CopyN(dst: PipeWriter, raw: RawStream, size: nat) returns (complete: bool, end: End)
    requires raw.Valid() && !dst.closed
    modifies raw`pos, dst`written
    ensures raw.Valid()
    ensures var n := if size <= |raw.data| - old(raw.pos) then size else |raw.data| - old(raw.pos);
            raw.pos == old(raw.pos) + n && dst.written == old(dst.written) + raw.data[old(raw.pos)..raw.pos]
    ensures complete <==> size <= |raw.data| - old(raw.pos)
    ensures !complete ==> end == EndOf(raw.tail)
  {
    var written := 0;
    var err := NoError;
    while written < size && err.NoError?
      invariant raw.Valid() && written <= size
      invariant raw.pos == old(raw.pos) + written
      invariant dst.written == old(dst.written) + raw.data[old(raw.pos)..raw.pos]
      invariant err.Stop? ==> err.tail == raw.tail && raw.pos == |raw.data|
      decreases size - written, err.NoError?
    {
      var chunk;
      chunk, err := raw.Read(size - written);
      dst.Write(chunk);
      written := written + |chunk|;
    }
    complete := written == size;
    end := if complete then Eof else EndOf(err.tail);
  }

  /** The loop's step when a header arrives whole and names a known stream; the copy stops at `next`. */
  lemma FrameAt(data: seq<Byte>, pos: nat, size: nat, next: nat, tail: Tail, o: seq<Byte>, e: seq<Byte>)
    requires pos + HEADER_SIZE <= next <= |data| && data[pos] <= 2
    requires size == BigEndian(data[pos + 4..pos + 8])
    requires next == if pos + HEADER_SIZE + size <= |data| then pos + HEADER_SIZE + size else |data|
    ensures var payload := data[pos + HEADER_SIZE..next];
            Prepend(o, e, Demux(data[pos..], tail)) ==
            Prepend(o + OutPart(data[pos], payload), e + ErrPart(data[pos], payload),
                    if pos + HEADER_SIZE + size <= |data| then Demux(data[next..], tail)
                    else Split([], [], EndOf(tail)))
  {
    var left, payload := data[pos..], data[pos + HEADER_SIZE..next];
    assert left[4..8] == data[pos + 4..pos + 8];
    if pos + HEADER_SIZE + size <= |data| {
      assert Payload(left) == payload && After(left) == data[next..];
      PrependTwice(o, e, OutPart(data[pos], payload), ErrPart(data[pos], payload), Demux(data[next..], tail));
    } else {
      assert left[8..] == payload;
      PrependTwice(o, e, OutPart(data[pos], payload), ErrPart(data[pos], payload), Split([], [], EndOf(tail)));
    }
  }

  /** The loop's two exits without a payload: no whole header, or an unknown stream byte. */
  lemma NoFrameAt(data: seq<Byte>, pos: nat, tail: Tail, o: seq<Byte>, e: seq<Byte>)
    requires pos <= |data| && (pos + HEADER_SIZE <= |data| ==> data[pos] > 2)
    ensures Prepend(o, e, Demux(data[pos..], tail)) ==
            Split(o, e, if pos + HEADER_SIZE <= |data| then Malformed(data[pos])
                        else if tail.TornDown? then Torn
                        else if pos == |data| then Eof else UnexpectedEof)
  {
  }

  /**
   The demux goroutine: whatever chunk sizes the reads come back in, both pipes end up holding
   exactly the bytes `Demux` assigns to them and closed with the same end.
   */
  method DemuxRawStream(raw: RawStream) returns (outW: PipeWriter, errW: PipeWriter)
    requires raw.Valid()
    modifies raw`pos
    ensures fresh(outW) && fresh(errW) && outW != errW
    ensures outW.closed && errW.closed && outW.end == errW.end
    ensures Split(outW.written, errW.written, outW.end) == Demux(raw.data[old(raw.pos)..], raw.tail)
  {
    outW := new PipeWriter();
    errW := new PipeWriter();
    hide Demux;
    ghost var left := Demux(raw.data[raw.pos..], raw.tail);
    ghost var whole := left;
    while true
      invariant raw.Valid() && fresh(outW) && fresh(errW) && outW != errW
      invariant !outW.closed && !errW.closed
      invariant left == Demux(raw.data[raw.pos..], raw.tail)
      invariant Prepend(outW.written, errW.written, left) == whole
      decreases |raw.data| - raw.pos
    {
      ghost var start := raw.pos;
      var r := ReadFull(raw, HEADER_SIZE);
      if r.Short? {
        outW.CloseWithError(r.end);
        errW.CloseWithError(r.end);
        NoFrameAt(raw.data, start, raw.tail, outW.written, errW.written);
        return;
      }
      var header := r.header;
      if header[0] > 2 {
        outW.CloseWithError(Malformed(header[0]));
        errW.CloseWithError(Malformed(header[0]));
        NoFrameAt(raw.data, start, raw.tail, outW.written, errW.written);
        return;
      }
      var dst := if header[0] == 2 then errW else outW;
      var size := BigEndian(header[4..HEADER_SIZE]);
      assert header[4..HEADER_SIZE] == raw.data[start + 4..start + 8];
      ghost var o, e := outW.written, errW.written;
      var complete, end := CopyN(dst, raw, size);
      FrameAt(raw.data, start, size, raw.pos, raw.tail, o, e);
      assert outW.written == o + OutPart(header[0], raw.data[start + HEADER_SIZE..raw.pos]);
      assert errW.written == e + ErrPart(header[0], raw.data[start + HEADER_SIZE..raw.pos]);
      left := if complete then Demux(raw.data[raw.pos..], raw.tail) else Split([], [], end);
      if !complete {
        outW.CloseWithError(end);
        errW.CloseWithError(end);
        return;
      }
    }
  }
}
