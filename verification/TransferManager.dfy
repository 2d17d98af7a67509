/** Chunk framing over the byte stream (src/TransferManager.cpp). */
module TransferManager {
  import opened Bytes
  import opened Chunks

  const FRAME_HEADER_SIZE := 13

  /** What send_chunks writes for one chunk: five fields, and as many data bytes as the 16-bit size says. */
  function Frame(c: Chunk): seq<byte> {
    LE(c.sequenceNum, 8) + [if c.compressed then 1 else 0] + LE(c.originalSize, 2) + LE(c.Size(), 2)
    + c.data[..c.Size()]
  }

  /** The stream of the frames of all chunks. */
  function Stream(cs: seq<Chunk>): seq<byte> {
    if |cs| == 0 then [] else Stream(cs[..|cs| - 1]) + Frame(cs[|cs| - 1])
  }

  /** How many bytes the frame that starts with `b` has, as far as `b` tells. */
  function FrameLength(b: seq<byte>): nat {
    if |b| < FRAME_HEADER_SIZE then FRAME_HEADER_SIZE else FRAME_HEADER_SIZE + UnLE(b[11..13])
  }

  /** receive_chunks has read exactly one frame. */
  predicate Complete(b: seq<byte>) { |b| >= FRAME_HEADER_SIZE && |b| == FrameLength(b) }

  /** The chunk receive_chunks builds from a frame: the flag selects the constructor. */
  function Unframe(b: seq<byte>): Chunk
    requires Complete(b)
  {
    IntBounds(b);
    if b[8] != 0 then Transformed(UnLE(b[..8]), b[13..], UnLE(b[9..11])) else Plain(UnLE(b[..8]), b[13..])
  }

  lemma IntBounds(b: seq<byte>)
    requires |b| >= FRAME_HEADER_SIZE
    ensures UnLE(b[..8]) < 0x1_0000_0000_0000_0000
    ensures UnLE(b[9..11]) < 0x1_0000 && UnLE(b[11..13]) < 0x1_0000
  {
    LEofUnLE(b[..8]);
    LEofUnLE(b[9..11]);
    LEofUnLE(b[11..13]);
    Widths();
  }

  /** A chunk that survives framing. */
  predicate Framable(c: Chunk) {
    |c.data| <= 0xFFFF && (!c.compressed ==> c.originalSize == |c.data|)
  }

  lemma FrameParts(c: Chunk)
    ensures var f := Frame(c);
            && |f| == FRAME_HEADER_SIZE + c.Size()
            && f[..8] == LE(c.sequenceNum, 8) && f[8] == (if c.compressed then 1 else 0)
            && f[9..11] == LE(c.originalSize, 2) && f[11..13] == LE(c.Size(), 2)
            && f[13..] == c.data[..c.Size()]
            && UnLE(f[..8]) == c.sequenceNum && UnLE(f[9..11]) == c.originalSize && UnLE(f[11..13]) == c.Size()
  {
    Widths();
    UnLEofLE(c.sequenceNum, 8);
    UnLEofLE(c.originalSize, 2);
    UnLEofLE(c.Size(), 2);
    hide LE, UnLE;
    Fields(LE(c.sequenceNum, 8), [if c.compressed then 1 else 0], LE(c.originalSize, 2), LE(c.Size(), 2),
           c.data[..c.Size()]);
  }

  lemma Fields(n: seq<byte>, flag: seq<byte>, o: seq<byte>, k: seq<byte>, d: seq<byte>)
    requires |n| == 8 && |flag| == 1 && |o| == 2 && |k| == 2
    ensures var f := n + flag + o + k + d;
            f[..8] == n && f[8] == flag[0] && f[9..11] == o && f[11..13] == k && f[13..] == d
  {
  }

  /** A frame is read back as the chunk that was sent exactly when the chunk is framable:
      nothing of its data is beyond the 16-bit size, and an untransformed chunk records its own length. */
  lemma UnframeInvertsFrame(c: Chunk)
    ensures Complete(Frame(c))
    ensures Unframe(Frame(c)) == c <==> Framable(c)
  {
    hide LE, UnLE, Frame;
    FrameParts(c);
    var f := Frame(c);
    if Framable(c) {
      assert c.data[..c.Size()] == c.data;
    }
    if Unframe(f) == c {
      assert |c.data| == c.Size();
    }
  }

  /** Frames delimit themselves: a complete frame at the start of a stream of frames is the first of them. */
  lemma FrameIsPrefixCode(c: Chunk, rest: seq<byte>, b: seq<byte>)
    requires b <= Frame(c) + rest
    ensures FrameLength(b) <= |Frame(c)|
    ensures Complete(b) ==> b == Frame(c)
    ensures FrameLength(b) <= |b| ==> Complete(b) || Frame(c) <= b
    ensures FRAME_HEADER_SIZE <= |b| ==> FrameLength(b) == |Frame(c)|
  {
    hide LE, UnLE, Frame;
    FrameParts(c);
    if |b| >= FRAME_HEADER_SIZE {
      assert b[11..13] == Frame(c)[11..13];
    }
  }

  lemma StreamStep(cs: seq<Chunk>, i: nat)
    requires i < |cs|
    ensures Stream(cs[..i + 1]) == Stream(cs[..i]) + Frame(cs[i])
  {
    assert cs[..i + 1][..i] == cs[..i];
  }

  lemma {:induction false} StreamPrefix(cs: seq<Chunk>, i: nat, j: nat)
    requires i <= j <= |cs|
    ensures Stream(cs[..i]) <= Stream(cs[..j])
    decreases j - i
  {
    if i < j {
      hide Frame;
      StreamStep(cs, i);
      StreamPrefix(cs, i + 1, j);
    }
  }

  // ---- Sending and receiving, field by field ----

  /** A connected socket: what was written to it and what the peer's bytes still to be read are. */
  class TcpSocket {
    var written: seq<byte>
    var arriving: seq<byte>

    constructor (arriving: seq<byte>)
      ensures written == [] && this.arriving == arriving
    {
      this.written, this.arriving := [], arriving;
    }

    method Write(b: seq<byte>)
      modifies this`written
      ensures written == old(written) + b
    {
      written := written + b;
    }

    /** Blocks for exactly `n` bytes; when they never come, nothing is returned. */
    method Read(n: nat) returns (b: Option<seq<byte>>)
      modifies this`arriving
      ensures b.None? <==> |old(arriving)| < n
      ensures b.Some? ==> |b.value| == n && old(arriving) == b.value + arriving
    {
      if |arriving| < n {
        return None;
      }
      b := Some(arriving[..n]);
      arriving := arriving[n..];
    }
  }

  method SendChunk(socket: TcpSocket, c: Chunk)
    modifies socket`written
    ensures socket.written == old(socket.written) + Frame(c)
  {
    hide LE;
    socket.Write(LE(c.sequenceNum, 8));
    socket.Write([if c.compressed then 1 else 0]);
    socket.Write(LE(c.originalSize, 2));
    var chunkSize := c.Size();
    socket.Write(LE(chunkSize, 2));
    socket.Write(c.data[..chunkSize]);
  }

  datatype Ending = Finished | Aborted | Blocked

  /** Sends the chunks in order, as many as it takes before the flag is seen; `abort` gives the value of every load. */
  method SendChunks(socket: TcpSocket, cs: seq<Chunk>, abort: nat -> bool) returns (chunksSent: nat, ending: Ending)
    modifies socket`written
    ensures chunksSent <= |cs| && socket.written == old(socket.written) + Stream(cs[..chunksSent])
    ensures ending.Finished? ==> chunksSent == |cs| && socket.written == old(socket.written) + Stream(cs)
    ensures !ending.Finished? ==> ending.Aborted? && abort(chunksSent)
    ensures forall k :: 0 <= k < chunksSent || (k == |cs| && ending.Finished?) ==> !abort(k)
  {
    hide Frame;
    assert Stream(cs[..0]) == [];
    chunksSent := 0;
    while true
      invariant chunksSent <= |cs| && socket.written == old(socket.written) + Stream(cs[..chunksSent])
      invariant forall k :: 0 <= k < chunksSent ==> !abort(k)
      decreases |cs| - chunksSent
    {
      if abort(chunksSent) {
        return chunksSent, Aborted;
      }
      if chunksSent == |cs| {
        break;
      }
      StreamStep(cs, chunksSent);
      SendChunk(socket, cs[chunksSent]);
      chunksSent := chunksSent + 1;
    }
    assert cs[..|cs|] == cs;
    ending := Finished;
  }

  /** The chunks of the complete frames at the start of `b`, at most `n`. */
  function Received(b: seq<byte>, n: nat): (cs: seq<Chunk>)
    ensures |cs| <= n
    decreases n
  {
    var k := FrameLength(b);
    if n == 0 || |b| < FRAME_HEADER_SIZE || |b| < k then [] else
      FirstFrame(b);
      [Unframe(b[..k])] + Received(b[k..], n - 1)
  }

  lemma FirstFrame(b: seq<byte>)
    requires |b| >= FRAME_HEADER_SIZE && |b| >= FrameLength(b)
    ensures Complete(b[..FrameLength(b)])
  {
    var k := FrameLength(b);
    assert b[..k][11..13] == b[11..13];
  }

  /** One iteration of receive_chunks: five blocking reads. */
  method ReceiveChunk(socket: TcpSocket) returns (c: Option<Chunk>)
    modifies socket`arriving
    ensures var b := old(socket.arriving);
            if |b| < FRAME_HEADER_SIZE || |b| < FrameLength(b) then c == None
            else
              && Complete(b[..FrameLength(b)]) && c == Some(Unframe(b[..FrameLength(b)]))
              && socket.arriving == b[FrameLength(b)..]
  {
    hide UnLE;
    ghost var b := socket.arriving;
    var sequenceNum := socket.Read(8);
    if sequenceNum.None? { return None; }
    assert sequenceNum.value == b[..8];
    var flag := socket.Read(1);
    if flag.None? { return None; }
    var originalSize := socket.Read(2);
    if originalSize.None? { return None; }
    assert originalSize.value == b[9..11];
    var chunkSize := socket.Read(2);
    if chunkSize.None? { return None; }
    assert chunkSize.value == b[11..13] && b[13..] == socket.arriving;
    IntBounds(b);
    var buffer := socket.Read(UnLE(chunkSize.value));
    if buffer.None? { return None; }
    ghost var f := b[..FrameLength(b)];
    FirstFrame(b);
    assert f[..8] == b[..8] && f[9..11] == b[9..11] && f[8] == flag.value[0];
    assert f[13..] == buffer.value;
    c := Some(if flag.value[0] != 0
              then Transformed(UnLE(sequenceNum.value), buffer.value, UnLE(originalSize.value))
              else Plain(UnLE(sequenceNum.value), buffer.value));
  }

  /** Receives up to `numChunks` chunks and passes them on in order; stops early only when the flag is seen or
      bytes are missing. */
  method ReceiveChunks(socket: TcpSocket, numChunks: nat, abort: nat -> bool) returns (cs: seq<Chunk>, ending: Ending)
    modifies socket`arriving
    ensures cs <= Received(old(socket.arriving), numChunks)
    ensures !ending.Aborted? ==> cs == Received(old(socket.arriving), numChunks)
    ensures ending.Aborted? ==> |cs| < numChunks && abort(|cs|)
    ensures ending.Finished? <==> |cs| == numChunks
    ensures forall k :: 0 <= k < |cs| || (k == |cs| && ending.Blocked?) ==> !abort(k)
  {
    hide Unframe, FrameLength, Received;
    cs := [];
    ghost var b := socket.arriving;
    assert [] + Received(b, numChunks) == Received(b, numChunks);
    for i := 0 to numChunks
      invariant |cs| == i && forall k :: 0 <= k < i ==> !abort(k)
      invariant Received(b, numChunks) == cs + Received(socket.arriving, numChunks - i)
    {
      if abort(i) {
        return cs, Aborted;
      }
      Peel(socket.arriving, numChunks - i);
      var c := ReceiveChunk(socket);
      if c.None? {
        assert cs + [] == cs;
        return cs, Blocked;
      }
      Associate(cs, [c.value], Received(socket.arriving, numChunks - i - 1));
      cs := cs + [c.value];
    }
    assert Received(socket.arriving, 0) == [] && cs + [] == cs;
    ending := Finished;
  }

  lemma Peel(b: seq<byte>, n: nat)
    requires n > 0
    ensures var k := FrameLength(b);
            if |b| < FRAME_HEADER_SIZE || |b| < k then Received(b, n) == []
            else Complete(b[..k]) && Received(b, n) == [Unframe(b[..k])] + Received(b[k..], n - 1)
  {
    hide FrameLength, Unframe;
    if |b| >= FRAME_HEADER_SIZE && |b| >= FrameLength(b) { FirstFrame(b); }
  }

  // ---- The stream round trip ----

  lemma {:induction false} StreamFront(c: Chunk, cs: seq<Chunk>)
    ensures Stream([c] + cs) == Frame(c) + Stream(cs)
    decreases |cs|
  {
    hide Frame;
    var all := [c] + cs;
    if |cs| == 0 {
      assert all[..0] == [] && Stream(all[..0]) == [];
    } else {
      var m := |cs| - 1;
      assert all[..m + 1] == [c] + cs[..m];
      StreamFront(c, cs[..m]);
    }
  }

  /** However much of the stream has been delivered, what the receiver has passed on is
      a beginning of what was sent; after complete delivery it is everything. */
  lemma {:induction false} DeliveredPrefix(cs: seq<Chunk>, b: seq<byte>)
    requires forall i :: 0 <= i < |cs| ==> Framable(cs[i])
    requires b <= Stream(cs)
    ensures Received(b, |cs|) <= cs
    ensures b == Stream(cs) ==> Received(b, |cs|) == cs
    decreases |cs|
  {
    hide Frame, Unframe;
    if |cs| > 0 {
      var c, rest := cs[0], cs[1..];
      assert cs == [c] + rest;
      StreamFront(c, rest);
      FrameIsPrefixCode(c, Stream(rest), b);
      FrameParts(c);
      var k := FrameLength(b);
      if |b| >= FRAME_HEADER_SIZE && |b| >= k {
        FirstFrame(b);
        FrameIsPrefixCode(c, Stream(rest), b[..k]);
        UnframeInvertsFrame(c);
        DeliveredPrefix(rest, b[k..]);
      }
    }
  }
}
