/** What every step of each stage keeps, stated against the fixed list of chunks the stage should
    take (`ins`) and the fixed list it should produce (`outs`). */
module StageInvariants {
  import opened Bytes
  import opened Chunks
  import opened TransferRequests
  import opened Packing
  import opened Cutting
  import opened TransferManager
  import opened Threads
  import opened Stages

  // ---- Reader ----

  ghost predicate ReaderHolds(r: Request, files: seq<seq<byte>>, t: ReaderThread, pos: nat, pushed: seq<Chunk>)
    requires t.file <= |files| && (t.file < |files| ==> pos <= |files[t.file]|)
  {
    Packed(r, |Flatten(files)|, Consumed(files, t.file, pos), pushed, t.filled, t.capacity, t.counter)
  }

  ghost predicate ReaderInv(r: Request, files: seq<seq<byte>>, t: ReaderThread, output: Fifo<Chunk>, abort: bool) {
    && Planned(r, |Flatten(files)|)
    && output.pushed <= PlanChunks(r, Flatten(files))
    && (output.done <==> t.life.Exited?)
    && match t.life
       case Live(NextFile) => t.file <= |files| && ReaderHolds(r, files, t, 0, output.pushed) && |t.filled| < t.capacity
       case Live(ReadLoop) =>
         && t.file < |files| && t.remaining <= |files[t.file]|
         && ReaderHolds(r, files, t, |files[t.file]| - t.remaining, output.pushed) && |t.filled| < t.capacity
       case Live(PushChunk) =>
         && t.file < |files| && t.remaining <= |files[t.file]|
         && ReaderHolds(r, files, t, |files[t.file]| - t.remaining, output.pushed) && |t.filled| == t.capacity
       case Live(StoreReadDone(normal)) => if normal then output.pushed == PlanChunks(r, Flatten(files)) else abort
       case Exited(normal) => if normal then output.pushed == PlanChunks(r, Flatten(files)) else abort
       case _ => true
  }

  lemma ReaderKeeps(r: Request, files: seq<seq<byte>>, t: ReaderThread, output: Fifo<Chunk>, limit: nat, abort: bool)
    requires ReaderInv(r, files, t, output, abort)
    requires ReaderStep(r, files, t, output, limit, abort).Some?
    ensures var (t', output') := ReaderStep(r, files, t, output, limit, abort).value; ReaderInv(r, files, t', output',
        abort)
  {
    hide Packed, Flatten, PlanChunks, Consumed, Planned;
    match t.life
    case Live(NextFile) =>
      if t.file >= |files| {
        ReaderFinishes(r, files, t, output.pushed);
      }
    case Live(ReadLoop) =>
      if t.remaining == 0 {
        ConsumeNext(files, t.file);
      } else if !abort {
        ReaderReads(r, files, t, output.pushed);
      }
    case Live(PushChunk) =>
      ReaderPushes(r, files, t, |files[t.file]| - t.remaining, output.pushed);
    case _ =>
  }

  lemma ReaderFinishes(r: Request, files: seq<seq<byte>>, t: ReaderThread, pushed: seq<Chunk>)
    requires Planned(r, |Flatten(files)|) && pushed <= PlanChunks(r, Flatten(files))
    requires t.file == |files| && ReaderHolds(r, files, t, 0, pushed) && |t.filled| < t.capacity
    ensures pushed == PlanChunks(r, Flatten(files))
  {
    hide Packed, Flatten, PlanChunks;
    assert files[..|files|] == files;
    var consumed := Consumed(files, t.file, 0);
    assert consumed == Flatten(files) + [];
    NothingLeft(r, |Flatten(files)|, consumed, pushed, t.filled, t.capacity, t.counter);
  }

  lemma ReaderReads(r: Request, files: seq<seq<byte>>, t: ReaderThread, pushed: seq<Chunk>)
    requires t.file < |files| && 0 < t.remaining <= |files[t.file]| && |t.filled| < t.capacity
    requires ReaderHolds(r, files, t, |files[t.file]| - t.remaining, pushed)
    ensures var pos := |files[t.file]| - t.remaining;
            var n := Min(t.remaining, t.capacity - |t.filled|);
            var t' := t.(remaining := t.remaining - n, filled := t.filled + files[t.file][pos..pos + n]);
            ReaderHolds(r, files, t', pos + n, pushed) && |t'.filled| <= t'.capacity
  {
    hide Packed, Flatten;
    var pos := |files[t.file]| - t.remaining;
    var n := Min(t.remaining, t.capacity - |t.filled|);
    ConsumeMore(files, t.file, pos, n);
    ConsumedIsPrefix(files, t.file, pos + n);
    PackedRead(r, |Flatten(files)|, Consumed(files, t.file, pos), pushed, t.filled, t.capacity, t.counter,
               files[t.file][pos..pos + n]);
  }

  lemma ReaderPushes(r: Request, files: seq<seq<byte>>, t: ReaderThread, pos: nat, pushed: seq<Chunk>)
    requires Planned(r, |Flatten(files)|)
    requires t.file < |files| && pos <= |files[t.file]| && |t.filled| == t.capacity
    requires ReaderHolds(r, files, t, pos, pushed)
    ensures t.counter < 0x1_0000_0000
    ensures var next := (t.counter + 1) % 0x1_0000_0000;
            var size := if next == r.numChunks && r.finalChunkSize != 0 then r.finalChunkSize else r.chunkSize;
            var t' := t.(filled := [], capacity := size, counter := next);
            && ReaderHolds(r, files, t', pos, pushed + [Plain(t.counter, t.filled)]) && 0 < size
            && pushed + [Plain(t.counter, t.filled)] <= PlanChunks(r, Flatten(files))
  {
    hide Flatten, PlanChunks, Consumed;
    var total, consumed := |Flatten(files)|, Consumed(files, t.file, pos);
    PackedPush(r, total, consumed, pushed, t.filled, t.capacity, t.counter);
    ConsumedIsPrefix(files, t.file, pos);
    var next: nat := (t.counter + 1) % 0x1_0000_0000;
    var size: nat := if next == r.numChunks && r.finalChunkSize != 0 then r.finalChunkSize else r.chunkSize;
    PackedPrefix(r, Flatten(files), consumed, pushed + [Plain(t.counter, t.filled)], [], size, next);
  }

  // ---- Encryptor and decryptor ----

  ghost predicate WorkerInv(ins: seq<Chunk>, outs: seq<Chunk>, t: WorkerThread,
                            input: Fifo<Chunk>, output: Fifo<Chunk>, abort: bool)
  {
    && |ins| == |outs|
    && input.pushed <= ins && input.Valid()
    && output.pushed <= outs
    && |output.pushed| <= t.count <= input.popped
    && (output.done <==> t.life.Exited?)
    && match t.life
       case Live(Apply(x)) => |output.pushed| == t.count && input.popped == t.count + 1 && x == ins[t.count]
       case Live(PushResult(y)) => |output.pushed| + 1 == t.count == input.popped && y == outs[|output.pushed|]
       case Live(TestEmpty) => |output.pushed| == t.count == input.popped && input.done
       case Live(StoreDone(normal)) => WorkerLeaves(t, input, output, abort, normal)
       case Live(_) => |output.pushed| == t.count == input.popped
       case Exited(normal) => WorkerLeaves(t, input, output, abort, normal)
       case _ => true
  }

  /** What is known once a worker has left its loop: nothing was left behind, unless it saw the abort flag. */
  predicate WorkerLeaves(t: WorkerThread, input: Fifo<Chunk>, output: Fifo<Chunk>, abort: bool, normal: bool) {
    && |output.pushed| == t.count == input.popped
    && if normal then input.done && input.popped == |input.pushed| else abort
  }

  lemma WorkerKeeps(ins: seq<Chunk>, outs: seq<Chunk>, t: WorkerThread, input: Fifo<Chunk>, output: Fifo<Chunk>,
                    limit: nat, abort: bool, result: Result<Chunk>)
    requires WorkerInv(ins, outs, t, input, output, abort)
    requires t.life.Live? && t.life.at.Apply? && result.Ok? ==> result.value == outs[t.count]
    requires WorkerStep(t, input, output, limit, abort, result).Some?
    ensures var (t', input', output') := WorkerStep(t, input, output, limit, abort, result).value;
            && WorkerInv(ins, outs, t', input', output', abort)
            && input'.pushed == input.pushed && input'.done == input.done
  {
  }

  /** A worker's invariant survives what its neighbours do: the producer pushes or, once, stores its flag,
      the consumer pops, and the abort flag may be raised. */
  lemma WorkerStable(ins: seq<Chunk>, outs: seq<Chunk>, t: WorkerThread,
                     input: Fifo<Chunk>, output: Fifo<Chunk>, abort: bool,
                     input': Fifo<Chunk>, output': Fifo<Chunk>, abort': bool)
    requires WorkerInv(ins, outs, t, input, output, abort)
    requires ProducerMoves(input, input') && input'.pushed <= ins
    requires output' == output.(popped := output'.popped)
    requires abort ==> abort'
    ensures WorkerInv(ins, outs, t, input', output', abort')
  {
  }

  /** The producer only appends, and nothing at all once its flag is stored. */
  ghost predicate ProducerMoves<T>(f: Fifo<T>, f': Fifo<T>) {
    && f'.popped == f.popped && f.pushed <= f'.pushed
    && (f.done ==> f' == f)
  }

  // ---- Sender ----

  ghost predicate SenderInv(frames: seq<Chunk>, t: SenderThread, input: Fifo<Chunk>, wire: Fifo<byte>, abort: bool) {
    && input.pushed <= frames && input.Valid()
    && t.chunksSent <= input.popped
    && match t.life
       case Live(Write(rest)) =>
         input.popped == t.chunksSent + 1 && wire.pushed + rest == Stream(frames[..input.popped])
       case Live(SendTestEmpty) => SenderCaughtUp(frames, t, input, wire) && input.done
       case Live(_) => SenderCaughtUp(frames, t, input, wire)
       case Exited(normal) =>
         && SenderCaughtUp(frames, t, input, wire)
         && if normal then input.done && input.popped == |input.pushed| else abort
       case _ => wire.pushed <= Stream(frames[..input.popped])
  }

  ghost predicate SenderCaughtUp(frames: seq<Chunk>, t: SenderThread, input: Fifo<Chunk>, wire: Fifo<byte>)
    requires input.popped <= |frames|
  {
    input.popped == t.chunksSent && wire.pushed == Stream(frames[..input.popped])
  }

  lemma SenderKeeps(frames: seq<Chunk>, t: SenderThread, input: Fifo<Chunk>, wire: Fifo<byte>,
                    limit: nat, abort: bool, n: nat)
    requires SenderInv(frames, t, input, wire, abort)
    requires SenderStep(t, input, wire, limit, abort, n).Some?
    ensures var (t', input', wire') := SenderStep(t, input, wire, limit, abort, n).value;
            && SenderInv(frames, t', input', wire', abort)
            && input'.pushed == input.pushed && input'.done == input.done
            && wire'.popped == wire.popped && wire.pushed <= wire'.pushed
  {
    hide Frame, Stream;
    match t.life
    case Live(SendTryPop) =>
      if !input.Empty() {
        StreamStep(frames, input.popped);
      }
    case Live(Write(rest)) =>
      if |rest| > 0 {
        assert wire.pushed + rest == (wire.pushed + rest[..n]) + rest[n..];
      } else {
        assert wire.pushed + rest == wire.pushed;
      }
    case _ =>
  }

  lemma SenderStable(frames: seq<Chunk>, t: SenderThread, input: Fifo<Chunk>, wire: Fifo<byte>, abort: bool,
                     input': Fifo<Chunk>, wire': Fifo<byte>, abort': bool)
    requires SenderInv(frames, t, input, wire, abort)
    requires ProducerMoves(input, input') && input'.pushed <= frames
    requires wire'.pushed == wire.pushed && (abort ==> abort')
    ensures SenderInv(frames, t, input', wire', abort')
  {
    hide Stream;
  }

  /** However far the sender got, it wrote a beginning of the frames of what it took. */
  lemma SenderWrote(frames: seq<Chunk>, t: SenderThread, input: Fifo<Chunk>, wire: Fifo<byte>, abort: bool)
    requires SenderInv(frames, t, input, wire, abort)
    ensures wire.pushed <= Stream(frames[..input.popped])
  {
    hide Stream;
  }

  // ---- Receiver ----

  ghost predicate ReceiverInv(frames: seq<Chunk>, t: ReceiverThread, wire: Fifo<byte>, output: Fifo<Chunk>,
                              abort: bool) {
    && wire.Valid()
    && t.received <= |frames| && output.pushed == frames[..t.received]
    && (output.done <==> t.life == Exited(true))
    && Stream(frames[..t.received]) <= wire.pushed
    && match t.life
       case Live(ReceiveCheck) => wire.pushed[..wire.popped] == Stream(frames[..t.received])
       case Live(Read(got)) =>
         && t.received < |frames| && |got| <= FrameLength(got)
         && wire.pushed[..wire.popped] == Stream(frames[..t.received]) + got
       case Live(PushReceived(c)) =>
         && t.received < |frames| && c == frames[t.received]
         && wire.pushed[..wire.popped] == Stream(frames[..t.received + 1])
       case Live(StoreReceiveDone) => t.received == |frames|
       case Exited(normal) => if normal then t.received == |frames| else abort
       case _ => true
  }

  lemma ReceiverKeeps(frames: seq<Chunk>, t: ReceiverThread, wire: Fifo<byte>, output: Fifo<Chunk>,
                      limit: nat, abort: bool, n: nat)
    requires ReceiverInv(frames, t, wire, output, abort)
    requires forall i :: 0 <= i < |frames| ==> Framable(frames[i])
    requires wire.pushed <= Stream(frames)
    requires ReceiverStep(|frames|, t, wire, output, limit, abort, n).Some?
    ensures var (t', wire', output') := ReceiverStep(|frames|, t, wire, output, limit, abort, n).value;
            && ReceiverInv(frames, t', wire', output', abort)
            && wire'.pushed == wire.pushed && wire'.done == wire.done
            && ProducerMoves(output, output')
  {
    match t.life
    case Live(Read(got)) => ReceiverReads(frames, t, wire, output, limit, abort, n, got);
    case Live(PushReceived(c)) => ReceiverPushes(frames, t, wire, output, abort, c);
    case Live(ReceiveCheck) => ReceiverBegins(frames, t, wire, output, limit, abort, n);
    case _ => ReceiverRests(frames, t, wire, output, limit, abort, n);
  }

  lemma StreamTail(frames: seq<Chunk>, i: nat)
    requires i < |frames|
    ensures Stream(frames[..i + 1]) == Stream(frames[..i]) + Frame(frames[i]) <= Stream(frames)
  {
    hide Frame, Stream;
    StreamStep(frames, i);
    StreamPrefix(frames, i + 1, |frames|);
    assert frames[..|frames|] == frames;
  }

  /** What was read for the next frame is a beginning of that frame and what follows it. */
  lemma Pending(frames: seq<Chunk>, i: nat, bytes: seq<byte>, popped: nat, got: seq<byte>) returns (rest: seq<byte>)
    requires i < |frames| && popped <= |bytes| && bytes <= Stream(frames)
    requires bytes[..popped] == Stream(frames[..i]) + got
    ensures got <= Frame(frames[i]) + rest
    ensures Stream(frames) == Stream(frames[..i]) + (Frame(frames[i]) + rest)
  {
    hide Frame, Stream;
    StreamTail(frames, i);
    var s, f, all := Stream(frames[..i]), Frame(frames[i]), Stream(frames);
    rest := all[|s| + |f|..];
    assert all == s + (f + rest);
    assert s + got <= all;
    assert got == all[|s|..|s| + |got|];
  }

  lemma FrameArrived(frames: seq<Chunk>, i: nat, bytes: seq<byte>, popped: nat, got: seq<byte>)
    requires i < |frames| && popped <= |bytes| && bytes <= Stream(frames)
    requires bytes[..popped] == Stream(frames[..i]) + got
    requires Complete(got) && Framable(frames[i])
    ensures Unframe(got) == frames[i]
    ensures bytes[..popped] == Stream(frames[..i + 1])
  {
    hide Frame, Stream, Unframe;
    var rest := Pending(frames, i, bytes, popped, got);
    FrameIsPrefixCode(frames[i], rest, got);
    UnframeInvertsFrame(frames[i]);
    StreamStep(frames, i);
  }

  lemma ReadMore(frames: seq<Chunk>, i: nat, bytes: seq<byte>, popped: nat, got: seq<byte>, n: nat)
    requires i < |frames| && popped + n <= |bytes| && bytes <= Stream(frames)
    requires bytes[..popped] == Stream(frames[..i]) + got
    requires !Complete(got) && |got| <= FrameLength(got) && 1 <= n <= FrameLength(got) - |got|
    ensures bytes[..popped + n] == Stream(frames[..i]) + (got + bytes[popped..popped + n])
    ensures |got + bytes[popped..popped + n]| <= FrameLength(got + bytes[popped..popped + n])
  {
    SliceGrows(bytes, popped, n, Stream(frames[..i]), got);
    StillInFrame(got, bytes[popped..popped + n]);
    hide *;
  }

  lemma SliceGrows(bytes: seq<byte>, popped: nat, n: nat, s: seq<byte>, got: seq<byte>)
    requires popped + n <= |bytes| && bytes[..popped] == s + got
    ensures bytes[..popped + n] == s + (got + bytes[popped..popped + n])
  {
    var more := bytes[popped..popped + n];
    assert bytes[..popped + n] == bytes[..popped] + more;
    Associate(s, got, more);
  }

  lemma StillInFrame(got: seq<byte>, more: seq<byte>)
    requires |got| + |more| <= FrameLength(got)
    ensures |got + more| <= FrameLength(got + more)
  {
    hide UnLE;
    if |got| >= FRAME_HEADER_SIZE {
      assert (got + more)[11..13] == got[11..13];
    }
  }

  lemma ReceiverReads(frames: seq<Chunk>, t: ReceiverThread, wire: Fifo<byte>, output: Fifo<Chunk>,
                      limit: nat, abort: bool, n: nat, got: seq<byte>)
    requires ReceiverInv(frames, t, wire, output, abort) && t.life == Live(Read(got))
    requires Framable(frames[t.received])
    requires wire.pushed <= Stream(frames)
    requires ReceiverStep(|frames|, t, wire, output, limit, abort, n).Some?
    ensures var (t', wire', output') := ReceiverStep(|frames|, t, wire, output, limit, abort, n).value;
            && ReceiverInv(frames, t', wire', output', abort)
            && wire'.pushed == wire.pushed && wire'.done == wire.done && output' == output
  {
    hide Frame, Unframe, Stream, Framable, FrameLength, ReceiverInv;
    if Complete(got) {
      ReceivedFrame(frames, t, wire, output, abort, got);
    } else {
      ReceivedBytes(frames, t, wire, output, abort, n, got);
    }
  }

  lemma ReceivedFrame(frames: seq<Chunk>, t: ReceiverThread, wire: Fifo<byte>, output: Fifo<Chunk>,
                      abort: bool, got: seq<byte>)
    requires ReceiverInv(frames, t, wire, output, abort) && t.life == Live(Read(got))
    requires wire.pushed <= Stream(frames) && Complete(got) && Framable(frames[t.received])
    ensures ReceiverInv(frames, t.(life := Live(PushReceived(Unframe(got)))), wire, output, abort)
  {
    hide Frame, Unframe, Stream, Framable, FrameLength, Complete;
    FrameArrived(frames, t.received, wire.pushed, wire.popped, got);
  }

  lemma ReceivedBytes(frames: seq<Chunk>, t: ReceiverThread, wire: Fifo<byte>, output: Fifo<Chunk>,
                      abort: bool, n: nat, got: seq<byte>)
    requires ReceiverInv(frames, t, wire, output, abort) && t.life == Live(Read(got))
    requires wire.pushed <= Stream(frames) && !Complete(got)
    requires 1 <= n <= FrameLength(got) - |got| && wire.popped + n <= |wire.pushed|
    ensures ReceiverInv(frames, t.(life := Live(Read(got + wire.pushed[wire.popped..wire.popped + n]))),
                        wire.PopMany(n), output, abort)
  {
    hide Frame, Stream, FrameLength, Complete;
    ReadMore(frames, t.received, wire.pushed, wire.popped, got, n);
  }

  lemma ReceiverPushes(frames: seq<Chunk>, t: ReceiverThread, wire: Fifo<byte>, output: Fifo<Chunk>, abort: bool,
                       c: Chunk)
    requires ReceiverInv(frames, t, wire, output, abort) && t.life == Live(PushReceived(c))
    ensures ReceiverInv(frames, t.(life := Live(ReceiveCheck), received := t.received + 1), wire, output.Push(c), abort)
    ensures ProducerMoves(output, output.Push(c))
  {
    hide Stream, FrameLength;
    assert frames[..t.received + 1] == frames[..t.received] + [c];
    assert wire.pushed[..wire.popped] <= wire.pushed;
  }

  lemma ReceiverBegins(frames: seq<Chunk>, t: ReceiverThread, wire: Fifo<byte>, output: Fifo<Chunk>,
                      limit: nat, abort: bool, n: nat)
    requires ReceiverInv(frames, t, wire, output, abort)
    requires forall i :: 0 <= i < |frames| ==> Framable(frames[i])
    requires wire.pushed <= Stream(frames)
    requires ReceiverStep(|frames|, t, wire, output, limit, abort, n).Some?
    requires t.life == Live(ReceiveCheck)
    ensures var (t', wire', output') := ReceiverStep(|frames|, t, wire, output, limit, abort, n).value;
            && ReceiverInv(frames, t', wire', output', abort)
            && wire'.pushed == wire.pushed && wire'.done == wire.done
            && ProducerMoves(output, output')
  {
    hide Stream, FrameLength, Framable;
    assert wire.pushed[..wire.popped] == Stream(frames[..t.received]) + [];
  }

  lemma ReceiverRests(frames: seq<Chunk>, t: ReceiverThread, wire: Fifo<byte>, output: Fifo<Chunk>,
                      limit: nat, abort: bool, n: nat)
    requires ReceiverInv(frames, t, wire, output, abort)
    requires forall i :: 0 <= i < |frames| ==> Framable(frames[i])
    requires wire.pushed <= Stream(frames)
    requires ReceiverStep(|frames|, t, wire, output, limit, abort, n).Some?
    requires !t.life.Live? || t.life.at.StoreReceiveDone?
    ensures var (t', wire', output') := ReceiverStep(|frames|, t, wire, output, limit, abort, n).value;
            && ReceiverInv(frames, t', wire', output', abort)
            && wire'.pushed == wire.pushed && wire'.done == wire.done
            && ProducerMoves(output, output')
  {
    hide Stream, FrameLength, Framable;
  }

  lemma ReceiverStable(frames: seq<Chunk>, t: ReceiverThread, wire: Fifo<byte>, output: Fifo<Chunk>, abort: bool,
                       wire': Fifo<byte>, output': Fifo<Chunk>, abort': bool)
    requires ReceiverInv(frames, t, wire, output, abort)
    requires wire'.popped == wire.popped && wire.pushed <= wire'.pushed
    requires output' == output.(popped := output'.popped) && (abort ==> abort')
    ensures ReceiverInv(frames, t, wire', output', abort')
  {
    hide Stream, FrameLength;
    assert wire'.pushed[..wire.popped] == wire.pushed[..wire.popped];
  }

  /** Nothing is received before it was written. */
  lemma {:induction false} NotAhead(frames: seq<Chunk>, i: nat, j: nat)
    requires i <= |frames| && j <= |frames| && |Stream(frames[..i])| <= |Stream(frames[..j])|
    ensures i <= j
  {
    hide Frame, Stream;
    if i > j {
      StreamStep(frames, j);
      FrameParts(frames[j]);
      StreamPrefix(frames, j + 1, i);
    }
  }

  // ---- Writer ----

  /** The writer took `popped` chunks and used `offset` bytes of the last: all of that is in the files. */
  ghost predicate WriterHolds(r: Request, files: seq<seq<byte>>, w: WriterLocals, input: Fifo<Chunk>) {
    var data := Flatten(files);
    && 1 <= input.popped <= |input.pushed|
    && w.chunk == input.pushed[input.popped - 1]
    && w.offset + w.left == |w.chunk.data|
    && Start(r, |data|, input.popped - 1) + w.offset <= |data|
    && Flatten(w.out) == data[..Start(r, |data|, input.popped - 1) + w.offset]
    && w.chunksWritten == (if w.left == 0 then input.popped else input.popped - 1)
  }

  /** Every byte received is used up and no more will come. */
  predicate NoMore(w: WriterLocals, input: Fifo<Chunk>) {
    w.left == 0 && input.done && input.popped == |input.pushed|
  }

  ghost predicate Closed(files: seq<seq<byte>>, w: WriterLocals, abort: bool) { w.out <= files || abort }

  ghost predicate Opened(files: seq<seq<byte>>, w: WriterLocals, abort: bool) {
    && 1 <= |w.out| <= |files|
    && |w.out[|w.out| - 1]| + w.remaining == |files[|w.out| - 1]|
    && (Writing(files, w.out) || abort)
  }

  /** The writer has just used up a chunk: it has written something to the open file. */
  ghost predicate BetweenChunks(r: Request, files: seq<seq<byte>>, w: WriterLocals, input: Fifo<Chunk>, abort: bool) {
    && WriterHolds(r, files, w, input) && Opened(files, w, abort)
    && w.left == 0 && w.out[|w.out| - 1] != []
  }

  ghost predicate WriterInv(r: Request, files: seq<seq<byte>>, t: WriterThread, input: Fifo<Chunk>, abort: bool) {
    var w := t.locals;
    && Planned(r, |Flatten(files)|)
    && Carries(input.pushed, r, Flatten(files)) && input.Valid()
    && FilesSafe(files, w.out) && (input.popped == 0 ==> w.out == [])
    && match t.life
       case Live(FirstPop) => w.out == [] && input.popped == 0 && w.chunksWritten == 0
       case Live(OpenFile) =>
         WriterHolds(r, files, w, input) && Closed(files, w, abort) && (w.left > 0 || NoMore(w, input))
       case Live(WriteLoop) =>
         WriterHolds(r, files, w, input) && Opened(files, w, abort) && (w.left > 0 || NoMore(w, input))
       case Live(WriterTestEmpty) => BetweenChunks(r, files, w, input, abort) && input.done
       case Live(_) => BetweenChunks(r, files, w, input, abort)
       case Exited(normal) =>
         && WriterHolds(r, files, w, input)
         && if normal then |w.out| == |files| && Closed(files, w, abort) && (w.left > 0 || NoMore(w, input)) else abort
       case _ => true
  }

  /** Every file on disk is a beginning of its source, and so are all the bytes together. */
  ghost predicate FilesSafe(files: seq<seq<byte>>, out: seq<seq<byte>>) {
    && |out| <= |files|
    && (forall j :: 0 <= j < |out| ==> out[j] <= files[j])
    && Flatten(out) <= Flatten(files)
  }

  lemma ClosedIsSafe(files: seq<seq<byte>>, out: seq<seq<byte>>)
    requires (out <= files || Writing(files, out)) && Flatten(out) <= Flatten(files)
    ensures FilesSafe(files, out)
  {
    hide Flatten;
    if Writing(files, out) {
      forall j | 0 <= j < |out| ensures out[j] <= files[j] {
        if j < |out| - 1 { assert out[..|out| - 1][j] == files[..|out| - 1][j]; }
      }
    }
  }

  lemma TakesChunk(r: Request, files: seq<seq<byte>>, w: WriterLocals, input: Fifo<Chunk>)
    requires Planned(r, |Flatten(files)|) && Carries(input.pushed, r, Flatten(files))
    requires input.popped < |input.pushed|
    requires (input.popped == 0 && w.out == [] && w.chunksWritten == 0)
             || (WriterHolds(r, files, w, input) && w.left == 0)
    ensures WriterHolds(r, files, TakeChunk(w, input.Front()), input.Pop())
    ensures TakeChunk(w, input.Front()).left > 0
  {
    hide Flatten;
    var data := Flatten(files);
    StartStep(r, |data|, input.popped);
    if input.popped == 0 {
      assert Flatten([]) == [] by { FlattenEmpties([]); }
    } else {
      StartStep(r, |data|, input.popped - 1);
    }
  }

  /** The next bytes of the chunk are the next bytes of the data. */
  lemma NextBytes(r: Request, files: seq<seq<byte>>, w: WriterLocals, input: Fifo<Chunk>, n: nat)
    requires Planned(r, |Flatten(files)|) && Carries(input.pushed, r, Flatten(files))
    requires WriterHolds(r, files, w, input) && n <= w.left
    ensures w.offset + n <= |w.chunk.data|
    ensures var data := Flatten(files);
            var at := Start(r, |data|, input.popped - 1) + w.offset;
            at + n <= |data| && Flatten(w.out) + w.chunk.data[w.offset..w.offset + n] == data[..at + n]
  {
    hide Flatten;
    var data := Flatten(files);
    var k := input.popped - 1;
    StartStep(r, |data|, k);
    var at := Start(r, |data|, k) + w.offset;
    hide Capacity, Start;
    assert w.chunk.data == Piece(r, data, k);
    Slices(data, Start(r, |data|, k), Start(r, |data|, k + 1), w.offset, n);
  }

  lemma Slices(data: seq<byte>, i: nat, j: nat, offset: nat, n: nat)
    requires i <= j <= |data| && offset + n <= j - i
    ensures data[..i + offset] + data[i..j][offset..offset + n] == data[..i + offset + n]
  {
  }

  /** Writing from the chunk to the open file, as the writer does it, with the flag still down. */
  lemma Writes(r: Request, files: seq<seq<byte>>, w: WriterLocals, input: Fifo<Chunk>)
    requires Planned(r, |Flatten(files)|) && Carries(input.pushed, r, Flatten(files))
    requires WriterHolds(r, files, w, input) && Opened(files, w, false) && w.left > 0
    ensures w.offset + Min(w.remaining, w.left) <= |w.chunk.data|
    ensures WriterHolds(r, files, WriteSome(w), input) && FilesSafe(files, WriteSome(w).out)
    ensures Opened(files, WriteSome(w), false)
    ensures w.remaining > 0 ==> WriteSome(w).out[|w.out| - 1] != []
  {
    hide Flatten, Carries, Planned, Start, Writing;
    var n := Min(w.remaining, w.left);
    NextBytes(r, files, w, input, n);
    var piece := w.chunk.data[w.offset..w.offset + n];
    FlattenAppendToLast(w.out, piece);
    WriteMore(files, w.out, piece);
    ClosedIsSafe(files, AppendToLast(w.out, piece));
    FewChunks(r, files, input);
  }

  lemma FewChunks(r: Request, files: seq<seq<byte>>, input: Fifo<Chunk>)
    requires Planned(r, |Flatten(files)|) && Carries(input.pushed, r, Flatten(files))
    ensures |input.pushed| < 0x1_0000_0000
  {
  }

  /** With nothing more to come and no failure, all files are as they should be. */
  lemma NoMoreMeansAll(r: Request, files: seq<seq<byte>>, w: WriterLocals, input: Fifo<Chunk>)
    requires Planned(r, |Flatten(files)|) && CarriesAll(input.pushed, r, Flatten(files))
    requires WriterHolds(r, files, w, input) && w.left == 0 && input.popped == |input.pushed|
    requires w.out <= files || Writing(files, w.out)
    ensures Flatten(w.out) == Flatten(files)
    ensures w.out <= files
    ensures forall j :: |w.out| <= j < |files| ==> files[j] == []
  {
    hide Flatten;
    var data := Flatten(files);
    StartStep(r, |data|, input.popped - 1);
    assert data[..|data|] == data;
    if w.out <= files {
      RestEmpty(files, w.out);
    } else {
      AllWritten(files, w.out);
    }
  }

  lemma WriterKeeps(r: Request, files: seq<seq<byte>>, t: WriterThread, input: Fifo<Chunk>, abort: bool)
    requires WriterInv(r, files, t, input, abort)
    requires input.done && !abort ==> CarriesAll(input.pushed, r, Flatten(files))
    requires WriterStep(Sizes(files), t, input, abort).Some?
    ensures var (t', input') := WriterStep(Sizes(files), t, input, abort).value;
            && WriterInv(r, files, t', input', abort)
            && input'.pushed == input.pushed && input'.done == input.done
  {
    hide Flatten, Carries, Planned, Start, Writing, WriterHolds, FilesSafe, Opened;
    var w := t.locals;
    match t.life
    case Live(FirstPop) =>
      TakesChunk(r, files, w, input);
    case Live(OpenFile) =>
      OpensFile(r, files, w, input, abort);
    case Live(WriteLoop) =>
      if w.remaining == 0 {
        ClosesFile(files, w, abort);
      } else if !abort {
        if w.left == 0 {
          NothingMissing(r, files, w, input);
          assert false;
        } else {
          Writes(r, files, w, input);
        }
      }
    case Live(WriterTestEmpty) =>
      if input.Empty() {
        LeavesLoop(r, files, w, input, abort);
      }
    case Live(PopNext) =>
      TakesChunk(r, files, w, input);
      StillOpened(files, w, TakeChunk(w, input.Front()), abort);
    case _ =>
  }

  lemma StillOpened(files: seq<seq<byte>>, w: WriterLocals, w': WriterLocals, abort: bool)
    requires Opened(files, w, abort) && w'.out == w.out && w'.remaining == w.remaining
    ensures Opened(files, w', abort)
  {
  }

  lemma ClosesFile(files: seq<seq<byte>>, w: WriterLocals, abort: bool)
    requires Opened(files, w, abort) && w.remaining == 0
    ensures Closed(files, w, abort)
  {
    if !abort { FileDone(files, w.out); }
  }

  lemma NothingMissing(r: Request, files: seq<seq<byte>>, w: WriterLocals, input: Fifo<Chunk>)
    requires Planned(r, |Flatten(files)|) && CarriesAll(input.pushed, r, Flatten(files))
    requires WriterHolds(r, files, w, input) && NoMore(w, input) && Opened(files, w, false)
    ensures w.remaining == 0
  {
    hide Flatten, WriterHolds;
    NoMoreMeansAll(r, files, w, input);
  }

  lemma LeavesLoop(r: Request, files: seq<seq<byte>>, w: WriterLocals, input: Fifo<Chunk>, abort: bool)
    requires Planned(r, |Flatten(files)|)
    requires !abort ==> CarriesAll(input.pushed, r, Flatten(files))
    requires WriterHolds(r, files, w, input) && w.left == 0 && input.popped == |input.pushed| && Opened(files, w, abort)
    ensures Closed(files, w, abort)
  {
    hide Flatten, WriterHolds;
    if !abort { NoMoreMeansAll(r, files, w, input); }
  }

  lemma OpensFile(r: Request, files: seq<seq<byte>>, w: WriterLocals, input: Fifo<Chunk>, abort: bool)
    requires WriterHolds(r, files, w, input) && Closed(files, w, abort) && FilesSafe(files, w.out)
    ensures |w.out| < |files| ==>
              var w' := CreateFile(w, |files[|w.out|]|);
              WriterHolds(r, files, w', input) && Opened(files, w', abort) && FilesSafe(files, w'.out)
    ensures |w.out| <= |files| && input.popped >= 1
  {
    hide Flatten, Start;
    FlattenAppend(w.out, []);
    assert Flatten(w.out) + [] == Flatten(w.out);
    if w.out <= files && |w.out| < |files| {
      CreateNext(files, w.out);
    }
  }

  lemma WriterStable(r: Request, files: seq<seq<byte>>, t: WriterThread, input: Fifo<Chunk>, abort: bool,
                     input': Fifo<Chunk>, abort': bool)
    requires WriterInv(r, files, t, input, abort)
    requires ProducerMoves(input, input') && Carries(input'.pushed, r, Flatten(files)) && (abort ==> abort')
    ensures WriterInv(r, files, t, input', abort')
  {
    hide Flatten, Carries, Planned, Start, Writing, FilesSafe;
  }
}
