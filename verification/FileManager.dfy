/** The reader and the writer of a transfer (src/FileManager.cpp), each run on its own:
    what other threads do reaches them through the arguments `abort` and `doneSeen`,
    which give the value of every load of a shared flag, in order. */
module FileManager {
  import opened Bytes
  import opened Chunks
  import opened TransferRequests
  import opened Packing
  import opened Cutting

  /** A queue and its done flag, as seen by the producer. */
  class OutputChannel {
    var pushed: seq<Chunk>
    var done: bool

    constructor ()
      ensures pushed == [] && !done
    {
      pushed, done := [], false;
    }

    method Push(c: Chunk)
      modifies this
      ensures pushed == old(pushed) + [c] && done == old(done)
    {
      pushed := pushed + [c];
    }

    method StoreDone()
      modifies this
      ensures pushed == old(pushed) && done
    {
      done := true;
    }
  }

  /** A file on disk: the size the file system reports, whether it can be opened, and the bytes a stream delivers. */
  datatype DiskFile = DiskFile(size: nat, opens: bool, bytes: seq<byte>)

  datatype ReadOutcome = Finished | Aborted | Threw(reason: Reason)

  /** The disk still holds the files the request was made for. */
  predicate Unchanged(r: Request, disk: seq<DiskFile>)
    requires |disk| == |r.files|
  {
    forall i :: 0 <= i < |disk| ==> FileUnchanged(r, disk, i)
  }

  predicate FileUnchanged(r: Request, disk: seq<DiskFile>, i: nat)
    requires i < |disk| == |r.files|
  {
    disk[i].opens && disk[i].size == r.files[i].size <= |disk[i].bytes|
  }

  /** The bytes of each file that belong to the transfer. */
  function Contents(r: Request, disk: seq<DiskFile>): (cs: seq<seq<byte>>)
    requires |disk| == |r.files|
    ensures |cs| == |disk|
  {
    seq(|disk|, i requires 0 <= i < |disk| => disk[i].bytes[..Min(r.files[i].size, |disk[i].bytes|)])
  }

  lemma {:induction false} ContentsSize(r: Request, disk: seq<DiskFile>, n: nat)
    requires n <= |disk| == |r.files|
    requires forall i :: 0 <= i < n ==> FileUnchanged(r, disk, i)
    ensures |Flatten(Contents(r, disk)[..n])| == TotalSize(r.files[..n])
  {
    if n > 0 {
      ContentsSize(r, disk, n - 1);
      FlattenStep(Contents(r, disk), n - 1);
      assert FileUnchanged(r, disk, n - 1);
      assert r.files[..n][..n - 1] == r.files[..n - 1];
    }
  }

  lemma {:induction false} TotalSizeGrows(files: seq<FileInfo>, i: nat)
    requires i < |files|
    ensures TotalSize(files[..i]) + files[i].size <= TotalSize(files)
    decreases |files|
  {
    var m := |files| - 1;
    if i == m {
      assert files[..m] == files[..i];
    } else {
      TotalSizeGrows(files[..m], i);
      assert files[..m][..i] == files[..i];
    }
  }

  /** file.read: copies up to `count` bytes of the file into the buffer and reports how many there were. */
  method ReadInto(bytes: seq<byte>, pos: nat, buffer: array<byte>, offset: nat, count: nat) returns (got: nat)
    requires pos <= |bytes| && offset + count <= buffer.Length
    modifies buffer
    ensures got == if count <= |bytes| - pos then count else |bytes| - pos
    ensures buffer[..offset + got] == old(buffer[..offset]) + bytes[pos..pos + got]
  {
    got := Min(count, |bytes| - pos);
    forall j | 0 <= j < got {
      buffer[offset + j] := bytes[pos + j];
    }
  }

  /** How far the reader is, in one predicate: the loop invariant of both of its loops. */
  ghost predicate ReaderAt(r: Request, disk: seq<DiskFile>, i: nat, pos: nat,
                           pushed: seq<Chunk>, filled: seq<byte>, capacity: nat, n: nat)
    requires |disk| == |r.files|
  {
    && i <= |disk|
    && (forall j :: 0 <= j < i ==> FileUnchanged(r, disk, j))
    && (i < |disk| ==> pos <= |Contents(r, disk)[i]|)
    && Packed(r, TotalSize(r.files), Consumed(Contents(r, disk), i, pos), pushed, filled, capacity, n)
  }

  lemma ReaderPrefix(r: Request, disk: seq<DiskFile>, i: nat, pos: nat,
                     pushed: seq<Chunk>, filled: seq<byte>, capacity: nat, n: nat)
    requires |disk| == |r.files| && Unchanged(r, disk)
    requires ReaderAt(r, disk, i, pos, pushed, filled, capacity, n) && |filled| < capacity
    ensures |Flatten(Contents(r, disk))| == TotalSize(r.files)
    ensures pushed <= PlanChunks(r, Flatten(Contents(r, disk)))
    ensures i == |disk| ==> pushed == PlanChunks(r, Flatten(Contents(r, disk)))
  {
    hide Packed, Flatten, PlanChunks;
    var cs := Contents(r, disk);
    ContentsSize(r, disk, |disk|);
    assert cs[..|disk|] == cs && r.files[..|disk|] == r.files;
    ConsumedIsPrefix(cs, i, pos);
    PackedPrefix(r, Flatten(cs), Consumed(cs, i, pos), pushed, filled, capacity, n);
    if i == |disk| {
      NothingLeft(r, TotalSize(r.files), Consumed(cs, i, pos), pushed, filled, capacity, n);
    }
  }

  /** The buffer becomes a chunk and is replaced by one of the size the next chunk needs. */
  method PushBuffer(r: Request, output: OutputChannel, sequenceCounter: nat, buffer: array<byte>)
    returns (next: nat, newBuffer: array<byte>)
    requires sequenceCounter < 0x1_0000_0000
    modifies output
    ensures output.pushed == old(output.pushed) + [Plain(sequenceCounter, buffer[..])]
            && output.done == old(output.done)
    ensures next == (sequenceCounter + 1) % 0x1_0000_0000
    ensures fresh(newBuffer)
    ensures newBuffer.Length == if next == r.numChunks && r.finalChunkSize != 0 then r.finalChunkSize else r.chunkSize
  {
    output.Push(Plain(sequenceCounter, buffer[..]));
    next := (sequenceCounter + 1) % 0x1_0000_0000;
    var useFinalChunkSize := next == r.numChunks && r.finalChunkSize != 0;
    newBuffer := new byte[if useFinalChunkSize then r.finalChunkSize else r.chunkSize];
  }

  /** The reader. It pushes exactly the planned chunks, unless it aborts or a file has changed. `loads` says how often
      it found the flag down, `asked` how many bytes it asked for in each read. */
  method ReadFilesIntoChunks(r: Request, disk: seq<DiskFile>, abort: nat -> bool, output: OutputChannel)
    returns (outcome: ReadOutcome, loads: nat, asked: seq<nat>)
    requires |disk| == |r.files| && Planned(r, TotalSize(r.files))
    requires output.pushed == [] && !output.done
    modifies output
    ensures output.done <==> !outcome.Threw?
    ensures Unchanged(r, disk) ==>
              && !outcome.Threw?
              && |Flatten(Contents(r, disk))| == TotalSize(r.files)
              && output.pushed <= PlanChunks(r, Flatten(Contents(r, disk)))
    ensures outcome.Finished? ==> Unchanged(r, disk) && output.pushed == PlanChunks(r, Flatten(Contents(r, disk)))
    ensures NoAbortSeen(loads, abort) && SmallReads(asked) && (outcome.Aborted? ==> abort(loads))
    ensures outcome.Finished? ==> loads == |r.files| + |asked| && Sum(asked) == TotalSize(r.files)
    ensures outcome.Threw? ==> FailsFirst(r, disk, outcome.reason)
  {
    hide *;
    loads, asked := 0, [];
    var sequenceCounter: nat := 1;
    var remainingCapacity: nat := r.chunkSize;
    var buffer := new byte[r.chunkSize];
    ghost var filled: seq<byte> := [];
    ReaderStarts(r, disk, abort);
    var i := 0;
    while i < |r.files|
      invariant 0 <= i <= |r.files| && fresh(buffer) && !output.done
      invariant 0 < remainingCapacity <= buffer.Length && filled == buffer[..buffer.Length - remainingCapacity]
      invariant ReaderAt(r, disk, i, 0, output.pushed, filled, buffer.Length, sequenceCounter)
      invariant ReadsLogged(r, abort, i, 0, loads, asked) && loads == i + |asked|
    {
      FlagDown(r, abort, i, 0, loads, asked);
      if abort(loads) {
        Known(r, disk, i, 0, output.pushed, filled, buffer.Length, sequenceCounter);
        output.StoreDone();
        return Aborted, loads, asked;
      }
      loads := loads + 1;
      if disk[i].size != r.files[i].size {
        Changed(r, disk, i, SizeMismatch);
        ReaderFailed(r, disk, i, 0, output.pushed, filled, buffer.Length, sequenceCounter, SizeMismatch);
        return Threw(SizeMismatch), loads, asked;
      }
      if !disk[i].opens {
        Changed(r, disk, i, CannotOpen);
        ReaderFailed(r, disk, i, 0, output.pushed, filled, buffer.Length, sequenceCounter, CannotOpen);
        return Threw(CannotOpen), loads, asked;
      }
      var remainingFileData: nat := disk[i].size;
      while remainingFileData > 0
        invariant 0 <= remainingFileData <= r.files[i].size == disk[i].size && fresh(buffer) && !output.done
        invariant r.files[i].size - remainingFileData <= |disk[i].bytes|
        invariant 0 < remainingCapacity <= buffer.Length && filled == buffer[..buffer.Length - remainingCapacity]
        invariant ReaderAt(r, disk, i, r.files[i].size - remainingFileData, output.pushed,
                           filled, buffer.Length, sequenceCounter)
        invariant ReadsLogged(r, abort, i, r.files[i].size - remainingFileData, loads, asked)
        invariant loads == i + 1 + |asked| && disk[i].opens
      {
        ghost var pos := r.files[i].size - remainingFileData;
        FlagDown(r, abort, i, pos, loads, asked);
        if abort(loads) {
          Known(r, disk, i, pos, output.pushed, filled, buffer.Length, sequenceCounter);
          output.StoreDone();
          return Aborted, loads, asked;
        }
        loads := loads + 1;
        var bytesToRead := if remainingFileData <= remainingCapacity then remainingFileData else remainingCapacity;
        var bytesRead := ReadInto(disk[i].bytes, disk[i].size - remainingFileData,
                                  buffer, buffer.Length - remainingCapacity, bytesToRead);
        ReadLogged(r, disk, abort, i, pos, loads, asked, bytesToRead, output.pushed, filled, buffer.Length,
                   sequenceCounter);
        asked := asked + [bytesToRead];
        if bytesRead != bytesToRead {
          Changed(r, disk, i, ShortRead);
          ReaderFailed(r, disk, i, pos, output.pushed, filled, buffer.Length, sequenceCounter, ShortRead);
          return Threw(ShortRead), loads, asked;
        }
        remainingCapacity := remainingCapacity - bytesRead;
        remainingFileData := remainingFileData - bytesRead;
        Advance(r, disk, i, pos, bytesRead, output.pushed, filled, buffer.Length, sequenceCounter);
        filled := filled + disk[i].bytes[pos..pos + bytesRead];
        if remainingCapacity == 0 {
          assert filled == buffer[..];
          Flush(r, disk, i, pos + bytesRead, output.pushed, filled, buffer.Length, sequenceCounter);
          sequenceCounter, buffer := PushBuffer(r, output, sequenceCounter, buffer);
          remainingCapacity := buffer.Length;
          filled := [];
        }
      }
      NextOne(r, disk, i, output.pushed, filled, buffer.Length, sequenceCounter);
      FileLogged(r, abort, i, loads, asked);
      i := i + 1;
    }
    Known(r, disk, i, 0, output.pushed, filled, buffer.Length, sequenceCounter);
    AllLogged(r, abort, loads, asked);
    output.StoreDone();
    return Finished, loads, asked;
  }

  /** The first `loads` looks at the flag found it down. */
  predicate NoAbortSeen(loads: nat, abort: nat -> bool) { forall k :: 0 <= k < loads ==> !abort(k) }

  /** No read asks for nothing, or for more than a buffer holds. */
  predicate SmallReads(asked: seq<nat>) { forall k :: 0 <= k < |asked| ==> 1 <= asked[k] <= 8192 }

  /** Why file `i` stops the reader. */
  predicate FailsWith(r: Request, disk: seq<DiskFile>, i: nat, reason: Reason)
    requires i < |disk| == |r.files|
  {
    if disk[i].size != r.files[i].size then reason == SizeMismatch
    else if !disk[i].opens then reason == CannotOpen
    else |disk[i].bytes| < r.files[i].size && reason == ShortRead
  }

  /** The first file that is not as it was gives the reason. */
  predicate FailsFirst(r: Request, disk: seq<DiskFile>, reason: Reason)
    requires |disk| == |r.files|
  {
    exists i :: 0 <= i < |disk| && (forall j :: 0 <= j < i ==> FileUnchanged(r, disk, j))
      && FailsWith(r, disk, i, reason)
  }

  /** What has been asked for so far: all of the first `i` files and `pos` bytes of the next. */
  predicate ReadsLogged(r: Request, abort: nat -> bool, i: nat, pos: nat, loads: nat, asked: seq<nat>) {
    && i <= |r.files| && NoAbortSeen(loads, abort) && SmallReads(asked)
    && Sum(asked) == TotalSize(r.files[..i]) + pos
  }

  lemma FlagDown(r: Request, abort: nat -> bool, i: nat, pos: nat, loads: nat, asked: seq<nat>)
    requires ReadsLogged(r, abort, i, pos, loads, asked)
    ensures NoAbortSeen(loads, abort) && SmallReads(asked)
    ensures !abort(loads) ==> ReadsLogged(r, abort, i, pos, loads + 1, asked) && NoAbortSeen(loads + 1, abort)
  {
  }

  lemma ReadLogged(r: Request, disk: seq<DiskFile>, abort: nat -> bool, i: nat, pos: nat, loads: nat, asked: seq<nat>,
                   n: nat, pushed: seq<Chunk>, filled: seq<byte>, capacity: nat, counter: nat)
    requires |disk| == |r.files| && ReaderAt(r, disk, i, pos, pushed, filled, capacity, counter)
    requires ReadsLogged(r, abort, i, pos, loads, asked) && 1 <= n <= capacity
    ensures ReadsLogged(r, abort, i, pos + n, loads, asked + [n]) && SmallReads(asked + [n])
  {
    hide Whole, Consumed, Start, TotalSize, Sum;
    SumAppend(asked, n);
  }

  lemma FileLogged(r: Request, abort: nat -> bool, i: nat, loads: nat, asked: seq<nat>)
    requires i < |r.files| && ReadsLogged(r, abort, i, r.files[i].size, loads, asked)
    ensures ReadsLogged(r, abort, i + 1, 0, loads, asked)
  {
    hide Sum;
    assert r.files[..i + 1][..i] == r.files[..i];
  }

  lemma AllLogged(r: Request, abort: nat -> bool, loads: nat, asked: seq<nat>)
    requires ReadsLogged(r, abort, |r.files|, 0, loads, asked)
    ensures NoAbortSeen(loads, abort) && SmallReads(asked) && Sum(asked) == TotalSize(r.files)
  {
    hide Sum, TotalSize;
    assert r.files[..|r.files|] == r.files;
  }

  lemma ReaderFailed(r: Request, disk: seq<DiskFile>, i: nat, pos: nat, pushed: seq<Chunk>, filled: seq<byte>,
                     capacity: nat, n: nat, reason: Reason)
    requires |disk| == |r.files| && i < |disk| && ReaderAt(r, disk, i, pos, pushed, filled, capacity, n)
    requires FailsWith(r, disk, i, reason)
    ensures FailsFirst(r, disk, reason)
  {
    hide Packed;
  }

  lemma ReaderStarts(r: Request, disk: seq<DiskFile>, abort: nat -> bool)
    requires |disk| == |r.files| && Planned(r, TotalSize(r.files))
    ensures ReadsLogged(r, abort, 0, 0, 0, [])
    ensures r.chunkSize >= 1 && ReaderAt(r, disk, 0, 0, [], [], r.chunkSize, 1)
  {
    PackedStart(r, TotalSize(r.files));
    assert Consumed(Contents(r, disk), 0, 0) == [];
  }

  lemma Changed(r: Request, disk: seq<DiskFile>, i: nat, reason: Reason)
    requires i < |disk| == |r.files| && !(disk[i].opens && disk[i].size == r.files[i].size <= |disk[i].bytes|)
    requires disk[i].size != r.files[i].size <==> reason == SizeMismatch
    requires disk[i].size == r.files[i].size ==> (!disk[i].opens <==> reason == CannotOpen)
    requires disk[i].size == r.files[i].size && disk[i].opens ==> reason == ShortRead
    ensures !Unchanged(r, disk) && FailsWith(r, disk, i, reason)
  {
    assert !FileUnchanged(r, disk, i);
  }

  lemma Known(r: Request, disk: seq<DiskFile>, i: nat, pos: nat,
              pushed: seq<Chunk>, filled: seq<byte>, capacity: nat, n: nat)
    requires |disk| == |r.files|
    requires ReaderAt(r, disk, i, pos, pushed, filled, capacity, n) && |filled| < capacity
    ensures Planned(r, TotalSize(r.files))
    ensures Unchanged(r, disk) ==>
              && |Flatten(Contents(r, disk))| == TotalSize(r.files)
              && pushed <= PlanChunks(r, Flatten(Contents(r, disk)))
    ensures i == |disk| ==> Unchanged(r, disk) && pushed == PlanChunks(r, Flatten(Contents(r, disk)))
  {
    if Unchanged(r, disk) {
      ReaderPrefix(r, disk, i, pos, pushed, filled, capacity, n);
    }
  }

  /** Reading `k` more bytes of file `i`. */
  lemma Advance(r: Request, disk: seq<DiskFile>, i: nat, pos: nat, k: nat,
                pushed: seq<Chunk>, filled: seq<byte>, capacity: nat, n: nat)
    requires |disk| == |r.files|
    requires ReaderAt(r, disk, i, pos, pushed, filled, capacity, n)
    requires i < |disk| && pos + k <= |disk[i].bytes| && pos + k <= r.files[i].size
    requires |filled| + k <= capacity
    ensures ReaderAt(r, disk, i, pos + k, pushed, filled + disk[i].bytes[pos..pos + k], capacity, n)
  {
    hide Packed;
    var cs := Contents(r, disk);
    ContentsSize(r, disk, i);
    TotalSizeGrows(r.files, i);
    ConsumeMore(cs, i, pos, k);
    assert cs[i][pos..pos + k] == disk[i].bytes[pos..pos + k];
    PackedRead(r, TotalSize(r.files), Consumed(cs, i, pos), pushed, filled, capacity, n, cs[i][pos..pos + k]);
  }

  /** Pushing a full buffer. */
  lemma Flush(r: Request, disk: seq<DiskFile>, i: nat, pos: nat,
              pushed: seq<Chunk>, filled: seq<byte>, capacity: nat, n: nat)
    requires |disk| == |r.files|
    requires ReaderAt(r, disk, i, pos, pushed, filled, capacity, n) && |filled| == capacity
    ensures n < 0x1_0000_0000
    ensures var next := (n + 1) % 0x1_0000_0000;
            var size: nat := if next == r.numChunks && r.finalChunkSize != 0 then r.finalChunkSize else r.chunkSize;
            size >= 1 && ReaderAt(r, disk, i, pos, pushed + [Plain(n, filled)], [], size, next)
  {
    PackedPush(r, TotalSize(r.files), Consumed(Contents(r, disk), i, pos), pushed, filled, capacity, n);
  }

  lemma NextOne(r: Request, disk: seq<DiskFile>, i: nat,
                pushed: seq<Chunk>, filled: seq<byte>, capacity: nat, n: nat)
    requires |disk| == |r.files| && i < |disk|
    requires disk[i].opens && disk[i].size == r.files[i].size <= |disk[i].bytes|
    requires ReaderAt(r, disk, i, r.files[i].size, pushed, filled, capacity, n)
    ensures ReaderAt(r, disk, i + 1, 0, pushed, filled, capacity, n)
  {
    hide Packed;
    ConsumeNext(Contents(r, disk), i);
    assert FileUnchanged(r, disk, i);
  }

  // ---- The writer ----

  /** How the writer ends. */
  datatype WriteStatus = Returned | BlockedInPop | SawAbort | OpenFailed | WriteFailed

  /** What a chunk hands to the writer: as many bytes as its 16-bit size says. */
  function Carried(cs: seq<Chunk>): (ps: seq<seq<byte>>)
    ensures |ps| == |cs| && forall i :: 0 <= i < |cs| ==> ps[i] == cs[i].data[..cs[i].Size()]
  {
    seq(|cs|, i requires 0 <= i < |cs| => cs[i].data[..cs[i].Size()])
  }

  /** The writer holds chunk number `next - 1` and has used `offset` of its bytes: everything it took
      from the queue, except the unused end of that chunk, is in the files, and the files are
      those that `CutBySizes` prescribes. */
  ghost predicate WriterAt(sizes: seq<nat>, incoming: seq<Chunk>, out: seq<seq<byte>>, next: nat, offset: nat) {
    && 1 <= next <= |incoming|
    && offset <= incoming[next - 1].Size()
    && Flatten(out) == Flatten(Carried(incoming)[..next - 1]) + Carried(incoming)[next - 1][..offset]
    && |out| <= |sizes|
  }

  /** Every chunk received is used up. */
  predicate Drained(incoming: seq<Chunk>, next: nat, offset: nat) {
    next == |incoming| && next >= 1 && offset == incoming[next - 1].Size()
  }

  /** `n` chunks are completely in the files, and at most part of the next one. */
  ghost predicate Progress(incoming: seq<Chunk>, out: seq<seq<byte>>, n: nat) {
    && n <= |incoming|
    && Flatten(Carried(incoming)[..n]) <= Flatten(out)
    && (n < |incoming| ==> |Flatten(out)| <= |Flatten(Carried(incoming)[..n + 1])|)
    && (n == |incoming| ==> Flatten(out) == Flatten(Carried(incoming)))
  }

  /** The writer. Whatever the chunk boundaries, the files it leaves are the received bytes cut by the
      declared sizes. `incoming` is all the queue will ever hold, `doneSeen` the flag as loaded each time;
      once the flag is set, the queue is empty exactly when nothing of `incoming` is left. `opens` says which files
      can be opened, `accepts` how many bytes the disk takes in each write; `given` are the lengths of the writes. */
  method WriteFilesFromChunks(sizes: seq<nat>, incoming: seq<Chunk>, abort: nat -> bool, doneSeen: nat -> bool,
                              opens: nat -> bool, accepts: nat -> nat)
    returns (status: WriteStatus, out: seq<seq<byte>>, chunksWritten: nat, given: seq<nat>)
    ensures |out| <= |sizes| && Flatten(out) <= Flatten(Carried(incoming))
    ensures forall i :: 0 <= i < |out| ==> out[i] <= CutBySizes(Flatten(Carried(incoming)), sizes)[i]
    ensures status.Returned? ==> out == CutBySizes(Flatten(Carried(incoming)), sizes)
    ensures status.BlockedInPop? ==>
              && out <= CutBySizes(Flatten(Carried(incoming)), sizes)
              && Flatten(out) == Flatten(Carried(incoming))
              && (forall i :: |out| <= i < |sizes| ==> CutBySizes(Flatten(Carried(incoming)), sizes)[i] == [])
    ensures AllOpen(|out|, opens) && (status.OpenFailed? ==> |out| < |sizes| && !opens(|out|))
    ensures !status.WriteFailed? ==> AllTaken(given, abort, accepts) && Sum(given) == |Flatten(out)|
    ensures status.WriteFailed? ==> LastFellShort(given, abort, accepts, |Flatten(out)|)
    ensures status.SawAbort? ==> abort(|given|)
    ensures Exactly(sizes, incoming) ==>
              && (status.Returned? ==> doneSeen(|incoming| - 1))
              && (status.BlockedInPop? ==> !doneSeen(|incoming| - 1))
    ensures Sum(sizes) <= |Flatten(Carried(incoming))| && |incoming| < 0x1_0000_0000 ==>
              && Progress(incoming, out, chunksWritten)
              && (status.BlockedInPop? ==> chunksWritten == |incoming|)
  {
    hide Flatten, CutBySizes, Carried, Progress, Sum, BetweenFiles, InsideFile, AllOpen, AllTaken, LastFellShort,
      FlagLoadsRight, Exactly;
    ghost var counted := false;
    var flagLoads, next, chunkOffset, i := 0, 0, 0, 0;
    out, chunksWritten, given := [], 0, [];
    NothingWritten(opens, abort, accepts);
    if |incoming| == 0 {
      NothingReceived(sizes, incoming);
      return BlockedInPop, out, chunksWritten, given;
    }
    var chunk := incoming[0];
    next := 1;
    var remainingChunkData: nat := chunk.Size();
    FirstChunk(sizes, incoming);
    NoFlagLoaded(sizes, incoming, doneSeen, chunk);
    while i < |sizes|
      invariant 0 <= i == |out| <= |sizes|
      invariant 1 <= next <= |incoming| && chunk == incoming[next - 1]
      invariant 0 <= chunkOffset && chunkOffset + remainingChunkData == chunk.Size()
      invariant BetweenFiles(sizes, incoming, out, next, chunkOffset, counted, chunksWritten)
      invariant AllTaken(given, abort, accepts) && AllOpen(|out|, opens) && Sum(given) == |Flatten(out)|
      invariant FlagLoadsRight(sizes, incoming, doneSeen, chunk, chunkOffset, counted, chunksWritten, flagLoads)
    {
      if !opens(i) {
        SafeBetweenFiles(sizes, incoming, out, next, chunkOffset, counted, chunksWritten);
        return OpenFailed, out, chunksWritten, given;
      }
      FileOpens(sizes, incoming, out, next, chunkOffset, counted, chunksWritten);
      OpensOne(out, opens);
      out := out + [[]];
      var remainingFileData: nat := sizes[i];
      ghost var broke := false;
      while remainingFileData > 0
        invariant |out| == i + 1 && 0 <= remainingFileData && |out[i]| + remainingFileData == sizes[i]
        invariant 1 <= next <= |incoming| && chunk == incoming[next - 1]
        invariant 0 <= chunkOffset && chunkOffset + remainingChunkData == chunk.Size()
        invariant !broke
        invariant InsideFile(sizes, incoming, out, next, chunkOffset, remainingFileData, counted, chunksWritten)
        invariant AllTaken(given, abort, accepts) && AllOpen(|out|, opens) && Sum(given) == |Flatten(out)|
        invariant FlagLoadsRight(sizes, incoming, doneSeen, chunk, chunkOffset, counted, chunksWritten, flagLoads)
        decreases remainingFileData, |incoming| - next, remainingChunkData
      {
        if abort(|given|) {
          SafeInsideFile(sizes, incoming, out, next, chunkOffset, remainingFileData, counted, chunksWritten);
          return SawAbort, out, chunksWritten, given;
        }
        var bytesToWrite := Min(remainingFileData, remainingChunkData);
        var written := Min(bytesToWrite, accepts(|given|));
        WriteGrows(out, chunk.data[chunkOffset..chunkOffset + written], given, bytesToWrite, abort, accepts);
        Written(sizes, incoming, out, next, chunkOffset, remainingFileData, counted, chunksWritten, written);
        out := AppendToLast(out, chunk.data[chunkOffset..chunkOffset + written]);
        chunkOffset := chunkOffset + written;
        remainingChunkData := remainingChunkData - written;
        remainingFileData := remainingFileData - written;
        ghost var offsetBefore := chunkOffset - written;
        given := given + [bytesToWrite];
        if written < bytesToWrite {
          SafeInsideFile(sizes, incoming, out, next, chunkOffset, remainingFileData, counted, chunksWritten);
          return WriteFailed, out, chunksWritten, given;
        }
        if remainingChunkData == 0 {
          ghost var before := chunksWritten;
          chunksWritten := (chunksWritten + 1) % 0x1_0000_0000;
          var done := doneSeen(flagLoads);
          FlagLoaded(sizes, incoming, doneSeen, chunk, offsetBefore, counted, before, flagLoads, next,
                     incoming[if next < |incoming| then next else 0], chunkOffset);
          flagLoads := flagLoads + 1;
          if next == |incoming| {
            LastIsUsed(sizes, incoming, out, next, chunkOffset, remainingFileData, counted, before);
            if !done {
              return BlockedInPop, out, chunksWritten, given;
            }
            broke, counted := true, true;
            break;
          }
          NextChunk(sizes, incoming, out, next, chunkOffset, remainingFileData, counted, before);
          counted := false;
          chunk := incoming[next];
          next := next + 1;
          remainingChunkData := chunk.Size();
          chunkOffset := 0;
        } else {
          NoNewLoad(sizes, incoming, doneSeen, chunk, offsetBefore, chunkOffset, counted, chunksWritten, flagLoads);
        }
      }
      if !broke {
        FileEnds(sizes, incoming, out, next, chunkOffset, counted, chunksWritten);
      }
      i := i + 1;
    }
    SafeBetweenFiles(sizes, incoming, out, next, chunkOffset, counted, chunksWritten);
    LastLoadWasTrue(sizes, incoming, doneSeen, out, next, chunkOffset, counted, chunksWritten, flagLoads);
    return Returned, out, chunksWritten, given;
  }

  /** The chunks hold exactly the data of the files, and the last one is not empty. */
  predicate Exactly(sizes: seq<nat>, incoming: seq<Chunk>) {
    && 1 <= |incoming| < 0x1_0000_0000 && incoming[|incoming| - 1].Size() > 0
    && Sum(sizes) == |Flatten(Carried(incoming))|
  }

  /** Each write came after a look at the flag that found it down, and took all that it was given. */
  predicate AllTaken(given: seq<nat>, abort: nat -> bool, accepts: nat -> nat) {
    forall k :: 0 <= k < |given| ==> !abort(k) && given[k] <= accepts(k)
  }

  predicate AllOpen(n: nat, opens: nat -> bool) { forall i :: 0 <= i < n ==> opens(i) }

  /** The done flag is loaded once for each chunk that is used up, and the writer goes on after the last one only if it
      was set. */
  predicate FlagLoadsRight(sizes: seq<nat>, incoming: seq<Chunk>, doneSeen: nat -> bool, chunk: Chunk, offset: nat,
                           counted: bool, chunksWritten: nat, flagLoads: nat)
  {
    && (counted || offset < chunk.Size() || chunk.Size() == 0)
    && (Plenty(sizes, incoming) ==> flagLoads == chunksWritten)
    && (Plenty(sizes, incoming) && counted ==> |incoming| >= 1 && doneSeen(|incoming| - 1))
  }

  /** All writes but the last took what they were given; the last one took less, and `total` bytes are written. */
  predicate LastFellShort(given: seq<nat>, abort: nat -> bool, accepts: nat -> nat, total: nat) {
    && |given| >= 1 && AllTaken(given[..|given| - 1], abort, accepts) && !abort(|given| - 1)
    && accepts(|given| - 1) < given[|given| - 1]
    && Sum(given) == total - accepts(|given| - 1) + given[|given| - 1]
  }

  lemma NothingWritten(opens: nat -> bool, abort: nat -> bool, accepts: nat -> nat)
    ensures Sum([]) == |Flatten([])| == 0 && AllOpen(0, opens) && AllTaken([], abort, accepts)
  {
  }

  lemma OpensOne(out: seq<seq<byte>>, opens: nat -> bool)
    requires AllOpen(|out|, opens) && opens(|out|)
    ensures AllOpen(|out + [[]]|, opens) && Flatten(out + [[]]) == Flatten(out)
  {
    FlattenAppend(out, []);
  }

  lemma WriteGrows(out: seq<seq<byte>>, piece: seq<byte>, given: seq<nat>, n: nat, abort: nat -> bool,
                   accepts: nat -> nat)
    requires |out| >= 1 && Sum(given) == |Flatten(out)| && AllTaken(given, abort, accepts) && !abort(|given|)
    requires |piece| == Min(n, accepts(|given|))
    ensures var total := |Flatten(AppendToLast(out, piece))|;
            if |piece| == n then AllTaken(given + [n], abort, accepts) && Sum(given + [n]) == total
            else LastFellShort(given + [n], abort, accepts, total)
  {
    hide Flatten;
    SumAppend(given, n);
    FlattenAppendToLast(out, piece);
    assert (given + [n])[..|given|] == given;
  }

  lemma NoFlagLoaded(sizes: seq<nat>, incoming: seq<Chunk>, doneSeen: nat -> bool, chunk: Chunk)
    ensures FlagLoadsRight(sizes, incoming, doneSeen, chunk, 0, false, 0, 0)
  {
  }

  /** The flag is loaded after chunk `next - 1` is used up; the writer goes on to `after`, or has used up the last. */
  lemma FlagLoaded(sizes: seq<nat>, incoming: seq<Chunk>, doneSeen: nat -> bool, chunk: Chunk, offset: nat,
                   counted: bool, chunksWritten: nat, flagLoads: nat, next: nat, after: Chunk, offset': nat)
    requires FlagLoadsRight(sizes, incoming, doneSeen, chunk, offset, counted, chunksWritten, flagLoads)
    requires 1 <= next <= |incoming|
    requires Plenty(sizes, incoming) ==> chunksWritten == next - 1 && |incoming| < 0x1_0000_0000
    ensures var n := (chunksWritten + 1) % 0x1_0000_0000;
            if next < |incoming| then FlagLoadsRight(sizes, incoming, doneSeen, after, 0, false, n, flagLoads + 1)
            else
              && (doneSeen(flagLoads)
                  ==> FlagLoadsRight(sizes, incoming, doneSeen, chunk, offset', true, n, flagLoads + 1))
              && (Exactly(sizes, incoming) ==> doneSeen(flagLoads) == doneSeen(|incoming| - 1))
  {
    hide Sum, Flatten, Carried;
  }

  /** The flag is not loaded while something is left of the chunk. */
  lemma NoNewLoad(sizes: seq<nat>, incoming: seq<Chunk>, doneSeen: nat -> bool, chunk: Chunk, offset: nat, offset': nat,
                  counted: bool, chunksWritten: nat, flagLoads: nat)
    requires FlagLoadsRight(sizes, incoming, doneSeen, chunk, offset, counted, chunksWritten, flagLoads)
    requires offset' < chunk.Size()
    ensures FlagLoadsRight(sizes, incoming, doneSeen, chunk, offset', counted, chunksWritten, flagLoads)
  {
  }

  /** If the writer has returned and the data was exact, it has loaded the flag after the last chunk. */
  lemma LastLoadWasTrue(sizes: seq<nat>, incoming: seq<Chunk>, doneSeen: nat -> bool, out: seq<seq<byte>>, next: nat,
                        offset: nat, counted: bool, chunksWritten: nat, flagLoads: nat)
    requires BetweenFiles(sizes, incoming, out, next, offset, counted, chunksWritten) && |out| == |sizes|
    requires 1 <= next <= |incoming|
    requires FlagLoadsRight(sizes, incoming, doneSeen, incoming[next - 1], offset, counted, chunksWritten, flagLoads)
    ensures Exactly(sizes, incoming) ==> doneSeen(|incoming| - 1)
  {
    hide Flatten, CutBySizes, Carried, Sum;
    if Exactly(sizes, incoming) && !counted {
      SafeBetweenFiles(sizes, incoming, out, next, offset, counted, chunksWritten);
      AllDataWritten(sizes, incoming);
      NotAllUsed(sizes, incoming, out, next, offset);
      assert false;
    }
  }

  lemma AllDataWritten(sizes: seq<nat>, incoming: seq<Chunk>)
    requires Sum(sizes) == |Flatten(Carried(incoming))|
    ensures Flatten(CutBySizes(Flatten(Carried(incoming)), sizes)) == Flatten(Carried(incoming))
  {
    hide Flatten, CutBySizes, Carried, Sum;
    var data := Flatten(Carried(incoming));
    CutIsAll(data, sizes);
  }

  /** As long as the last chunk is not used up, something is missing in the files. */
  lemma NotAllUsed(sizes: seq<nat>, incoming: seq<Chunk>, out: seq<seq<byte>>, next: nat, offset: nat)
    requires WriterAt(sizes, incoming, out, next, offset)
    requires incoming[|incoming| - 1].Size() > 0
    requires offset < incoming[next - 1].Size() || incoming[next - 1].Size() == 0
    ensures |Flatten(out)| < |Flatten(Carried(incoming))|
  {
    hide Flatten;
    var ps := Carried(incoming);
    var m := |incoming| - 1;
    FlattenStep(ps, next - 1);
    FlattenStep(ps, m);
    assert ps[..m + 1] == ps;
    if next <= m { FlattenPrefix(ps[..m], next); assert ps[..m][..next] == ps[..next]; }
  }

  /** The data is enough for all files, and its chunks can be counted. */
  predicate Plenty(sizes: seq<nat>, incoming: seq<Chunk>) {
    Sum(sizes) <= |Flatten(Carried(incoming))| && |incoming| < 0x1_0000_0000
  }

  /** All chunks but the last taken are counted, and so is the last one when it is `counted`. */
  predicate CountsRight(sizes: seq<nat>, incoming: seq<Chunk>, next: nat, offset: nat, counted: bool,
                        chunksWritten: nat) {
    && (counted ==> Drained(incoming, next, offset))
    && (Plenty(sizes, incoming) ==> chunksWritten == if counted then next else next - 1)
  }

  /** The writer's outer loop: the files so far are finished. */
  ghost predicate BetweenFiles(sizes: seq<nat>, incoming: seq<Chunk>, out: seq<seq<byte>>, next: nat, offset: nat,
                               counted: bool, chunksWritten: nat)
  {
    && out <= CutBySizes(Flatten(Carried(incoming)), sizes)
    && WriterAt(sizes, incoming, out, next, offset)
    && CountsRight(sizes, incoming, next, offset, counted, chunksWritten)
    && (Plenty(sizes, incoming) && counted ==> forall j :: |out| <= j < |sizes| ==> sizes[j] == 0)
  }

  /** The writer's inner loop: the last file is `remaining` bytes short. */
  ghost predicate InsideFile(sizes: seq<nat>, incoming: seq<Chunk>, out: seq<seq<byte>>, next: nat, offset: nat,
                             remaining: nat, counted: bool, chunksWritten: nat)
  {
    && Writing(CutBySizes(Flatten(Carried(incoming)), sizes), out)
    && |out[|out| - 1]| + remaining == sizes[|out| - 1]
    && WriterAt(sizes, incoming, out, next, offset)
    && CountsRight(sizes, incoming, next, offset, counted, chunksWritten)
    && (Plenty(sizes, incoming) && counted ==> remaining == 0 && forall j :: |out| <= j < |sizes| ==> sizes[j] == 0)
  }

  /** What can be said of the files and the counter at any time. */
  ghost predicate SafeSoFar(sizes: seq<nat>, incoming: seq<Chunk>, out: seq<seq<byte>>, chunksWritten: nat) {
    var data := Flatten(Carried(incoming));
    && |out| <= |sizes| && Flatten(out) <= data
    && (forall i :: 0 <= i < |out| ==> out[i] <= CutBySizes(data, sizes)[i])
    && (Plenty(sizes, incoming) ==> Progress(incoming, out, chunksWritten))
  }

  lemma SafeBetweenFiles(sizes: seq<nat>, incoming: seq<Chunk>, out: seq<seq<byte>>, next: nat, offset: nat,
                         counted: bool, chunksWritten: nat)
    requires BetweenFiles(sizes, incoming, out, next, offset, counted, chunksWritten)
    ensures SafeSoFar(sizes, incoming, out, chunksWritten)
    ensures |out| == |sizes| ==> out == CutBySizes(Flatten(Carried(incoming)), sizes)
  {
    hide Flatten, CutBySizes, Carried, Progress, Sum, WriterAt;
    Summary(sizes, incoming, out, next, offset);
    Counted(sizes, incoming, out, next, offset, counted);
  }

  lemma SafeInsideFile(sizes: seq<nat>, incoming: seq<Chunk>, out: seq<seq<byte>>, next: nat, offset: nat,
                       remaining: nat, counted: bool, chunksWritten: nat)
    requires InsideFile(sizes, incoming, out, next, offset, remaining, counted, chunksWritten)
    ensures SafeSoFar(sizes, incoming, out, chunksWritten)
  {
    hide Flatten, CutBySizes, Carried, Progress, Sum, WriterAt;
    Summary(sizes, incoming, out, next, offset);
    Counted(sizes, incoming, out, next, offset, counted);
  }

  lemma FileOpens(sizes: seq<nat>, incoming: seq<Chunk>, out: seq<seq<byte>>, next: nat, offset: nat,
                  counted: bool, chunksWritten: nat)
    requires BetweenFiles(sizes, incoming, out, next, offset, counted, chunksWritten) && |out| < |sizes|
    ensures InsideFile(sizes, incoming, out + [[]], next, offset, sizes[|out|], counted, chunksWritten)
  {
    hide Flatten, CutBySizes, Carried, Sum, WriterAt, Writing;
    Create(sizes, incoming, out, next, offset);
  }

  lemma FileEnds(sizes: seq<nat>, incoming: seq<Chunk>, out: seq<seq<byte>>, next: nat, offset: nat,
                 counted: bool, chunksWritten: nat)
    requires InsideFile(sizes, incoming, out, next, offset, 0, counted, chunksWritten)
    ensures BetweenFiles(sizes, incoming, out, next, offset, counted, chunksWritten)
  {
    hide Flatten, CutBySizes, Carried, Sum, WriterAt;
    Finish(sizes, incoming, out, next, offset, false);
  }

  lemma Written(sizes: seq<nat>, incoming: seq<Chunk>, out: seq<seq<byte>>, next: nat, offset: nat,
                remaining: nat, counted: bool, chunksWritten: nat, k: nat)
    requires InsideFile(sizes, incoming, out, next, offset, remaining, counted, chunksWritten)
    requires 1 <= next <= |incoming| && k <= remaining && offset + k <= incoming[next - 1].Size()
    ensures |out| >= 1
    ensures InsideFile(sizes, incoming, AppendToLast(out, incoming[next - 1].data[offset..offset + k]),
                       next, offset + k, remaining - k, counted, chunksWritten)
    ensures remaining > 0 && counted ==> !Plenty(sizes, incoming)
    ensures remaining > 0 && Plenty(sizes, incoming) ==> chunksWritten == next - 1 && |incoming| < 0x1_0000_0000
  {
    hide Flatten, CutBySizes, Carried, Sum, WriterAt;
    WriteStep(sizes, incoming, out, next, offset, k);
    hide Writing;
  }

  /** The last chunk is used up: all that came is in the files, and whatever is left to open is empty. */
  lemma LastIsUsed(sizes: seq<nat>, incoming: seq<Chunk>, out: seq<seq<byte>>, next: nat, offset: nat,
                   remaining: nat, counted: bool, chunksWritten: nat)
    requires InsideFile(sizes, incoming, out, next, offset, remaining, counted, chunksWritten)
    requires Drained(incoming, next, offset) && (counted ==> !Plenty(sizes, incoming))
    ensures var n := (chunksWritten + 1) % 0x1_0000_0000;
            && SafeSoFar(sizes, incoming, out, n) && (Plenty(sizes, incoming) ==> n == |incoming|)
            && BetweenFiles(sizes, incoming, out, next, offset, true, n)
    ensures var files := CutBySizes(Flatten(Carried(incoming)), sizes);
            && out <= files && Flatten(out) == Flatten(Carried(incoming))
            && forall i :: |out| <= i < |sizes| ==> files[i] == []
  {
    hide Flatten, CutBySizes, Carried, Progress, Sum, WriterAt, Plenty;
    var n := (chunksWritten + 1) % 0x1_0000_0000;
    if Plenty(sizes, incoming) { FewIncoming(sizes, incoming); }
    assert CountsRight(sizes, incoming, next, offset, true, n);
    NothingShort(sizes, incoming, out, next, offset);
    Counted(sizes, incoming, out, next, offset, true);
    hide InsideFile, Writing, CountsRight, Drained;
  }

  /** When all that came is in the files, they are as prescribed, and the rest is empty. */
  lemma NothingShort(sizes: seq<nat>, incoming: seq<Chunk>, out: seq<seq<byte>>, next: nat, offset: nat)
    requires WriterAt(sizes, incoming, out, next, offset) && Drained(incoming, next, offset)
    requires Writing(CutBySizes(Flatten(Carried(incoming)), sizes), out)
    ensures var files := CutBySizes(Flatten(Carried(incoming)), sizes);
            && out <= files && Flatten(out) == Flatten(Carried(incoming)) && |out| <= |sizes|
            && (forall i :: |out| <= i < |sizes| ==> files[i] == [])
    ensures Plenty(sizes, incoming) ==> forall i :: |out| <= i < |sizes| ==> sizes[i] == 0
  {
    hide Flatten, CutBySizes, Carried, Sum, Plenty;
    LastOnes(sizes, incoming, out, next, offset);
    Summary(sizes, incoming, out, next, offset);
  }

  lemma LastOnes(sizes: seq<nat>, incoming: seq<Chunk>, out: seq<seq<byte>>, next: nat, offset: nat)
    requires WriterAt(sizes, incoming, out, next, offset) && Drained(incoming, next, offset)
    requires Writing(CutBySizes(Flatten(Carried(incoming)), sizes), out)
    ensures Plenty(sizes, incoming) ==> forall i :: |out| <= i < |sizes| ==> sizes[i] == 0
  {
    hide Flatten, CutBySizes, Carried, Sum;
    OnlyEmptyLeft(sizes, incoming, out, next, offset);
  }

  lemma FewIncoming(sizes: seq<nat>, incoming: seq<Chunk>)
    requires Plenty(sizes, incoming)
    ensures |incoming| < 0x1_0000_0000
  {
  }

  lemma NextChunk(sizes: seq<nat>, incoming: seq<Chunk>, out: seq<seq<byte>>, next: nat, offset: nat,
                  remaining: nat, counted: bool, chunksWritten: nat)
    requires InsideFile(sizes, incoming, out, next, offset, remaining, counted, chunksWritten)
    requires 1 <= next < |incoming| && offset == incoming[next - 1].Size()
    ensures InsideFile(sizes, incoming, out, next + 1, 0, remaining, false, (chunksWritten + 1) % 0x1_0000_0000)
  {
    hide Flatten, CutBySizes, Carried, Sum, WriterAt, Writing;
    TakeNext(sizes, incoming, out, next);
  }

  lemma NothingReceived(sizes: seq<nat>, incoming: seq<Chunk>)
    requires |incoming| == 0
    ensures Flatten(Carried(incoming)) == [] == Flatten([])
    ensures forall i :: 0 <= i < |sizes| ==> CutBySizes([], sizes)[i] == []
    ensures Progress(incoming, [], 0) && !Exactly(sizes, incoming)
  {
    forall i | 0 <= i < |sizes| ensures CutBySizes([], sizes)[i] == [] {
      CutIsPrefix([], sizes, i);
      FlattenEmpties(CutBySizes([], sizes));
    }
  }

  lemma FirstChunk(sizes: seq<nat>, incoming: seq<Chunk>)
    requires |incoming| > 0
    ensures BetweenFiles(sizes, incoming, [], 1, 0, false, 0)
  {
    hide CutBySizes, Sum;
    assert Flatten(Carried(incoming)[..0]) == [];
  }

  /** What is in the files is a beginning of what was received; and all of it once the queue is drained. */
  lemma InFiles(sizes: seq<nat>, incoming: seq<Chunk>, out: seq<seq<byte>>, next: nat, offset: nat)
    requires WriterAt(sizes, incoming, out, next, offset)
    ensures Flatten(out) + Carried(incoming)[next - 1][offset..] <= Flatten(Carried(incoming))
    ensures Drained(incoming, next, offset) ==> Flatten(out) == Flatten(Carried(incoming))
  {
    hide Flatten;
    var ps := Carried(incoming);
    FlattenStep(ps, next - 1);
    FlattenPrefix(ps, next);
    var p := ps[next - 1];
    assert p[..offset] + p[offset..] == p;
    assert Flatten(out) + p[offset..] == Flatten(ps[..next - 1]) + p;
    if Drained(incoming, next, offset) {
      assert ps[..next] == ps && p[offset..] == [];
    }
  }

  lemma Create(sizes: seq<nat>, incoming: seq<Chunk>, out: seq<seq<byte>>, next: nat, offset: nat)
    requires WriterAt(sizes, incoming, out, next, offset) && |out| < |sizes|
    requires out <= CutBySizes(Flatten(Carried(incoming)), sizes)
    ensures WriterAt(sizes, incoming, out + [[]], next, offset)
    ensures Writing(CutBySizes(Flatten(Carried(incoming)), sizes), out + [[]])
  {
    hide Flatten, CutBySizes, Carried;
    CreateNext(CutBySizes(Flatten(Carried(incoming)), sizes), out);
  }

  /** One write: the bytes go to the file they belong to. */
  lemma WriteStep(sizes: seq<nat>, incoming: seq<Chunk>, out: seq<seq<byte>>, next: nat, offset: nat, k: nat)
    requires WriterAt(sizes, incoming, out, next, offset)
    requires Writing(CutBySizes(Flatten(Carried(incoming)), sizes), out)
    requires offset + k <= incoming[next - 1].Size()
    requires |out[|out| - 1]| + k <= sizes[|out| - 1]
    ensures var piece := incoming[next - 1].data[offset..offset + k];
            && WriterAt(sizes, incoming, AppendToLast(out, piece), next, offset + k)
            && Writing(CutBySizes(Flatten(Carried(incoming)), sizes), AppendToLast(out, piece))
  {
    var data := Flatten(Carried(incoming));
    var piece := incoming[next - 1].data[offset..offset + k];
    PieceOfChunk(incoming[next - 1], offset, k);
    var p := Carried(incoming)[next - 1];
    hide Flatten, CutBySizes, Carried;
    FlattenAppendToLast(out, piece);
    Associate(Flatten(Carried(incoming)[..next - 1]), p[..offset], piece);
    InFiles(sizes, incoming, out, next, offset);
    PrefixAfter(Flatten(out), piece, p[offset..], data);
    RoomInFile(data, sizes, out, piece);
    WriteMore(CutBySizes(data, sizes), out, piece);
  }

  lemma PieceOfChunk(c: Chunk, offset: nat, k: nat)
    requires offset + k <= c.Size()
    ensures var p, piece := c.data[..c.Size()], c.data[offset..offset + k];
            p[..offset + k] == p[..offset] + piece && piece <= p[offset..]
  {
  }

  lemma PrefixAfter(a: seq<byte>, b: seq<byte>, c: seq<byte>, w: seq<byte>)
    requires a + c <= w && b <= c
    ensures a + b <= w
  {
  }

  /** The file being written has room for what the stream still has, up to its declared size. */
  lemma RoomInFile(data: seq<byte>, sizes: seq<nat>, out: seq<seq<byte>>, piece: seq<byte>)
    requires Writing(CutBySizes(data, sizes), out)
    requires Flatten(out) + piece <= data
    requires |out[|out| - 1]| + |piece| <= sizes[|out| - 1]
    ensures |out[|out| - 1]| + |piece| <= |CutBySizes(data, sizes)[|out| - 1]|
    ensures Flatten(out) + piece <= Flatten(CutBySizes(data, sizes))
  {
    hide Flatten, CutBySizes;
    var files := CutBySizes(data, sizes);
    var i := |out| - 1;
    CutIsPrefix(data, sizes, i);
    FlattenStep(files, i);
    FlattenPrefix(files, i + 1);
    FlattenStep(out, i);
    assert out[..i + 1] == out;
    var n := |Flatten(out) + piece|;
    assert n <= |Flatten(files[..i + 1])|;
    assert Flatten(out) + piece == data[..n] == Flatten(files)[..n];
  }

  lemma TakeNext(sizes: seq<nat>, incoming: seq<Chunk>, out: seq<seq<byte>>, next: nat)
    requires 1 <= next < |incoming|
    requires WriterAt(sizes, incoming, out, next, incoming[next - 1].Size())
    ensures WriterAt(sizes, incoming, out, next + 1, 0)
  {
    hide Flatten;
    var ps := Carried(incoming);
    FlattenStep(ps, next - 1);
    assert ps[next - 1][..incoming[next - 1].Size()] == ps[next - 1];
  }

  /** Leaving a file: it has all its bytes, also when the loop was left because nothing more will come. */
  lemma Finish(sizes: seq<nat>, incoming: seq<Chunk>, out: seq<seq<byte>>, next: nat, offset: nat, broke: bool)
    requires WriterAt(sizes, incoming, out, next, offset)
    requires Writing(CutBySizes(Flatten(Carried(incoming)), sizes), out)
    requires if broke then Drained(incoming, next, offset) else |out[|out| - 1]| == sizes[|out| - 1]
    ensures out <= CutBySizes(Flatten(Carried(incoming)), sizes)
  {
    hide Flatten, CutBySizes, Carried;
    var data := Flatten(Carried(incoming));
    var files := CutBySizes(data, sizes);
    if broke {
      InFiles(sizes, incoming, out, next, offset);
      AllReceived(data, sizes, out);
    } else {
      CutIsPrefix(data, sizes, |out| - 1);
      FileDone(files, out);
    }
  }

  /** What can be said at any time; more when everything received is used up, or all files are closed. */
  lemma Summary(sizes: seq<nat>, incoming: seq<Chunk>, out: seq<seq<byte>>, next: nat, offset: nat)
    requires WriterAt(sizes, incoming, out, next, offset)
    requires var files := CutBySizes(Flatten(Carried(incoming)), sizes); Writing(files, out) || out <= files
    ensures |out| <= |sizes| && Flatten(out) <= Flatten(Carried(incoming))
    ensures var files := CutBySizes(Flatten(Carried(incoming)), sizes);
            && (forall i :: 0 <= i < |out| ==> out[i] <= files[i])
            && (out <= files && |out| == |sizes| ==> out == files)
            && (Drained(incoming, next, offset) ==>
                  && out <= files && Flatten(out) == Flatten(Carried(incoming))
                  && forall i :: |out| <= i < |sizes| ==> files[i] == [])
  {
    hide Flatten, CutBySizes, Carried, Writing;
    var data := Flatten(Carried(incoming));
    var files := CutBySizes(data, sizes);
    InFiles(sizes, incoming, out, next, offset);
    EachPrefix(files, out);
    if Drained(incoming, next, offset) && |sizes| > 0 {
      AllReceived(data, sizes, out);
    }
  }

  lemma EachPrefix(files: seq<seq<byte>>, out: seq<seq<byte>>)
    requires Writing(files, out) || out <= files
    ensures |out| <= |files| && forall i :: 0 <= i < |out| ==> out[i] <= files[i]
  {
    if Writing(files, out) {
      forall i | 0 <= i < |out| ensures out[i] <= files[i] {
        if i < |out| - 1 { assert out[..|out| - 1][i] == files[..|out| - 1][i]; }
      }
    }
  }

  /** Once all the data is in the files, no file is short of anything. */
  lemma AllReceived(data: seq<byte>, sizes: seq<nat>, out: seq<seq<byte>>)
    requires Flatten(out) == data && |sizes| > 0
    requires Writing(CutBySizes(data, sizes), out) || out <= CutBySizes(data, sizes)
    ensures out <= CutBySizes(data, sizes)
    ensures forall i :: |out| <= i < |sizes| ==> CutBySizes(data, sizes)[i] == []
  {
    hide Flatten, CutBySizes;
    var files := CutBySizes(data, sizes);
    CutIsPrefix(data, sizes, 0);
    if out <= files {
      assert out == files[..|out|];
      FlattenPrefix(files, |out|);
      RestEmpty(files, out);
    } else {
      var i := |out| - 1;
      FlattenStep(files, i);
      FlattenPrefix(files, i + 1);
      FlattenStep(out, i);
      assert out[..i + 1] == out;
      AllWritten(files, out);
    }
  }

  /** When the data suffices and all of it is written, only empty files are left. */
  lemma OnlyEmptyLeft(sizes: seq<nat>, incoming: seq<Chunk>, out: seq<seq<byte>>, next: nat, offset: nat)
    requires WriterAt(sizes, incoming, out, next, offset) && Drained(incoming, next, offset)
    requires Writing(CutBySizes(Flatten(Carried(incoming)), sizes), out)
    ensures Sum(sizes) <= |Flatten(Carried(incoming))| ==>
              |out[|out| - 1]| == sizes[|out| - 1] && forall i :: |out| <= i < |sizes| ==> sizes[i] == 0
  {
    hide Flatten, CutBySizes, Carried;
    var data := Flatten(Carried(incoming));
    InFiles(sizes, incoming, out, next, offset);
    AllReceived(data, sizes, out);
    if Sum(sizes) <= |data| {
      CutIsFull(data, sizes);
      var files := CutBySizes(data, sizes);
      assert forall i :: 0 <= i < |sizes| ==> Sizes(files)[i] == |files[i]|;
    }
  }

  /** The counter counts the chunks that are used up; the offset counts into the next one. */
  lemma Counted(sizes: seq<nat>, incoming: seq<Chunk>, out: seq<seq<byte>>, next: nat, offset: nat, last: bool)
    requires WriterAt(sizes, incoming, out, next, offset)
    requires last ==> Drained(incoming, next, offset)
    ensures var n := if last then next else next - 1; Progress(incoming, out, n)
  {
    hide Flatten;
    InFiles(sizes, incoming, out, next, offset);
    var ps := Carried(incoming);
    FlattenStep(ps, next - 1);
    assert ps[..|ps|] == ps;
  }

  // ---- The reader and the writer together ----

  lemma CarriedIsAll(cs: seq<Chunk>)
    requires forall i :: 0 <= i < |cs| ==> |cs[i].data| <= 0xFFFF
    ensures Carried(cs) == Payloads(cs)
  {
    var ps, qs := Carried(cs), Payloads(cs);
    forall i | 0 <= i < |cs| ensures ps[i] == qs[i] {
      assert |cs[i].data| <= 0xFFFF;
    }
  }

  /** Packing files into chunks and cutting the chunks back by the declared sizes restores every file. */
  lemma WriterUndoesReader(r: Request, files: seq<seq<byte>>)
    requires Covers(r, |Flatten(files)|)
    ensures CutBySizes(Flatten(Carried(PlanChunks(r, Flatten(files)))), Sizes(files)) == files
  {
    hide Flatten, CutBySizes, Carried;
    var data := Flatten(files);
    var cs := PlanChunks(r, data);
    forall k | 0 <= k < |cs| ensures |cs[k].data| <= 0xFFFF {
      StartStep(r, |data|, k);
    }
    CarriedIsAll(cs);
    PlanPayloads(r, data, r.numChunks);
    assert cs[..r.numChunks] == cs && data[..|data|] == data;
    CutUndoesFlatten(files);
  }
}
