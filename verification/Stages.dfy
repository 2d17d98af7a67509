/** The six stages of a transfer, one atomic step at a time: every load of a shared flag, every queue
    operation and every store of a done flag is a step of its own. A step that has to wait is `None`. */
module Stages {
  import opened Bytes
  import opened Chunks
  import opened TransferRequests
  import opened Cutting
  import opened TransferManager
  import opened Threads

  // ---- FileManager::read_files_into_chunks ----

  datatype ReaderPc = NextFile | ReadLoop | PushChunk | StoreReadDone(normal: bool)

  datatype ReaderThread = ReaderThread(
    life: Life<ReaderPc>, file: nat, remaining: nat, filled: seq<byte>, capacity: nat, counter: nat)

  function ReaderStep(r: Request, files: seq<seq<byte>>, t: ReaderThread, output: Fifo<Chunk>, limit: nat, abort: bool)
    : Option<(ReaderThread, Fifo<Chunk>)>
  {
    match t.life
    case Live(NextFile) =>
      if t.file >= |files| then Some((t.(life := Live(StoreReadDone(true))), output))
      else if abort then Some((t.(life := Live(StoreReadDone(false))), output))
      else Some((t.(life := Live(ReadLoop), remaining := |files[t.file]|), output))
    case Live(ReadLoop) =>
      if t.remaining == 0 then Some((t.(life := Live(NextFile), file := t.file + 1), output))
      else if abort then Some((t.(life := Live(StoreReadDone(false))), output))
      else if t.file < |files| && t.remaining <= |files[t.file]| && |t.filled| <= t.capacity then
        var pos := |files[t.file]| - t.remaining;
        var n := Min(t.remaining, t.capacity - |t.filled|);
        var filled := t.filled + files[t.file][pos..pos + n];
        Some((t.(life := Live(if |filled| == t.capacity then PushChunk else ReadLoop),
                 remaining := t.remaining - n, filled := filled), output))
      else None
    case Live(PushChunk) =>
      if output.Size() >= limit || t.counter >= 0x1_0000_0000 then None else
        var next := (t.counter + 1) % 0x1_0000_0000;
        var size := if next == r.numChunks && r.finalChunkSize != 0 then r.finalChunkSize else r.chunkSize;
        Some((t.(life := Live(ReadLoop), filled := [], capacity := size, counter := next),
              output.Push(Plain(t.counter, t.filled))))
    case Live(StoreReadDone(normal)) => Some((t.(life := Exited(normal)), output.StoreDone()))
    case _ => None
  }

  // ---- process_chunks, for the encryptor and the decryptor ----

  datatype WorkerPc =
    | Check | TryPop | Apply(x: Chunk) | PushResult(y: Chunk) | LoadDone | TestEmpty | StoreDone(normal: bool)

  /** `count` is how often the transformation succeeded. */
  datatype WorkerThread = WorkerThread(life: Life<WorkerPc>, count: nat)

  /** `result` is what the transformation makes of the chunk being held, if any. */
  function WorkerStep(t: WorkerThread, input: Fifo<Chunk>, output: Fifo<Chunk>, limit: nat, abort: bool,
                      result: Result<Chunk>)
    : Option<(WorkerThread, Fifo<Chunk>, Fifo<Chunk>)>
  {
    match t.life
    case Live(Check) =>
      Some((t.(life := Live(if abort then StoreDone(false) else TryPop)), input, output))
    case Live(TryPop) =>
      if input.Empty() then Some((t.(life := Live(LoadDone)), input, output))
      else Some((t.(life := Live(Apply(input.Front()))), input.Pop(), output))
    case Live(Apply(_)) =>
      (match result
       case Ok(y) => Some((t.(life := Live(PushResult(y)), count := t.count + 1), input, output))
       case Err(_) => Some((t.(life := Throwing), input, output)))
    case Live(PushResult(y)) =>
      if output.Size() >= limit then None
      else Some((t.(life := Live(Check)), input, output.Push(y)))
    case Live(LoadDone) => Some((t.(life := Live(if input.done then TestEmpty else Check)), input, output))
    case Live(TestEmpty) => Some((t.(life := Live(if input.Empty() then StoreDone(true) else Check)), input, output))
    case Live(StoreDone(normal)) => Some((t.(life := Exited(normal)), input, output.StoreDone()))
    case _ => None
  }

  // ---- TransferManager::send_chunks ----

  datatype SenderPc = SendCheck | SendTryPop | Write(rest: seq<byte>) | SendLoadDone | SendTestEmpty

  datatype SenderThread = SenderThread(life: Life<SenderPc>, chunksSent: nat)

  /** `n` is how many bytes the network takes at once; it holds at most `limit`. */
  function SenderStep(t: SenderThread, input: Fifo<Chunk>, wire: Fifo<byte>, limit: nat, abort: bool, n: nat)
    : Option<(SenderThread, Fifo<Chunk>, Fifo<byte>)>
  {
    match t.life
    case Live(SendCheck) =>
      Some((t.(life := if abort then Exited(false) else Live(SendTryPop)), input, wire))
    case Live(SendTryPop) =>
      if input.Empty() then Some((t.(life := Live(SendLoadDone)), input, wire))
      else Some((t.(life := Live(Write(Frame(input.Front())))), input.Pop(), wire))
    case Live(Write(rest)) =>
      if |rest| == 0 then Some((t.(life := Live(SendCheck), chunksSent := t.chunksSent + 1), input, wire))
      else if 1 <= n <= |rest| && wire.Size() + n <= limit then
        Some((t.(life := Live(Write(rest[n..]))), input, wire.PushAll(rest[..n])))
      else None
    case Live(SendLoadDone) => Some((t.(life := Live(if input.done then SendTestEmpty else SendCheck)), input, wire))
    case Live(SendTestEmpty) =>
      Some((t.(life := if input.Empty() then Exited(true) else Live(SendCheck)), input, wire))
    case _ => None
  }

  // ---- TransferManager::receive_chunks ----

  datatype ReceiverPc = ReceiveCheck | Read(got: seq<byte>) | PushReceived(c: Chunk) | StoreReceiveDone

  datatype ReceiverThread = ReceiverThread(life: Life<ReceiverPc>, received: nat)

  /** `n` is how many bytes the network hands over at once. */
  function ReceiverStep(numChunks: nat, t: ReceiverThread, wire: Fifo<byte>, output: Fifo<Chunk>, limit: nat,
                        abort: bool, n: nat)
    : Option<(ReceiverThread, Fifo<byte>, Fifo<Chunk>)>
  {
    match t.life
    case Live(ReceiveCheck) =>
      if t.received >= numChunks then Some((t.(life := Live(StoreReceiveDone)), wire, output))
      else Some((t.(life := if abort then Exited(false) else Live(Read([]))), wire, output))
    case Live(Read(got)) =>
      if Complete(got) then Some((t.(life := Live(PushReceived(Unframe(got)))), wire, output))
      else if 1 <= n <= FrameLength(got) - |got| && wire.popped + n <= |wire.pushed| then
        Some((t.(life := Live(Read(got + wire.pushed[wire.popped..wire.popped + n]))), wire.PopMany(n), output))
      else None
    case Live(PushReceived(c)) =>
      if output.Size() >= limit then None
      else Some((t.(life := Live(ReceiveCheck), received := t.received + 1), wire, output.Push(c)))
    case Live(StoreReceiveDone) => Some((t.(life := Exited(true)), wire, output.StoreDone()))
    case _ => None
  }

  // ---- FileManager::write_files_from_chunks ----

  datatype WriterPc = FirstPop | OpenFile | WriteLoop | WriterLoadDone | WriterTestEmpty | PopNext

  /** `out` are the files created so far, the last one being open and `remaining` bytes short;
      `left` is what remains of `chunk`. */
  datatype WriterLocals = WriterLocals(
    out: seq<seq<byte>>, remaining: nat, chunk: Chunk, offset: nat, left: nat, chunksWritten: nat)

  datatype WriterThread = WriterThread(life: Life<WriterPc>, locals: WriterLocals)

  function TakeChunk(w: WriterLocals, c: Chunk): WriterLocals {
    w.(chunk := c, offset := 0, left := c.Size())
  }

  function CreateFile(w: WriterLocals, size: nat): WriterLocals {
    w.(out := w.out + [[]], remaining := size)
  }

  /** Writes as much as the open file needs and the chunk has; counts the chunk once it is used up. */
  function WriteSome(w: WriterLocals): WriterLocals
    requires |w.out| >= 1 && w.offset + Min(w.remaining, w.left) <= |w.chunk.data|
  {
    var n := Min(w.remaining, w.left);
    w.(out := AppendToLast(w.out, w.chunk.data[w.offset..w.offset + n]),
       offset := w.offset + n, left := w.left - n, remaining := w.remaining - n,
       chunksWritten := if w.left == n then (w.chunksWritten + 1) % 0x1_0000_0000 else w.chunksWritten)
  }

  function WriterStep(sizes: seq<nat>, t: WriterThread, input: Fifo<Chunk>, abort: bool)
    : Option<(WriterThread, Fifo<Chunk>)>
  {
    var w := t.locals;
    match t.life
    case Live(FirstPop) =>
      if input.Empty() then None
      else Some((WriterThread(Live(OpenFile), TakeChunk(w, input.Front())), input.Pop()))
    case Live(OpenFile) =>
      if |w.out| >= |sizes| then Some((t.(life := Exited(true)), input))
      else Some((WriterThread(Live(WriteLoop), CreateFile(w, sizes[|w.out|])), input))
    case Live(WriteLoop) =>
      if w.remaining == 0 then Some((t.(life := Live(OpenFile)), input))
      else if abort then Some((t.(life := Exited(false)), input))
      else if |w.out| == 0 || w.offset + Min(w.remaining, w.left) > |w.chunk.data| then None
      else
        var w' := WriteSome(w);
        Some((WriterThread(Live(if w'.left == 0 then WriterLoadDone else WriteLoop), w'), input))
    case Live(WriterLoadDone) => Some((t.(life := Live(if input.done then WriterTestEmpty else PopNext)), input))
    case Live(WriterTestEmpty) => Some((t.(life := Live(if input.Empty() then OpenFile else PopNext)), input))
    case Live(PopNext) =>
      if input.Empty() then None
      else Some((WriterThread(Live(WriteLoop), TakeChunk(w, input.Front())), input.Pop()))
    case _ => None
  }
}
