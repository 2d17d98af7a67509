/** Progress without failures: how much work is left, who can go on, and the one way to get stuck. */
module Progress {
  import opened Bytes
  import opened Chunks
  import opened TransferRequests
  import opened Packing
  import opened Cutting
  import opened TransferManager
  import opened EncryptionManager
  import opened Threads
  import opened Stages
  import opened StageInvariants
  import opened Pipeline
  import opened Safety

  /** No flag is raised and no thread has thrown. */
  predicate Healthy(s: State) {
    && !s.sendContext.abort && !s.receiveContext.abort
    && !s.reader.life.Failed() && !s.encryptor.life.Failed() && !s.sender.life.Failed()
    && !s.receiver.life.Failed() && !s.decryptor.life.Failed() && !s.writer.life.Failed()
  }

  // ---- Polling ----

  predicate Polls(life: Life<WorkerPc>) {
    life.Live? && (life.at.Check? || life.at.TryPop? || life.at.LoadDone? || life.at.TestEmpty?)
  }

  predicate SenderPolls(life: Life<SenderPc>) {
    life.Live? && !life.at.Write?
  }

  /** A stage that keeps asking an empty queue whose producer is not done makes no progress. */
  predicate Idle(s: State, t: ThreadId) {
    match t
    case Encryptor => Polls(s.encryptor.life) && s.fileQueue.Empty() && !s.fileQueue.done
    case Sender => SenderPolls(s.sender.life) && s.encryptedQueue.Empty() && !s.encryptedQueue.done
    case Decryptor => Polls(s.decryptor.life) && s.receivedQueue.Empty() && !s.receivedQueue.done
    case _ => false
  }

  // ---- The measure ----

  /** Steps a polling stage can take before it finds something: depends on what it will see. */
  function PollRank(input: Fifo<Chunk>, full: nat, drained: nat): nat {
    30 + if !input.Empty() then full else if input.done then drained else 0
  }

  function WorkerRank(life: Life<WorkerPc>, input: Fifo<Chunk>): nat {
    match life
    case Live(Check) => PollRank(input, 2, 4)
    case Live(TryPop) => PollRank(input, 1, 3)
    case Live(LoadDone) => PollRank(input, 4, 2)
    case Live(TestEmpty) => PollRank(input, 3, 1)
    case Live(Apply(_)) => 32
    case Live(PushResult(_)) => 31
    case Live(StoreDone(_)) => 20
    case _ => 0
  }

  function SenderRank(life: Life<SenderPc>, input: Fifo<Chunk>): nat {
    match life
    case Live(SendCheck) => PollRank(input, 2, 4)
    case Live(SendTryPop) => PollRank(input, 1, 3)
    case Live(SendLoadDone) => PollRank(input, 4, 2)
    case Live(SendTestEmpty) => PollRank(input, 3, 1)
    case Live(Write(_)) => 35
    case _ => 0
  }

  /** Files still to visit and bytes still to read. */
  function ReaderRank(cfg: Config, t: ReaderThread, output: Fifo<Chunk>): int {
    var visits := 2 * (|cfg.files| - t.file);
    var unread := |Flatten(cfg.files)| - Start(cfg.request, |Flatten(cfg.files)|, |output.pushed|) - |t.filled|;
    match t.life
    case Live(NextFile) => visits + unread + 30
    case Live(ReadLoop) => visits + unread + 29
    case Live(PushChunk) => visits + unread + 29
    case Live(StoreReadDone(_)) => 20
    case _ => 0
  }

  function ReceiverRank(life: Life<ReceiverPc>): nat {
    match life
    case Live(ReceiveCheck) => 33
    case Live(Read(_)) => 32
    case Live(PushReceived(_)) => 31
    case Live(StoreReceiveDone) => 20
    case _ => 0
  }

  /** Files still to open and bytes still to write. */
  function WriterRank(cfg: Config, t: WriterThread): int {
    var work := 6 * (|cfg.files| - |t.locals.out|) + 10 * (|Flatten(cfg.files)| - |Flatten(t.locals.out)|);
    match t.life
    case Live(FirstPop) => work + 5
    case Live(OpenFile) => work + 3
    case Live(WriteLoop) => work + 4
    case Live(WriterLoadDone) => work + 7
    case Live(WriterTestEmpty) => work + 6
    case Live(PopNext) => work + 5
    case _ => work
  }

  /** Queue operations still to come on one queue. */
  function ToPass(cfg: Config, q: Fifo<Chunk>): int {
    (cfg.request.numChunks - |q.pushed|) + (cfg.request.numChunks - q.popped)
  }

  function Measure(cfg: Config, s: State): int
    requires ValidConfig(cfg)
  {
    10 * (ToPass(cfg, s.fileQueue) + ToPass(cfg, s.encryptedQueue) + ToPass(cfg, s.receivedQueue)
          + ToPass(cfg, s.decryptedQueue))
    + (|Stream(CipherChunks(cfg))| - |s.wire.pushed|) + (|Stream(CipherChunks(cfg))| - s.wire.popped)
    + ReaderRank(cfg, s.reader, s.fileQueue)
    + WorkerRank(s.encryptor.life, s.fileQueue)
    + SenderRank(s.sender.life, s.encryptedQueue)
    + ReceiverRank(s.receiver.life)
    + WorkerRank(s.decryptor.life, s.receivedQueue)
    + WriterRank(cfg, s.writer)
  }

  lemma ReaderRankNonneg(cfg: Config, s: State)
    requires ValidConfig(cfg) && Inv(cfg, s)
    ensures ReaderRank(cfg, s.reader, s.fileQueue) >= 0
  {
    hide Flatten, Whole, WorkerInv, SenderInv, ReceiverInv, WriterInv, PlanChunks, Start, Consumed;
  }

  lemma WriterRankNonneg(cfg: Config, s: State)
    requires ValidConfig(cfg) && Inv(cfg, s)
    ensures WriterRank(cfg, s.writer) >= 0
  {
    hide Flatten, WriterHolds, BetweenChunks, Closed, Opened, WorkerInv, SenderInv, ReceiverInv, ReaderInv, Planned,
      PlanChunks;
    assert |Flatten(s.writer.locals.out)| <= |Flatten(cfg.files)|;
  }

  lemma ToPassNonneg(cfg: Config, s: State)
    requires ValidConfig(cfg) && Inv(cfg, s)
    ensures ToPass(cfg, s.fileQueue) >= 0 && ToPass(cfg, s.encryptedQueue) >= 0
    ensures ToPass(cfg, s.receivedQueue) >= 0 && ToPass(cfg, s.decryptedQueue) >= 0
  {
    hide ReceiverInv, ReaderInv, CipherChunks, PlainChunks, SenderCaughtUp, WriterHolds, BetweenChunks, Opened, Closed,
      FilesSafe, Stream;
  }

  lemma MeasureNonneg(cfg: Config, s: State)
    requires ValidConfig(cfg) && Inv(cfg, s)
    ensures Measure(cfg, s) >= 0
  {
    ReaderRankNonneg(cfg, s);
    WriterRankNonneg(cfg, s);
    ToPassNonneg(cfg, s);
    ReceivedWasEncrypted(cfg, s);
    assert s.wire.popped <= |s.wire.pushed| <= |Stream(CipherChunks(cfg))| by {
      hide Stream, CipherChunks, PlainChunks, WorkerInv, ReaderInv, WriterInv, SenderInv;
    }
    hide Stream, CipherChunks, Inv, ToPass, ReaderRank, WriterRank;
  }

  // ---- Every productive step does some of the work ----


  /** The reader's own part drops, and by enough to pay for waking up its consumer. */
  lemma ReaderRankLowers(cfg: Config, s: State)
    requires ValidConfig(cfg) && Inv(cfg, s) && Healthy(s) && StepReader(cfg, s).Some?
    ensures var s' := StepReader(cfg, s).value;
            && ReaderRank(cfg, s'.reader, s'.fileQueue) + 10 * ToPass(cfg, s'.fileQueue)
               < ReaderRank(cfg, s.reader, s.fileQueue) + 10 * ToPass(cfg, s.fileQueue)
                 - (if s'.fileQueue == s.fileQueue then 0 else 4)
            && !s'.reader.life.Failed() && s'.fileQueue.popped == s.fileQueue.popped
  {
    hide Flatten, Whole, PlanChunks, Consumed, WorkerInv, SenderInv, ReceiverInv, WriterInv;
    ReaderRankNonneg(cfg, s);
    if s.reader.life == Live(PushChunk) {
      ReaderPushes(cfg.request, cfg.files, s.reader, |cfg.files[s.reader.file]| - s.reader.remaining,
                   s.fileQueue.pushed);
    }
  }

  lemma WorkerLowers(t: WorkerThread, input: Fifo<Chunk>, output: Fifo<Chunk>, limit: nat, result: Result<Chunk>)
    requires !t.life.Failed() && (t.life.Live? && t.life.at.Apply? ==> result.Ok?)
    requires t.life == Live(TestEmpty) ==> input.done
    requires !(Polls(t.life) && input.Empty() && !input.done)
    requires WorkerStep(t, input, output, limit, false, result).Some?
    ensures var (t', input', output') := WorkerStep(t, input, output, limit, false, result).value;
            && !t'.life.Failed()
            && WorkerRank(t'.life, input') - 10 * input'.popped - 10 * |output'.pushed|
               < WorkerRank(t.life, input) - 10 * input.popped - 10 * |output.pushed|
                 - (if output' == output then 0 else 4)
            && input'.pushed == input.pushed && output'.popped == output.popped
  {
  }

  lemma SenderLowers(t: SenderThread, input: Fifo<Chunk>, wire: Fifo<byte>, limit: nat, n: nat)
    requires !t.life.Failed()
    requires t.life == Live(SendTestEmpty) ==> input.done
    requires !(SenderPolls(t.life) && input.Empty() && !input.done)
    requires SenderStep(t, input, wire, limit, false, n).Some?
    ensures var (t', input', wire') := SenderStep(t, input, wire, limit, false, n).value;
            && !t'.life.Failed()
            && SenderRank(t'.life, input') - 10 * input'.popped - |wire'.pushed|
              < SenderRank(t.life, input) - 10 * input.popped - |wire.pushed|
            && input'.pushed == input.pushed && wire'.popped == wire.popped
  {
    hide Frame;
  }

  lemma ReceiverLowers(numChunks: nat, t: ReceiverThread, wire: Fifo<byte>, output: Fifo<Chunk>, limit: nat, n: nat)
    requires !t.life.Failed()
    requires ReceiverStep(numChunks, t, wire, output, limit, false, n).Some?
    ensures var (t', wire', output') := ReceiverStep(numChunks, t, wire, output, limit, false, n).value;
            && !t'.life.Failed()
            && ReceiverRank(t'.life) - wire'.popped - 10 * |output'.pushed|
               < ReceiverRank(t.life) - wire.popped - 10 * |output.pushed| - (if output' == output then 0 else 4)
            && wire'.pushed == wire.pushed && output'.popped == output.popped
  {
    hide FrameLength, Complete, Unframe;
  }

  lemma WriterLowers(cfg: Config, s: State)
    requires ValidConfig(cfg) && Inv(cfg, s) && Healthy(s) && StepWriter(cfg, s).Some?
    ensures var s' := StepWriter(cfg, s).value;
            && !s'.writer.life.Failed()
            && WriterRank(cfg, s'.writer) - 10 * s'.decryptedQueue.popped
              < WriterRank(cfg, s.writer) - 10 * s.decryptedQueue.popped
            && s'.decryptedQueue.pushed == s.decryptedQueue.pushed
  {
    hide Flatten, PlanChunks, Planned, Start, Writing, WriterHolds, FilesSafe, ReaderInv, WorkerInv, SenderInv,
      ReceiverInv;
    var w := s.writer.locals;
    if s.writer.life == Live(OpenFile) {
      FlattenAppend(w.out, []);
    }
    if s.writer.life == Live(WriteLoop) && w.remaining > 0 {
      DecryptedAll(cfg, s);
      PlainIsPlan(cfg);
      if w.left == 0 {
        NothingMissing(cfg.request, cfg.files, w, s.decryptedQueue);
        assert false;
      }
      Writes(cfg.request, cfg.files, w, s.decryptedQueue);
      FlattenAppendToLast(w.out, w.chunk.data[w.offset..w.offset + Min(w.remaining, w.left)]);
    }
  }

  /** When something is pushed or a flag is stored, a polling consumer has at most four more steps to take. */
  lemma WakeUp(life: Life<WorkerPc>, input: Fifo<Chunk>, input': Fifo<Chunk>)
    requires ProducerMoves(input, input')
    ensures WorkerRank(life, input') <= WorkerRank(life, input) + (if input' == input then 0 else 4)
  {
  }

  lemma WakeUpSender(life: Life<SenderPc>, input: Fifo<Chunk>, input': Fifo<Chunk>)
    requires ProducerMoves(input, input')
    ensures SenderRank(life, input') <= SenderRank(life, input) + (if input' == input then 0 else 4)
  {
  }

  /** Without failures, every step that is not idle polling lowers the measure, and causes no failure. */
  lemma ProductiveStepLowers(cfg: Config, s: State, t: ThreadId, n: nat)
    requires ValidConfig(cfg) && (t == Decryptor ==> SameStream(cfg)) && Inv(cfg, s) && Healthy(s)
    requires !Idle(s, t) && StepThread(cfg, s, t, n).Some?
    ensures Measure(cfg, StepThread(cfg, s, t, n).value) < Measure(cfg, s)
    ensures Healthy(StepThread(cfg, s, t, n).value)
  {
    match t
    case Reader => ReaderTotal(cfg, s);
    case Encryptor => EncryptorTotal(cfg, s);
    case Sender => SenderTotal(cfg, s, n);
    case Receiver => ReceiverTotal(cfg, s, n);
    case Decryptor => DecryptorTotal(cfg, s);
    case Writer => WriterTotal(cfg, s);
  }

  lemma ReaderTotal(cfg: Config, s: State)
    requires ValidConfig(cfg) && Inv(cfg, s) && Healthy(s) && StepReader(cfg, s).Some?
    ensures Measure(cfg, StepReader(cfg, s).value) < Measure(cfg, s) && Healthy(StepReader(cfg, s).value)
  {
    hide Stream, CipherChunks, PlainChunks, WorkerInv, SenderInv, ReceiverInv, WriterInv, ReaderInv, ReaderStep,
      ReaderRank, WorkerRank, SenderRank, ReceiverRank, WriterRank;
    var s' := StepReader(cfg, s).value;
    ReaderRankLowers(cfg, s);
    StepReaderKeeps(cfg, s);
    ReaderAppends(cfg, s);
    WakeUp(s.encryptor.life, s.fileQueue, s'.fileQueue);
  }

  lemma EncryptorTotal(cfg: Config, s: State)
    requires ValidConfig(cfg) && Inv(cfg, s) && Healthy(s) && StepEncryptor(cfg, s).Some? && !Idle(s, Encryptor)
    ensures Measure(cfg, StepEncryptor(cfg, s).value) < Measure(cfg, s) && Healthy(StepEncryptor(cfg, s).value)
  {
    hide Stream, CipherChunks, PlainChunks, SenderInv, ReceiverInv, WriterInv, ReaderInv, WorkerStep, EncryptChunk,
      WorkerRank, SenderRank, ReceiverRank, WriterRank, ReaderRank;
    var s' := StepEncryptor(cfg, s).value;
    if s.encryptor.life.Live? && s.encryptor.life.at.Apply? {
      CipherChunkAt(cfg, s.encryptor.count);
    }
    WorkerLowers(s.encryptor, s.fileQueue, s.encryptedQueue, cfg.sendLimit, EncryptResult(cfg, s));
    WorkerAppends(s.encryptor, s.fileQueue, s.encryptedQueue, cfg.sendLimit, false, EncryptResult(cfg, s));
    WakeUpSender(s.sender.life, s.encryptedQueue, s'.encryptedQueue);
    SameReaderRank(cfg, s.reader, s.fileQueue, s'.fileQueue);
  }

  lemma SameReaderRank(cfg: Config, t: ReaderThread, q: Fifo<Chunk>, q': Fifo<Chunk>)
    requires q'.pushed == q.pushed
    ensures ReaderRank(cfg, t, q') == ReaderRank(cfg, t, q)
  {
    hide Flatten, Start;
  }

  lemma SenderTotal(cfg: Config, s: State, n: nat)
    requires ValidConfig(cfg) && Inv(cfg, s) && Healthy(s) && StepSender(cfg, s, n).Some? && !Idle(s, Sender)
    ensures Measure(cfg, StepSender(cfg, s, n).value) < Measure(cfg, s) && Healthy(StepSender(cfg, s, n).value)
  {
    hide Stream, CipherChunks, PlainChunks, WorkerInv, ReceiverInv, WriterInv, ReaderInv, SenderStep,
      WorkerRank, SenderRank, ReceiverRank, WriterRank, ReaderRank;
    SenderLowers(s.sender, s.encryptedQueue, s.wire, cfg.wireLimit, n);
  }

  lemma ReceiverTotal(cfg: Config, s: State, n: nat)
    requires ValidConfig(cfg) && Inv(cfg, s) && Healthy(s) && StepReceiver(cfg, s, n).Some?
    ensures Measure(cfg, StepReceiver(cfg, s, n).value) < Measure(cfg, s) && Healthy(StepReceiver(cfg, s, n).value)
  {
    hide Stream, CipherChunks, PlainChunks, WorkerInv, ReceiverInv, WriterInv, ReaderInv, SenderInv, ReceiverStep,
      WorkerRank, SenderRank, ReceiverRank, WriterRank, ReaderRank;
    var s' := StepReceiver(cfg, s, n).value;
    ReceiverLowers(cfg.request.numChunks, s.receiver, s.wire, s.receivedQueue, cfg.receiveLimit, n);
    ReceiverAppends(cfg, s, n);
    WakeUp(s.decryptor.life, s.receivedQueue, s'.receivedQueue);
  }

  lemma ReceiverAppends(cfg: Config, s: State, n: nat)
    requires ValidConfig(cfg) && Inv(cfg, s) && StepReceiver(cfg, s, n).Some?
    ensures ProducerMoves(s.receivedQueue, StepReceiver(cfg, s, n).value.receivedQueue)
  {
    hide Stream, CipherChunks, PlainChunks, WorkerInv, WriterInv, ReaderInv, SenderInv, FrameLength, Complete, Unframe;
  }

  lemma DecryptorTotal(cfg: Config, s: State)
    requires ValidConfig(cfg) && SameStream(cfg) && Inv(cfg, s) && Healthy(s) && StepDecryptor(cfg, s).Some?
             && !Idle(s, Decryptor)
    ensures Measure(cfg, StepDecryptor(cfg, s).value) < Measure(cfg, s) && Healthy(StepDecryptor(cfg, s).value)
  {
    hide Stream, CipherChunks, PlainChunks, SenderInv, ReceiverInv, WriterInv, ReaderInv, WorkerStep, DecryptChunk,
      SealedLog,
      WorkerRank, SenderRank, ReceiverRank, WriterRank, ReaderRank;
    ReceivedWasEncrypted(cfg, s);
    if s.decryptor.life.Live? && s.decryptor.life.at.Apply? {
      DecryptsAt(cfg, s.decryptor.count, s.encryptor.count);
    }
    WorkerLowers(s.decryptor, s.receivedQueue, s.decryptedQueue, cfg.receiveLimit, DecryptResult(cfg, s));
  }

  lemma WriterTotal(cfg: Config, s: State)
    requires ValidConfig(cfg) && Inv(cfg, s) && Healthy(s) && StepWriter(cfg, s).Some?
    ensures Measure(cfg, StepWriter(cfg, s).value) < Measure(cfg, s) && Healthy(StepWriter(cfg, s).value)
  {
    hide Stream, CipherChunks, PlainChunks, SenderInv, ReceiverInv, WriterInv, ReaderInv, WorkerInv, WriterStep,
      WorkerRank, SenderRank, ReceiverRank, WriterRank, ReaderRank;
    WriterLowers(cfg, s);
  }

  lemma IdleWorker(t: WorkerThread, input: Fifo<Chunk>, output: Fifo<Chunk>, limit: nat, result: Result<Chunk>)
    requires Polls(t.life) && t.life != Live(TestEmpty) && input.Empty() && !input.done
    requires WorkerStep(t, input, output, limit, false, result).Some?
    ensures var (t', input', output') := WorkerStep(t, input, output, limit, false, result).value;
            && input' == input && output' == output && Polls(t'.life) && t'.count == t.count
            && WorkerRank(t'.life, input) == WorkerRank(t.life, input)
  {
  }

  lemma IdleSender(cfg: Config, s: State, n: nat)
    requires SenderPolls(s.sender.life) && s.sender.life != Live(SendTestEmpty)
    requires s.encryptedQueue.Empty() && !s.encryptedQueue.done && !s.sendContext.abort && StepSender(cfg, s, n).Some?
    ensures var s' := StepSender(cfg, s, n).value;
            && s' == s.(sender := s'.sender) && SenderPolls(s'.sender.life)
            && SenderRank(s'.sender.life, s.encryptedQueue) == SenderRank(s.sender.life, s.encryptedQueue)
  {
    hide Frame;
  }

  /** A worker or sender that tests its queue has seen the flag. */
  lemma TestersSawFlag(cfg: Config, s: State)
    requires ValidConfig(cfg) && Inv(cfg, s)
    ensures s.encryptor.life == Live(TestEmpty) ==> s.fileQueue.done
    ensures s.sender.life == Live(SendTestEmpty) ==> s.encryptedQueue.done
    ensures s.decryptor.life == Live(TestEmpty) ==> s.receivedQueue.done
  {
    hide PlainChunks, CipherChunks, ReaderInv, ReceiverInv, WriterInv, SenderCaughtUp;
  }

  /** Idle polling changes nothing but the poller's position in its loop. */
  lemma IdleStepChangesNothing(cfg: Config, s: State, t: ThreadId, n: nat)
    requires ValidConfig(cfg) && Inv(cfg, s) && Healthy(s)
    requires Idle(s, t) && StepThread(cfg, s, t, n).Some?
    ensures Measure(cfg, StepThread(cfg, s, t, n).value) == Measure(cfg, s) && Healthy(StepThread(cfg, s, t, n).value)
    ensures Idle(StepThread(cfg, s, t, n).value, t)
    ensures var s' := StepThread(cfg, s, t, n).value;
            s' == s.(encryptor := s'.encryptor, sender := s'.sender, decryptor := s'.decryptor)
  {
    match t {
      case Encryptor => IdleEncryptorStep(cfg, s);
      case Sender => IdleSenderStep(cfg, s, n);
      case Decryptor => IdleDecryptorStep(cfg, s);
      case _ =>
    }
    hide ValidConfig, Inv, Measure, Healthy, Idle, StepEncryptor, StepSender, StepDecryptor, StepReader, StepReceiver,
      StepWriter, WorkerRank, SenderRank;
    OnlyPollersMoved(cfg, s, StepThread(cfg, s, t, n).value);
  }

  lemma IdleEncryptorStep(cfg: Config, s: State)
    requires ValidConfig(cfg) && Inv(cfg, s) && Healthy(s) && Idle(s, Encryptor) && StepEncryptor(cfg, s).Some?
    ensures var s' := StepEncryptor(cfg, s).value;
            && s' == s.(encryptor := s'.encryptor) && Healthy(s') && Idle(s', Encryptor)
            && WorkerRank(s'.encryptor.life, s.fileQueue) == WorkerRank(s.encryptor.life, s.fileQueue)
  {
    TestersSawFlag(cfg, s);
    hide ValidConfig, Inv, WorkerStep, EncryptResult, WorkerRank;
    IdleWorker(s.encryptor, s.fileQueue, s.encryptedQueue, cfg.sendLimit, EncryptResult(cfg, s));
  }

  lemma IdleSenderStep(cfg: Config, s: State, n: nat)
    requires ValidConfig(cfg) && Inv(cfg, s) && Healthy(s) && Idle(s, Sender) && StepSender(cfg, s, n).Some?
    ensures var s' := StepSender(cfg, s, n).value;
            && s' == s.(sender := s'.sender) && Healthy(s') && Idle(s', Sender)
            && SenderRank(s'.sender.life, s.encryptedQueue) == SenderRank(s.sender.life, s.encryptedQueue)
  {
    TestersSawFlag(cfg, s);
    IdleSender(cfg, s, n);
    hide ValidConfig, Inv, StepSender, SenderRank;
  }

  lemma IdleDecryptorStep(cfg: Config, s: State)
    requires ValidConfig(cfg) && Inv(cfg, s) && Healthy(s) && Idle(s, Decryptor) && StepDecryptor(cfg, s).Some?
    ensures var s' := StepDecryptor(cfg, s).value;
            && s' == s.(decryptor := s'.decryptor) && Healthy(s') && Idle(s', Decryptor)
            && WorkerRank(s'.decryptor.life, s.receivedQueue) == WorkerRank(s.decryptor.life, s.receivedQueue)
  {
    TestersSawFlag(cfg, s);
    hide ValidConfig, Inv, WorkerStep, DecryptResult, WorkerRank;
    IdleWorker(s.decryptor, s.receivedQueue, s.decryptedQueue, cfg.receiveLimit, DecryptResult(cfg, s));
  }

  lemma OnlyPollersMoved(cfg: Config, s: State, s': State)
    requires ValidConfig(cfg)
    requires s' == s.(encryptor := s'.encryptor, sender := s'.sender, decryptor := s'.decryptor)
    requires WorkerRank(s'.encryptor.life, s.fileQueue) == WorkerRank(s.encryptor.life, s.fileQueue)
    requires SenderRank(s'.sender.life, s.encryptedQueue) == SenderRank(s.sender.life, s.encryptedQueue)
    requires WorkerRank(s'.decryptor.life, s.receivedQueue) == WorkerRank(s.decryptor.life, s.receivedQueue)
    ensures Measure(cfg, s') == Measure(cfg, s)
  {
    hide ValidConfig, Stream, CipherChunks, ToPass, ReaderRank, WorkerRank, SenderRank, ReceiverRank, WriterRank;
  }

  /** A run in which nothing is thrown. */
  predicate FailureFree(actions: seq<Action>) {
    forall i :: 0 <= i < |actions| ==> actions[i].Step?
  }

  lemma HealthyStep(cfg: Config, s: State, t: ThreadId, n: nat)
    requires ValidConfig(cfg) && (t == Decryptor ==> SameStream(cfg)) && Inv(cfg, s) && Healthy(s)
             && Next(cfg, s, Step(t, n)).Some?
    ensures var s' := Next(cfg, s, Step(t, n)).value;
            && Inv(cfg, s') && Healthy(s')
            && Measure(cfg, s') <= Measure(cfg, s) - (if Idle(s, t) then 0 else 1)
  {
    hide Inv, Healthy, Measure, StepThread, Idle;
    NextKeeps(cfg, s, Step(t, n));
    if Idle(s, t) {
      IdleStepChangesNothing(cfg, s, t, n);
    } else {
      ProductiveStepLowers(cfg, s, t, n);
    }
  }

  lemma {:induction false} HealthyRun(cfg: Config, s: State, actions: seq<Action>)
    requires ValidConfig(cfg) && SameStream(cfg) && Inv(cfg, s) && Healthy(s) && FailureFree(actions)
             && Run(cfg, s, actions).Some?
    ensures Inv(cfg, Run(cfg, s, actions).value) && Healthy(Run(cfg, s, actions).value)
    decreases |actions|
  {
    hide Inv, Healthy, Measure, Next, Idle;
    if |actions| > 0 {
      HealthyStep(cfg, s, actions[0].t, actions[0].n);
      HealthyRun(cfg, Next(cfg, s, actions[0]).value, actions[1..]);
    }
  }

  /** How many steps of a run without failures are not idle polling. */
  function Productive(cfg: Config, s: State, actions: seq<Action>): nat
    requires ValidConfig(cfg) && FailureFree(actions)
    decreases |actions|
  {
    if |actions| == 0 then 0 else
      match Next(cfg, s, actions[0])
      case None => 0
      case Some(s') => (if Idle(s, actions[0].t) then 0 else 1) + Productive(cfg, s', actions[1..])
  }

  /** Without failures the threads do a bounded amount of work, however they are scheduled:
      what is not idle polling ends. */
  lemma {:induction false} WorkIsBounded(cfg: Config, s: State, actions: seq<Action>)
    requires ValidConfig(cfg) && SameStream(cfg) && Inv(cfg, s) && Healthy(s) && FailureFree(actions)
    ensures Productive(cfg, s, actions) <= Measure(cfg, s)
    decreases |actions|
  {
    hide Inv, Healthy, Measure, Next, Idle;
    MeasureNonneg(cfg, s);
    if |actions| > 0 && Next(cfg, s, actions[0]).Some? {
      HealthyStep(cfg, s, actions[0].t, actions[0].n);
      WorkIsBounded(cfg, Next(cfg, s, actions[0]).value, actions[1..]);
    }
  }

  lemma InitHealthy(cfg: Config)
    requires ValidConfig(cfg)
    ensures Healthy(Init(cfg))
  {
  }

  // ---- Who can go on ----

  /** This thread has a step that is not idle polling. */
  predicate CanMove(cfg: Config, s: State, t: ThreadId)
    requires ValidConfig(cfg)
  {
    !Idle(s, t) && (StepThread(cfg, s, t, 0).Some? || StepThread(cfg, s, t, 1).Some?)
  }

  lemma ReaderCanMove(cfg: Config, s: State)
    requires ValidConfig(cfg) && Inv(cfg, s) && Healthy(s)
    ensures s.reader.life.Exited? || CanMove(cfg, s, Reader) ||
            (s.fileQueue.Size() >= cfg.sendLimit && !s.fileQueue.done)
  {
    hide Flatten, PlanChunks, Consumed, WorkerInv, SenderInv, ReceiverInv, WriterInv, Planned, Whole;
    if s.reader.life == Live(PushChunk) {
      Unfinished(cfg.request, cfg.files, s.reader, s.fileQueue.pushed);
    }
  }

  lemma Unfinished(r: Request, files: seq<seq<byte>>, t: ReaderThread, pushed: seq<Chunk>)
    requires t.file < |files| && t.remaining <= |files[t.file]|
    requires ReaderHolds(r, files, t, |files[t.file]| - t.remaining, pushed) && |t.filled| == t.capacity
    ensures t.counter < 0x1_0000_0000
  {
    hide Flatten, Consumed;
    PackedPush(r, |Flatten(files)|, Consumed(files, t.file, |files[t.file]| - t.remaining), pushed, t.filled,
               t.capacity, t.counter);
  }

  /** A live worker either moves, or waits for its producer, or for room in its output queue. */
  lemma WorkerCanMove(t: WorkerThread, input: Fifo<Chunk>, output: Fifo<Chunk>, limit: nat, result: Result<Chunk>)
    requires t.life.Live?
    ensures WorkerStep(t, input, output, limit, false, result).Some? || output.Size() >= limit
    ensures Polls(t.life) ==> WorkerStep(t, input, output, limit, false, result).Some?
  {
  }

  /** The socket writer waits for room on the network. */
  predicate WaitsForNetwork(cfg: Config, s: State) {
    s.sender.life.Live? && s.sender.life.at.Write? && s.sender.life.at.rest != [] && s.wire.Size() >= cfg.wireLimit
  }

  /** As long as a sending thread is running, some thread can do useful work: a sending one, or, when the network is
      full, a receiving one. The sender never deadlocks. */
  lemma SenderNeverStuck(cfg: Config, s: State)
    requires ValidConfig(cfg) && Reachable(cfg, s) && Healthy(s)
    requires !(s.reader.life.Exited? && s.encryptor.life.Exited? && s.sender.life.Exited?)
    ensures if WaitsForNetwork(cfg, s)
            then CanMove(cfg, s, Receiver) || CanMove(cfg, s, Decryptor) || CanMove(cfg, s, Writer)
            else CanMove(cfg, s, Reader) || CanMove(cfg, s, Encryptor) || CanMove(cfg, s, Sender)
  {
    hide Inv, Healthy, CanMove;
    ReachableInv(cfg, s);
    if WaitsForNetwork(cfg, s) {
      if !(CanMove(cfg, s, Receiver) || CanMove(cfg, s, Decryptor) || CanMove(cfg, s, Writer)) {
        NetworkEmpties(cfg, s);
      }
    } else {
      SenderSideMoves(cfg, s);
    }
  }

  lemma SenderSideMoves(cfg: Config, s: State)
    requires ValidConfig(cfg) && Inv(cfg, s) && Healthy(s) && !WaitsForNetwork(cfg, s)
    requires !(s.reader.life.Exited? && s.encryptor.life.Exited? && s.sender.life.Exited?)
    ensures CanMove(cfg, s, Reader) || CanMove(cfg, s, Encryptor) || CanMove(cfg, s, Sender)
  {
    hide PlainChunks, CipherChunks, ReceiverInv, WriterInv, ReaderHolds, PlanChunks, Planned, Stream, SenderCaughtUp,
      EncryptResult, Frame;
    ReaderCanMove(cfg, s);
    if s.encryptor.life.Live? {
      WorkerCanMove(s.encryptor, s.fileQueue, s.encryptedQueue, cfg.sendLimit, EncryptResult(cfg, s));
    }
  }

  /** The receiving side makes room: when it is at rest, but for a thread that is past the last frame, the socket writer
      does not wait. */
  lemma NetworkEmpties(cfg: Config, s: State)
    requires ValidConfig(cfg) && Inv(cfg, s) && Healthy(s) && !CanMove(cfg, s, Decryptor)
    requires CanMove(cfg, s, Receiver) ==> s.receiver.life == Live(StoreReceiveDone)
    requires CanMove(cfg, s, Writer) ==> s.decryptedQueue.popped == cfg.request.numChunks
    ensures !WaitsForNetwork(cfg, s)
  {
    hide Inv, Healthy, CanMove;
    if WaitsForNetwork(cfg, s) {
      NotAllReceived(cfg, s);
      ReceiverCanMove(cfg, s);
      WriterCanMove(cfg, s);
      FullBehindDecryptor(cfg, s);
      if s.writer.life.Exited? { WriterTookAll(cfg, s); }
      assert false;
    }
  }

  /** While a frame is being written, the receiver has not read all frames. */
  lemma NotAllReceived(cfg: Config, s: State)
    requires ValidConfig(cfg) && Inv(cfg, s) && Healthy(s) && WaitsForNetwork(cfg, s)
    ensures s.receiver.life.Live? && s.receiver.life != Live(StoreReceiveDone)
    ensures s.wire.Size() > 0
  {
    hide ReaderInv, WorkerInv, WriterInv, Stream, FrameLength, CipherChunks, PlainChunks;
    var frames := CipherChunks(cfg);
    WroteLess(frames, s.sender, s.encryptedQueue, s.wire, false);
    assert frames[..|frames|] == frames;
  }

  lemma WroteLess(frames: seq<Chunk>, t: SenderThread, input: Fifo<Chunk>, wire: Fifo<byte>, abort: bool)
    requires SenderInv(frames, t, input, wire, abort) && t.life.Live? && t.life.at.Write? && t.life.at.rest != []
    ensures |wire.pushed| < |Stream(frames)|
  {
    hide Stream;
    StreamPrefix(frames, input.popped, |frames|);
    assert frames[..|frames|] == frames;
  }

  /** A decryptor that cannot move behind a full queue waits for room itself. */
  lemma FullBehindDecryptor(cfg: Config, s: State)
    requires ValidConfig(cfg) && Inv(cfg, s) && Healthy(s) && !CanMove(cfg, s, Decryptor)
    requires s.receiver.life.Live? && s.receivedQueue.Size() >= cfg.receiveLimit
    ensures !s.decryptedQueue.Empty() && s.decryptedQueue.popped < cfg.request.numChunks
  {
    hide PlainChunks, CipherChunks, ReaderInv, SenderInv, WriterInv, Stream, FrameLength, DecryptResult;
    if s.decryptor.life.Live? {
      WorkerCanMove(s.decryptor, s.receivedQueue, s.decryptedQueue, cfg.receiveLimit, DecryptResult(cfg, s));
    }
  }

  /** A finished sending side has written the frames of all chunks, so the progress display reaches its limit. */
  lemma SenderFinished(cfg: Config, s: State)
    requires ValidConfig(cfg) && Reachable(cfg, s) && Healthy(s)
    requires s.reader.life.Exited? && s.encryptor.life.Exited? && s.sender.life.Exited?
    ensures s.sender.chunksSent == cfg.request.numChunks && s.wire.pushed == Stream(CipherChunks(cfg))
  {
    ReachableInv(cfg, s);
    SuccessMeansAllSent(cfg, s);
  }

  // ---- Where the receiver can end up ----

  predicate Quiet(cfg: Config, s: State)
    requires ValidConfig(cfg)
  {
    && !CanMove(cfg, s, Reader) && !CanMove(cfg, s, Encryptor) && !CanMove(cfg, s, Sender)
    && !CanMove(cfg, s, Receiver) && !CanMove(cfg, s, Decryptor) && !CanMove(cfg, s, Writer)
  }

  lemma ReceiverCanMove(cfg: Config, s: State)
    requires ValidConfig(cfg) && Inv(cfg, s) && Healthy(s)
    ensures s.receiver.life.Exited? || CanMove(cfg, s, Receiver) ||
            (s.receivedQueue.Size() >= cfg.receiveLimit && !s.receivedQueue.done) ||
            (s.wire.Size() == 0 && s.wire.pushed != Stream(CipherChunks(cfg)))
  {
    hide Stream, CipherChunks, PlainChunks, WorkerInv, SenderInv, ReaderInv, WriterInv, Frame, FrameLength, Complete,
      Unframe;
    match s.receiver.life
    case Live(Read(got)) =>
      if !Complete(got) {
        ReceivedWasEncrypted(cfg, s);
        RoomInFrame(got);
        if s.wire.pushed == Stream(CipherChunks(cfg)) {
          MoreArrives(CipherChunks(cfg), s.receiver.received, s.wire.pushed, s.wire.popped, got);
        }
      }
    case _ =>
  }

  lemma RoomInFrame(got: seq<byte>)
    ensures !Complete(got) && |got| <= FrameLength(got) ==> |got| < FrameLength(got)
  {
  }

  /** As long as a frame is incomplete and everything was sent, there are bytes to read. */
  lemma MoreArrives(frames: seq<Chunk>, i: nat, bytes: seq<byte>, popped: nat, got: seq<byte>)
    requires i < |frames| && popped <= |bytes| && bytes == Stream(frames)
    requires bytes[..popped] == Stream(frames[..i]) + got
    requires !Complete(got) && |got| <= FrameLength(got)
    ensures popped < |bytes| && |got| < FrameLength(got)
  {
    hide Stream, Frame;
    var rest := Pending(frames, i, bytes, popped, got);
    FrameParts(frames[i]);
    FrameIsPrefixCode(frames[i], rest, got);
  }

  lemma WriterCanMove(cfg: Config, s: State)
    requires ValidConfig(cfg) && Inv(cfg, s) && Healthy(s)
    ensures s.writer.life.Exited? || CanMove(cfg, s, Writer) ||
            (s.decryptedQueue.Empty() && (s.writer.life == Live(FirstPop) || s.writer.life == Live(PopNext)))
  {
    WriteIsPossible(cfg, s);
    WriterHasStep(cfg, s);
    hide ValidConfig, Inv, Healthy, StepReader, StepEncryptor, StepSender, StepReceiver, StepDecryptor, StepWriter;
  }

  lemma WriterHasStep(cfg: Config, s: State)
    requires Healthy(s)
    requires var w := s.writer.locals;
             s.writer.life == Live(WriteLoop) && w.remaining > 0 ==>
               |w.out| >= 1 && w.offset + Min(w.remaining, w.left) <= |w.chunk.data|
    ensures s.writer.life.Exited? || StepWriter(cfg, s).Some? ||
            (s.decryptedQueue.Empty() && (s.writer.life == Live(FirstPop) || s.writer.life == Live(PopNext)))
  {
    hide WriteSome;
  }

  /** A writer that has something to write can write it. */
  lemma WriteIsPossible(cfg: Config, s: State)
    requires ValidConfig(cfg) && Inv(cfg, s) && Healthy(s)
    ensures var w := s.writer.locals;
            s.writer.life == Live(WriteLoop) && w.remaining > 0 ==>
              |w.out| >= 1 && w.offset + Min(w.remaining, w.left) <= |w.chunk.data|
  {
    hide Flatten, Carries, Planned, Start, WriterHolds, FilesSafe, ReaderInv, WorkerInv, SenderInv, ReceiverInv;
    var w := s.writer.locals;
    if s.writer.life == Live(WriteLoop) && w.remaining > 0 {
      if w.left > 0 {
        Writes(cfg.request, cfg.files, w, s.decryptedQueue);
      } else {
        DecryptedAll(cfg, s);
        PlainIsPlan(cfg);
        AllCarried(cfg, s);
        NothingMissing(cfg.request, cfg.files, w, s.decryptedQueue);
      }
    }
  }

  lemma AllCarried(cfg: Config, s: State)
    requires ValidConfig(cfg) && Inv(cfg, s) && s.decryptedQueue.pushed == PlainChunks(cfg)
    ensures CarriesAll(s.decryptedQueue.pushed, cfg.request, Flatten(cfg.files))
  {
    PlanCarries(s.decryptedQueue.pushed, cfg.request, Flatten(cfg.files));
  }

  /** A writer that returned took everything from its queue. */
  lemma WriterTookAll(cfg: Config, s: State)
    requires ValidConfig(cfg) && Inv(cfg, s) && Healthy(s) && s.writer.life.Exited?
    ensures s.decryptedQueue.Empty()
  {
    hide ReaderInv, WorkerInv, SenderInv, ReceiverInv, WriterHolds, Flatten;
    PlainIsPlan(cfg);
    assert s.writer.locals.out == cfg.files;
    AllCounted(cfg.request, cfg.files, s.writer.locals, s.decryptedQueue);
  }

  /** If nothing can make progress, the whole sending side, the receiver and the decryptor have finished,
      and the writer has returned or waits for a chunk that will never come. */
  lemma QuietShape(cfg: Config, s: State)
    requires ValidConfig(cfg) && Inv(cfg, s) && Healthy(s) && Quiet(cfg, s)
    ensures s.reader.life == Exited(true) && s.encryptor.life == Exited(true) && s.sender.life == Exited(true)
    ensures s.receiver.life == Exited(true) && s.decryptor.life == Exited(true)
    ensures s.decryptedQueue.pushed == PlainChunks(cfg) && s.decryptedQueue.Empty() && s.decryptedQueue.done
    ensures s.writer.life == Exited(true) || s.writer.life == Live(PopNext)
  {
    hide PlainChunks, CipherChunks, ReaderHolds, Planned, PlanChunks, Stream, SenderCaughtUp, FilesSafe, WriterHolds,
      Opened, Closed, BetweenChunks, DecryptResult, EncryptResult, FrameLength, CanMove;
    HasChunks(cfg);
    NetworkEmpties(cfg, s);
    SenderSideDone(cfg, s);
    ReceiverCanMove(cfg, s);
    WriterCanMove(cfg, s);
    if s.writer.life.Exited? {
      WriterTookAll(cfg, s);
    }
    DecryptorDone(cfg, s);
    DecryptedAll(cfg, s);
  }

  lemma HasChunks(cfg: Config)
    requires ValidConfig(cfg)
    ensures cfg.request.numChunks >= 1
  {
  }

  lemma SenderSideDone(cfg: Config, s: State)
    requires ValidConfig(cfg) && Inv(cfg, s) && Healthy(s) && !WaitsForNetwork(cfg, s)
    requires !CanMove(cfg, s, Reader) && !CanMove(cfg, s, Encryptor) && !CanMove(cfg, s, Sender)
    ensures s.reader.life == Exited(true) && s.encryptor.life == Exited(true) && s.sender.life == Exited(true)
    ensures s.wire.pushed == Stream(CipherChunks(cfg))
  {
    hide PlainChunks, CipherChunks, ReceiverInv, WriterInv, Stream, ReaderHolds, CanMove;
    if !(s.reader.life.Exited? && s.encryptor.life.Exited? && s.sender.life.Exited?) {
      SenderSideMoves(cfg, s);
    }
    EncryptedAll(cfg, s);
    assert CipherChunks(cfg)[..cfg.request.numChunks] == CipherChunks(cfg);
  }

  lemma DecryptorDone(cfg: Config, s: State)
    requires ValidConfig(cfg) && Inv(cfg, s) && Healthy(s)
    requires !CanMove(cfg, s, Decryptor)
    requires s.receiver.life.Exited? || s.receivedQueue.Size() >= cfg.receiveLimit
    requires s.decryptedQueue.Empty()
    ensures s.decryptor.life == Exited(true) && s.receiver.life == Exited(true)
  {
    hide PlainChunks, CipherChunks, ReaderInv, SenderInv, WriterInv, Stream, FrameLength, DecryptResult;
    if s.decryptor.life.Live? {
      WorkerCanMove(s.decryptor, s.receivedQueue, s.decryptedQueue, cfg.receiveLimit, DecryptResult(cfg, s));
    }
  }

  /** The stuck states, exactly. In a run without failures, when no thread can make progress: every stage but the
      writer has finished, all chunks are written and counted, every file with content is complete, and only empty
      files at the end of the list can be missing. The writer has returned or is blocked for ever in its second
      `pop`; the transfer is complete if and only if it has returned or the last file is not empty. */
  lemma StuckStates(cfg: Config, s: State)
    requires ValidConfig(cfg) && Reachable(cfg, s) && Healthy(s) && Quiet(cfg, s)
    ensures s.reader.life == Exited(true) && s.encryptor.life == Exited(true) && s.sender.life == Exited(true)
    ensures s.receiver.life == Exited(true) && s.decryptor.life == Exited(true)
    ensures s.writer.life == Exited(true) || (s.writer.life == Live(PopNext) && s.decryptedQueue.Empty())
    ensures s.writer.locals.chunksWritten == cfg.request.numChunks
    ensures var out := s.writer.locals.out;
            && out <= cfg.files && Flatten(out) == Flatten(cfg.files)
            && (forall j :: |out| <= j < |cfg.files| ==> cfg.files[j] == [])
            && |cfg.files| > 0
            && (out == cfg.files <==> s.writer.life == Exited(true) || cfg.files[|cfg.files| - 1] != [])
  {
    hide ReaderInv, WorkerInv, SenderInv, ReceiverInv, WriterHolds, Flatten, PlainChunks, CanMove;
    ReachableInv(cfg, s);
    QuietShape(cfg, s);
    PlainIsPlan(cfg);
    var w := s.writer.locals;
    if s.writer.life == Exited(true) {
      WriterReturnsComplete(cfg, s);
    } else {
      NoMoreMeansAll(cfg.request, cfg.files, w, s.decryptedQueue);
      Counts(cfg.request, cfg.files, w, s.decryptedQueue);
      assert w.out[|w.out| - 1] == cfg.files[|w.out| - 1];
    }
    if |cfg.files| == 0 {
      FlattenEmpties(cfg.files);
      assert false;
    }
  }

  lemma Counts(r: Request, files: seq<seq<byte>>, w: WriterLocals, input: Fifo<Chunk>)
    requires WriterHolds(r, files, w, input) && w.left == 0 && input.popped == |input.pushed|
    ensures w.chunksWritten == |input.pushed|
  {
  }

  // ---- The race that decides ----

  /** The writer waits for a chunk after the last one. */
  predicate WaitsForNothing(cfg: Config, s: State) {
    s.writer.life == Live(PopNext) && s.decryptedQueue.popped == cfg.request.numChunks
  }

  /** The writer has seen the flag after the last chunk. */
  predicate Leaving(cfg: Config, s: State) {
    && s.decryptedQueue.popped == cfg.request.numChunks && s.decryptedQueue.done && s.writer.locals.left == 0
    && (s.writer.life == Live(WriterTestEmpty) || s.writer.life == Live(OpenFile)
        || s.writer.life == Live(WriteLoop) || s.writer.life.Exited?)
  }

  lemma WaitsOn(cfg: Config, s: State, t: ThreadId, n: nat)
    requires ValidConfig(cfg) && Inv(cfg, s) && WaitsForNothing(cfg, s) && Next(cfg, s, Step(t, n)).Some?
    ensures WaitsForNothing(cfg, Next(cfg, s, Step(t, n)).value)
  {
    hide ReaderStep, ReceiverStep, SenderStep, EncryptResult, DecryptResult, CipherChunks,
      ReaderInv, ReceiverInv, SenderInv, WriterHolds, Opened, Closed, FilesSafe;
  }

  lemma LeavesOn(cfg: Config, s: State, t: ThreadId, n: nat)
    requires ValidConfig(cfg) && Inv(cfg, s) && Healthy(s) && Leaving(cfg, s) && Next(cfg, s, Step(t, n)).Some?
    ensures Leaving(cfg, Next(cfg, s, Step(t, n)).value)
  {
    hide ReaderStep, ReceiverStep, SenderStep, EncryptResult, DecryptResult, CipherChunks, PlainChunks,
      ReaderInv, ReceiverInv, SenderInv, WriterHolds, Opened, Closed, FilesSafe, Flatten, PlanChunks, Planned;
    DecryptedAll(cfg, s);
    PlainIsPlan(cfg);
    if t == Writer && s.writer.life == Live(WriteLoop) {
      NothingMissing(cfg.request, cfg.files, s.writer.locals, s.decryptedQueue);
    }
  }

  lemma {:induction false} Onwards(cfg: Config, s: State, actions: seq<Action>)
    requires ValidConfig(cfg) && SameStream(cfg) && Inv(cfg, s) && Healthy(s) && FailureFree(actions)
             && Run(cfg, s, actions).Some?
    ensures WaitsForNothing(cfg, s) ==> WaitsForNothing(cfg, Run(cfg, s, actions).value)
    ensures Leaving(cfg, s) ==> Leaving(cfg, Run(cfg, s, actions).value)
    decreases |actions|
  {
    hide Inv, Healthy, Measure, Next, Idle, WaitsForNothing, Leaving;
    if |actions| > 0 {
      var (t, n) := (actions[0].t, actions[0].n);
      HealthyStep(cfg, s, t, n);
      if WaitsForNothing(cfg, s) { WaitsOn(cfg, s, t, n); }
      if Leaving(cfg, s) { LeavesOn(cfg, s, t, n); }
      Onwards(cfg, Next(cfg, s, actions[0]).value, actions[1..]);
    }
  }

  /** One load decides. Take any state in which the writer has used up the last chunk and is about to load the
      decryptor's flag. However the run goes on from that load, once nothing can make progress the writer has
      returned if the flag was set, and is blocked for ever if it was not. */
  lemma LastLoadDecides(cfg: Config, s: State, actions: seq<Action>)
    requires ValidConfig(cfg) && SameStream(cfg) && Reachable(cfg, s) && Healthy(s)
    requires s.writer.life == Live(WriterLoadDone) && s.decryptedQueue.popped == cfg.request.numChunks
    requires FailureFree(actions) && Run(cfg, s, [Step(Writer, 0)] + actions).Some?
    requires Quiet(cfg, Run(cfg, s, [Step(Writer, 0)] + actions).value)
    ensures Run(cfg, s, [Step(Writer, 0)] + actions).value.writer.life ==
            if s.decryptedQueue.done then Exited(true) else Live(PopNext)
  {
    hide Inv, Healthy, Measure, Idle, Quiet;
    ReachableInv(cfg, s);
    assert ([Step(Writer, 0)] + actions)[1..] == actions;
    var s1 := Next(cfg, s, Step(Writer, 0)).value;
    AfterTheLoad(cfg, s);
    HealthyStep(cfg, s, Writer, 0);
    hide Next;
    Onwards(cfg, s1, actions);
    HealthyRun(cfg, s1, actions);
    QuietShape(cfg, Run(cfg, s1, actions).value);
  }

  lemma AfterTheLoad(cfg: Config, s: State)
    requires ValidConfig(cfg) && Inv(cfg, s)
    requires s.writer.life == Live(WriterLoadDone) && s.decryptedQueue.popped == cfg.request.numChunks
    ensures var s1 := Next(cfg, s, Step(Writer, 0));
            s1.Some? && if s.decryptedQueue.done then Leaving(cfg, s1.value) else WaitsForNothing(cfg, s1.value)
  {
    hide ReaderInv, ReceiverInv, SenderInv, WorkerInv, WriterHolds, Opened, Closed, FilesSafe;
  }
}
