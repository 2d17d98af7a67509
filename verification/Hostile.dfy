/** A transfer over a network that delivers anything: at any moment the bytes that the receiver has yet to read may be
    replaced. The sender, the queues and the threads are those of Pipeline. */
module Hostile {
  import opened Bytes
  import opened Chunks
  import opened TransferRequests
  import opened Packing
  import opened TransferManager
  import opened EncryptionManager
  import opened Threads
  import opened Stages
  import opened StageInvariants
  import opened Pipeline
  import Safety
  import Failures

  datatype Event = Act(a: Action) | Tamper(bytes: seq<byte>)

  function HostileNext(cfg: Config, s: State, e: Event): Option<State>
    requires ValidConfig(cfg)
  {
    match e
    case Act(a) => Next(cfg, s, a)
    case Tamper(bytes) => Some(s.(wire := Fifo(bytes, 0, s.wire.done)))
  }

  function Run(cfg: Config, s: State, events: seq<Event>): Option<State>
    requires ValidConfig(cfg)
    decreases |events|
  {
    if |events| == 0 then Some(s) else
      match HostileNext(cfg, s, events[0])
      case None => None
      case Some(s') => Run(cfg, s', events[1..])
  }

  ghost predicate Reachable(cfg: Config, s: State)
    requires ValidConfig(cfg)
  {
    exists events :: Run(cfg, Init(cfg), events) == Some(s)
  }

  // ---- What the receiving stages keep, whatever arrives ----

  ghost predicate AnyReceiverInv(numChunks: nat, t: ReceiverThread, output: Fifo<Chunk>, abort: bool) {
    && t.received == |output.pushed| <= numChunks
    && (output.done <==> t.life == Exited(true))
    && match t.life
       case Live(ReceiveCheck) => true
       case Live(StoreReceiveDone) => t.received == numChunks
       case Live(_) => t.received < numChunks
       case Exited(normal) => if normal then t.received == numChunks else abort
       case _ => true
  }

  /** The `i`-th frame was accepted at place `i` of the stream and became `c`. */
  ghost predicate Accepted(log: seq<Sealed>, numChunks: nat, frames: seq<Chunk>, i: nat, c: Chunk) {
    i < |frames| && DecryptChunk(frames[i], log, i, numChunks) == Ok(c)
  }

  /** `log` is everything the sender will ever push, `sealed` how much of it was pushed already. */
  ghost predicate AnyDecryptorInv(log: seq<Sealed>, sealed: nat, numChunks: nat, t: WorkerThread,
                                  input: Fifo<Chunk>, output: Fifo<Chunk>, abort: bool)
  {
    && input.Valid()
    && |output.pushed| <= t.count <= input.popped && t.count <= sealed
    && (forall i :: 0 <= i < |output.pushed| ==> Accepted(log, numChunks, input.pushed, i, output.pushed[i]))
    && (output.done <==> t.life.Exited?)
    && match t.life
       case Live(Apply(x)) => |output.pushed| == t.count && input.popped == t.count + 1 && x == input.pushed[t.count]
       case Live(PushResult(y)) =>
         |output.pushed| + 1 == t.count == input.popped && Accepted(log, numChunks, input.pushed, |output.pushed|, y)
       case Live(TestEmpty) => |output.pushed| == t.count == input.popped && input.done
       case Live(StoreDone(normal)) => WorkerLeaves(t, input, output, abort, normal)
       case Live(_) => |output.pushed| == t.count == input.popped
       case Exited(normal) => WorkerLeaves(t, input, output, abort, normal)
       case _ => true
  }

  ghost predicate Inv(cfg: Config, s: State)
    requires ValidConfig(cfg)
  {
    && ReaderInv(cfg.request, cfg.files, s.reader, s.fileQueue, s.sendContext.abort)
    && WorkerInv(PlainChunks(cfg), CipherChunks(cfg), s.encryptor, s.fileQueue, s.encryptedQueue, s.sendContext.abort)
    && AnyReceiverInv(cfg.request.numChunks, s.receiver, s.receivedQueue, s.receiveContext.abort)
    && AnyDecryptorInv(VisibleLog(cfg, cfg.request.numChunks), s.encryptor.count, cfg.request.numChunks,
                       s.decryptor, s.receivedQueue, s.decryptedQueue, s.receiveContext.abort)
    && WriterInv(cfg.request, cfg.files, s.writer, s.decryptedQueue, s.receiveContext.abort)
  }

  lemma AnyReceiverKeeps(numChunks: nat, t: ReceiverThread, wire: Fifo<byte>, output: Fifo<Chunk>, limit: nat,
                         abort: bool, n: nat)
    requires AnyReceiverInv(numChunks, t, output, abort)
             && ReceiverStep(numChunks, t, wire, output, limit, abort, n).Some?
    ensures var (t', wire', output') := ReceiverStep(numChunks, t, wire, output, limit, abort, n).value;
            AnyReceiverInv(numChunks, t', output', abort) && ProducerMoves(output, output')
  {
    hide FrameLength, Complete, Unframe;
  }

  lemma AnyDecryptorKeeps(log: seq<Sealed>, sealed: nat, numChunks: nat, t: WorkerThread,
                          input: Fifo<Chunk>, output: Fifo<Chunk>, limit: nat, abort: bool, result: Result<Chunk>)
    requires AnyDecryptorInv(log, sealed, numChunks, t, input, output, abort)
    requires t.life.Live? && t.life.at.Apply? && result.Ok? ==>
               t.count < sealed && DecryptChunk(t.life.at.x, log, t.count, numChunks) == result
    requires WorkerStep(t, input, output, limit, abort, result).Some?
    ensures var (t', input', output') := WorkerStep(t, input, output, limit, abort, result).value;
            && AnyDecryptorInv(log, sealed, numChunks, t', input', output', abort)
            && input'.pushed == input.pushed && input'.done == input.done && ProducerMoves(output, output')
  {
    hide DecryptChunk;
  }

  lemma AnyDecryptorStable(log: seq<Sealed>, sealed: nat, numChunks: nat, t: WorkerThread,
                           input: Fifo<Chunk>, output: Fifo<Chunk>, abort: bool,
                           sealed': nat, input': Fifo<Chunk>, output': Fifo<Chunk>, abort': bool)
    requires AnyDecryptorInv(log, sealed, numChunks, t, input, output, abort)
    requires ProducerMoves(input, input') && sealed <= sealed'
    requires output' == output.(popped := output'.popped) && (abort ==> abort')
    ensures AnyDecryptorInv(log, sealed', numChunks, t, input', output', abort')
  {
    hide DecryptChunk;
  }

  // ---- Every step keeps the invariant ----

  /** Accepted frames carry the sender's pieces, in order, whatever their numbers. */
  lemma AcceptedCarry(cfg: Config, frames: seq<Chunk>, out: seq<Chunk>)
    requires ValidConfig(cfg)
    requires var n := cfg.request.numChunks;
             forall i :: 0 <= i < |out| ==> Accepted(VisibleLog(cfg, n), n, frames, i, out[i])
    ensures Carries(out, cfg.request, Flatten(cfg.files))
  {
    hide Flatten, Piece, SealedLog;
    var n := cfg.request.numChunks;
    LogIsHonest(cfg, n);
    if |out| > n { NothingBeyond(cfg, frames, out[n]); }
    forall k | 0 <= k < |out| ensures out[k].data == Piece(cfg.request, Flatten(cfg.files), k) {
      assert Accepted(VisibleLog(cfg, n), n, frames, k, out[k]);
    }
  }

  lemma NothingBeyond(cfg: Config, frames: seq<Chunk>, c: Chunk)
    requires ValidConfig(cfg)
    ensures !Accepted(VisibleLog(cfg, cfg.request.numChunks), cfg.request.numChunks, frames, cfg.request.numChunks, c)
  {
    hide SealedLog;
  }

  /** What the decryptor accepts was sealed before, and would be accepted with the whole log as well. */
  lemma AcceptedWasSealed(cfg: Config, s: State)
    requires ValidConfig(cfg) && s.encryptor.count <= cfg.request.numChunks
    requires s.decryptor.life.Live? && s.decryptor.life.at.Apply? && DecryptResult(cfg, s).Ok?
    ensures s.decryptor.count < s.encryptor.count
    ensures var n := cfg.request.numChunks;
            DecryptChunk(s.decryptor.life.at.x, VisibleLog(cfg, n), s.decryptor.count, n) == DecryptResult(cfg, s)
  {
    var n := cfg.request.numChunks;
    var now := VisibleLog(cfg, s.encryptor.count);
    assert s.decryptor.count < s.encryptor.count by { hide SealedLog; }
    LogGrows(cfg, s.encryptor.count);
    hide DecryptChunk, SealedLog;
    StillDecrypts(s.decryptor.life.at.x, now, VisibleLog(cfg, n), s.decryptor.count, n);
  }

  lemma LogGrows(cfg: Config, k: nat)
    requires ValidConfig(cfg) && k <= cfg.request.numChunks
    ensures VisibleLog(cfg, k) <= VisibleLog(cfg, cfg.request.numChunks)
  {
    hide PlainChunks;
  }

  lemma InitInv(cfg: Config)
    requires ValidConfig(cfg)
    ensures Inv(cfg, Init(cfg))
  {
    hide Capacity, PlainChunks, CipherChunks, Pipeline.Inv;
    Pipeline.InitInv(cfg);
    assert Pipeline.Inv(cfg, Init(cfg)) ==> Inv(cfg, Init(cfg)) by { RestOfInit(cfg); }
  }

  lemma RestOfInit(cfg: Config)
    requires ValidConfig(cfg) && Pipeline.Inv(cfg, Init(cfg))
    ensures Inv(cfg, Init(cfg))
  {
    hide PlainChunks, CipherChunks, ReaderInv, WorkerInv, WriterInv, SenderInv, ReceiverInv;
  }

  lemma ReaderStepKeeps(cfg: Config, s: State)
    requires ValidConfig(cfg) && Inv(cfg, s) && StepReader(cfg, s).Some?
    ensures Inv(cfg, StepReader(cfg, s).value)
  {
    hide ReaderInv, WorkerInv, AnyReceiverInv, AnyDecryptorInv, WriterInv, ReaderStep, PlainChunks, CipherChunks,
      VisibleLog;
    var s' := StepReader(cfg, s).value;
    ReaderKeeps(cfg.request, cfg.files, s.reader, s.fileQueue, cfg.sendLimit, s.sendContext.abort);
    ReaderAppends(cfg, s);
    WorkerStable(PlainChunks(cfg), CipherChunks(cfg), s.encryptor, s.fileQueue, s.encryptedQueue, s.sendContext.abort,
                 s'.fileQueue, s.encryptedQueue, s.sendContext.abort);
  }

  lemma EncryptorStepKeeps(cfg: Config, s: State)
    requires ValidConfig(cfg) && Inv(cfg, s) && StepEncryptor(cfg, s).Some?
    ensures Inv(cfg, StepEncryptor(cfg, s).value)
  {
    hide ReaderInv, AnyReceiverInv, AnyDecryptorInv, WriterInv, WorkerStep, PlainChunks, CipherChunks, EncryptChunk,
      VisibleLog;
    var s' := StepEncryptor(cfg, s).value;
    if s.encryptor.life.Live? && s.encryptor.life.at.Apply? {
      CipherChunkAt(cfg, s.encryptor.count);
    }
    WorkerKeeps(PlainChunks(cfg), CipherChunks(cfg), s.encryptor, s.fileQueue, s.encryptedQueue,
                cfg.sendLimit, s.sendContext.abort, EncryptResult(cfg, s));
    CountGrows(s.encryptor, s.fileQueue, s.encryptedQueue, cfg.sendLimit, s.sendContext.abort, EncryptResult(cfg, s));
    hide WorkerInv;
    ReaderUnaffected(cfg, s, s'.fileQueue);
    var n := cfg.request.numChunks;
    AnyDecryptorStable(VisibleLog(cfg, n), s.encryptor.count, n, s.decryptor, s.receivedQueue, s.decryptedQueue,
                       s.receiveContext.abort,
                       s'.encryptor.count, s.receivedQueue, s.decryptedQueue, s.receiveContext.abort);
  }

  lemma CountGrows(t: WorkerThread, input: Fifo<Chunk>, output: Fifo<Chunk>, limit: nat, abort: bool,
                   result: Result<Chunk>)
    requires WorkerStep(t, input, output, limit, abort, result).Some?
    ensures t.count <= WorkerStep(t, input, output, limit, abort, result).value.0.count
  {
  }

  lemma SenderStepKeeps(cfg: Config, s: State, n: nat)
    requires ValidConfig(cfg) && Inv(cfg, s) && StepSender(cfg, s, n).Some?
    ensures Inv(cfg, StepSender(cfg, s, n).value)
  {
    hide ReaderInv, AnyReceiverInv, AnyDecryptorInv, WriterInv, PlainChunks, CipherChunks, VisibleLog, Frame;
    var s' := StepSender(cfg, s, n).value;
    WorkerStable(PlainChunks(cfg), CipherChunks(cfg), s.encryptor, s.fileQueue, s.encryptedQueue, s.sendContext.abort,
                 s.fileQueue, s'.encryptedQueue, s.sendContext.abort);
  }

  lemma ReceiverStepKeeps(cfg: Config, s: State, n: nat)
    requires ValidConfig(cfg) && Inv(cfg, s) && StepReceiver(cfg, s, n).Some?
    ensures Inv(cfg, StepReceiver(cfg, s, n).value)
  {
    hide ReaderInv, WorkerInv, AnyReceiverInv, AnyDecryptorInv, WriterInv, PlainChunks, CipherChunks, VisibleLog,
      ReceiverStep;
    var s' := StepReceiver(cfg, s, n).value;
    var total := cfg.request.numChunks;
    AnyReceiverKeeps(total, s.receiver, s.wire, s.receivedQueue, cfg.receiveLimit, s.receiveContext.abort, n);
    AnyDecryptorStable(VisibleLog(cfg, total), s.encryptor.count, total, s.decryptor, s.receivedQueue, s.decryptedQueue,
                       s.receiveContext.abort, s.encryptor.count, s'.receivedQueue, s.decryptedQueue,
                         s.receiveContext.abort);
  }

  lemma SealedSoFar(cfg: Config, s: State)
    requires ValidConfig(cfg) && Inv(cfg, s)
    ensures s.encryptor.count <= cfg.request.numChunks
  {
    hide ReaderInv, AnyReceiverInv, AnyDecryptorInv, WriterInv, PlainChunks, CipherChunks;
  }

  lemma DecryptorStepKeeps(cfg: Config, s: State)
    requires ValidConfig(cfg) && Inv(cfg, s) && StepDecryptor(cfg, s).Some?
    ensures Inv(cfg, StepDecryptor(cfg, s).value)
  {
    hide ReaderInv, WorkerInv, AnyReceiverInv, WriterInv, WorkerStep, PlainChunks, CipherChunks, DecryptChunk,
      SealedLog;
    var s' := StepDecryptor(cfg, s).value;
    var n := cfg.request.numChunks;
    SealedSoFar(cfg, s);
    if s.decryptor.life.Live? && s.decryptor.life.at.Apply? && DecryptResult(cfg, s).Ok? {
      AcceptedWasSealed(cfg, s);
    }
    hide VisibleLog;
    AnyDecryptorKeeps(VisibleLog(cfg, n), s.encryptor.count, n, s.decryptor, s.receivedQueue, s.decryptedQueue,
                      cfg.receiveLimit, s.receiveContext.abort, DecryptResult(cfg, s));
    AnyReceiverStable(n, s.receiver, s.receivedQueue, s'.receivedQueue, s.receiveContext.abort);
    AcceptedCarry(cfg, s'.receivedQueue.pushed, s'.decryptedQueue.pushed);
    WriterStable(cfg.request, cfg.files, s.writer, s.decryptedQueue, s.receiveContext.abort,
                 s'.decryptedQueue, s.receiveContext.abort);
  }

  lemma AnyReceiverStable(numChunks: nat, t: ReceiverThread, output: Fifo<Chunk>, output': Fifo<Chunk>, abort: bool)
    requires AnyReceiverInv(numChunks, t, output, abort) && output'.pushed == output.pushed
             && output'.done == output.done
    ensures AnyReceiverInv(numChunks, t, output', abort)
  {
  }

  lemma WriterStepKeeps(cfg: Config, s: State)
    requires ValidConfig(cfg) && Inv(cfg, s) && StepWriter(cfg, s).Some?
    ensures Inv(cfg, StepWriter(cfg, s).value)
  {
    hide ReaderInv, WorkerInv, AnyReceiverInv, AnyDecryptorInv, WriterInv, WriterStep, PlainChunks, CipherChunks,
      VisibleLog;
    var s' := StepWriter(cfg, s).value;
    var n := cfg.request.numChunks;
    if s.decryptedQueue.done && !s.receiveContext.abort { DecryptedAll(cfg, s); }
    WriterKeeps(cfg.request, cfg.files, s.writer, s.decryptedQueue, s.receiveContext.abort);
    assert s'.decryptedQueue == s.decryptedQueue.(popped := s'.decryptedQueue.popped);
    AnyDecryptorStable(VisibleLog(cfg, n), s.encryptor.count, n, s.decryptor, s.receivedQueue, s.decryptedQueue,
                       s.receiveContext.abort,
                       s.encryptor.count, s.receivedQueue, s'.decryptedQueue, s.receiveContext.abort);
  }

  /** A done flag without a failure still means that everything is there. */
  lemma DecryptedAll(cfg: Config, s: State)
    requires ValidConfig(cfg) && Inv(cfg, s) && s.decryptedQueue.done && !s.receiveContext.abort
    ensures CarriesAll(s.decryptedQueue.pushed, cfg.request, Flatten(cfg.files))
  {
    hide ReaderInv, WorkerInv, PlainChunks, CipherChunks, VisibleLog, Flatten, WriterHolds, Opened, Closed, FilesSafe,
      Carries, DecryptChunk;
  }

  lemma ThrowKeeps(cfg: Config, s: State, t: ThreadId)
    requires ValidConfig(cfg) && Inv(cfg, s) && ThrowThread(s, t).Some?
    ensures Inv(cfg, ThrowThread(s, t).value)
  {
    hide PlainChunks, CipherChunks, Planned, PlanChunks, Carries, VisibleLog, FilesSafe, DecryptChunk;
  }

  lemma HandleKeeps(cfg: Config, s: State, t: ThreadId)
    requires ValidConfig(cfg) && Inv(cfg, s) && HandleThread(s, t).Some?
    ensures Inv(cfg, HandleThread(s, t).value)
  {
    hide PlainChunks, CipherChunks, Planned, PlanChunks, Carries, VisibleLog, FilesSafe, DecryptChunk;
  }

  lemma StepKeeps(cfg: Config, s: State, e: Event)
    requires ValidConfig(cfg) && Inv(cfg, s) && HostileNext(cfg, s, e).Some?
    ensures Inv(cfg, HostileNext(cfg, s, e).value)
  {
    match e
    case Act(Step(t, n)) =>
      hide Inv, StepReader, StepEncryptor, StepSender, StepReceiver, StepDecryptor, StepWriter;
      match t {
        case Reader => ReaderStepKeeps(cfg, s);
        case Encryptor => EncryptorStepKeeps(cfg, s);
        case Sender => SenderStepKeeps(cfg, s, n);
        case Receiver => ReceiverStepKeeps(cfg, s, n);
        case Decryptor => DecryptorStepKeeps(cfg, s);
        case Writer => WriterStepKeeps(cfg, s);
      }
    case Act(Throw(t)) =>
      hide Inv, ThrowThread;
      ThrowKeeps(cfg, s, t);
    case Act(Handle(t)) =>
      hide Inv, HandleThread;
      HandleKeeps(cfg, s, t);
    case Tamper(_) =>
      hide ReaderInv, WorkerInv, AnyReceiverInv, AnyDecryptorInv, WriterInv, PlainChunks, CipherChunks, VisibleLog;
  }

  lemma {:induction false} RunKeeps(cfg: Config, s: State, events: seq<Event>)
    requires ValidConfig(cfg) && Inv(cfg, s) && Safety.ContextInv(s) && Run(cfg, s, events).Some?
    ensures Inv(cfg, Run(cfg, s, events).value) && Safety.ContextInv(Run(cfg, s, events).value)
    decreases |events|
  {
    hide Inv, Safety.ContextInv, Next;
    if |events| > 0 {
      StepKeeps(cfg, s, events[0]);
      ContextKept(cfg, s, events[0]);
      RunKeeps(cfg, HostileNext(cfg, s, events[0]).value, events[1..]);
    }
  }

  lemma ContextKept(cfg: Config, s: State, e: Event)
    requires ValidConfig(cfg) && Safety.ContextInv(s) && HostileNext(cfg, s, e).Some?
    ensures Safety.ContextInv(HostileNext(cfg, s, e).value)
  {
    hide Next;
    if e.Act? { Safety.ContextKept(cfg, s, e.a); }
  }

  lemma ReachableInv(cfg: Config, s: State)
    requires ValidConfig(cfg) && Reachable(cfg, s)
    ensures Inv(cfg, s) && Safety.ContextInv(s)
  {
    hide Inv;
    var events :| Run(cfg, Init(cfg), events) == Some(s);
    InitInv(cfg);
    RunKeeps(cfg, Init(cfg), events);
  }

  // ---- What the receiver can rely on ----

  /** Whatever arrives, and however the threads are scheduled: what the decryptor has passed on is what its frames
      decrypt to, a beginning of the payloads the sender has encrypted so far. If it has passed on all chunks, these are
      all the payloads, and only the last carries the last number. */
  lemma DecryptorEmitsPrefix(cfg: Config, s: State)
    requires ValidConfig(cfg) && Reachable(cfg, s)
    ensures s.encryptor.count <= cfg.request.numChunks && |s.decryptedQueue.pushed| <= |s.receivedQueue.pushed|
    ensures var n, out := cfg.request.numChunks, s.decryptedQueue.pushed;
            && out == DecryptAll(s.receivedQueue.pushed[..|out|], VisibleLog(cfg, n), 0, n)
            && (forall i :: 0 <= i < |out| ==> 1 <= out[i].sequenceNum <= n)
            && Payloads(out) <= Messages(SealedLog(cfg, s.encryptor.count)) <= Payloads(PlainChunks(cfg))
            && (|out| == n ==> Payloads(out) == Payloads(PlainChunks(cfg))
                               && forall i :: 0 <= i < n ==> (out[i].sequenceNum == n <==> i == n - 1))
  {
    hide Inv, PlainChunks, SealedLog, DecryptAll, DecryptChunk, VisibleLog, Payloads, Messages;
    ReachableInv(cfg, s);
    SealedSoFar(cfg, s);
    PassedOn(cfg, s);
    var n, out := cfg.request.numChunks, s.decryptedQueue.pushed;
    AcceptsAll(s.receivedQueue.pushed[..|out|], VisibleLog(cfg, n), 0, n, out);
    EmittedArePrefix(s.receivedQueue.pushed[..|out|], VisibleLog(cfg, n), n);
    forall i | 0 <= i < |out| ensures 1 <= out[i].sequenceNum <= n {
      EmittedNumbers(s.receivedQueue.pushed[..|out|], VisibleLog(cfg, n), 0, n, i);
    }
    MessagesSoFar(cfg, s.encryptor.count, out);
    if |out| == n { AllEmitted(cfg, s.receivedQueue.pushed[..n], out); }
  }

  /** No more than was sealed so far, and that is a beginning of all payloads. */
  lemma MessagesSoFar(cfg: Config, k: nat, out: seq<Chunk>)
    requires ValidConfig(cfg) && |out| <= k <= cfg.request.numChunks
    requires Payloads(out) <= Messages(VisibleLog(cfg, cfg.request.numChunks))
    ensures Payloads(out) <= Messages(SealedLog(cfg, k)) <= Payloads(PlainChunks(cfg))
  {
    hide SealedLog, PlainChunks;
    MessagesAreData(cfg, k);
    MessagesAreData(cfg, cfg.request.numChunks);
  }

  lemma AllEmitted(cfg: Config, frames: seq<Chunk>, out: seq<Chunk>)
    requires ValidConfig(cfg) && |out| == cfg.request.numChunks
    requires out == DecryptAll(frames, VisibleLog(cfg, cfg.request.numChunks), 0, cfg.request.numChunks)
    ensures Payloads(out) == Payloads(PlainChunks(cfg))
    ensures var n := cfg.request.numChunks; forall i :: 0 <= i < n ==> (out[i].sequenceNum == n <==> i == n - 1)
  {
    hide SealedLog, PlainChunks, DecryptAll, DecryptChunk;
    var n := cfg.request.numChunks;
    LogIsHonest(cfg, n);
    MessagesAreData(cfg, n);
    AllAcceptedMeansComplete(frames, VisibleLog(cfg, n), n);
  }

  lemma PassedOn(cfg: Config, s: State)
    requires ValidConfig(cfg) && Inv(cfg, s)
    ensures var n, out := cfg.request.numChunks, s.decryptedQueue.pushed;
            && |out| <= |s.receivedQueue.pushed| && |out| <= s.encryptor.count
            && forall i :: 0 <= i < |out| ==>
                 DecryptChunk(s.receivedQueue.pushed[..|out|][i], VisibleLog(cfg, n), 0 + i, n) == Ok(out[i])
  {
    hide ReaderInv, WorkerInv, AnyReceiverInv, WriterInv, PlainChunks, CipherChunks, VisibleLog, DecryptChunk;
    var n, out := cfg.request.numChunks, s.decryptedQueue.pushed;
    forall i | 0 <= i < |out|
      ensures DecryptChunk(s.receivedQueue.pushed[..|out|][i], VisibleLog(cfg, n), 0 + i, n) == Ok(out[i])
    {
      assert Accepted(VisibleLog(cfg, n), n, s.receivedQueue.pushed, i, out[i]);
    }
  }

  /** What is sealed are the payloads of the plan. */
  lemma MessagesAreData(cfg: Config, k: nat)
    requires ValidConfig(cfg) && k <= cfg.request.numChunks
    ensures Messages(SealedLog(cfg, k)) == Payloads(PlainChunks(cfg))[..k]
  {
    hide SealedLog, Piece, Flatten;
    LogIsHonest(cfg, k);
  }

  /** Whatever arrives: files on disk stay beginnings of their sources. */
  lemma FilesStaySafe(cfg: Config, s: State)
    requires ValidConfig(cfg) && Reachable(cfg, s)
    ensures var out := s.writer.locals.out;
            && |out| <= |cfg.files|
            && (forall j :: 0 <= j < |out| ==> out[j] <= cfg.files[j])
            && Flatten(out) <= Flatten(cfg.files)
  {
    hide ReaderInv, WorkerInv, AnyReceiverInv, AnyDecryptorInv;
    ReachableInv(cfg, s);
  }

  /** Whatever arrived: if the receiver's threads have ended and no exception was captured, every file is there. */
  lemma SuccessMeansAllReceived(cfg: Config, s: State)
    requires ValidConfig(cfg) && Reachable(cfg, s)
    requires s.receiver.life.Ended() && s.decryptor.life.Ended() && s.writer.life.Ended()
             && s.receiveContext.exception.None?
    ensures s.writer.locals.out == cfg.files && s.writer.locals.chunksWritten == cfg.request.numChunks
  {
    hide ReaderInv, WorkerInv, AnyReceiverInv, AnyDecryptorInv, WriterHolds, Flatten, PlainChunks;
    ReachableInv(cfg, s);
    Safety.AllCounted(cfg.request, cfg.files, s.writer.locals, s.decryptedQueue);
  }

  /** With another key or header than the sender's, not even a file is created, and the receiver never succeeds. */
  lemma OtherStreamWritesNothing(cfg: Config, s: State)
    requires ValidConfig(cfg) && !SameStream(cfg) && Reachable(cfg, s)
    ensures s.decryptedQueue.pushed == [] && s.writer.locals.out == []
    ensures !(s.receiver.life.Ended() && s.decryptor.life.Ended() && s.writer.life.Ended()
              && s.receiveContext.exception.None?)
  {
    hide ReaderInv, WorkerInv, AnyReceiverInv, AnyDecryptorInv, Flatten, PlainChunks;
    ReachableInv(cfg, s);
    PassedOn(cfg, s);
    if s.decryptedQueue.pushed != [] {
      var n, out := cfg.request.numChunks, s.decryptedQueue.pushed;
      assert DecryptChunk(s.receivedQueue.pushed[..|out|][0], VisibleLog(cfg, n), 0 + 0, n) == Ok(out[0]);
      NothingVisible(s.receivedQueue.pushed[..|out|][0], 0, n);
    }
  }

  // ---- Thirteen bytes are enough to hang the receiver ----

  /** A frame with number 0 and no data. */
  const ZEROS: seq<byte> := seq(13, _ => 0)
  const ZERO_CHUNK := Plain(0, [])

  lemma ZerosAreAFrame()
    ensures |ZEROS| == 13 && Complete(ZEROS) && Unframe(ZEROS) == ZERO_CHUNK
    ensures FrameLength([]) == 13
  {
    assert ZEROS[11..13] == [0, 0] && ZEROS[9..11] == [0, 0] && ZEROS[13..] == [];
    assert [0, 0][1..] == [0] && [0][1..] == [];
    assert UnLE([0]) == 0 && UnLE([0, 0]) == 0;
    UnLEofZeros(8);
    assert ZEROS[..8] == seq(8, _ => 0);
  }

  lemma {:induction false} UnLEofZeros(k: nat)
    ensures UnLE(seq(k, _ => 0)) == 0
  {
    if k > 0 {
      UnLEofZeros(k - 1);
      assert seq(k, _ => 0)[1..] == seq(k - 1, _ => 0);
    }
  }

  lemma RunOn(cfg: Config, s: State, events: seq<Event>, e: Event, s1: State, s2: State)
    requires ValidConfig(cfg) && Run(cfg, s, events) == Some(s1) && HostileNext(cfg, s1, e) == Some(s2)
    ensures Run(cfg, s, events + [e]) == Some(s2)
    decreases |events|
  {
    hide HostileNext;
    if |events| == 0 {
      assert events + [e] == [e] && [e][1..] == [];
      assert Run(cfg, s2, []) == Some(s2);
    } else {
      assert (events + [e])[1..] == events[1..] + [e];
      RunOn(cfg, HostileNext(cfg, s, events[0]).value, events[1..], e, s1, s2);
    }
  }

  /** The receiver takes the zeros for a frame and passes its chunk on. */
  const ZEROS_ARRIVE: seq<Event> :=
    [Tamper(ZEROS)] + [Act(Step(Receiver, 0))] + [Act(Step(Receiver, 13))] + [Act(Step(Receiver, 0))]
      + [Act(Step(Receiver, 0))]

  /** The decryptor takes the chunk, refuses its number, and handles the exception. */
  const DECRYPTOR_REFUSES: seq<Event> :=
    [Act(Step(Decryptor, 0))] + [Act(Step(Decryptor, 0))] + [Act(Step(Decryptor, 0))]
    + [Act(Handle(Decryptor))] + [Act(Handle(Decryptor))]

  lemma ZerosArrive(cfg: Config) returns (s: State)
    requires ValidConfig(cfg)
    ensures Run(cfg, Init(cfg), ZEROS_ARRIVE) == Some(s)
    ensures s == Init(cfg).(receiver := ReceiverThread(Live(ReceiveCheck), 1), wire := Fifo(ZEROS, 13, false),
                            receivedQueue := Fifo([ZERO_CHUNK], 0, false))
  {
    ZerosAreAFrame();
    var i := Init(cfg);
    var s1 := i.(wire := Fifo(ZEROS, 0, false));
    var s2 := s1.(receiver := ReceiverThread(Live(Read([])), 0));
    var s3 := s1.(receiver := ReceiverThread(Live(Read(ZEROS)), 0), wire := Fifo(ZEROS, 13, false));
    var s4 := s3.(receiver := ReceiverThread(Live(PushReceived(ZERO_CHUNK)), 0));
    s := s3.(receiver := ReceiverThread(Live(ReceiveCheck), 1), receivedQueue := Fifo([ZERO_CHUNK], 0, false));
    ReceiverTakes(cfg, s1, s2, s3, s4, s);
    assert HostileNext(cfg, i, Tamper(ZEROS)) == Some(s1);
    hide HostileNext, ValidConfig;
    assert Run(cfg, i, []) == Some(i) && [] + [Tamper(ZEROS)] == [Tamper(ZEROS)];
    var r, r13 := Act(Step(Receiver, 0)), Act(Step(Receiver, 13));
    RunOn(cfg, i, [], Tamper(ZEROS), i, s1);
    RunOn(cfg, i, [Tamper(ZEROS)], r, s1, s2);
    RunOn(cfg, i, [Tamper(ZEROS)] + [r], r13, s2, s3);
    RunOn(cfg, i, [Tamper(ZEROS)] + [r] + [r13], r, s3, s4);
    RunOn(cfg, i, [Tamper(ZEROS)] + [r] + [r13] + [r], r, s4, s);
  }

  lemma ReceiverTakes(cfg: Config, s1: State, s2: State, s3: State, s4: State, s5: State)
    requires ValidConfig(cfg) && s1 == Init(cfg).(wire := Fifo(ZEROS, 0, false))
    requires s2 == s1.(receiver := ReceiverThread(Live(Read([])), 0))
    requires s3 == s1.(receiver := ReceiverThread(Live(Read(ZEROS)), 0), wire := Fifo(ZEROS, 13, false))
    requires s4 == s3.(receiver := ReceiverThread(Live(PushReceived(ZERO_CHUNK)), 0))
    requires s5 == s3.(receiver := ReceiverThread(Live(ReceiveCheck), 1), receivedQueue := Fifo([ZERO_CHUNK], 0, false))
    ensures Next(cfg, s1, Step(Receiver, 0)) == Some(s2) && Next(cfg, s2, Step(Receiver, 13)) == Some(s3)
    ensures Next(cfg, s3, Step(Receiver, 0)) == Some(s4) && Next(cfg, s4, Step(Receiver, 0)) == Some(s5)
  {
    ZerosAreAFrame();
    hide UnLE, Unframe, FrameLength;
    assert cfg.request.numChunks >= 1;
    assert [] + ZEROS[0..13] == ZEROS;
    assert [] + [ZERO_CHUNK] == [ZERO_CHUNK];
    assert !Complete([]);
  }

  /** For every transfer, thirteen zero bytes on the wire are enough: nothing throws but the decryptor, which refuses
      the chunk they make, and the writer waits for its first chunk. */
  lemma ZerosHangReceiver(cfg: Config) returns (s: State)
    requires ValidConfig(cfg)
    ensures Run(cfg, Init(cfg), ZEROS_ARRIVE + DECRYPTOR_REFUSES) == Some(s) && Failures.WriterWaitsForDead(s)
  {
    var s0 := ZerosArrive(cfg);
    var s1 := s0.(decryptor := WorkerThread(Live(TryPop), 0));
    var s2 := s0.(decryptor := WorkerThread(Live(Apply(ZERO_CHUNK)), 0), receivedQueue := Fifo([ZERO_CHUNK], 1, false));
    var s3 := s2.(decryptor := WorkerThread(Throwing, 0));
    var s4 := s2.(decryptor := WorkerThread(Raised, 0), receiveContext := Context(true, None));
    s := s2.(decryptor := WorkerThread(Dead, 0), receiveContext := Context(true, Some(Decryptor)));
    DecryptorRefuses(cfg, s0, s1, s2, s3, s4, s);
    hide HostileNext, ValidConfig;
    var d, h := Act(Step(Decryptor, 0)), Act(Handle(Decryptor));
    var z := ZEROS_ARRIVE;
    RunOn(cfg, Init(cfg), z, d, s0, s1);
    RunOn(cfg, Init(cfg), z + [d], d, s1, s2);
    RunOn(cfg, Init(cfg), z + [d] + [d], d, s2, s3);
    RunOn(cfg, Init(cfg), z + [d] + [d] + [d], h, s3, s4);
    RunOn(cfg, Init(cfg), z + [d] + [d] + [d] + [h], h, s4, s);
    assert z + [d] + [d] + [d] + [h] + [h] == z + DECRYPTOR_REFUSES;
  }

  lemma DecryptorRefuses(cfg: Config, s0: State, s1: State, s2: State, s3: State, s4: State, s5: State)
    requires ValidConfig(cfg) && s0.decryptor == WorkerThread(Live(Check), 0)
             && s0.receiveContext == Context(false, None)
    requires s0.receivedQueue == Fifo([ZERO_CHUNK], 0, false)
    requires s1 == s0.(decryptor := WorkerThread(Live(TryPop), 0))
    requires s2 == s0.(decryptor := WorkerThread(Live(Apply(ZERO_CHUNK)), 0),
                       receivedQueue := Fifo([ZERO_CHUNK], 1, false))
    requires s3 == s2.(decryptor := WorkerThread(Throwing, 0))
    requires s4 == s2.(decryptor := WorkerThread(Raised, 0), receiveContext := Context(true, None))
    requires s5 == s2.(decryptor := WorkerThread(Dead, 0), receiveContext := Context(true, Some(Decryptor)))
    ensures Next(cfg, s0, Step(Decryptor, 0)) == Some(s1) && Next(cfg, s1, Step(Decryptor, 0)) == Some(s2)
    ensures Next(cfg, s2, Step(Decryptor, 0)) == Some(s3) && Next(cfg, s3, Handle(Decryptor)) == Some(s4)
    ensures Next(cfg, s4, Handle(Decryptor)) == Some(s5)
  {
    assert DecryptResult(cfg, s2) == Err(BadSequence) by { hide SealedLog; }
    hide DecryptResult, ValidConfig;
  }

  /** Whatever arrives afterwards, the writer goes on waiting and the receiver's joins never return. */
  lemma {:induction false} WriterNeverEnds(cfg: Config, s: State, events: seq<Event>)
    requires ValidConfig(cfg) && Failures.WriterWaitsForDead(s)
    requires Act(Throw(Writer)) !in events && Run(cfg, s, events).Some?
    ensures Failures.WriterWaitsForDead(Run(cfg, s, events).value)
    ensures !Failures.AllEnded(Run(cfg, s, events).value, Failures.Receiving)
    decreases |events|
  {
    hide Next;
    if |events| > 0 {
      if events[0].Act? { Failures.WriterGoesOnWaiting(cfg, s, events[0].a); }
      WriterNeverEnds(cfg, HostileNext(cfg, s, events[0]).value, events[1..]);
    }
  }
}
