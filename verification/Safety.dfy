/** What holds in every reachable state of a transfer, failures included. */
module Safety {
  import opened Bytes
  import opened Chunks
  import opened TransferRequests
  import opened Packing
  import opened Cutting
  import opened FileManager
  import opened TransferManager
  import opened EncryptionManager
  import opened Threads
  import opened Stages
  import opened StageInvariants
  import opened Pipeline

  lemma {:induction false} RunKeeps(cfg: Config, s: State, actions: seq<Action>)
    requires ValidConfig(cfg) && Inv(cfg, s) && ContextInv(s) && Run(cfg, s, actions).Some?
    ensures Inv(cfg, Run(cfg, s, actions).value) && ContextInv(Run(cfg, s, actions).value)
    decreases |actions|
  {
    hide Inv, ContextInv, Next;
    if |actions| > 0 {
      NextKeeps(cfg, s, actions[0]);
      ContextKept(cfg, s, actions[0]);
      RunKeeps(cfg, Next(cfg, s, actions[0]).value, actions[1..]);
    }
  }

  ghost predicate Reachable(cfg: Config, s: State)
    requires ValidConfig(cfg)
  {
    exists actions :: Run(cfg, Init(cfg), actions) == Some(s)
  }

  lemma ReachableInv(cfg: Config, s: State)
    requires ValidConfig(cfg) && Reachable(cfg, s)
    ensures Inv(cfg, s) && ContextInv(s)
  {
    hide Inv;
    var actions :| Run(cfg, Init(cfg), actions) == Some(s);
    InitInv(cfg);
    RunKeeps(cfg, Init(cfg), actions);
  }

  // ---- What is on disk ----

  /** At every moment of every run, with or without failures: each file on the receiver's disk is a beginning
      of its source, and the bytes on disk, file after file, are a beginning of the sent bytes. */
  lemma FilesAlwaysSafe(cfg: Config, s: State)
    requires ValidConfig(cfg) && Reachable(cfg, s)
    ensures var out := s.writer.locals.out;
            && |out| <= |cfg.files|
            && (forall j :: 0 <= j < |out| ==> out[j] <= cfg.files[j])
            && Flatten(out) <= Flatten(cfg.files)
  {
    hide ReaderInv, WorkerInv, SenderInv, ReceiverInv;
    ReachableInv(cfg, s);
  }

  /** When the writer has returned and its side saw no failure, every file is the source file, empty ones included. */
  lemma WriterReturnsComplete(cfg: Config, s: State)
    requires ValidConfig(cfg) && Reachable(cfg, s)
    requires s.writer.life == Exited(true) && !s.receiveContext.abort
    ensures s.writer.locals.out == cfg.files
    ensures s.writer.locals.chunksWritten == cfg.request.numChunks
  {
    hide ReaderInv, WorkerInv, SenderInv, ReceiverInv, WriterHolds;
    ReachableInv(cfg, s);
    PlainIsPlan(cfg);
    assert s.writer.locals.out == cfg.files;
    AllCounted(cfg.request, cfg.files, s.writer.locals, s.decryptedQueue);
  }

  /** All bytes written means all chunks counted. */
  lemma AllCounted(r: Request, files: seq<seq<byte>>, w: WriterLocals, input: Fifo<Chunk>)
    requires Planned(r, |Flatten(files)|) && Carries(input.pushed, r, Flatten(files))
    requires WriterHolds(r, files, w, input) && w.out == files
    ensures w.left == 0 && input.popped == |input.pushed| == r.numChunks && w.chunksWritten == r.numChunks
  {
    hide Flatten;
    var total := |Flatten(files)|;
    StartStep(r, total, input.popped - 1);
    StartMonotone(r, total, input.popped, r.numChunks);
  }

  /** The stages, cut into atomic steps, end as the loops of FileManager do when run on their own: the reader's queue is
      a beginning of the plan and all of it at the normal exit; the returned writer has cut what it took by the
      sizes. */
  lemma StagesAgreeWithLoops(cfg: Config, s: State)
    requires ValidConfig(cfg) && Reachable(cfg, s)
    ensures s.fileQueue.pushed <= PlanChunks(cfg.request, Flatten(cfg.files))
    ensures s.reader.life == Exited(true) ==> s.fileQueue.pushed == PlanChunks(cfg.request, Flatten(cfg.files))
    ensures s.writer.life == Exited(true) && !s.receiveContext.abort ==>
              s.writer.locals.out == CutBySizes(Flatten(Carried(s.decryptedQueue.pushed)), Sizes(cfg.files))
  {
    hide WorkerInv, SenderInv, ReceiverInv, WriterHolds, Flatten, CutBySizes, Carried, ReaderHolds;
    ReachableInv(cfg, s);
    if s.writer.life == Exited(true) && !s.receiveContext.abort {
      WriterReturnsComplete(cfg, s);
      AllCounted(cfg.request, cfg.files, s.writer.locals, s.decryptedQueue);
      DecryptedAll(cfg, s);
      PlainIsPlan(cfg);
      WriterUndoesReader(cfg.request, cfg.files);
    }
  }

  /** The early `break` never truncates: when the flag was loaded set and the queue is then seen empty, the
      current file is complete and all later files are empty. */
  lemma BreakNeverTruncates(cfg: Config, s: State)
    requires ValidConfig(cfg) && Reachable(cfg, s)
    requires s.writer.life == Live(WriterTestEmpty) && s.decryptedQueue.Empty() && !s.receiveContext.abort
    ensures var out := s.writer.locals.out;
            && out <= cfg.files && s.writer.locals.remaining == 0
            && forall j :: |out| <= j < |cfg.files| ==> cfg.files[j] == []
  {
    hide ReaderInv, WorkerInv, SenderInv, ReceiverInv, WriterHolds;
    ReachableInv(cfg, s);
    DecryptedAll(cfg, s);
    PlainIsPlan(cfg);
    NoMoreMeansAll(cfg.request, cfg.files, s.writer.locals, s.decryptedQueue);
  }

  // ---- Stages leave nothing behind ----

  /** Once a done flag is stored, its queue never grows again, whatever happens. */
  lemma DoneIsFinal(cfg: Config, s: State, a: Action)
    requires ValidConfig(cfg) && Inv(cfg, s) && Next(cfg, s, a).Some?
    ensures var s' := Next(cfg, s, a).value;
            && (s.fileQueue.done ==> s'.fileQueue.done && s'.fileQueue.pushed == s.fileQueue.pushed)
            && (s.encryptedQueue.done ==> s'.encryptedQueue.done && s'.encryptedQueue.pushed == s.encryptedQueue.pushed)
            && (s.receivedQueue.done ==> s'.receivedQueue.done && s'.receivedQueue.pushed == s.receivedQueue.pushed)
            && (s.decryptedQueue.done ==> s'.decryptedQueue.done && s'.decryptedQueue.pushed == s.decryptedQueue.pushed)
  {
    hide ReaderHolds, PlanChunks, PlainChunks, CipherChunks, WriterHolds, Stream, Frame, FrameLength, Complete, Unframe,
      EncryptResult, DecryptResult, WriterInv, SenderInv;
  }

  lemma {:induction false} DoneIsFinalInRuns(cfg: Config, s: State, actions: seq<Action>)
    requires ValidConfig(cfg) && Inv(cfg, s) && Run(cfg, s, actions).Some?
    ensures var s' := Run(cfg, s, actions).value;
            && (s.fileQueue.done ==> s'.fileQueue.pushed == s.fileQueue.pushed)
            && (s.encryptedQueue.done ==> s'.encryptedQueue.pushed == s.encryptedQueue.pushed)
            && (s.receivedQueue.done ==> s'.receivedQueue.pushed == s.receivedQueue.pushed)
            && (s.decryptedQueue.done ==> s'.decryptedQueue.pushed == s.decryptedQueue.pushed)
    decreases |actions|
  {
    hide Inv, Next;
    if |actions| > 0 {
      NextKeeps(cfg, s, actions[0]);
      DoneIsFinal(cfg, s, actions[0]);
      DoneIsFinalInRuns(cfg, Next(cfg, s, actions[0]).value, actions[1..]);
    }
  }

  /** A stage that left through "flag loaded, then queue seen empty" has passed on the transform of
      everything its producer pushed, and its producer pushes nothing in any continuation of the run. */
  lemma NothingLeftBehind(cfg: Config, s: State, actions: seq<Action>)
    requires ValidConfig(cfg) && Reachable(cfg, s) && Run(cfg, s, actions).Some?
    ensures var later := Run(cfg, s, actions).value;
            && (s.encryptor.life == Exited(true) ==>
                  && later.fileQueue.pushed == s.fileQueue.pushed && |s.encryptedQueue.pushed| == |s.fileQueue.pushed|
                  && forall i :: 0 <= i < |s.fileQueue.pushed| ==> Encrypted(cfg, s, i))
            && (s.sender.life == Exited(true) ==>
                  && later.encryptedQueue.pushed == s.encryptedQueue.pushed
                  && s.wire.pushed == Stream(s.encryptedQueue.pushed)
                    && s.sender.chunksSent == |s.encryptedQueue.pushed|)
            && (s.decryptor.life == Exited(true) ==>
                  && later.receivedQueue.pushed == s.receivedQueue.pushed
                    && |s.decryptedQueue.pushed| == |s.receivedQueue.pushed|
                  && forall i :: 0 <= i < |s.receivedQueue.pushed| ==> Decrypted(cfg, s, i))
  {
    hide ReaderInv, ReceiverInv, WriterInv, Stream, PlainChunks, CipherChunks, EncryptChunk, DecryptChunk, SealedLog,
      Next;
    ReachableInv(cfg, s);
    DoneIsFinalInRuns(cfg, s, actions);
    ReceivedWasEncrypted(cfg, s);
    if s.encryptor.life == Exited(true) {
      forall i | 0 <= i < |s.fileQueue.pushed| ensures Encrypted(cfg, s, i) {
        CipherChunkAt(cfg, i);
      }
    }
    if s.sender.life == Exited(true) {
      assert CipherChunks(cfg)[..s.encryptedQueue.popped] == s.encryptedQueue.pushed;
    }
    if s.decryptor.life == Exited(true) {
      forall i | 0 <= i < |s.receivedQueue.pushed| ensures Decrypted(cfg, s, i) {
        DecryptsAt(cfg, i, s.encryptor.count);
      }
    }
  }

  /** Chunk `i` that came out of the encryptor is the encryption of chunk `i` that went in. */
  predicate Encrypted(cfg: Config, s: State, i: nat)
    requires i < |s.fileQueue.pushed|
  {
    && i < |s.encryptedQueue.pushed| && i < |cfg.ciphertexts|
    && Ok(s.encryptedQueue.pushed[i]) ==
       EncryptChunk(s.fileQueue.pushed[i], cfg.ciphertexts[i], cfg.request.chunkSize, cfg.request.numChunks)
  }

  predicate Decrypted(cfg: Config, s: State, i: nat)
    requires ValidConfig(cfg) && i < |s.receivedQueue.pushed|
  {
    && s.encryptor.count <= cfg.request.numChunks
    && i < |s.decryptedQueue.pushed|
    && Ok(s.decryptedQueue.pushed[i]) ==
       DecryptChunk(s.receivedQueue.pushed[i], SealedLog(cfg, s.encryptor.count), i, cfg.request.numChunks)
  }

  // ---- Failures ----

  /** A raised flag is explained by a captured exception or by a thread that is about to capture one. */
  ghost predicate SideInv<A, B, C>(ctx: Context, a: Life<A>, b: Life<B>, c: Life<C>) {
    && (ctx.exception.Some? ==> ctx.abort)
    && (ctx.abort ==> ctx.exception.Some? || a.Raised? || b.Raised? || c.Raised?)
    && (a.Raised? || a.Dead? || b.Raised? || b.Dead? || c.Raised? || c.Dead? ==> ctx.abort)
    && (a.Dead? || b.Dead? || c.Dead? ==> ctx.exception.Some?)
  }

  ghost predicate ContextInv(s: State) {
    && SideInv(s.sendContext, s.reader.life, s.encryptor.life, s.sender.life)
    && SideInv(s.receiveContext, s.receiver.life, s.decryptor.life, s.writer.life)
  }

  lemma ContextKept(cfg: Config, s: State, a: Action)
    requires ValidConfig(cfg) && ContextInv(s) && Next(cfg, s, a).Some?
    ensures ContextInv(Next(cfg, s, a).value)
  {
    hide StepThread, HandleThread, ValidConfig;
    match a
    case Step(t, n) => ContextKeptByStep(cfg, s, t, n);
    case Throw(t) =>
    case Handle(t) => ContextKeptByHandler(s, t);
  }

  lemma ContextKeptByHandler(s: State, t: ThreadId)
    requires ContextInv(s) && HandleThread(s, t).Some?
    ensures ContextInv(HandleThread(s, t).value)
  {
  }

  /** An ordinary step neither touches the contexts nor gets anywhere in an exception handler. */
  lemma ContextKeptByStep(cfg: Config, s: State, t: ThreadId, n: nat)
    requires ValidConfig(cfg) && ContextInv(s) && StepThread(cfg, s, t, n).Some?
    ensures ContextInv(StepThread(cfg, s, t, n).value)
  {
    hide ValidConfig, Frame, FrameLength, Complete, Unframe, EncryptResult, DecryptResult, WriteSome, HandleThread;
    match t
    case Reader => assert !StepReader(cfg, s).value.reader.life.Raised? && !StepReader(cfg, s).value.reader.life.Dead?;
    case Encryptor => assert !StepEncryptor(cfg, s).value.encryptor.life.Raised?
      && !StepEncryptor(cfg, s).value.encryptor.life.Dead?;
    case Sender => assert !StepSender(cfg, s, n).value.sender.life.Raised?
      && !StepSender(cfg, s, n).value.sender.life.Dead?;
    case Receiver => assert !StepReceiver(cfg, s, n).value.receiver.life.Raised?
      && !StepReceiver(cfg, s, n).value.receiver.life.Dead?;
    case Decryptor => assert !StepDecryptor(cfg, s).value.decryptor.life.Raised?
      && !StepDecryptor(cfg, s).value.decryptor.life.Dead?;
    case Writer => assert !StepWriter(cfg, s).value.writer.life.Raised? && !StepWriter(cfg, s).value.writer.life.Dead?;
  }

  lemma FirstFailureKeptInStep(cfg: Config, s: State, a: Action)
    requires ValidConfig(cfg) && Next(cfg, s, a).Some?
    ensures Persists(s.sendContext, Next(cfg, s, a).value.sendContext)
    ensures Persists(s.receiveContext, Next(cfg, s, a).value.receiveContext)
  {
    hide Frame, FrameLength, Complete, Unframe, EncryptResult, DecryptResult, WriteSome;
  }

  predicate Persists(before: Context, after: Context) {
    && (before.abort ==> after.abort)
    && (before.exception.Some? ==> after.exception == before.exception)
  }

  /** In any run, from any state: a raised flag stays raised and a captured exception is never replaced. */
  lemma {:induction false} FirstFailureKept(cfg: Config, s: State, actions: seq<Action>)
    requires ValidConfig(cfg) && Run(cfg, s, actions).Some?
    ensures Persists(s.sendContext, Run(cfg, s, actions).value.sendContext)
    ensures Persists(s.receiveContext, Run(cfg, s, actions).value.receiveContext)
    decreases |actions|
  {
    hide Next;
    if |actions| > 0 {
      FirstFailureKeptInStep(cfg, s, actions[0]);
      FirstFailureKept(cfg, Next(cfg, s, actions[0]).value, actions[1..]);
    }
  }

  /** All sending threads are joined and no exception was captured: the guard of the success path of send_files. */
  predicate SendSucceeds(s: State) {
    s.reader.life.Ended() && s.encryptor.life.Ended() && s.sender.life.Ended() && s.sendContext.exception.None?
  }

  /** The staging area is cleared only after a complete send: no abort was raised, every stage left through its
      normal exit, and the frames of all chunks were written. */
  lemma SuccessMeansAllSent(cfg: Config, s: State)
    requires ValidConfig(cfg) && Reachable(cfg, s) && SendSucceeds(s)
    ensures !s.sendContext.abort
    ensures s.reader.life == Exited(true) && s.encryptor.life == Exited(true) && s.sender.life == Exited(true)
    ensures s.sender.chunksSent == cfg.request.numChunks && s.wire.pushed == Stream(CipherChunks(cfg))
  {
    hide PlainChunks, CipherChunks, ReceiverInv, WriterInv, Stream, ReaderHolds;
    ReachableInv(cfg, s);
    EncryptedAll(cfg, s);
    assert CipherChunks(cfg)[..cfg.request.numChunks] == CipherChunks(cfg);
  }

  /** The same on the receiving side: a success message means that every file is there. */
  lemma SuccessMeansAllReceived(cfg: Config, s: State)
    requires ValidConfig(cfg) && Reachable(cfg, s)
    requires s.receiver.life.Ended() && s.decryptor.life.Ended() && s.writer.life.Ended()
             && s.receiveContext.exception.None?
    ensures !s.receiveContext.abort
    ensures s.receiver.life == Exited(true) && s.decryptor.life == Exited(true) && s.writer.life == Exited(true)
    ensures s.writer.locals.out == cfg.files && s.writer.locals.chunksWritten == cfg.request.numChunks
  {
    hide PlainChunks, CipherChunks, ReaderInv, SenderInv, Stream, FrameLength, WriterHolds, Flatten;
    ReachableInv(cfg, s);
    WriterReturnsComplete(cfg, s);
  }
}
