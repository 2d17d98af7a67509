/** How a transfer without failures can end. The receiver's threads race for one load of a flag
    (src/FileManager.cpp); for every transfer there is a schedule in which the writer wins and one in which it loses. */
module Outcomes {
  import opened Bytes
  import opened TransferRequests
  import opened Packing
  import opened Cutting
  import opened TransferManager
  import opened Threads
  import opened Stages
  import opened StageInvariants
  import opened Pipeline
  import opened Safety
  import opened Progress

  /** Which thread a schedule stops, and where: nobody; the receiver before it stores its flag;
      the writer when it has used up the last chunk and is about to load the decryptor's flag; or the whole
      receiving side at its start. */
  datatype Hold = Nobody | BeforeFlag | BeforeLastLoad | ReceivingSide

  predicate Held(cfg: Config, s: State, h: Hold, t: ThreadId) {
    match h
    case Nobody => false
    case BeforeFlag => t == Receiver && s.receiver.life == Live(StoreReceiveDone)
    case BeforeLastLoad =>
      t == Writer && s.writer.life == Live(WriterLoadDone) && s.decryptedQueue.popped == cfg.request.numChunks
    case ReceivingSide => t == Receiver || t == Decryptor || t == Writer
  }

  /** The receiving side has not moved, and the network is not overfull. */
  predicate Untouched(cfg: Config, s: State) {
    && s == Init(cfg).(reader := s.reader, encryptor := s.encryptor, sender := s.sender, fileQueue := s.fileQueue,
                       encryptedQueue := s.encryptedQueue, wire := s.wire, sendContext := s.sendContext)
    && s.wire.popped == 0 && s.wire.Size() <= cfg.wireLimit
  }

  /** The thread has not passed the point where it is stopped. */
  predicate NotPast(cfg: Config, s: State, h: Hold) {
    match h
    case Nobody => true
    case BeforeFlag => !s.receiver.life.Exited?
    case BeforeLastLoad =>
      s.decryptedQueue.popped < cfg.request.numChunks || s.writer.locals.left > 0
        || s.writer.life == Live(WriterLoadDone)
    case ReceivingSide => Untouched(cfg, s)
  }

  lemma InitNotPast(cfg: Config, h: Hold)
    requires ValidConfig(cfg)
    ensures NotPast(cfg, Init(cfg), h)
  {
    HasChunks(cfg);
  }

  /** Nobody but the stopped thread has a step that is not idle polling. */
  predicate AtRest(cfg: Config, s: State, h: Hold)
    requires ValidConfig(cfg)
  {
    forall t: ThreadId :: CanMove(cfg, s, t) ==> Held(cfg, s, h, t)
  }

  lemma NotPastKept(cfg: Config, s: State, h: Hold, t: ThreadId, n: nat)
    requires ValidConfig(cfg) && Inv(cfg, s) && Healthy(s) && NotPast(cfg, s, h)
    requires !Held(cfg, s, h, t) && StepThread(cfg, s, t, n).Some?
    ensures NotPast(cfg, StepThread(cfg, s, t, n).value, h)
  {
    if t == Receiver {
      ReceiverStaysBefore(cfg, s, n);
    } else if t == Writer {
      WriterStaysBefore(cfg, s, h);
    } else {
      OthersMove(cfg, s, t, n);
      if h.ReceivingSide? { SendingSideMoves(cfg, s, t, n); }
    }
  }

  lemma SendingSideMoves(cfg: Config, s: State, t: ThreadId, n: nat)
    requires ValidConfig(cfg) && StepThread(cfg, s, t, n).Some? && Untouched(cfg, s)
    requires t == Reader || t == Encryptor || t == ThreadId.Sender
    ensures Untouched(cfg, StepThread(cfg, s, t, n).value)
  {
    hide ValidConfig, ReaderStep, WorkerStep, EncryptResult, Frame;
  }

  lemma OthersMove(cfg: Config, s: State, t: ThreadId, n: nat)
    requires ValidConfig(cfg) && StepThread(cfg, s, t, n).Some? && t != Receiver && t != Writer
    ensures var s' := StepThread(cfg, s, t, n).value;
            s'.receiver == s.receiver && s'.writer == s.writer && s'.decryptedQueue.popped == s.decryptedQueue.popped
  {
    hide ValidConfig, ReaderStep, SenderStep, EncryptResult, DecryptResult;
  }

  lemma ReceiverStaysBefore(cfg: Config, s: State, n: nat)
    requires ValidConfig(cfg) && Healthy(s) && StepReceiver(cfg, s, n).Some?
    ensures var s' := StepReceiver(cfg, s, n).value;
            && s'.writer == s.writer && s'.decryptedQueue == s.decryptedQueue
            && (s.receiver.life != Live(StoreReceiveDone) && !s.receiver.life.Exited? ==> !s'.receiver.life.Exited?)
  {
    hide ValidConfig, FrameLength, Complete, Unframe;
  }

  lemma WriterStaysBefore(cfg: Config, s: State, h: Hold)
    requires ValidConfig(cfg) && Inv(cfg, s) && Healthy(s) && NotPast(cfg, s, h)
    requires !Held(cfg, s, h, Writer) && StepWriter(cfg, s).Some?
    ensures NotPast(cfg, StepWriter(cfg, s).value, h)
  {
    hide ReaderInv, WorkerInv, SenderInv, ReceiverInv, Flatten, Writing, FilesSafe, PlanChunks, Planned, Start;
    var w := s.writer.locals;
    if s.writer.life == Live(FirstPop) || s.writer.life == Live(PopNext) {
      TakesChunk(cfg.request, cfg.files, w, s.decryptedQueue);
    } else if s.writer.life == Live(WriteLoop) {
      PlainIsPlan(cfg);
      DecryptedAll(cfg, s);
    }
  }

  // ---- Coming to rest ----

  /** Any healthy run can be continued, keeping the held thread where it is, until nobody else can make progress. */
  lemma {:induction false} ComesToRest(cfg: Config, s: State, h: Hold) returns (actions: seq<Action>)
    requires ValidConfig(cfg) && (SameStream(cfg) || h.ReceivingSide?) && Inv(cfg, s) && Healthy(s)
             && NotPast(cfg, s, h)
    ensures FailureFree(actions) && Run(cfg, s, actions).Some?
    ensures var s' := Run(cfg, s, actions).value;
            Inv(cfg, s') && Healthy(s') && NotPast(cfg, s', h) && AtRest(cfg, s', h)
    decreases Measure(cfg, s)
  {
    hide Inv, Healthy, Measure, StepThread, NotPast, Idle;
    if AtRest(cfg, s, h) {
      return [];
    }
    var t: ThreadId :| CanMove(cfg, s, t) && !Held(cfg, s, h, t);
    var n := if StepThread(cfg, s, t, 0).Some? then 0 else 1;
    var s1 := StepThread(cfg, s, t, n).value;
    HealthyStep(cfg, s, t, n);
    NotPastKept(cfg, s, h, t, n);
    MeasureNonneg(cfg, s);
    var rest := ComesToRest(cfg, s1, h);
    actions := [Step(t, n)] + rest;
    assert actions[1..] == rest;
  }

  /** If the receiver has not stored its flag and everything else is at rest, the writer has written the last chunk
      and waits for another. */
  lemma RestBeforeFlag(cfg: Config, s: State)
    requires ValidConfig(cfg) && Inv(cfg, s) && Healthy(s)
    requires NotPast(cfg, s, BeforeFlag) && AtRest(cfg, s, BeforeFlag)
    ensures WaitsForNothing(cfg, s)
  {
    hide Inv, Healthy, CanMove;
    NetworkEmpties(cfg, s);
    SenderSideDone(cfg, s);
    WriterCanMove(cfg, s);
    NotReturned(cfg, s);
    ReceiverCanMove(cfg, s);
    AllPassedOn(cfg, s);
  }

  /** The writer cannot have returned before the receiver stored its flag. */
  lemma NotReturned(cfg: Config, s: State)
    requires ValidConfig(cfg) && Inv(cfg, s) && Healthy(s) && !s.receiver.life.Exited?
    ensures !s.writer.life.Exited?
  {
    hide ReaderInv, SenderInv, WriterHolds, Flatten, Stream, FrameLength, CipherChunks, PlainChunks;
    if s.writer.life.Exited? {
      PlainIsPlan(cfg);
      AllCounted(cfg.request, cfg.files, s.writer.locals, s.decryptedQueue);
    }
  }

  lemma AllPassedOn(cfg: Config, s: State)
    requires ValidConfig(cfg) && Inv(cfg, s) && Healthy(s) && !s.receiver.life.Exited?
    requires s.decryptedQueue.Empty() && (s.writer.life == Live(FirstPop) || s.writer.life == Live(PopNext))
    requires !CanMove(cfg, s, Decryptor)
    requires s.receiver.life == Live(StoreReceiveDone) || s.receivedQueue.Size() >= cfg.receiveLimit
    ensures WaitsForNothing(cfg, s)
  {
    hide ReaderInv, SenderInv, WriterHolds, Flatten, Stream, FrameLength, CipherChunks, PlainChunks, DecryptResult;
    if s.decryptor.life.Live? {
      WorkerCanMove(s.decryptor, s.receivedQueue, s.decryptedQueue, cfg.receiveLimit, DecryptResult(cfg, s));
    }
    HasChunks(cfg);
  }

  /** If the writer has not loaded the flag after the last chunk and everything else is at rest, the flag is stored. */
  lemma RestBeforeLastLoad(cfg: Config, s: State)
    requires ValidConfig(cfg) && Inv(cfg, s) && Healthy(s)
    requires NotPast(cfg, s, BeforeLastLoad) && AtRest(cfg, s, BeforeLastLoad)
    ensures s.writer.life == Live(WriterLoadDone) && s.decryptedQueue.popped == cfg.request.numChunks
    ensures s.decryptedQueue.done
  {
    hide Inv, Healthy, CanMove;
    NetworkEmpties(cfg, s);
    SenderSideDone(cfg, s);
    ReceiverCanMove(cfg, s);
    WriterCanMove(cfg, s);
    EmptyIfLate(cfg, s);
    DecryptorDone(cfg, s);
    FlagIsStored(cfg, s);
    WriterIsLate(cfg, s);
  }

  /** The writer's queue is empty at each of the places where the writer can rest. */
  lemma EmptyIfLate(cfg: Config, s: State)
    requires ValidConfig(cfg) && Inv(cfg, s) && Healthy(s)
    ensures s.decryptedQueue.popped == cfg.request.numChunks ==> s.decryptedQueue.Empty()
    ensures s.writer.life.Exited? ==>
              s.decryptedQueue.Empty() && s.decryptedQueue.popped == cfg.request.numChunks && s.writer.locals.left == 0
  {
    hide ReaderInv, WorkerInv, SenderInv, ReceiverInv, WriterHolds, Flatten, FilesSafe;
    if s.writer.life.Exited? {
      PlainIsPlan(cfg);
      AllCounted(cfg.request, cfg.files, s.writer.locals, s.decryptedQueue);
    }
  }

  lemma FlagIsStored(cfg: Config, s: State)
    requires ValidConfig(cfg) && Inv(cfg, s) && Healthy(s) && s.decryptor.life == Exited(true)
    ensures s.decryptedQueue.done
  {
    hide ReaderInv, WriterInv, SenderInv, ReceiverInv, CipherChunks, PlainChunks;
  }

  /** A writer that waits for a chunk after the last one has loaded the flag. */
  lemma WriterIsLate(cfg: Config, s: State)
    requires ValidConfig(cfg) && Inv(cfg, s) && Healthy(s) && s.decryptedQueue.done && s.decryptedQueue.Empty()
    ensures s.writer.life != Live(FirstPop)
    ensures s.writer.life == Live(PopNext) ==> !NotPast(cfg, s, BeforeLastLoad)
  {
    hide ReaderInv, WorkerInv, SenderInv, ReceiverInv, WriterHolds, Flatten, FilesSafe, PlainChunks, Opened;
    DecryptedAll(cfg, s);
    HasChunks(cfg);
  }

  // ---- Every transfer has both outcomes ----

  lemma {:induction false} RunConcat(cfg: Config, s: State, a: seq<Action>, b: seq<Action>)
    requires ValidConfig(cfg) && Run(cfg, s, a).Some?
    ensures Run(cfg, s, a + b) == Run(cfg, Run(cfg, s, a).value, b)
    decreases |a|
  {
    hide Next;
    if |a| == 0 {
      assert a + b == b;
    } else {
      assert (a + b)[1..] == a[1..] + b;
      RunConcat(cfg, Next(cfg, s, a[0]).value, a[1..], b);
    }
  }

  /** Continuing a reachable state that the writer can no longer leave, or no longer fail to leave. */
  lemma Outcome(cfg: Config, s: State, before: seq<Action>) returns (end: State)
    requires ValidConfig(cfg) && SameStream(cfg) && Inv(cfg, s) && Healthy(s) && Run(cfg, Init(cfg), before) == Some(s)
    requires WaitsForNothing(cfg, s) || Leaving(cfg, s)
    ensures Reachable(cfg, end) && Healthy(end) && Quiet(cfg, end)
    ensures end.writer.life == if WaitsForNothing(cfg, s) then Live(PopNext) else Exited(true)
  {
    hide Inv, Healthy, Measure, CanMove, Run;
    var actions := ComesToRest(cfg, s, Nobody);
    end := Run(cfg, s, actions).value;
    Onwards(cfg, s, actions);
    RunConcat(cfg, Init(cfg), before, actions);
    assert Run(cfg, Init(cfg), before + actions) == Some(end);
    QuietShape(cfg, end);
  }

  /** Whatever the files, there is a schedule without failures after which the writer is blocked for ever,
      and one after which it has returned. */
  lemma BothOutcomes(cfg: Config) returns (stuck: State, complete: State)
    requires ValidConfig(cfg) && SameStream(cfg)
    ensures Reachable(cfg, stuck) && Healthy(stuck) && Quiet(cfg, stuck) && stuck.writer.life == Live(PopNext)
    ensures Reachable(cfg, complete) && Healthy(complete) && Quiet(cfg, complete)
            && complete.writer.life == Exited(true)
  {
    hide Inv, Healthy, Measure, Quiet, AtRest, Reachable;
    InitInv(cfg);
    InitHealthy(cfg);
    InitNotPast(cfg, BeforeFlag);
    var a := ComesToRest(cfg, Init(cfg), BeforeFlag);
    RestBeforeFlag(cfg, Run(cfg, Init(cfg), a).value);
    stuck := Outcome(cfg, Run(cfg, Init(cfg), a).value, a);
    InitNotPast(cfg, BeforeLastLoad);
    var b := ComesToRest(cfg, Init(cfg), BeforeLastLoad);
    var s := Run(cfg, Init(cfg), b).value;
    RestBeforeLastLoad(cfg, s);
    AfterTheLoad(cfg, s);
    HealthyStep(cfg, s, Writer, 0);
    var s1 := Next(cfg, s, Step(Writer, 0)).value;
    RunConcat(cfg, Init(cfg), b, [Step(Writer, 0)]);
    assert Run(cfg, s, [Step(Writer, 0)]) == Some(s1);
    complete := Outcome(cfg, s1, b + [Step(Writer, 0)]);
  }

  /** Every failure-free run of a transfer that comes to rest leaves all files complete exactly when the last
      file of the list is not empty; otherwise some schedule leaves trailing empty files out. */
  lemma AlwaysCompleteIffLastNotEmpty(cfg: Config)
    requires ValidConfig(cfg) && SameStream(cfg)
    ensures (forall s :: Reachable(cfg, s) && Healthy(s) && Quiet(cfg, s) ==> s.writer.locals.out == cfg.files) <==>
            (|cfg.files| > 0 && cfg.files[|cfg.files| - 1] != [])
  {
    hide Healthy, Quiet, Reachable, ValidConfig, Flatten;
    var stuck, complete := BothOutcomes(cfg);
    StuckStates(cfg, stuck);
    forall s | Reachable(cfg, s) && Healthy(s) && Quiet(cfg, s)
      ensures s.writer.locals.out == cfg.files <==> s.writer.life == Exited(true) || cfg.files[|cfg.files| - 1] != []
    {
      StuckStates(cfg, s);
    }
  }
}
