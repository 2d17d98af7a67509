/** What becomes of the threads after a failure. The abort flag is polled between steps, but it wakes nobody: a thread
    that waits in `push`, in `pop` or for the network goes on waiting (src/Sender.cpp, src/Receiver.cpp). */
module Failures {
  import opened Bytes
  import opened Chunks
  import opened EncryptionManager
  import opened TransferRequests
  import opened Packing
  import opened TransferManager
  import opened Threads
  import opened Stages
  import opened StageInvariants
  import opened Pipeline
  import opened Safety
  import opened Progress
  import opened Outcomes

  datatype Side = Sending | Receiving

  predicate OnSide(t: ThreadId, side: Side) {
    side.Sending? <==> (t == Reader || t == Encryptor || t == ThreadId.Sender)
  }

  predicate Aborted(s: State, side: Side) {
    if side.Sending? then s.sendContext.abort else s.receiveContext.abort
  }

  /** The joins of this side return. */
  predicate AllEnded(s: State, side: Side) {
    if side.Sending? then s.reader.life.Ended() && s.encryptor.life.Ended() && s.sender.life.Ended()
    else s.receiver.life.Ended() && s.decryptor.life.Ended() && s.writer.life.Ended()
  }

  function Actor(a: Action): ThreadId {
    match a
    case Step(t, _) => t
    case Throw(t) => t
    case Handle(t) => t
  }

  // ---- A failed side takes a bounded number of steps ----

  const LONGEST_FRAME := 13 + 0xFFFF

  /** Steps left for a thread that is not in its function any more. */
  function Unwinding<T>(life: Life<T>): nat {
    match life
    case Throwing => 2
    case Raised => 1
    case _ => 0
  }

  function ReaderLeft(life: Life<ReaderPc>): nat {
    match life
    case Live(StoreReadDone(_)) => 3
    case Live(NextFile) => 4
    case Live(ReadLoop) => 5
    case Live(PushChunk) => 6
    case _ => Unwinding(life)
  }

  function WorkerLeft(life: Life<WorkerPc>): nat {
    match life
    case Live(StoreDone(_)) => 3
    case Live(Check) => 4
    case Live(TestEmpty) => 5
    case Live(PushResult(_)) => 5
    case Live(LoadDone) => 6
    case Live(Apply(_)) => 6
    case Live(TryPop) => 7
    case _ => Unwinding(life)
  }

  function SenderLeft(life: Life<SenderPc>): nat {
    match life
    case Live(SendCheck) => 3
    case Live(SendTestEmpty) => 4
    case Live(SendLoadDone) => 5
    case Live(Write(rest)) => 4 + |rest|
    case Live(SendTryPop) => 5 + LONGEST_FRAME
    case _ => Unwinding(life)
  }

  function ReceiverLeft(life: Life<ReceiverPc>): nat {
    match life
    case Live(StoreReceiveDone) => 3
    case Live(ReceiveCheck) => 4
    case Live(PushReceived(_)) => 5
    case Live(Read(got)) => 6 + if |got| <= LONGEST_FRAME then LONGEST_FRAME - |got| else 0
    case _ => Unwinding(life)
  }

  /** The writer may still open files that turn out to be empty. */
  function WriterLeft(toOpen: nat, life: Life<WriterPc>): nat {
    match life
    case Live(OpenFile) => 6 * toOpen + 4
    case Live(WriteLoop) => 6 * toOpen + 5
    case Live(PopNext) => 6 * toOpen + 6
    case Live(FirstPop) => 6 * toOpen + 6
    case Live(WriterTestEmpty) => 6 * toOpen + 7
    case Live(WriterLoadDone) => 6 * toOpen + 8
    case _ => Unwinding(life)
  }

  function ToOpen(cfg: Config, w: WriterLocals): nat {
    if |w.out| <= |cfg.files| then |cfg.files| - |w.out| else 0
  }

  /** How many steps the threads of a side can still take once the flag is raised. */
  function SideLeft(cfg: Config, s: State, side: Side): nat {
    if side.Sending? then ReaderLeft(s.reader.life) + WorkerLeft(s.encryptor.life) + SenderLeft(s.sender.life)
    else
      ReceiverLeft(s.receiver.life) + WorkerLeft(s.decryptor.life)
      + WriterLeft(ToOpen(cfg, s.writer.locals), s.writer.life)
  }

  lemma ReaderStepLowers(cfg: Config, s: State)
    requires StepReader(cfg, s).Some? && s.sendContext.abort
    ensures ReaderLeft(StepReader(cfg, s).value.reader.life) < ReaderLeft(s.reader.life)
  {
  }

  lemma WorkerStepLowers(t: WorkerThread, input: Fifo<Chunk>, output: Fifo<Chunk>, limit: nat, result: Result<Chunk>)
    requires WorkerStep(t, input, output, limit, true, result).Some?
    ensures WorkerLeft(WorkerStep(t, input, output, limit, true, result).value.0.life) < WorkerLeft(t.life)
  {
  }

  lemma SenderStepLowers(cfg: Config, s: State, n: nat)
    requires StepSender(cfg, s, n).Some? && s.sendContext.abort
    ensures SenderLeft(StepSender(cfg, s, n).value.sender.life) < SenderLeft(s.sender.life)
  {
    hide Frame;
    if s.sender.life == Live(SendTryPop) && !s.encryptedQueue.Empty() { FrameParts(s.encryptedQueue.Front()); }
  }

  lemma ReceiverStepLowers(cfg: Config, s: State, n: nat)
    requires StepReceiver(cfg, s, n).Some? && s.receiveContext.abort
    ensures ReceiverLeft(StepReceiver(cfg, s, n).value.receiver.life) < ReceiverLeft(s.receiver.life)
  {
    if s.receiver.life.Live? && s.receiver.life.at.Read? && |s.receiver.life.at.got| >= FRAME_HEADER_SIZE {
      IntBounds(s.receiver.life.at.got);
    }
    hide UnLE, Unframe;
  }

  lemma WriterStepLowers(cfg: Config, s: State)
    requires StepWriter(cfg, s).Some? && s.receiveContext.abort
    ensures var s' := StepWriter(cfg, s).value;
            WriterLeft(ToOpen(cfg, s'.writer.locals), s'.writer.life)
              < WriterLeft(ToOpen(cfg, s.writer.locals), s.writer.life)
  {
  }

  /** After a failure every step, exception or handler of a side's threads lowers what is left; the other side does
      not interfere. */
  lemma FailedStepLowers(cfg: Config, s: State, a: Action, side: Side)
    requires ValidConfig(cfg) && Aborted(s, side) && Next(cfg, s, a).Some?
    ensures var s' := Next(cfg, s, a).value;
            && Aborted(s', side)
            && if OnSide(Actor(a), side) then SideLeft(cfg, s', side) < SideLeft(cfg, s, side)
               else SideLeft(cfg, s', side) == SideLeft(cfg, s, side)
  {
    match a {
      case Step(t, n) => StepLowers(cfg, s, t, n, side);
      case Throw(t) => ThrowLowers(cfg, s, t, side);
      case Handle(t) => HandleLowers(cfg, s, t, side);
    }
    hide StepThread, ThrowThread, HandleThread, SideLeft, ValidConfig;
  }

  lemma ThrowLowers(cfg: Config, s: State, t: ThreadId, side: Side)
    requires Aborted(s, side) && ThrowThread(s, t).Some?
    ensures var s' := ThrowThread(s, t).value;
            && Aborted(s', side)
            && if OnSide(t, side) then SideLeft(cfg, s', side) < SideLeft(cfg, s, side)
               else SideLeft(cfg, s', side) == SideLeft(cfg, s, side)
  {
  }

  lemma HandleLowers(cfg: Config, s: State, t: ThreadId, side: Side)
    requires Aborted(s, side) && HandleThread(s, t).Some?
    ensures var s' := HandleThread(s, t).value;
            && Aborted(s', side)
            && if OnSide(t, side) then SideLeft(cfg, s', side) < SideLeft(cfg, s, side)
               else SideLeft(cfg, s', side) == SideLeft(cfg, s, side)
  {
  }

  lemma StepLowers(cfg: Config, s: State, t: ThreadId, n: nat, side: Side)
    requires ValidConfig(cfg) && Aborted(s, side) && StepThread(cfg, s, t, n).Some?
    ensures var s' := StepThread(cfg, s, t, n).value;
            && Aborted(s', side)
            && if OnSide(t, side) then SideLeft(cfg, s', side) < SideLeft(cfg, s, side)
               else SideLeft(cfg, s', side) == SideLeft(cfg, s, side)
  {
    hide ReaderStep, WorkerStep, SenderStep, ReceiverStep, WriterStep, EncryptResult, DecryptResult, ValidConfig,
      ReaderLeft, WorkerLeft, SenderLeft, ReceiverLeft, WriterLeft;
    if OnSide(t, side) {
      match t
      case Reader => ReaderStepLowers(cfg, s);
      case Encryptor => WorkerStepLowers(s.encryptor, s.fileQueue, s.encryptedQueue, cfg.sendLimit,
                                         EncryptResult(cfg, s));
      case Sender => SenderStepLowers(cfg, s, n);
      case Receiver => ReceiverStepLowers(cfg, s, n);
      case Decryptor => WorkerStepLowers(s.decryptor, s.receivedQueue, s.decryptedQueue, cfg.receiveLimit,
                                         DecryptResult(cfg, s));
      case Writer => WriterStepLowers(cfg, s);
    }
  }

  function ActionsOf(actions: seq<Action>, side: Side): nat {
    if |actions| == 0 then 0 else (if OnSide(Actor(actions[0]), side) then 1 else 0) + ActionsOf(actions[1..], side)
  }

  /** After a failure a side stops: under every schedule its threads take no more steps than were left. */
  lemma {:induction false} FailedSideStops(cfg: Config, s: State, actions: seq<Action>, side: Side)
    requires ValidConfig(cfg) && Aborted(s, side) && Run(cfg, s, actions).Some?
    ensures ActionsOf(actions, side) <= SideLeft(cfg, s, side)
    decreases |actions|
  {
    hide Next, SideLeft, Aborted;
    if |actions| > 0 {
      FailedStepLowers(cfg, s, actions[0], side);
      FailedSideStops(cfg, Next(cfg, s, actions[0]).value, actions[1..], side);
    }
  }

  // ---- Where a side stops ----

  /** The thread has a step, or an exception to handle. */
  predicate CanAct(cfg: Config, s: State, t: ThreadId, n: nat)
    requires ValidConfig(cfg)
  {
    StepThread(cfg, s, t, n).Some? || HandleThread(s, t).Some?
  }

  /** No thread of the side has a step or a handler left. */
  ghost predicate Stalled(cfg: Config, s: State, side: Side)
    requires ValidConfig(cfg)
  {
    forall t: ThreadId, n: nat :: OnSide(t, side) ==> !CanAct(cfg, s, t, n)
  }

  predicate ReaderBlocked(cfg: Config, s: State) {
    s.reader.life == Live(PushChunk) && s.fileQueue.Size() >= cfg.sendLimit
  }

  predicate WorkerBlocked(t: WorkerThread, output: Fifo<Chunk>, limit: nat) {
    t.life.Live? && t.life.at.PushResult? && output.Size() >= limit
  }

  /** The receiver waits for room, or for bytes that have not come. */
  predicate ReceiverBlocked(cfg: Config, s: State) {
    && s.receiver.life.Live?
    && match s.receiver.life.at
       case PushReceived(_) => s.receivedQueue.Size() >= cfg.receiveLimit
       case Read(got) => !Complete(got) && s.wire.popped >= |s.wire.pushed|
       case _ => false
  }

  predicate WriterBlocked(s: State) {
    (s.writer.life == Live(FirstPop) || s.writer.life == Live(PopNext)) && s.decryptedQueue.Empty()
  }

  lemma NotStepping(cfg: Config, s: State, side: Side, t: ThreadId)
    requires ValidConfig(cfg) && Stalled(cfg, s, side) && OnSide(t, side)
    ensures StepThread(cfg, s, t, 0).None? && StepThread(cfg, s, t, 1).None? && HandleThread(s, t).None?
  {
    hide StepThread, HandleThread;
    assert !CanAct(cfg, s, t, 0) && !CanAct(cfg, s, t, 1);
  }

  /** Where the sending side stops, with or without a failure: the socket writer has ended or waits for room on the
      network; the encryptor has ended or waits for room in a full queue; and so has, or does, the reader. The joins
      return exactly if none of them waits. */
  lemma SenderStalls(cfg: Config, s: State)
    requires ValidConfig(cfg) && Reachable(cfg, s) && Stalled(cfg, s, Sending)
    ensures s.sender.life.Ended() || WaitsForNetwork(cfg, s)
    ensures s.encryptor.life.Ended() || WorkerBlocked(s.encryptor, s.encryptedQueue, cfg.sendLimit)
    ensures s.reader.life.Ended() || ReaderBlocked(cfg, s)
    ensures AllEnded(s, Sending) <==>
            && !WaitsForNetwork(cfg, s) && !ReaderBlocked(cfg, s)
            && !WorkerBlocked(s.encryptor, s.encryptedQueue, cfg.sendLimit)
  {
    hide Pipeline.Inv, ValidConfig;
    ReachableInv(cfg, s);
    NotStepping(cfg, s, Sending, Reader);
    NotStepping(cfg, s, Sending, Encryptor);
    NotStepping(cfg, s, Sending, ThreadId.Sender);
    ReaderStops(cfg, s);
    EncryptorStops(cfg, s);
    SenderStops(cfg, s);
  }

  lemma ReaderStops(cfg: Config, s: State)
    requires ValidConfig(cfg) && Pipeline.Inv(cfg, s)
    requires StepReader(cfg, s).None? && HandleThread(s, Reader).None?
    ensures s.reader.life.Ended() || ReaderBlocked(cfg, s)
  {
    hide Flatten, PlanChunks, Consumed, WorkerInv, SenderInv, ReceiverInv, WriterInv, Planned, Whole;
    if s.reader.life == Live(PushChunk) {
      Unfinished(cfg.request, cfg.files, s.reader, s.fileQueue.pushed);
    }
  }

  lemma EncryptorStops(cfg: Config, s: State)
    requires StepEncryptor(cfg, s).None? && HandleThread(s, Encryptor).None?
    ensures s.encryptor.life.Ended() || WorkerBlocked(s.encryptor, s.encryptedQueue, cfg.sendLimit)
  {
    hide EncryptResult;
  }

  lemma SenderStops(cfg: Config, s: State)
    requires StepSender(cfg, s, 1).None? && HandleThread(s, ThreadId.Sender).None?
    ensures s.sender.life.Ended() || WaitsForNetwork(cfg, s)
  {
    hide Frame;
  }

  /** Where the receiving side stops after a failure: the socket reader has ended, or waits for room or for bytes; the
      decryptor has ended or waits for room; the file writer has ended or waits for a chunk on an empty queue.
      The joins return exactly if none of them waits. */
  lemma ReceiverStalls(cfg: Config, s: State)
    requires ValidConfig(cfg) && Reachable(cfg, s) && Aborted(s, Receiving) && Stalled(cfg, s, Receiving)
    ensures s.receiver.life.Ended() || ReceiverBlocked(cfg, s)
    ensures s.decryptor.life.Ended() || WorkerBlocked(s.decryptor, s.decryptedQueue, cfg.receiveLimit)
    ensures s.writer.life.Ended() || WriterBlocked(s)
    ensures AllEnded(s, Receiving) <==>
            !ReceiverBlocked(cfg, s) && !WorkerBlocked(s.decryptor, s.decryptedQueue, cfg.receiveLimit)
              && !WriterBlocked(s)
  {
    hide Pipeline.Inv, ValidConfig;
    ReachableInv(cfg, s);
    NotStepping(cfg, s, Receiving, ThreadId.Receiver);
    NotStepping(cfg, s, Receiving, Decryptor);
    NotStepping(cfg, s, Receiving, Writer);
    ReceiverStops(cfg, s);
    DecryptorStops(cfg, s);
    WriterStops(cfg, s);
  }

  lemma ReceiverStops(cfg: Config, s: State)
    requires ValidConfig(cfg) && Pipeline.Inv(cfg, s)
    requires StepReceiver(cfg, s, 1).None? && HandleThread(s, ThreadId.Receiver).None?
    ensures s.receiver.life.Ended() || ReceiverBlocked(cfg, s)
  {
    hide Stream, CipherChunks, PlainChunks, WorkerInv, SenderInv, ReaderInv, WriterInv, Unframe;
  }

  lemma DecryptorStops(cfg: Config, s: State)
    requires ValidConfig(cfg) && StepDecryptor(cfg, s).None? && HandleThread(s, Decryptor).None?
    ensures s.decryptor.life.Ended() || WorkerBlocked(s.decryptor, s.decryptedQueue, cfg.receiveLimit)
  {
    hide DecryptResult, ValidConfig;
  }

  lemma WriterStops(cfg: Config, s: State)
    requires s.receiveContext.abort && StepWriter(cfg, s).None? && HandleThread(s, Writer).None?
    ensures s.writer.life.Ended() || WriterBlocked(s)
  {
  }

  // ---- Every failed run can be driven to such an end ----

  /** From any state with the flag raised, the side's own threads can go on until they stall. */
  lemma {:induction false} RunsUntilStalled(cfg: Config, s: State, side: Side) returns (actions: seq<Action>)
    requires ValidConfig(cfg) && Aborted(s, side)
    ensures forall i :: 0 <= i < |actions| ==> OnSide(Actor(actions[i]), side) && !actions[i].Throw?
    ensures Run(cfg, s, actions).Some? && Stalled(cfg, Run(cfg, s, actions).value, side)
            && Aborted(Run(cfg, s, actions).value, side)
    decreases SideLeft(cfg, s, side)
  {
    hide SideLeft, StepThread, HandleThread, Aborted;
    if Stalled(cfg, s, side) {
      return [];
    }
    var t: ThreadId, n: nat :| OnSide(t, side) && CanAct(cfg, s, t, n);
    var a := if StepThread(cfg, s, t, n).Some? then Step(t, n) else Handle(t);
    FailedStepLowers(cfg, s, a, side);
    var rest := RunsUntilStalled(cfg, Next(cfg, s, a).value, side);
    actions := [a] + rest;
    assert actions[1..] == rest;
  }

  // ---- The receiver can always hang ----

  /** The decryptor is gone and the writer waits for its next chunk. */
  predicate WriterWaitsForDead(s: State) {
    && s.decryptor.life == Dead && s.decryptedQueue.Empty() && s.receiveContext.abort
    && (s.writer.life == Live(FirstPop) || s.writer.life == Live(PopNext))
  }

  lemma WriterGoesOnWaiting(cfg: Config, s: State, a: Action)
    requires ValidConfig(cfg) && WriterWaitsForDead(s) && a != Throw(Writer) && Next(cfg, s, a).Some?
    ensures WriterWaitsForDead(Next(cfg, s, a).value)
  {
    hide ValidConfig, ReaderStep, SenderStep, ReceiverStep, EncryptResult, DecryptResult;
  }

  /** A file writer that waits for a decryptor that is gone waits for ever, whatever else happens: the receiver's joins
      never return and its failure is never reported. */
  lemma {:induction false} WriterNeverEnds(cfg: Config, s: State, actions: seq<Action>)
    requires ValidConfig(cfg) && WriterWaitsForDead(s) && Throw(Writer) !in actions && Run(cfg, s, actions).Some?
    ensures WriterWaitsForDead(Run(cfg, s, actions).value) && !AllEnded(Run(cfg, s, actions).value, Receiving)
    decreases |actions|
  {
    hide Next;
    if |actions| > 0 {
      WriterGoesOnWaiting(cfg, s, actions[0]);
      WriterNeverEnds(cfg, Next(cfg, s, actions[0]).value, actions[1..]);
    }
  }

  const DECRYPTOR_FAILS: seq<Action> := [Throw(Decryptor), Handle(Decryptor), Handle(Decryptor)]

  lemma RunOfThree(cfg: Config, s: State, a: Action, b: Action, c: Action, s1: State, s2: State, s3: State)
    requires ValidConfig(cfg) && Next(cfg, s, a) == Some(s1) && Next(cfg, s1, b) == Some(s2)
             && Next(cfg, s2, c) == Some(s3)
    ensures Run(cfg, s, [a, b, c]) == Some(s3)
  {
    hide Next;
    assert [a, b, c][1..] == [b, c] && [b, c][1..] == [c] && [c][1..] == [];
    assert Run(cfg, s2, [c]) == Some(s3);
    assert Run(cfg, s1, [b, c]) == Some(s3);
  }

  /** In every transfer, a decryptor that fails at once leaves the writer waiting for ever; nothing else is changed. */
  lemma DecryptorFailureHangs(cfg: Config, s: State)
    requires ValidConfig(cfg) && Untouched(cfg, s)
    ensures Run(cfg, s, DECRYPTOR_FAILS)
            == Some(s.(decryptor := WorkerThread(Dead, 0), receiveContext := Context(true, Some(Decryptor))))
    ensures WriterWaitsForDead(Run(cfg, s, DECRYPTOR_FAILS).value)
  {
    hide ValidConfig, StepThread;
    var s1 := s.(decryptor := WorkerThread(Throwing, 0));
    var s2 := s1.(decryptor := WorkerThread(Raised, 0), receiveContext := Context(true, None));
    var s3 := s2.(decryptor := WorkerThread(Dead, 0), receiveContext := Context(true, Some(Decryptor)));
    RunOfThree(cfg, s, Throw(Decryptor), Handle(Decryptor), Handle(Decryptor), s1, s2, s3);
  }

  lemma InitUntouched(cfg: Config)
    requires ValidConfig(cfg)
    ensures Untouched(cfg, Init(cfg))
  {
  }

  /** For no transfer do the receiver's joins always return after a failure. */
  lemma ReceiverCanHang(cfg: Config) returns (s: State)
    requires ValidConfig(cfg)
    ensures Reachable(cfg, s) && Aborted(s, Receiving) && Stalled(cfg, s, Receiving) && !AllEnded(s, Receiving)
  {
    hide ValidConfig, StepThread, HandleThread, Next, Stalled;
    InitUntouched(cfg);
    DecryptorFailureHangs(cfg, Init(cfg));
    var s0 := Run(cfg, Init(cfg), DECRYPTOR_FAILS).value;
    var actions := RunsUntilStalled(cfg, s0, Receiving);
    s := Run(cfg, s0, actions).value;
    WriterNeverEnds(cfg, s0, actions);
    RunConcat(cfg, Init(cfg), DECRYPTOR_FAILS, actions);
    assert Run(cfg, Init(cfg), DECRYPTOR_FAILS + actions) == Some(s);
  }

  // ---- When the sender can hang ----

  /** With no more chunks than a queue holds, neither push of the sending side ever waits for room. */
  lemma SmallTransfersNeverBlock(cfg: Config, s: State)
    requires ValidConfig(cfg) && Reachable(cfg, s) && cfg.request.numChunks <= cfg.sendLimit
    ensures !ReaderBlocked(cfg, s) && !WorkerBlocked(s.encryptor, s.encryptedQueue, cfg.sendLimit)
  {
    hide Pipeline.Inv;
    ReachableInv(cfg, s);
    SmallNeverBlocks(cfg, s);
  }

  lemma SmallNeverBlocks(cfg: Config, s: State)
    requires ValidConfig(cfg) && Pipeline.Inv(cfg, s) && cfg.request.numChunks <= cfg.sendLimit
    ensures !ReaderBlocked(cfg, s) && !WorkerBlocked(s.encryptor, s.encryptedQueue, cfg.sendLimit)
  {
    hide SenderInv, ReceiverInv, WriterInv, Flatten, Consumed, CipherChunks, PlainChunks, Packed, PlanChunks;
    if s.reader.life == Live(PushChunk) {
      var pos := |cfg.files[s.reader.file]| - s.reader.remaining;
      ReaderPushes(cfg.request, cfg.files, s.reader, pos, s.fileQueue.pushed);
    }
  }

  /** If the network holds all frames, no socket write ever waits. */
  lemma SmallStreamNeverWaits(cfg: Config, s: State)
    requires ValidConfig(cfg) && Reachable(cfg, s) && |Stream(CipherChunks(cfg))| <= cfg.wireLimit
    ensures !WaitsForNetwork(cfg, s)
  {
    hide ReaderInv, WorkerInv, ReceiverInv, WriterInv, Stream, PlainChunks, CipherChunks;
    ReachableInv(cfg, s);
    if WaitsForNetwork(cfg, s) {
      WroteLess(CipherChunks(cfg), s.sender, s.encryptedQueue, s.wire, s.sendContext.abort);
    }
  }

  /** Since `base` only the reader has moved, and its queue is within its capacity. */
  predicate OnlyReaderRan(cfg: Config, base: State, s: State) {
    && s == base.(reader := s.reader, fileQueue := s.fileQueue)
    && s.fileQueue.popped == base.fileQueue.popped && s.fileQueue.Size() <= cfg.sendLimit
  }

  lemma ReaderRunsAlone(cfg: Config, base: State, s: State)
    requires ValidConfig(cfg) && OnlyReaderRan(cfg, base, s) && StepReader(cfg, s).Some?
    ensures OnlyReaderRan(cfg, base, StepReader(cfg, s).value)
  {
    hide ValidConfig;
  }

  /** Left alone, the reader runs until it waits for room, if there are chunks enough. */
  lemma {:induction false} ReaderFillsQueue(cfg: Config, base: State, s: State) returns (actions: seq<Action>)
    requires ValidConfig(cfg) && cfg.request.numChunks > base.fileQueue.popped + cfg.sendLimit
    requires Pipeline.Inv(cfg, s) && Healthy(s) && OnlyReaderRan(cfg, base, s)
    ensures FailureFree(actions) && Run(cfg, s, actions).Some?
    ensures var s' := Run(cfg, s, actions).value;
            OnlyReaderRan(cfg, base, s') && ReaderBlocked(cfg, s') && Pipeline.Inv(cfg, s') && Healthy(s')
    decreases Measure(cfg, s)
  {
    hide Pipeline.Inv, Healthy, Measure, StepReader, OnlyReaderRan, ReaderBlocked;
    if StepReader(cfg, s).None? {
      ReaderIsBlocked(cfg, base, s);
      return [];
    }
    var s1 := StepReader(cfg, s).value;
    ReaderTotal(cfg, s);
    StepReaderKeeps(cfg, s);
    ReaderRunsAlone(cfg, base, s);
    MeasureNonneg(cfg, s);
    var rest := ReaderFillsQueue(cfg, base, s1);
    assert Next(cfg, s, Step(Reader, 0)) == Some(s1);
    actions := [Step(Reader, 0)] + rest;
    assert actions[1..] == rest;
  }

  lemma ReaderIsBlocked(cfg: Config, base: State, s: State)
    requires ValidConfig(cfg) && cfg.request.numChunks > base.fileQueue.popped + cfg.sendLimit
    requires Pipeline.Inv(cfg, s) && Healthy(s) && OnlyReaderRan(cfg, base, s) && StepReader(cfg, s).None?
    ensures ReaderBlocked(cfg, s)
  {
    hide WorkerInv, SenderInv, ReceiverInv, WriterInv, Flatten, Consumed, CipherChunks, PlainChunks, Packed, Planned,
      ReaderHolds;
    ReaderStops(cfg, s);
  }

  const ENCRYPTOR_FAILS: seq<Action> := [Throw(Encryptor), Handle(Encryptor), Handle(Encryptor)]

  /** The encryptor has left and the reader waits for room. */
  predicate ReaderWaitsForGone(cfg: Config, s: State) {
    s.encryptor.life.Ended() && ReaderBlocked(cfg, s) && s.sendContext.abort
  }

  lemma ReaderGoesOnWaiting(cfg: Config, s: State, a: Action)
    requires ValidConfig(cfg) && ReaderWaitsForGone(cfg, s) && a != Throw(Reader) && Next(cfg, s, a).Some?
    ensures ReaderWaitsForGone(cfg, Next(cfg, s, a).value)
  {
    hide ValidConfig, WriterStep, SenderStep, ReceiverStep, EncryptResult, DecryptResult;
  }

  /** A reader that waits for an encryptor that has left waits for ever, whatever else happens. */
  lemma {:induction false} ReaderNeverEnds(cfg: Config, s: State, actions: seq<Action>)
    requires ValidConfig(cfg) && ReaderWaitsForGone(cfg, s) && Throw(Reader) !in actions && Run(cfg, s, actions).Some?
    ensures ReaderWaitsForGone(cfg, Run(cfg, s, actions).value) && !AllEnded(Run(cfg, s, actions).value, Sending)
    decreases |actions|
  {
    hide Next, ReaderBlocked;
    if |actions| > 0 {
      ReaderGoesOnWaiting(cfg, s, actions[0]);
      ReaderNeverEnds(cfg, Next(cfg, s, actions[0]).value, actions[1..]);
    }
    BlockedIsNotEnded(cfg, Run(cfg, s, actions).value);
  }

  lemma BlockedIsNotEnded(cfg: Config, s: State)
    ensures ReaderBlocked(cfg, s) ==> !s.reader.life.Ended()
  {
  }

  lemma EncryptorFailureHangs(cfg: Config, s: State)
    requires ValidConfig(cfg) && OnlyReaderRan(cfg, Init(cfg), s) && ReaderBlocked(cfg, s)
    ensures Run(cfg, s, ENCRYPTOR_FAILS).Some? && ReaderWaitsForGone(cfg, Run(cfg, s, ENCRYPTOR_FAILS).value)
    ensures Untouched(cfg, Run(cfg, s, ENCRYPTOR_FAILS).value)
  {
    hide StepThread;
    var s1 := s.(encryptor := s.encryptor.(life := Throwing));
    var s2 := s1.(encryptor := s.encryptor.(life := Raised), sendContext := s.sendContext.Raise());
    var s3 := s2.(encryptor := s.encryptor.(life := Dead), sendContext := s2.sendContext.Capture(Encryptor));
    RunOfThree(cfg, s, Throw(Encryptor), Handle(Encryptor), Handle(Encryptor), s1, s2, s3);
  }

  // ---- A lost connection ----

  lemma RunOn(cfg: Config, s: State, actions: seq<Action>, a: Action, s1: State, s2: State)
    requires ValidConfig(cfg) && Run(cfg, s, actions) == Some(s1) && Next(cfg, s1, a) == Some(s2)
    ensures Run(cfg, s, actions + [a]) == Some(s2)
  {
    hide Next;
    RunConcat(cfg, s, actions, [a]);
    assert [a][1..] == [];
    assert Run(cfg, s2, []) == Some(s2);
    assert Run(cfg, s1, [a]) == Some(s2);
  }

  const FIRST_CHUNK: seq<Action> :=
    [Step(Encryptor, 0)] + [Step(Encryptor, 0)] + [Step(Encryptor, 0)] + [Step(Encryptor, 0)]
    + [Step(ThreadId.Sender, 0)] + [Step(ThreadId.Sender, 0)]

  /** The first chunk is encrypted, and the socket writer starts on its frame. */
  lemma FirstChunkTaken(cfg: Config, s: State) returns (mid: State)
    requires ValidConfig(cfg) && Pipeline.Inv(cfg, s) && Healthy(s)
    requires OnlyReaderRan(cfg, Init(cfg), s) && ReaderBlocked(cfg, s)
    ensures Run(cfg, s, FIRST_CHUNK) == Some(mid) && Healthy(mid)
    ensures mid.fileQueue == s.fileQueue.Pop() && mid.encryptor.life == Live(Check)
    ensures mid.sender.life.Live? && mid.sender.life.at.Write?
  {
    var c, y := s.fileQueue.pushed[0], CipherChunks(cfg)[0];
    FirstChunk(cfg, s);
    var s1 := s.(encryptor := WorkerThread(Live(TryPop), 0));
    var s2 := s1.(encryptor := WorkerThread(Live(Apply(c)), 0), fileQueue := s.fileQueue.Pop());
    var s3 := s2.(encryptor := WorkerThread(Live(PushResult(y)), 1));
    var s4 := s3.(encryptor := WorkerThread(Live(Check), 1), encryptedQueue := Fifo([y], 0, false));
    var s5 := s4.(sender := SenderThread(Live(SendTryPop), 0));
    mid := s5.(sender := SenderThread(Live(Write(Frame(y))), 0), encryptedQueue := Fifo([y], 1, false));
    EncryptorTakes(cfg, s, s1, s2, s3, s4, c, y);
    SenderTakes(cfg, s4, s5, mid, y);
    hide Next, CipherChunks, Frame, Pipeline.Inv, ValidConfig;
    var e, t := Step(Encryptor, 0), Step(ThreadId.Sender, 0);
    assert Run(cfg, s, []) == Some(s) && [] + [e] == [e];
    RunOn(cfg, s, [], e, s, s1);
    RunOn(cfg, s, [e], e, s1, s2);
    RunOn(cfg, s, [e] + [e], e, s2, s3);
    RunOn(cfg, s, [e] + [e] + [e], e, s3, s4);
    RunOn(cfg, s, [e] + [e] + [e] + [e], t, s4, s5);
    RunOn(cfg, s, [e] + [e] + [e] + [e] + [t], t, s5, mid);
  }

  lemma FirstChunk(cfg: Config, s: State)
    requires ValidConfig(cfg) && Pipeline.Inv(cfg, s) && ReaderBlocked(cfg, s) && s.fileQueue.popped == 0
    ensures |s.fileQueue.pushed| > 0 && s.fileQueue.pushed[0] == PlainChunks(cfg)[0]
    ensures EncryptChunk(s.fileQueue.pushed[0], cfg.ciphertexts[0], cfg.request.chunkSize, cfg.request.numChunks)
            == Ok(CipherChunks(cfg)[0])
  {
    hide SenderInv, ReceiverInv, WriterInv, ReaderInv, PlainChunks, CipherChunks, EncryptChunk;
    CipherChunkAt(cfg, 0);
  }

  lemma EncryptorTakes(cfg: Config, s: State, s1: State, s2: State, s3: State, s4: State, c: Chunk, y: Chunk)
    requires ValidConfig(cfg) && s.encryptor == WorkerThread(Live(Check), 0) && !s.sendContext.abort
    requires s.encryptedQueue == Fifo([], 0, false) && !s.fileQueue.Empty() && s.fileQueue.Front() == c
    requires EncryptChunk(c, cfg.ciphertexts[0], cfg.request.chunkSize, cfg.request.numChunks) == Ok(y)
    requires s1 == s.(encryptor := WorkerThread(Live(TryPop), 0))
    requires s2 == s1.(encryptor := WorkerThread(Live(Apply(c)), 0), fileQueue := s.fileQueue.Pop())
    requires s3 == s2.(encryptor := WorkerThread(Live(PushResult(y)), 1))
    requires s4 == s3.(encryptor := WorkerThread(Live(Check), 1), encryptedQueue := Fifo([y], 0, false))
    ensures Next(cfg, s, Step(Encryptor, 0)) == Some(s1) && Next(cfg, s1, Step(Encryptor, 0)) == Some(s2)
    ensures Next(cfg, s2, Step(Encryptor, 0)) == Some(s3) && Next(cfg, s3, Step(Encryptor, 0)) == Some(s4)
  {
    hide EncryptChunk;
    assert [] + [y] == [y];
    assert EncryptResult(cfg, s2) == Ok(y);
  }

  lemma SenderTakes(cfg: Config, s: State, s1: State, s2: State, y: Chunk)
    requires ValidConfig(cfg) && s.sender == SenderThread(Live(SendCheck), 0) && !s.sendContext.abort
    requires s.encryptedQueue == Fifo([y], 0, false)
    requires s1 == s.(sender := SenderThread(Live(SendTryPop), 0))
    requires s2 == s1.(sender := SenderThread(Live(Write(Frame(y))), 0), encryptedQueue := Fifo([y], 1, false))
    ensures Next(cfg, s, Step(ThreadId.Sender, 0)) == Some(s1) && Next(cfg, s1, Step(ThreadId.Sender, 0)) == Some(s2)
  {
    hide Frame, ValidConfig;
  }

  const CONNECTION_LOST: seq<Action> :=
    [Throw(ThreadId.Sender), Handle(ThreadId.Sender), Handle(ThreadId.Sender)] + [Step(Encryptor, 0)]
      + [Step(Encryptor, 0)]

  /** With at least two chunks more than a queue holds, a connection that is lost while the first frame is written is
      enough: nothing but this write throws, the encryptor leaves at its next look at the flag, and the reader waits
      for ever for room in its queue. */
  lemma LostConnectionHangs(cfg: Config) returns (before: seq<Action>, writing: State)
    requires ValidConfig(cfg) && cfg.request.numChunks > cfg.sendLimit + 1
    ensures FailureFree(before) && Run(cfg, Init(cfg), before) == Some(writing) && Healthy(writing)
    ensures writing.sender.life.Live? && writing.sender.life.at.Write?
    ensures Run(cfg, writing, CONNECTION_LOST).Some?
            && ReaderWaitsForGone(cfg, Run(cfg, writing, CONNECTION_LOST).value)
  {
    hide ValidConfig, StepThread, HandleThread, Next, Pipeline.Inv, Healthy, ReaderBlocked;
    InitInv(cfg);
    InitHealthy(cfg);
    var a := ReaderFillsQueue(cfg, Init(cfg), Init(cfg));
    var full := Run(cfg, Init(cfg), a).value;
    var mid := FirstChunkTaken(cfg, full);
    RunKeepsInv(cfg, full, FIRST_CHUNK);
    var b := ReaderFillsQueue(cfg, mid, mid);
    writing := Run(cfg, mid, b).value;
    RunConcat(cfg, Init(cfg), a, FIRST_CHUNK);
    RunConcat(cfg, Init(cfg), a + FIRST_CHUNK, b);
    before := a + FIRST_CHUNK + b;
    ConnectionLost(cfg, writing);
  }

  lemma {:induction false} RunKeepsInv(cfg: Config, s: State, actions: seq<Action>)
    requires ValidConfig(cfg) && Pipeline.Inv(cfg, s) && Run(cfg, s, actions).Some?
    ensures Pipeline.Inv(cfg, Run(cfg, s, actions).value)
    decreases |actions|
  {
    hide Pipeline.Inv, Next;
    if |actions| > 0 {
      NextKeeps(cfg, s, actions[0]);
      RunKeepsInv(cfg, Next(cfg, s, actions[0]).value, actions[1..]);
    }
  }

  lemma ConnectionLost(cfg: Config, s: State)
    requires ValidConfig(cfg) && Healthy(s) && ReaderBlocked(cfg, s)
    requires s.encryptor.life == Live(Check) && s.sender.life.Live?
    ensures Run(cfg, s, CONNECTION_LOST).Some? && ReaderWaitsForGone(cfg, Run(cfg, s, CONNECTION_LOST).value)
  {
    var t, e := ThreadId.Sender, Step(Encryptor, 0);
    var s1 := s.(sender := s.sender.(life := Throwing));
    var s2 := s1.(sender := s.sender.(life := Raised), sendContext := s.sendContext.Raise());
    var s3 := s2.(sender := s.sender.(life := Dead), sendContext := s2.sendContext.Capture(t));
    var s4 := s3.(encryptor := s.encryptor.(life := Live(StoreDone(false))));
    var s5 := s4.(encryptor := s.encryptor.(life := Exited(false)), encryptedQueue := s.encryptedQueue.StoreDone());
    ConnectionSteps(cfg, s, s1, s2, s3, s4, s5);
    SameQueue(cfg, s, s5);
    hide Next, ReaderBlocked, Healthy;
    RunOfThree(cfg, s, Throw(t), Handle(t), Handle(t), s1, s2, s3);
    RunOn(cfg, s, [Throw(t), Handle(t), Handle(t)], e, s3, s4);
    RunOn(cfg, s, [Throw(t), Handle(t), Handle(t)] + [e], e, s4, s5);
  }

  lemma SameQueue(cfg: Config, s: State, s': State)
    requires ReaderBlocked(cfg, s) && s'.reader == s.reader && s'.fileQueue == s.fileQueue
    ensures ReaderBlocked(cfg, s')
  {
  }

  lemma ConnectionSteps(cfg: Config, s: State, s1: State, s2: State, s3: State, s4: State, s5: State)
    requires ValidConfig(cfg) && s.encryptor.life == Live(Check) && s.sender.life.Live?
    requires s1 == s.(sender := s.sender.(life := Throwing))
    requires s2 == s1.(sender := s.sender.(life := Raised), sendContext := s.sendContext.Raise())
    requires s3 == s2.(sender := s.sender.(life := Dead), sendContext := s2.sendContext.Capture(ThreadId.Sender))
    requires s4 == s3.(encryptor := s.encryptor.(life := Live(StoreDone(false))))
    requires s5 == s4.(encryptor := s.encryptor.(life := Exited(false)), encryptedQueue := s.encryptedQueue.StoreDone())
    ensures Next(cfg, s, Throw(ThreadId.Sender)) == Some(s1) && Next(cfg, s1, Handle(ThreadId.Sender)) == Some(s2)
    ensures Next(cfg, s2, Handle(ThreadId.Sender)) == Some(s3)
    ensures Next(cfg, s3, Step(Encryptor, 0)) == Some(s4) && Next(cfg, s4, Step(Encryptor, 0)) == Some(s5)
  {
    hide ValidConfig, EncryptResult;
  }

  // ---- A receiver that hangs and reads nothing ----

  /** The socket reader has left, the decryptor is gone, and the writer waits. */
  predicate ReceiverGone(s: State) { s.receiver.life.Ended() && WriterWaitsForDead(s) }

  lemma GoneIsStalled(cfg: Config, s: State)
    requires ValidConfig(cfg) && ReceiverGone(s)
    ensures Stalled(cfg, s, Receiving)
  {
    hide ValidConfig;
    forall t: ThreadId, n: nat | OnSide(t, Receiving) ensures !CanAct(cfg, s, t, n) {
      hide DecryptResult;
    }
  }

  lemma GoneStaysGone(cfg: Config, s: State, a: Action)
    requires ValidConfig(cfg) && ReceiverGone(s) && OnSide(Actor(a), Sending) && Next(cfg, s, a).Some?
    ensures ReceiverGone(Next(cfg, s, a).value)
  {
    hide ValidConfig, ReaderStep, WorkerStep, SenderStep, EncryptResult;
  }

  lemma {:induction false} GoneForEver(cfg: Config, s: State, actions: seq<Action>)
    requires ValidConfig(cfg) && ReceiverGone(s) && Run(cfg, s, actions).Some?
    requires forall i :: 0 <= i < |actions| ==> OnSide(Actor(actions[i]), Sending)
    ensures ReceiverGone(Run(cfg, s, actions).value)
    decreases |actions|
  {
    hide Next, ReceiverGone;
    if |actions| > 0 {
      GoneStaysGone(cfg, s, actions[0]);
      GoneForEver(cfg, Next(cfg, s, actions[0]).value, actions[1..]);
    }
  }

  const RECEIVER_FAILS: seq<Action> := DECRYPTOR_FAILS + [Step(ThreadId.Receiver, 0)]

  /** The receiving side can go away before it reads a byte, and the sending side does not notice. */
  lemma ReceiverGoesAway(cfg: Config, s: State) returns (s': State)
    requires ValidConfig(cfg) && Untouched(cfg, s)
    ensures Run(cfg, s, RECEIVER_FAILS) == Some(s') && ReceiverGone(s')
    ensures s' == s.(receiver := s'.receiver, decryptor := s'.decryptor, receiveContext := s'.receiveContext)
  {
    DecryptorFailureHangs(cfg, s);
    var s3 := Run(cfg, s, DECRYPTOR_FAILS).value;
    s' := s3.(receiver := ReceiverThread(Exited(false), 0));
    ReceiverSeesAbort(cfg, s3, s');
    hide Next;
    RunConcat(cfg, s, DECRYPTOR_FAILS, [Step(ThreadId.Receiver, 0)]);
    assert [Step(ThreadId.Receiver, 0)][1..] == [];
    assert Run(cfg, s3, [Step(ThreadId.Receiver, 0)]) == Some(s');
  }

  lemma ReceiverSeesAbort(cfg: Config, s: State, s': State)
    requires ValidConfig(cfg) && s.receiver == ReceiverThread(Live(ReceiveCheck), 0) && s.receiveContext.abort
    requires s' == s.(receiver := ReceiverThread(Exited(false), 0))
    ensures Next(cfg, s, Step(ThreadId.Receiver, 0)) == Some(s')
  {
    HasChunks(cfg);
  }

  // ---- The exact condition ----

  /** No thread of either side has a step or a handler left. */
  ghost predicate BothStalled(cfg: Config, s: State)
    requires ValidConfig(cfg)
  {
    Stalled(cfg, s, Sending) && Stalled(cfg, s, Receiving)
  }

  /** With more chunks than a queue holds, a failure of the encryptor can leave the reader waiting for ever. */
  lemma SenderCanHang(cfg: Config) returns (s: State)
    requires ValidConfig(cfg) && cfg.request.numChunks > cfg.sendLimit
    ensures Reachable(cfg, s) && Aborted(s, Sending) && BothStalled(cfg, s) && !AllEnded(s, Sending)
  {
    hide ValidConfig, StepThread, HandleThread, Next, Stalled, Pipeline.Inv, Healthy, ReaderBlocked, Untouched,
      ReceiverGone;
    InitInv(cfg);
    InitHealthy(cfg);
    var a := ReaderFillsQueue(cfg, Init(cfg), Init(cfg));
    var full := Run(cfg, Init(cfg), a).value;
    EncryptorFailureHangs(cfg, full);
    var failed := Run(cfg, full, ENCRYPTOR_FAILS).value;
    var gone := ReceiverGoesAway(cfg, failed);
    SameReader(cfg, failed, gone);
    var b := RunsUntilStalled(cfg, gone, Sending);
    s := Run(cfg, gone, b).value;
    ReaderNeverEnds(cfg, gone, b);
    GoneForEver(cfg, gone, b);
    GoneIsStalled(cfg, s);
    RunConcat(cfg, Init(cfg), a, ENCRYPTOR_FAILS);
    RunConcat(cfg, Init(cfg), a + ENCRYPTOR_FAILS, RECEIVER_FAILS);
    RunConcat(cfg, Init(cfg), a + ENCRYPTOR_FAILS + RECEIVER_FAILS, b);
    assert Run(cfg, Init(cfg), a + ENCRYPTOR_FAILS + RECEIVER_FAILS + b) == Some(s);
  }

  lemma SameReader(cfg: Config, s: State, s': State)
    requires ReaderWaitsForGone(cfg, s)
    requires s' == s.(receiver := s'.receiver, decryptor := s'.decryptor, receiveContext := s'.receiveContext)
    ensures ReaderWaitsForGone(cfg, s')
  {
  }

  /** With more bytes than the network holds, a receiver that hangs and reads nothing leaves the socket writer waiting
      for ever, though nothing fails on the sending side. */
  lemma SenderCanStarve(cfg: Config) returns (s: State)
    requires ValidConfig(cfg) && cfg.request.numChunks <= cfg.sendLimit
    requires |Stream(CipherChunks(cfg))| > cfg.wireLimit
    ensures Reachable(cfg, s) && !Aborted(s, Sending) && BothStalled(cfg, s) && WaitsForNetwork(cfg, s)
  {
    hide ValidConfig, StepThread, HandleThread, Next, Stalled, Pipeline.Inv, Untouched, ReceiverGone, AtRest, Stream,
      CipherChunks, WaitsForNetwork, Healthy;
    InitInv(cfg);
    InitHealthy(cfg);
    InitUntouched(cfg);
    var a := ComesToRest(cfg, Init(cfg), ReceivingSide);
    var rest := Run(cfg, Init(cfg), a).value;
    SendingSideAtRest(cfg, rest);
    s := ReceiverGoesAway(cfg, rest);
    WaitingIsStalled(cfg, rest, s);
    GoneIsStalled(cfg, s);
    RunConcat(cfg, Init(cfg), a, RECEIVER_FAILS);
    assert Run(cfg, Init(cfg), a + RECEIVER_FAILS) == Some(s);
  }

  lemma SendingSideAtRest(cfg: Config, s: State)
    requires ValidConfig(cfg) && Pipeline.Inv(cfg, s) && Healthy(s)
    requires AtRest(cfg, s, ReceivingSide) && Untouched(cfg, s)
    requires cfg.request.numChunks <= cfg.sendLimit && |Stream(CipherChunks(cfg))| > cfg.wireLimit
    ensures s.reader.life.Ended() && s.encryptor.life.Ended() && WaitsForNetwork(cfg, s) && !s.sendContext.abort
  {
    assert !CanMove(cfg, s, Reader) && !CanMove(cfg, s, Encryptor) && !CanMove(cfg, s, ThreadId.Sender);
    hide CanMove, Pipeline.Inv, Stream, CipherChunks;
    if !WaitsForNetwork(cfg, s) { SenderSideDone(cfg, s); }
    SmallNeverBlocks(cfg, s);
    hide ReaderBlocked, WorkerBlocked, WaitsForNetwork, Untouched;
    ReaderIsDone(cfg, s);
    EncryptorIsDone(cfg, s);
  }

  lemma ReaderIsDone(cfg: Config, s: State)
    requires ValidConfig(cfg) && Pipeline.Inv(cfg, s) && Healthy(s) && !CanMove(cfg, s, Reader)
             && !ReaderBlocked(cfg, s)
    ensures s.reader.life.Ended() && s.fileQueue.done
  {
    hide WorkerInv, SenderInv, ReceiverInv, WriterInv, ReaderStep, ReaderBlocked, PlanChunks, ReaderHolds;
    ReaderStops(cfg, s);
  }

  lemma EncryptorIsDone(cfg: Config, s: State)
    requires ValidConfig(cfg) && Healthy(s) && !CanMove(cfg, s, Encryptor) && s.fileQueue.done
    requires !WorkerBlocked(s.encryptor, s.encryptedQueue, cfg.sendLimit)
    ensures s.encryptor.life.Ended()
  {
    hide ValidConfig, WorkerStep, WorkerBlocked, EncryptResult;
    EncryptorStops(cfg, s);
  }

  lemma WaitingIsStalled(cfg: Config, s: State, s': State)
    requires ValidConfig(cfg) && s.reader.life.Ended() && s.encryptor.life.Ended() && WaitsForNetwork(cfg, s)
    requires s' == s.(receiver := s'.receiver, decryptor := s'.decryptor, receiveContext := s'.receiveContext)
    ensures Stalled(cfg, s', Sending) && WaitsForNetwork(cfg, s')
  {
    hide ValidConfig;
    forall t: ThreadId, n: nat | OnSide(t, Sending) ensures !CanAct(cfg, s', t, n) {
      hide EncryptResult;
    }
  }

  /** The sender's joins return, whatever fails on either side and under every schedule, if and only if one of its
      queues holds all chunks and the network holds all frames. */
  lemma SenderJoinsReturnIffSmall(cfg: Config)
    requires ValidConfig(cfg)
    ensures (forall s :: Reachable(cfg, s) && BothStalled(cfg, s) ==> AllEnded(s, Sending)) <==>
            cfg.request.numChunks <= cfg.sendLimit && |Stream(CipherChunks(cfg))| <= cfg.wireLimit
    ensures cfg.request.numChunks <= cfg.sendLimit && |Stream(CipherChunks(cfg))| <= cfg.wireLimit ==>
            forall s :: Reachable(cfg, s) && Stalled(cfg, s, Sending) ==> AllEnded(s, Sending)
  {
    hide ValidConfig, Reachable, Stalled, ReaderBlocked, WorkerBlocked, WaitsForNetwork, Stream, CipherChunks;
    if cfg.request.numChunks > cfg.sendLimit {
      var s := SenderCanHang(cfg);
    } else if |Stream(CipherChunks(cfg))| > cfg.wireLimit {
      var s := SenderCanStarve(cfg);
      WaitingIsNotEnded(cfg, s);
    } else {
      forall s | Reachable(cfg, s) && Stalled(cfg, s, Sending) ensures AllEnded(s, Sending) {
        SenderStalls(cfg, s);
        SmallTransfersNeverBlock(cfg, s);
        SmallStreamNeverWaits(cfg, s);
      }
    }
  }

  lemma WaitingIsNotEnded(cfg: Config, s: State)
    requires WaitsForNetwork(cfg, s)
    ensures !AllEnded(s, Sending)
  {
  }
}
