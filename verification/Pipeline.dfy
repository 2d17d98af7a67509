/** The whole transfer: three stages on each side, their queues, and the network between them
    (src/Sender.cpp, src/Receiver.cpp), under every interleaving of the threads' atomic steps. */
module Pipeline {
  import opened Bytes
  import opened Chunks
  import opened TransferRequests
  import opened Packing
  import opened Cutting
  import opened TransferManager
  import opened EncryptionManager
  import opened Threads
  import opened Stages
  import opened StageInvariants

  /** One transfer: the request both sides agreed on, the sender's files, the secret stream that the sender
      pushes into and the one that the receiver pulls from, what the sender's stream outputs for each message,
      and the capacities of the two sides' queues and of the network. */
  datatype Config = Config(
    request: Request, files: seq<seq<byte>>, sealing: SecretStream, opening: SecretStream,
    ciphertexts: seq<seq<byte>>, sendLimit: nat, receiveLimit: nat, wireLimit: nat)

  /** The receiver pulls from the stream that the sender pushes into. */
  predicate SameStream(cfg: Config) { cfg.opening == cfg.sealing }

  predicate ValidConfig(cfg: Config) {
    && Planned(cfg.request, |Flatten(cfg.files)|)
    && |cfg.ciphertexts| == cfg.request.numChunks
    && (forall k :: 0 <= k < cfg.request.numChunks ==> CiphertextFits(cfg, k))
    && SizesAgree(cfg)
    && 1 <= cfg.sendLimit && 1 <= cfg.receiveLimit && 1 <= cfg.wireLimit
  }

  /** The request lists the files with their sizes. */
  predicate SizesAgree(cfg: Config) {
    && |cfg.request.files| == |cfg.files|
    && forall i :: 0 <= i < |cfg.files| ==> cfg.request.files[i].size == |cfg.files[i]|
  }

  predicate CiphertextFits(cfg: Config, k: nat)
    requires k < |cfg.ciphertexts|
  {
    |cfg.ciphertexts[k]| == Capacity(cfg.request, k) + ENCRYPTION_ADDITIONAL_BYTES
  }

  /** The chunks the reader makes, and the decryptor has to recover. */
  function PlainChunks(cfg: Config): (cs: seq<Chunk>)
    requires ValidConfig(cfg)
    ensures |cs| == cfg.request.numChunks
  {
    PlanChunks(cfg.request, Flatten(cfg.files))
  }

  /** The chunks the encryptor makes of them. */
  function CipherChunks(cfg: Config): (cs: seq<Chunk>)
    requires ValidConfig(cfg)
    ensures |cs| == cfg.request.numChunks
  {
    seq(cfg.request.numChunks, k requires 0 <= k < cfg.request.numChunks =>
      StartStep(cfg.request, |Flatten(cfg.files)|, k);
      Transformed(k + 1, cfg.ciphertexts[k], Capacity(cfg.request, k)))
  }

  /** What the first `n` encryptions push into the secret stream. */
  function SealedLog(cfg: Config, n: nat): (log: seq<Sealed>)
    requires ValidConfig(cfg) && n <= cfg.request.numChunks
    ensures |log| == n
  {
    seq(n, k requires 0 <= k < n =>
      SealOf(PlainChunks(cfg)[k], cfg.ciphertexts[k], cfg.request.numChunks))
  }

  /** The log is an honest one: the final tag is on the last message and on no other. */
  lemma LogIsHonest(cfg: Config, n: nat)
    requires ValidConfig(cfg) && n <= cfg.request.numChunks
    ensures HonestLog(SealedLog(cfg, n), cfg.request.numChunks) && |cfg.ciphertexts| == cfg.request.numChunks
    ensures Numbered(SealedLog(cfg, n)) && WellTagged(SealedLog(cfg, n), cfg.request.numChunks)
    ensures forall k :: 0 <= k < n ==> SealedLog(cfg, n)[k].message == Piece(cfg.request, Flatten(cfg.files), k)
  {
    hide SealedLog, Piece, Flatten;
    forall k | 0 <= k < n
      ensures SealedLog(cfg, n)[k] ==
              Sealed(k + 1, Piece(cfg.request, Flatten(cfg.files), k), k + 1 == cfg.request.numChunks,
                     cfg.ciphertexts[k])
    {
      SealedAt(cfg, n, k);
    }
  }

  lemma SealedAt(cfg: Config, n: nat, k: nat)
    requires ValidConfig(cfg) && k < n <= cfg.request.numChunks
    ensures SealedLog(cfg, n)[k] ==
            Sealed(k + 1, Piece(cfg.request, Flatten(cfg.files), k), k + 1 == cfg.request.numChunks, cfg.ciphertexts[k])
  {
    PlainChunkAt(cfg, k);
    var p := Piece(cfg.request, Flatten(cfg.files), k);
    hide PlainChunks, Piece, Capacity, ValidConfig, Flatten;
    assert |p| <= 8192 && p[..|p|] == p;
  }

  /** What a decryptor can be given of these: nothing, unless it has the key and header of the sender's stream. */
  function VisibleLog(cfg: Config, n: nat): (log: seq<Sealed>)
    requires ValidConfig(cfg) && n <= cfg.request.numChunks
    ensures log == if SameStream(cfg) then SealedLog(cfg, n) else []
  {
    if cfg.opening == cfg.sealing then SealedLog(cfg, n) else []
  }

  datatype State = State(
    reader: ReaderThread, encryptor: WorkerThread, sender: SenderThread,
    receiver: ReceiverThread, decryptor: WorkerThread, writer: WriterThread,
    fileQueue: Fifo<Chunk>, encryptedQueue: Fifo<Chunk>, wire: Fifo<byte>,
    receivedQueue: Fifo<Chunk>, decryptedQueue: Fifo<Chunk>,
    sendContext: Context, receiveContext: Context)

  function Init(cfg: Config): State {
    var noChunk := Chunk(0, false, 0, []);
    State(
      ReaderThread(Live(NextFile), 0, 0, [], cfg.request.chunkSize, 1),
      WorkerThread(Live(Check), 0),
      SenderThread(Live(SendCheck), 0),
      ReceiverThread(Live(ReceiveCheck), 0),
      WorkerThread(Live(Check), 0),
      WriterThread(Live(FirstPop), WriterLocals([], 0, noChunk, 0, 0, 0)),
      Fifo([], 0, false), Fifo([], 0, false), Fifo([], 0, false), Fifo([], 0, false), Fifo([], 0, false),
      Context(false, None), Context(false, None))
  }

  /** A thread takes its next step (moving `n` bytes when it uses the network); something it calls throws;
      or it handles its exception. */
  datatype Action = Step(t: ThreadId, n: nat) | Throw(t: ThreadId) | Handle(t: ThreadId)

  function EncryptResult(cfg: Config, s: State): Result<Chunk> {
    match s.encryptor.life
    case Live(Apply(x)) =>
      if s.encryptor.count < |cfg.ciphertexts|
      then EncryptChunk(x, cfg.ciphertexts[s.encryptor.count], cfg.request.chunkSize, cfg.request.numChunks)
      else Err(BadSequence)
    case _ => Err(BadSequence)
  }

  /** The decryptor accepts what the encryptor has pushed so far, in order. */
  function DecryptResult(cfg: Config, s: State): Result<Chunk>
    requires ValidConfig(cfg)
  {
    match s.decryptor.life
    case Live(Apply(x)) =>
      DecryptChunk(x, VisibleLog(cfg, Min(s.encryptor.count, cfg.request.numChunks)), s.decryptor.count,
                   cfg.request.numChunks)
    case _ => Err(BadSequence)
  }

  function StepThread(cfg: Config, s: State, t: ThreadId, n: nat): Option<State>
    requires ValidConfig(cfg)
  {
    match t
    case Reader => StepReader(cfg, s)
    case Encryptor => StepEncryptor(cfg, s)
    case Sender => StepSender(cfg, s, n)
    case Receiver => StepReceiver(cfg, s, n)
    case Decryptor => StepDecryptor(cfg, s)
    case Writer => StepWriter(cfg, s)
  }

  function StepReader(cfg: Config, s: State): Option<State> {
    match ReaderStep(cfg.request, cfg.files, s.reader, s.fileQueue, cfg.sendLimit, s.sendContext.abort)
    case None => None
    case Some((t, q)) => Some(s.(reader := t, fileQueue := q))
  }

  function StepEncryptor(cfg: Config, s: State): Option<State> {
    match WorkerStep(s.encryptor, s.fileQueue, s.encryptedQueue, cfg.sendLimit, s.sendContext.abort,
                     EncryptResult(cfg, s))
    case None => None
    case Some((t, i, o)) => Some(s.(encryptor := t, fileQueue := i, encryptedQueue := o))
  }

  function StepSender(cfg: Config, s: State, n: nat): Option<State> {
    match SenderStep(s.sender, s.encryptedQueue, s.wire, cfg.wireLimit, s.sendContext.abort, n)
    case None => None
    case Some((t, i, w)) => Some(s.(sender := t, encryptedQueue := i, wire := w))
  }

  function StepReceiver(cfg: Config, s: State, n: nat): Option<State> {
    match ReceiverStep(cfg.request.numChunks, s.receiver, s.wire, s.receivedQueue, cfg.receiveLimit,
                       s.receiveContext.abort, n)
    case None => None
    case Some((t, w, o)) => Some(s.(receiver := t, wire := w, receivedQueue := o))
  }

  function StepDecryptor(cfg: Config, s: State): Option<State>
    requires ValidConfig(cfg)
  {
    match WorkerStep(s.decryptor, s.receivedQueue, s.decryptedQueue, cfg.receiveLimit, s.receiveContext.abort,
                     DecryptResult(cfg, s))
    case None => None
    case Some((t, i, o)) => Some(s.(decryptor := t, receivedQueue := i, decryptedQueue := o))
  }

  function StepWriter(cfg: Config, s: State): Option<State> {
    match WriterStep(Sizes(cfg.files), s.writer, s.decryptedQueue, s.receiveContext.abort)
    case None => None
    case Some((t, q)) => Some(s.(writer := t, decryptedQueue := q))
  }

  /** Any running thread may throw at any point: a file changes, a disk is full, the peer is gone. */
  function ThrowThread(s: State, t: ThreadId): Option<State> {
    match t
    case Reader => if s.reader.life.Live? then Some(s.(reader := s.reader.(life := Throwing))) else None
    case Encryptor => if s.encryptor.life.Live? then Some(s.(encryptor := s.encryptor.(life := Throwing))) else None
    case Sender => if s.sender.life.Live? then Some(s.(sender := s.sender.(life := Throwing))) else None
    case Receiver => if s.receiver.life.Live? then Some(s.(receiver := s.receiver.(life := Throwing))) else None
    case Decryptor => if s.decryptor.life.Live? then Some(s.(decryptor := s.decryptor.(life := Throwing))) else None
    case Writer => if s.writer.life.Live? then Some(s.(writer := s.writer.(life := Throwing))) else None
  }

  function HandleThread(s: State, t: ThreadId): Option<State> {
    match t
    case Reader =>
      (match Unwind(s.reader.life, s.sendContext, t)
       case None => None
       case Some((l, c)) => Some(s.(reader := s.reader.(life := l), sendContext := c)))
    case Encryptor =>
      (match Unwind(s.encryptor.life, s.sendContext, t)
       case None => None
       case Some((l, c)) => Some(s.(encryptor := s.encryptor.(life := l), sendContext := c)))
    case Sender =>
      (match Unwind(s.sender.life, s.sendContext, t)
       case None => None
       case Some((l, c)) => Some(s.(sender := s.sender.(life := l), sendContext := c)))
    case Receiver =>
      (match Unwind(s.receiver.life, s.receiveContext, t)
       case None => None
       case Some((l, c)) => Some(s.(receiver := s.receiver.(life := l), receiveContext := c)))
    case Decryptor =>
      (match Unwind(s.decryptor.life, s.receiveContext, t)
       case None => None
       case Some((l, c)) => Some(s.(decryptor := s.decryptor.(life := l), receiveContext := c)))
    case Writer =>
      (match Unwind(s.writer.life, s.receiveContext, t)
       case None => None
       case Some((l, c)) => Some(s.(writer := s.writer.(life := l), receiveContext := c)))
  }

  function Next(cfg: Config, s: State, a: Action): Option<State>
    requires ValidConfig(cfg)
  {
    match a
    case Step(t, n) => StepThread(cfg, s, t, n)
    case Throw(t) => ThrowThread(s, t)
    case Handle(t) => HandleThread(s, t)
  }

  /** The state after a run, if each of its actions is possible. */
  function Run(cfg: Config, s: State, actions: seq<Action>): Option<State>
    requires ValidConfig(cfg)
    decreases |actions|
  {
    if |actions| == 0 then Some(s) else
      match Next(cfg, s, actions[0])
      case None => None
      case Some(s') => Run(cfg, s', actions[1..])
  }

  // ---- The invariant ----

  ghost predicate Inv(cfg: Config, s: State)
    requires ValidConfig(cfg)
  {
    && ReaderInv(cfg.request, cfg.files, s.reader, s.fileQueue, s.sendContext.abort)
    && WorkerInv(PlainChunks(cfg), CipherChunks(cfg), s.encryptor, s.fileQueue, s.encryptedQueue, s.sendContext.abort)
    && SenderInv(CipherChunks(cfg), s.sender, s.encryptedQueue, s.wire, s.sendContext.abort)
    && ReceiverInv(CipherChunks(cfg), s.receiver, s.wire, s.receivedQueue, s.receiveContext.abort)
    && WorkerInv(CipherChunks(cfg), PlainChunks(cfg), s.decryptor, s.receivedQueue, s.decryptedQueue,
                 s.receiveContext.abort)
    && WriterInv(cfg.request, cfg.files, s.writer, s.decryptedQueue, s.receiveContext.abort)
  }

  lemma InitInv(cfg: Config)
    requires ValidConfig(cfg)
    ensures Inv(cfg, Init(cfg))
  {
    hide Capacity, PlainChunks, CipherChunks;
    var s := Init(cfg);
    PackedStart(cfg.request, |Flatten(cfg.files)|);
    assert Consumed(cfg.files, 0, 0) == [];
    assert Flatten([]) == [] && Stream([]) == [];
    assert CipherChunks(cfg)[..0] == [] && PlainChunks(cfg)[..0] == [];
  }

  lemma CipherChunkAt(cfg: Config, k: nat)
    requires ValidConfig(cfg) && k < cfg.request.numChunks
    ensures Framable(CipherChunks(cfg)[k])
    ensures CipherChunks(cfg)[k].Size() == |CipherChunks(cfg)[k].data|
            == Capacity(cfg.request, k) + ENCRYPTION_ADDITIONAL_BYTES
    ensures EncryptChunk(PlainChunks(cfg)[k], cfg.ciphertexts[k], cfg.request.chunkSize, cfg.request.numChunks)
            == Ok(CipherChunks(cfg)[k])
  {
    PlainChunkAt(cfg, k);
    CipherIs(cfg, k);
    hide PlainChunks, CipherChunks, Capacity, ValidConfig, EncryptChunk, Piece, Flatten;
    Seals(k + 1, Piece(cfg.request, Flatten(cfg.files), k), cfg.ciphertexts[k], cfg.request.chunkSize,
          cfg.request.numChunks);
  }

  lemma PlainChunkAt(cfg: Config, k: nat)
    requires ValidConfig(cfg) && k < cfg.request.numChunks
    ensures PlainChunks(cfg)[k] == Plain(k + 1, Piece(cfg.request, Flatten(cfg.files), k))
    ensures 1 <= Capacity(cfg.request, k) <= cfg.request.chunkSize <= MAX_UNCOMPRESSED_CHUNK_SIZE
  {
    hide Flatten, Piece;
    CapacityBounds(cfg.request, |Flatten(cfg.files)|, k);
  }

  lemma CapacityBounds(r: Request, total: nat, k: nat)
    requires Covers(r, total) && k < r.numChunks
    ensures 1 <= Capacity(r, k) <= r.chunkSize <= MAX_UNCOMPRESSED_CHUNK_SIZE
  {
  }

  lemma CipherIs(cfg: Config, k: nat)
    requires ValidConfig(cfg) && k < cfg.request.numChunks
    ensures Capacity(cfg.request, k) <= MAX_UNCOMPRESSED_CHUNK_SIZE && k < |cfg.ciphertexts|
    ensures CipherChunks(cfg)[k] == Transformed(k + 1, cfg.ciphertexts[k], Capacity(cfg.request, k))
    ensures |cfg.ciphertexts[k]| == Capacity(cfg.request, k) + ENCRYPTION_ADDITIONAL_BYTES
  {
    CapacityBounds(cfg.request, |Flatten(cfg.files)|, k);
    hide Planned, Capacity, Flatten;
    assert CiphertextFits(cfg, k);
  }

  lemma Seals(n: uint32, data: seq<byte>, ciphertext: seq<byte>, chunkSize: nat, numChunks: nat)
    requires 1 <= n <= numChunks && |data| <= chunkSize <= MAX_UNCOMPRESSED_CHUNK_SIZE
    ensures EncryptChunk(Plain(n, data), ciphertext, chunkSize, numChunks) == Ok(Transformed(n, ciphertext, |data|))
  {
  }

  /** The decryptor recovers the chunk that was encrypted, once it was encrypted. */
  lemma DecryptsAt(cfg: Config, k: nat, n: nat)
    requires ValidConfig(cfg) && k < n <= cfg.request.numChunks
    ensures DecryptChunk(CipherChunks(cfg)[k], SealedLog(cfg, n), k, cfg.request.numChunks) == Ok(PlainChunks(cfg)[k])
  {
    hide Start, Flatten;
    CipherChunkAt(cfg, k);
    StartStep(cfg.request, |Flatten(cfg.files)|, k);
    var c := PlainChunks(cfg)[k];
    assert c == Plain(k + 1, Piece(cfg.request, Flatten(cfg.files), k));
    DecryptInvertsEncrypt(k + 1, c.data, cfg.ciphertexts[k], cfg.request.chunkSize, cfg.request.numChunks,
                          SealedLog(cfg, n), k);
  }

  /** Without the sender's stream nothing authenticates. */
  lemma NothingVisible(c: Chunk, pos: nat, numChunks: nat)
    ensures DecryptChunk(c, [], pos, numChunks).Err?
  {
  }

  /** What has been received was encrypted before. */
  lemma ReceivedWasEncrypted(cfg: Config, s: State)
    requires ValidConfig(cfg) && Inv(cfg, s)
    ensures |s.receivedQueue.pushed| <= s.encryptor.count <= cfg.request.numChunks
    ensures s.wire.pushed <= Stream(CipherChunks(cfg))
  {
    hide Stream, PlainChunks, CipherChunks, ReaderInv, WriterInv;
    var frames := CipherChunks(cfg);
    SenderWrote(frames, s.sender, s.encryptedQueue, s.wire, s.sendContext.abort);
    NotAhead(frames, s.receiver.received, s.encryptedQueue.popped);
    StreamPrefix(frames, s.encryptedQueue.popped, |frames|);
    assert frames[..|frames|] == frames;
  }

  // ---- Every step keeps the invariant ----

  lemma StepReaderKeeps(cfg: Config, s: State)
    requires ValidConfig(cfg) && Inv(cfg, s) && StepReader(cfg, s).Some?
    ensures Inv(cfg, StepReader(cfg, s).value)
  {
    hide ReaderInv, WorkerInv, SenderInv, ReceiverInv, WriterInv, ReaderStep, PlainChunks, CipherChunks;
    var s' := StepReader(cfg, s).value;
    ReaderKeeps(cfg.request, cfg.files, s.reader, s.fileQueue, cfg.sendLimit, s.sendContext.abort);
    ReaderAppends(cfg, s);
    WorkerStable(PlainChunks(cfg), CipherChunks(cfg), s.encryptor, s.fileQueue, s.encryptedQueue, s.sendContext.abort,
                 s'.fileQueue, s.encryptedQueue, s.sendContext.abort);
  }

  lemma ReaderAppends(cfg: Config, s: State)
    requires ValidConfig(cfg) && ReaderInv(cfg.request, cfg.files, s.reader, s.fileQueue, s.sendContext.abort)
    requires StepReader(cfg, s).Some?
    requires ReaderInv(cfg.request, cfg.files, StepReader(cfg, s).value.reader, StepReader(cfg, s).value.fileQueue,
                       s.sendContext.abort)
    ensures ProducerMoves(s.fileQueue, StepReader(cfg, s).value.fileQueue)
    ensures StepReader(cfg, s).value.fileQueue.pushed <= PlainChunks(cfg)
  {
    hide ReaderHolds, PlanChunks;
  }

  lemma StepEncryptorKeeps(cfg: Config, s: State)
    requires ValidConfig(cfg) && Inv(cfg, s) && StepEncryptor(cfg, s).Some?
    ensures Inv(cfg, StepEncryptor(cfg, s).value)
  {
    hide ReaderInv, SenderInv, ReceiverInv, WriterInv, WorkerStep, PlainChunks, CipherChunks, EncryptChunk;
    var s' := StepEncryptor(cfg, s).value;
    if s.encryptor.life.Live? && s.encryptor.life.at.Apply? {
      CipherChunkAt(cfg, s.encryptor.count);
    }
    WorkerKeeps(PlainChunks(cfg), CipherChunks(cfg), s.encryptor, s.fileQueue, s.encryptedQueue,
                cfg.sendLimit, s.sendContext.abort, EncryptResult(cfg, s));
    WorkerAppends(s.encryptor, s.fileQueue, s.encryptedQueue, cfg.sendLimit, s.sendContext.abort,
                  EncryptResult(cfg, s));
    hide WorkerInv;
    ReaderUnaffected(cfg, s, s'.fileQueue);
    SenderStable(CipherChunks(cfg), s.sender, s.encryptedQueue, s.wire, s.sendContext.abort,
                 s'.encryptedQueue, s.wire, s.sendContext.abort);
  }

  lemma WorkerAppends(t: WorkerThread, input: Fifo<Chunk>, output: Fifo<Chunk>, limit: nat, abort: bool,
                      result: Result<Chunk>)
    requires WorkerStep(t, input, output, limit, abort, result).Some?
    requires output.done <==> t.life.Exited?
    ensures ProducerMoves(output, WorkerStep(t, input, output, limit, abort, result).value.2)
  {
  }

  /** Popping from the reader's queue does not concern the reader. */
  lemma ReaderUnaffected(cfg: Config, s: State, q: Fifo<Chunk>)
    requires ReaderInv(cfg.request, cfg.files, s.reader, s.fileQueue, s.sendContext.abort)
    requires q.pushed == s.fileQueue.pushed && q.done == s.fileQueue.done
    ensures ReaderInv(cfg.request, cfg.files, s.reader, q, s.sendContext.abort)
  {
    hide ReaderHolds, PlanChunks, Planned;
  }

  lemma StepSenderKeeps(cfg: Config, s: State, n: nat)
    requires ValidConfig(cfg) && Inv(cfg, s) && StepSender(cfg, s, n).Some?
    ensures Inv(cfg, StepSender(cfg, s, n).value)
  {
    hide ReaderInv, SenderInv, ReceiverInv, WriterInv, SenderStep, PlainChunks, CipherChunks;
    var s' := StepSender(cfg, s, n).value;
    SenderKeeps(CipherChunks(cfg), s.sender, s.encryptedQueue, s.wire, cfg.wireLimit, s.sendContext.abort, n);
    assert s'.encryptedQueue == s.encryptedQueue.(popped := s'.encryptedQueue.popped);
    WorkerStable(PlainChunks(cfg), CipherChunks(cfg), s.encryptor, s.fileQueue, s.encryptedQueue, s.sendContext.abort,
                 s.fileQueue, s'.encryptedQueue, s.sendContext.abort);
    ReceiverStable(CipherChunks(cfg), s.receiver, s.wire, s.receivedQueue, s.receiveContext.abort,
                   s'.wire, s.receivedQueue, s.receiveContext.abort);
  }

  lemma StepReceiverKeeps(cfg: Config, s: State, n: nat)
    requires ValidConfig(cfg) && Inv(cfg, s) && StepReceiver(cfg, s, n).Some?
    ensures Inv(cfg, StepReceiver(cfg, s, n).value)
  {
    hide ReaderInv, SenderInv, ReceiverInv, WriterInv, ReceiverStep, PlainChunks, CipherChunks;
    var s' := StepReceiver(cfg, s, n).value;
    var frames := CipherChunks(cfg);
    ReceivedWasEncrypted(cfg, s);
    forall i | 0 <= i < |frames| ensures Framable(frames[i]) {
      CipherChunkAt(cfg, i);
    }
    ReceiverKeeps(frames, s.receiver, s.wire, s.receivedQueue, cfg.receiveLimit, s.receiveContext.abort, n);
    ReceiverProduced(frames, s'.receiver, s'.wire, s'.receivedQueue, s.receiveContext.abort);
    WorkerStable(frames, PlainChunks(cfg), s.decryptor, s.receivedQueue, s.decryptedQueue, s.receiveContext.abort,
                 s'.receivedQueue, s.decryptedQueue, s.receiveContext.abort);
    SenderStable(frames, s.sender, s.encryptedQueue, s.wire, s.sendContext.abort,
                 s.encryptedQueue, s'.wire, s.sendContext.abort);
  }

  lemma ReceiverProduced(frames: seq<Chunk>, t: ReceiverThread, wire: Fifo<byte>, output: Fifo<Chunk>, abort: bool)
    requires ReceiverInv(frames, t, wire, output, abort)
    ensures output.pushed <= frames
  {
    hide Stream, FrameLength;
  }

  lemma StepDecryptorKeeps(cfg: Config, s: State)
    requires ValidConfig(cfg) && Inv(cfg, s) && StepDecryptor(cfg, s).Some?
    ensures Inv(cfg, StepDecryptor(cfg, s).value)
  {
    hide ReaderInv, SenderInv, ReceiverInv, WriterInv, WorkerStep, PlainChunks, CipherChunks, DecryptChunk, SealedLog;
    var s' := StepDecryptor(cfg, s).value;
    ReceivedWasEncrypted(cfg, s);
    if s.decryptor.life.Live? && s.decryptor.life.at.Apply? {
      DecryptsAt(cfg, s.decryptor.count, s.encryptor.count);
      NothingVisible(s.decryptor.life.at.x, s.decryptor.count, cfg.request.numChunks);
    }
    WorkerKeeps(CipherChunks(cfg), PlainChunks(cfg), s.decryptor, s.receivedQueue, s.decryptedQueue,
                cfg.receiveLimit, s.receiveContext.abort, DecryptResult(cfg, s));
    WorkerAppends(s.decryptor, s.receivedQueue, s.decryptedQueue, cfg.receiveLimit, s.receiveContext.abort,
                  DecryptResult(cfg, s));
    assert s'.receivedQueue == s.receivedQueue.(popped := s'.receivedQueue.popped);
    hide WorkerInv;
    ReceiverStable(CipherChunks(cfg), s.receiver, s.wire, s.receivedQueue, s.receiveContext.abort,
                   s.wire, s'.receivedQueue, s.receiveContext.abort);
    PlainCarries(cfg, s'.decryptedQueue.pushed);
    WriterStable(cfg.request, cfg.files, s.writer, s.decryptedQueue, s.receiveContext.abort,
                 s'.decryptedQueue, s.receiveContext.abort);
  }

  lemma PlainIsPlan(cfg: Config)
    requires ValidConfig(cfg)
    ensures PlainChunks(cfg) == PlanChunks(cfg.request, Flatten(cfg.files))
  {
  }

  lemma PlainCarries(cfg: Config, cs: seq<Chunk>)
    requires ValidConfig(cfg) && cs <= PlainChunks(cfg)
    ensures Carries(cs, cfg.request, Flatten(cfg.files))
  {
    PlanCarries(cs, cfg.request, Flatten(cfg.files));
  }

  lemma StepWriterKeeps(cfg: Config, s: State)
    requires ValidConfig(cfg) && Inv(cfg, s) && StepWriter(cfg, s).Some?
    ensures Inv(cfg, StepWriter(cfg, s).value)
  {
    hide ReaderInv, SenderInv, ReceiverInv, WriterInv, WriterStep, PlainChunks, CipherChunks;
    var s' := StepWriter(cfg, s).value;
    DecryptedAll(cfg, s);
    PlainIsPlan(cfg);
    WriterKeeps(cfg.request, cfg.files, s.writer, s.decryptedQueue, s.receiveContext.abort);
    assert s'.decryptedQueue == s.decryptedQueue.(popped := s'.decryptedQueue.popped);
    WorkerStable(CipherChunks(cfg), PlainChunks(cfg), s.decryptor, s.receivedQueue, s.decryptedQueue,
                 s.receiveContext.abort,
                 s.receivedQueue, s'.decryptedQueue, s.receiveContext.abort);
  }

  /** A done flag seen in a run without failures means that everything was passed on. */
  lemma EncryptedAll(cfg: Config, s: State)
    requires ValidConfig(cfg) && Inv(cfg, s) && !s.sendContext.abort
    ensures s.fileQueue.done ==> s.fileQueue.pushed == PlainChunks(cfg)
    ensures s.encryptedQueue.done ==> s.encryptedQueue.pushed == CipherChunks(cfg)
  {
    hide CipherChunks, SenderInv, ReceiverInv, WriterInv, ReaderHolds;
  }

  lemma DecryptedAll(cfg: Config, s: State)
    requires ValidConfig(cfg) && Inv(cfg, s)
    ensures s.receivedQueue.done ==> s.receivedQueue.pushed == CipherChunks(cfg)
    ensures s.decryptedQueue.done && !s.receiveContext.abort ==> s.decryptedQueue.pushed == PlainChunks(cfg)
  {
    hide CipherChunks, PlainChunks, SenderInv, ReaderInv, WriterInv, Stream, FrameLength;
    var frames := CipherChunks(cfg);
    assert frames[..|frames|] == frames;
  }

  lemma ThrowKeeps(cfg: Config, s: State, t: ThreadId)
    requires ValidConfig(cfg) && Inv(cfg, s) && ThrowThread(s, t).Some?
    ensures Inv(cfg, ThrowThread(s, t).value)
  {
    hide PlainChunks, CipherChunks, Planned, PlanChunks, Stream, FilesSafe;
    if t == Sender {
      SenderWrote(CipherChunks(cfg), s.sender, s.encryptedQueue, s.wire, s.sendContext.abort);
    }
  }

  lemma HandleKeeps(cfg: Config, s: State, t: ThreadId)
    requires ValidConfig(cfg) && Inv(cfg, s) && HandleThread(s, t).Some?
    ensures Inv(cfg, HandleThread(s, t).value)
  {
    hide PlainChunks, CipherChunks, Planned, PlanChunks, Stream, FilesSafe;
  }

  lemma NextKeeps(cfg: Config, s: State, a: Action)
    requires ValidConfig(cfg) && Inv(cfg, s) && Next(cfg, s, a).Some?
    ensures Inv(cfg, Next(cfg, s, a).value)
  {
    hide Inv, StepReader, StepEncryptor, StepSender, StepReceiver, StepDecryptor, StepWriter, ThrowThread, HandleThread;
    match a
    case Step(t, n) =>
      match t {
        case Reader => StepReaderKeeps(cfg, s);
        case Encryptor => StepEncryptorKeeps(cfg, s);
        case Sender => StepSenderKeeps(cfg, s, n);
        case Receiver => StepReceiverKeeps(cfg, s, n);
        case Decryptor => StepDecryptorKeeps(cfg, s);
        case Writer => StepWriterKeeps(cfg, s);
      }
    case Throw(t) => ThrowKeeps(cfg, s, t);
    case Handle(t) => HandleKeeps(cfg, s, t);
  }
}
