/** The conversation before the files: handshake and transfer request
    (src/Sender.cpp, src/Receiver.cpp, src/TransferRequest.cpp), over two byte streams. */
module Session {
  import opened Bytes
  import opened TransferRequests
  import opened EncryptionManager
  import opened Threads

  const SALT_SIZE := 16
  const NONCE_SIZE := 24
  const HEADER_SIZE := 24
  /** The 12 bytes of the handshake tag and a 16-byte authenticator. */
  const HANDSHAKE_CIPHERTEXT_SIZE := 28

  /** One connection attempt. `derive` is the key derivation; `box` is what sealing the handshake tag with the
      sender's key and the nonce produced; `header` belongs to the sender's encryption stream. */
  datatype Config = Config(
    derive: (seq<byte>, seq<byte>) -> seq<byte>, senderPassword: seq<byte>, receiverPassword: seq<byte>,
    salt: seq<byte>, nonce: seq<byte>, box: seq<byte>, header: seq<byte>, request: Result<Request>)

  /** The request that is sent, if it could be made. */
  function Sent(cfg: Config): Request {
    match cfg.request
    case Ok(r) => r
    case Err(_) => Request(0, 0, 0, 0, 0, [])
  }

  /** The request can be made, from a selection that is not empty or gone, and printed. */
  predicate Printable(cfg: Config) { cfg.request.Ok? && PathsFit(cfg.request.value.files) }

  /** The request announces as many files as it lists. */
  predicate Counted(cfg: Config) { Sent(cfg).numFiles == |Sent(cfg).files| }

  predicate WellFormed(cfg: Config) {
    && |cfg.salt| == SALT_SIZE && |cfg.nonce| == NONCE_SIZE
    && |cfg.box| == HANDSHAKE_CIPHERTEXT_SIZE && |cfg.header| == HEADER_SIZE
    && |RequestBytes(Sent(cfg))| < 0x1_0000_0000_0000_0000
  }

  predicate ValidConfig(cfg: Config) { WellFormed(cfg) && Counted(cfg) }

  function SenderKey(cfg: Config): seq<byte> { cfg.derive(cfg.senderPassword, cfg.salt) }

  function SenderStream(cfg: Config): SecretStream { SecretStream(SenderKey(cfg), cfg.header) }

  /** Idealised authenticated encryption: a box opens only with the key and nonce that sealed it. */
  predicate Opens(cfg: Config, key: seq<byte>, nonce: seq<byte>, box: seq<byte>) {
    key == SenderKey(cfg) && nonce == cfg.nonce && box == cfg.box
  }

  datatype SenderPhase =
    | WriteHandshake(rest: seq<byte>) | AwaitVerdict | WriteRequest(rest: seq<byte>) | AwaitAnswer
    | SendFiles
    | SenderGivesUp // left with a message
    | SenderFails   // left by an exception
  {
    predicate Left() { SenderGivesUp? || SenderFails? }
  }

  datatype ReceiverPhase =
    | ReadSalt
    | ReadNonce(key: seq<byte>)
    | ReadBox(key: seq<byte>, nonce: seq<byte>)
    | ReadHeader(key: seq<byte>, nonce: seq<byte>, box: seq<byte>)
    | Verify(key: seq<byte>, nonce: seq<byte>, box: seq<byte>, header: seq<byte>)
    | ReadSize(decryptor: SecretStream)
    | ReadRequest(decryptor: SecretStream, size: nat)
    | Decide(decryptor: SecretStream, request: Request)
    | ReceiveFiles(decryptor: SecretStream, request: Request)
    | ReceiverGivesUp
    | ReceiverFails
  {
    predicate Left() { ReceiverGivesUp? || ReceiverFails? }

    /** How many bytes the receiver is reading. */
    function Wanted(): Option<nat> {
      match this
      case ReadSalt => Some(SALT_SIZE)
      case ReadNonce(_) => Some(NONCE_SIZE)
      case ReadBox(_, _) => Some(HANDSHAKE_CIPHERTEXT_SIZE)
      case ReadHeader(_, _, _) => Some(HEADER_SIZE)
      case ReadSize(_) => Some(8)
      case ReadRequest(_, n) => Some(n)
      case _ => None
    }
  }

  /** `up` carries the sender's bytes, `down` the receiver's answers; `done` says that the writing end is closed. */
  datatype State = State(sender: SenderPhase, receiver: ReceiverPhase, up: Fifo<byte>, down: Fifo<byte>)

  function Handshake(cfg: Config): seq<byte> { cfg.salt + cfg.nonce + cfg.box + cfg.header }

  function RequestMessage(cfg: Config): seq<byte> {
    LE(|RequestBytes(Sent(cfg))|, 8) + RequestBytes(Sent(cfg))
  }

  function Init(cfg: Config): State {
    State(WriteHandshake(Handshake(cfg)), ReadSalt, Fifo([], 0, false), Fifo([], 0, false))
  }

  /** The sender writes `n` more bytes, or reads an answer and acts on it. */
  function SenderStep(cfg: Config, s: State, n: nat): Option<State> {
    match s.sender
    case WriteHandshake(rest) =>
      if |rest| == 0 then Some(s.(sender := AwaitVerdict))
      else if 1 <= n <= |rest| then Some(s.(sender := WriteHandshake(rest[n..]), up := s.up.PushAll(rest[..n])))
      else None
    case AwaitVerdict =>
      if s.down.Empty() then None
      else if s.down.Front() == 0 then Some(s.(sender := SenderGivesUp, down := s.down.Pop()))
      else if !Printable(cfg) then Some(s.(sender := SenderFails, down := s.down.Pop()))
      else Some(s.(sender := WriteRequest(RequestMessage(cfg)), down := s.down.Pop()))
    case WriteRequest(rest) =>
      if |rest| == 0 then Some(s.(sender := AwaitAnswer))
      else if 1 <= n <= |rest| then Some(s.(sender := WriteRequest(rest[n..]), up := s.up.PushAll(rest[..n])))
      else None
    case AwaitAnswer =>
      if s.down.Empty() then None
      else Some(s.(sender := if s.down.Front() == 0 then SenderGivesUp else SendFiles, down := s.down.Pop()))
    case _ => None
  }

  /** A blocking read of `n` bytes. */
  predicate Available(f: Fifo<byte>, n: nat) { f.popped + n <= |f.pushed| }

  function Peek(f: Fifo<byte>, n: nat): seq<byte>
    requires Available(f, n)
  {
    f.pushed[f.popped..f.popped + n]
  }

  /** The receiver reads its next field, or answers; `yes` is the user's choice when asked. */
  function ReceiverStep(cfg: Config, s: State, yes: bool): Option<State> {
    match s.receiver
    case ReadSalt =>
      if !Available(s.up, SALT_SIZE) then None
      else Some(s.(receiver := ReadNonce(cfg.derive(cfg.receiverPassword, Peek(s.up, SALT_SIZE))),
                   up := s.up.PopMany(SALT_SIZE)))
    case ReadNonce(key) =>
      if !Available(s.up, NONCE_SIZE) then None
      else Some(s.(receiver := ReadBox(key, Peek(s.up, NONCE_SIZE)), up := s.up.PopMany(NONCE_SIZE)))
    case ReadBox(key, nonce) =>
      if !Available(s.up, HANDSHAKE_CIPHERTEXT_SIZE) then None
      else Some(s.(receiver := ReadHeader(key, nonce, Peek(s.up, HANDSHAKE_CIPHERTEXT_SIZE)),
                   up := s.up.PopMany(HANDSHAKE_CIPHERTEXT_SIZE)))
    case ReadHeader(key, nonce, box) =>
      if !Available(s.up, HEADER_SIZE) then None
      else Some(s.(receiver := Verify(key, nonce, box, Peek(s.up, HEADER_SIZE)), up := s.up.PopMany(HEADER_SIZE)))
    case Verify(key, nonce, box, header) =>
      if Opens(cfg, key, nonce, box)
      then Some(s.(receiver := ReadSize(SecretStream(key, header)), down := s.down.Push(1)))
      else Some(s.(receiver := ReceiverGivesUp, down := s.down.Push(0)))
    case ReadSize(d) =>
      if !Available(s.up, 8) then None
      else Some(s.(receiver := ReadRequest(d, UnLE(Peek(s.up, 8))), up := s.up.PopMany(8)))
    case ReadRequest(d, n) =>
      if !Available(s.up, n) then None
      else
        (match Parse(Peek(s.up, n))
         case Err(_) => Some(s.(receiver := ReceiverFails, up := s.up.PopMany(n)))
         case Ok(r) => Some(s.(receiver := Decide(d, r), up := s.up.PopMany(n))))
    case Decide(d, r) =>
      if yes then Some(s.(receiver := ReceiveFiles(d, r), down := s.down.Push(1)))
      else Some(s.(receiver := ReceiverGivesUp, down := s.down.Push(0)))
    case _ => None
  }

  /** A side that has left the session closes its socket. */
  function Close(s: State, sender: bool): Option<State> {
    if sender then if s.sender.Left() && !s.up.done then Some(s.(up := s.up.StoreDone())) else None
    else if s.receiver.Left() && !s.down.done then Some(s.(down := s.down.StoreDone())) else None
  }

  /** A read that cannot get its bytes any more throws. */
  function MeetEnd(s: State, sender: bool): Option<State> {
    if sender then
      if (s.sender.AwaitVerdict? || s.sender.AwaitAnswer?) && s.down.Empty() && s.down.done
      then Some(s.(sender := SenderFails)) else None
    else if s.receiver.Wanted().Some? && !Available(s.up, s.receiver.Wanted().value) && s.up.done
    then Some(s.(receiver := ReceiverFails)) else None
  }

  datatype Event = SenderGoes(n: nat) | ReceiverGoes(yes: bool) | Closes(sender: bool) | MeetsEnd(sender: bool)

  function Next(cfg: Config, s: State, e: Event): Option<State> {
    match e
    case SenderGoes(n) => SenderStep(cfg, s, n)
    case ReceiverGoes(yes) => ReceiverStep(cfg, s, yes)
    case Closes(sender) => Close(s, sender)
    case MeetsEnd(sender) => MeetEnd(s, sender)
  }

  function Run(cfg: Config, s: State, events: seq<Event>): Option<State>
    decreases |events|
  {
    if |events| == 0 then Some(s) else
      match Next(cfg, s, events[0])
      case None => None
      case Some(s') => Run(cfg, s', events[1..])
  }

  // ---- The joint invariant ----

  predicate SameKey(cfg: Config) { cfg.derive(cfg.receiverPassword, cfg.salt) == SenderKey(cfg) }

  /** What the sender has written and which answers it has seen. */
  ghost predicate SenderSide(cfg: Config, s: State) {
    var h, all := Handshake(cfg), Handshake(cfg) + RequestMessage(cfg);
    match s.sender
    case WriteHandshake(rest) => s.up.pushed + rest == h && s.down.popped == 0
    case AwaitVerdict => s.up.pushed == h && s.down.popped == 0
    case WriteRequest(rest) =>
      s.up.pushed + rest == all && s.down.popped == 1 && 1 <= |s.down.pushed| && s.down.pushed[0] == 1 && Printable(cfg)
    case AwaitAnswer =>
      s.up.pushed == all && s.down.popped == 1 && 1 <= |s.down.pushed| && s.down.pushed[0] == 1 && Printable(cfg)
    case SendFiles => s.up.pushed == all && s.down.popped == 2 && s.down.pushed == [1, 1] && Printable(cfg)
    case SenderGivesUp =>
      || (s.up.pushed == h && s.down.popped == 1 && s.down.pushed == [0])
      || (s.up.pushed == all && s.down.popped == 2 && s.down.pushed == [1, 0] && Printable(cfg))
    case SenderFails => s.up.pushed == h && s.down.popped == 1 && s.down.pushed == [1] && !Printable(cfg)
  }

  /** Each of the receiver's reads starts where the matching write of the sender starts. */
  ghost predicate ReceiverSide(cfg: Config, s: State) {
    var key := cfg.derive(cfg.receiverPassword, cfg.salt);
    var d := SenderStream(cfg);
    match s.receiver
    case ReadSalt => s.up.popped == 0 && s.down.pushed == []
    case ReadNonce(k) => s.up.popped == 16 && s.down.pushed == [] && k == key
    case ReadBox(k, n) => s.up.popped == 40 && s.down.pushed == [] && k == key && n == cfg.nonce
    case ReadHeader(k, n, b) => s.up.popped == 68 && s.down.pushed == [] && k == key && n == cfg.nonce && b == cfg.box
    case Verify(k, n, b, h) =>
      s.up.popped == 92 && s.down.pushed == [] && k == key && n == cfg.nonce && b == cfg.box && h == cfg.header
    case ReadSize(d') => s.up.popped == 92 && s.down.pushed == [1] && d' == d && SameKey(cfg)
    case ReadRequest(d', n) =>
      s.up.popped == 100 && s.down.pushed == [1] && d' == d && SameKey(cfg) && n == |RequestBytes(Sent(cfg))|
    case Decide(d', r) =>
      s.up.popped == 100 + |RequestBytes(Sent(cfg))| && s.down.pushed == [1] && d' == d && SameKey(cfg)
        && r == Sent(cfg)
    case ReceiveFiles(d', r) =>
      s.up.popped == 100 + |RequestBytes(Sent(cfg))| && s.down.pushed == [1, 1] && d' == d && SameKey(cfg)
        && r == Sent(cfg)
    case ReceiverGivesUp =>
      if s.down.pushed == [0] then s.up.popped == 92 && !SameKey(cfg)
      else s.up.popped == 100 + |RequestBytes(Sent(cfg))| && s.down.pushed == [1, 0] && SameKey(cfg)
    case ReceiverFails => s.up.popped == 92 && s.up.done && s.down.pushed == [1] && SameKey(cfg)
  }

  ghost predicate Inv(cfg: Config, s: State) {
    && SenderSide(cfg, s) && ReceiverSide(cfg, s) && s.up.Valid() && s.down.Valid()
    && (s.up.done ==> s.sender.Left()) && (s.down.done ==> s.receiver.Left())
  }

  lemma HandshakeFields(cfg: Config)
    requires ValidConfig(cfg)
    ensures var h := Handshake(cfg);
            && |h| == 92 && h[0..16] == cfg.salt && h[16..40] == cfg.nonce && h[40..68] == cfg.box
              && h[68..92] == cfg.header
  {
  }

  lemma RequestFields(cfg: Config)
    requires ValidConfig(cfg)
    ensures var all := Handshake(cfg) + RequestMessage(cfg);
            var n := |RequestBytes(Sent(cfg))|;
            && |Handshake(cfg)| == 92 && |all| == 100 + n
            && all[0..16] == cfg.salt && all[16..40] == cfg.nonce && all[40..68] == cfg.box && all[68..92] == cfg.header
            && UnLE(all[92..100]) == n && all[100..100 + n] == RequestBytes(Sent(cfg))
  {
    HandshakeFields(cfg);
    Widths();
    var n := |RequestBytes(Sent(cfg))|;
    UnLEofLE(n, 8);
    hide LE, UnLE, RequestBytes, Handshake;
    Split(Handshake(cfg), LE(n, 8), RequestBytes(Sent(cfg)));
  }

  lemma Split(a: seq<byte>, b: seq<byte>, c: seq<byte>)
    ensures var all := a + (b + c);
            && all[|a|..|a| + |b|] == b
            && all[|a| + |b|..|a| + |b| + |c|] == c
  {
  }

  /** The receiver's side does not depend on what the sender has written or read. */
  lemma ReceiverUnmoved(cfg: Config, s: State, s': State)
    requires ReceiverSide(cfg, s) && s'.receiver == s.receiver
    requires s'.up.popped == s.up.popped && s'.down.pushed == s.down.pushed && (s.up.done ==> s'.up.done)
    ensures ReceiverSide(cfg, s')
  {
    hide RequestBytes, SenderKey, SameKey;
  }

  /** The sender writes. */
  lemma SenderWrites(cfg: Config, s: State, n: nat)
    requires SenderSide(cfg, s) && SenderStep(cfg, s, n).Some?
    requires s.sender.WriteHandshake? || s.sender.WriteRequest?
    ensures SenderSide(cfg, SenderStep(cfg, s, n).value)
  {
    hide Handshake, RequestMessage, Printable;
    Moved(s.up.pushed, s.sender.rest, n);
  }

  /** The sender reads an answer. */
  lemma SenderHears(cfg: Config, s: State, n: nat)
    requires ValidConfig(cfg) && Inv(cfg, s) && SenderStep(cfg, s, n).Some?
    requires s.sender.AwaitVerdict? || s.sender.AwaitAnswer?
    ensures SenderSide(cfg, SenderStep(cfg, s, n).value)
  {
    RequestFields(cfg);
    assert s.up.popped <= |s.up.pushed|;
    assert s.down.popped < |s.down.pushed|;
    hide Handshake, RequestMessage, RequestBytes, Printable, UnLE, SenderKey;
    assert s.sender.AwaitVerdict? ==> s.down.pushed == [0] || s.down.pushed == [1];
  }

  lemma SenderKeeps(cfg: Config, s: State, n: nat)
    requires ValidConfig(cfg) && Inv(cfg, s) && SenderStep(cfg, s, n).Some?
    ensures Inv(cfg, SenderStep(cfg, s, n).value)
  {
    if s.sender.WriteHandshake? || s.sender.WriteRequest? {
      SenderWrites(cfg, s, n);
    } else {
      SenderHears(cfg, s, n);
    }
    hide ReceiverSide, SenderSide, RequestMessage, Printable;
    ReceiverUnmoved(cfg, s, SenderStep(cfg, s, n).value);
  }

  lemma Moved(a: seq<byte>, rest: seq<byte>, n: nat)
    ensures n <= |rest| ==> (a + rest[..n]) + rest[n..] == a + rest
    ensures rest == [] ==> a + rest == a
  {
    if n <= |rest| { assert rest == rest[..n] + rest[n..]; }
  }

  /** What lies before the reader's position was written before, and is what the sender's script says. */
  lemma OnScript(cfg: Config, s: State)
    requires ValidConfig(cfg) && Inv(cfg, s)
    ensures s.up.pushed <= Handshake(cfg) + RequestMessage(cfg)
    ensures |s.up.pushed| > 92 ==> s.down.pushed != [] && s.down.pushed[0] == 1
  {
    HandshakeFields(cfg);
    hide Handshake, RequestMessage, RequestBytes;
  }

  /** A read returns the script's own bytes. */
  lemma PeekScript(f: Fifo<byte>, all: seq<byte>, n: nat)
    requires f.pushed <= all && Available(f, n)
    ensures Peek(f, n) == all[f.popped..f.popped + n]
  {
  }

  /** What the length field and the request read from the wire mean. */
  lemma SizeIsRead(cfg: Config, s: State)
    requires ValidConfig(cfg) && Inv(cfg, s) && s.receiver.ReadSize? && Available(s.up, 8)
    ensures UnLE(Peek(s.up, 8)) == |RequestBytes(Sent(cfg))|
  {
    RequestFields(cfg);
    OnScript(cfg, s);
    var all := Handshake(cfg) + RequestMessage(cfg);
    hide Handshake, RequestMessage, RequestBytes, UnLE, SenderSide;
    PeekScript(s.up, all, 8);
    assert s.up.popped == 92;
    hide ReceiverSide, Peek;
    assert Peek(s.up, 8) == all[92..100];
  }

  lemma RequestIsRead(cfg: Config, s: State)
    requires ValidConfig(cfg) && Inv(cfg, s) && s.receiver.ReadRequest? && Available(s.up, s.receiver.size)
    ensures Peek(s.up, s.receiver.size) == RequestBytes(Sent(cfg))
    ensures Parse(Peek(s.up, s.receiver.size)) == Ok(Sent(cfg))
  {
    RequestFields(cfg);
    OnScript(cfg, s);
    var all := Handshake(cfg) + RequestMessage(cfg);
    hide Handshake, RequestMessage, RequestBytes, Parse;
    PeekScript(s.up, all, s.receiver.size);
    assert Peek(s.up, s.receiver.size) == RequestBytes(Sent(cfg)) by { hide SenderSide; }
    RequestFits(cfg, s);
    hide SenderSide, ReceiverSide;
    ParseInvertsPrint(Sent(cfg), []);
    assert RequestBytes(Sent(cfg)) + [] == RequestBytes(Sent(cfg));
  }

  lemma RequestFits(cfg: Config, s: State)
    requires ValidConfig(cfg) && Inv(cfg, s) && s.receiver.ReadRequest? && Available(s.up, s.receiver.size)
    ensures Printable(cfg)
  {
    RequestFields(cfg);
    hide Handshake, RequestMessage, RequestBytes, Parse, Printable;
  }

  /** The receiver's side of the invariant survives its reads of the handshake ... */
  lemma HandshakeReads(cfg: Config, s: State, yes: bool)
    requires ValidConfig(cfg) && Inv(cfg, s) && ReceiverStep(cfg, s, yes).Some?
    requires s.receiver.ReadSalt? || s.receiver.ReadNonce? || s.receiver.ReadBox? || s.receiver.ReadHeader?
    ensures ReceiverSide(cfg, ReceiverStep(cfg, s, yes).value)
  {
    RequestFields(cfg);
    OnScript(cfg, s);
    var all := Handshake(cfg) + RequestMessage(cfg);
    hide Handshake, RequestMessage, RequestBytes, UnLE, Parse, SenderSide;
    match s.receiver
    case ReadSalt => PeekScript(s.up, all, 16);
    case ReadNonce(_) => PeekScript(s.up, all, 24);
    case ReadBox(_, _) => PeekScript(s.up, all, 28);
    case ReadHeader(_, _, _) => PeekScript(s.up, all, 24);
  }

  /** ... its answers, ... */
  lemma Answers(cfg: Config, s: State, yes: bool)
    requires ValidConfig(cfg) && Inv(cfg, s) && ReceiverStep(cfg, s, yes).Some?
    requires s.receiver.Verify? || s.receiver.Decide?
    ensures ReceiverSide(cfg, ReceiverStep(cfg, s, yes).value)
  {
    hide RequestBytes, UnLE, Parse, SenderSide, Peek, SenderKey, Printable;
  }

  /** ... the length of the request, ... */
  lemma SizeReads(cfg: Config, s: State, yes: bool)
    requires ValidConfig(cfg) && Inv(cfg, s) && ReceiverStep(cfg, s, yes).Some? && s.receiver.ReadSize?
    ensures ReceiverSide(cfg, ReceiverStep(cfg, s, yes).value)
  {
    SizeIsRead(cfg, s);
    hide RequestBytes, UnLE, Parse, Peek, SenderSide, SenderKey, SameKey, Printable;
  }

  /** ... and the request itself. */
  lemma RequestReads(cfg: Config, s: State, yes: bool)
    requires ValidConfig(cfg) && Inv(cfg, s) && ReceiverStep(cfg, s, yes).Some? && s.receiver.ReadRequest?
    ensures ReceiverSide(cfg, ReceiverStep(cfg, s, yes).value)
  {
    ReadIsAvailable(cfg, s, yes);
    hide ReceiverStep, ReceiverSide, SenderSide, ValidConfig, Parse, Peek, RequestBytes;
    RequestIsRead(cfg, s);
    ParsedStep(cfg, s, yes, Sent(cfg));
    AfterRequest(cfg, s);
  }

  lemma ReadIsAvailable(cfg: Config, s: State, yes: bool)
    requires ReceiverStep(cfg, s, yes).Some? && s.receiver.ReadRequest?
    ensures Available(s.up, s.receiver.size)
  {
    hide Parse, Peek;
  }

  lemma ParsedStep(cfg: Config, s: State, yes: bool, r: Request)
    requires s.receiver.ReadRequest? && Available(s.up, s.receiver.size) && Parse(Peek(s.up, s.receiver.size)) == Ok(r)
    ensures ReceiverStep(cfg, s, yes)
            == Some(s.(receiver := Decide(s.receiver.decryptor, r), up := s.up.PopMany(s.receiver.size)))
  {
    hide Parse, Peek;
  }

  lemma AfterRequest(cfg: Config, s: State)
    requires ReceiverSide(cfg, s) && s.receiver.ReadRequest?
    ensures ReceiverSide(cfg,
                         s.(receiver := Decide(s.receiver.decryptor, Sent(cfg)), up := s.up.PopMany(s.receiver.size)))
  {
    hide RequestBytes, SenderKey, SameKey;
  }

  /** What a step of the receiver can change for the sender: there may be one more answer. */
  lemma ReceiverEffect(cfg: Config, s: State, yes: bool)
    requires ReceiverStep(cfg, s, yes).Some?
    ensures var s' := ReceiverStep(cfg, s, yes).value;
            && s'.sender == s.sender && s'.up.pushed == s.up.pushed && s'.up.done == s.up.done
            && s'.down.popped == s.down.popped && s.down.pushed <= s'.down.pushed
            && (s.receiver.Verify? || s.receiver.Decide? || s'.down.pushed == s.down.pushed)
  {
    hide UnLE, Parse, Peek, Available, Opens;
  }

  /** The receiver answers only while the sender waits for this answer, or is about to. */
  lemma AnswerIsAwaited(cfg: Config, s: State)
    requires ValidConfig(cfg) && Inv(cfg, s) && (s.receiver.Verify? || s.receiver.Decide?)
    ensures if s.receiver.Verify? then s.sender.WriteHandshake? || s.sender.AwaitVerdict?
            else s.sender.WriteRequest? || s.sender.AwaitAnswer?
  {
    RequestFields(cfg);
    hide Handshake, RequestMessage, RequestBytes, UnLE, SenderKey, SameKey, Printable;
  }

  lemma MoreAnswers(cfg: Config, s: State, s': State)
    requires SenderSide(cfg, s) && s'.sender == s.sender && s'.up.pushed == s.up.pushed
    requires s'.down.popped == s.down.popped && s.down.pushed <= s'.down.pushed
    requires s'.down.pushed == s.down.pushed || s.sender.WriteHandshake? || s.sender.AwaitVerdict?
          || s.sender.WriteRequest? || s.sender.AwaitAnswer?
    ensures SenderSide(cfg, s')
  {
    hide Handshake, RequestMessage, Printable;
  }

  /** The sender's knowledge survives the receiver's reads and answers. */
  lemma SenderUnmoved(cfg: Config, s: State, yes: bool)
    requires ValidConfig(cfg) && Inv(cfg, s) && ReceiverStep(cfg, s, yes).Some?
    ensures SenderSide(cfg, ReceiverStep(cfg, s, yes).value)
  {
    ReceiverEffect(cfg, s, yes);
    if s.receiver.Verify? || s.receiver.Decide? { AnswerIsAwaited(cfg, s); }
    hide SenderSide, ReceiverSide, ReceiverStep, ValidConfig;
    MoreAnswers(cfg, s, ReceiverStep(cfg, s, yes).value);
  }

  lemma ReceiverKeeps(cfg: Config, s: State, yes: bool)
    requires ValidConfig(cfg) && Inv(cfg, s) && ReceiverStep(cfg, s, yes).Some?
    ensures Inv(cfg, ReceiverStep(cfg, s, yes).value)
  {
    if s.receiver.ReadSalt? || s.receiver.ReadNonce? || s.receiver.ReadBox? || s.receiver.ReadHeader? {
      HandshakeReads(cfg, s, yes);
    } else if s.receiver.Verify? || s.receiver.Decide? {
      Answers(cfg, s, yes);
    } else if s.receiver.ReadSize? {
      SizeReads(cfg, s, yes);
    } else {
      RequestReads(cfg, s, yes);
    }
    SenderUnmoved(cfg, s, yes);
    hide ReceiverSide, SenderSide, UnLE, Parse, Peek;
  }

  lemma CloseKeeps(cfg: Config, s: State, sender: bool)
    requires ValidConfig(cfg) && Inv(cfg, s) && Close(s, sender).Some?
    ensures Inv(cfg, Close(s, sender).value)
  {
    hide Handshake, RequestMessage, RequestBytes, SenderKey, SameKey, Printable;
  }

  /** Only a receiver that waits for a request that cannot be printed ever reads past the end. */
  lemma MeetEndKeeps(cfg: Config, s: State, sender: bool)
    requires ValidConfig(cfg) && Inv(cfg, s) && MeetEnd(s, sender).Some?
    ensures Inv(cfg, MeetEnd(s, sender).value)
  {
    RequestFields(cfg);
    hide Handshake, RequestMessage, RequestBytes, SenderKey, SameKey, Printable, UnLE;
  }

  lemma {:induction false} RunKeeps(cfg: Config, s: State, events: seq<Event>)
    requires ValidConfig(cfg) && Inv(cfg, s) && Run(cfg, s, events).Some?
    ensures Inv(cfg, Run(cfg, s, events).value)
    decreases |events|
  {
    if |events| > 0 {
      match events[0] {
        case SenderGoes(n) => SenderKeeps(cfg, s, n);
        case ReceiverGoes(yes) => ReceiverKeeps(cfg, s, yes);
        case Closes(sender) => CloseKeeps(cfg, s, sender);
        case MeetsEnd(sender) => MeetEndKeeps(cfg, s, sender);
      }
      hide Inv, SenderStep, ReceiverStep, Close, MeetEnd;
      RunKeeps(cfg, Next(cfg, s, events[0]).value, events[1..]);
    }
  }

  /** Where a run of the two programs can be. */
  ghost predicate Reachable(cfg: Config, s: State) {
    exists events :: Run(cfg, Init(cfg), events) == Some(s)
  }

  lemma ReachableInv(cfg: Config, s: State)
    requires ValidConfig(cfg) && Reachable(cfg, s)
    ensures Inv(cfg, s)
  {
    var events :| Run(cfg, Init(cfg), events) == Some(s);
    assert Inv(cfg, Init(cfg));
    RunKeeps(cfg, Init(cfg), events);
  }

  // ---- What both sides may rely on ----

  /** A sender that starts on the files faces a receiver that accepted this very request and decrypts with the
      sender's key and header; nothing is left on either wire. */
  lemma FilesStartTogether(cfg: Config, s: State)
    requires ValidConfig(cfg) && Reachable(cfg, s) && s.sender.SendFiles?
    ensures cfg.request.Ok? && s.receiver == ReceiveFiles(SenderStream(cfg), cfg.request.value)
    ensures s.up.Empty() && s.down.Empty()
  {
    ReachableInv(cfg, s);
    RequestFields(cfg);
    hide Handshake, RequestMessage, RequestBytes;
  }

  /** The sender learns of a successful handshake exactly when the two passwords give the same key;
      without that, it never writes a byte of the request. */
  lemma VerdictIsSameKey(cfg: Config, s: State)
    requires ValidConfig(cfg) && Reachable(cfg, s)
    ensures s.down.pushed != [] ==>
              (s.down.pushed[0] == 1 <==> SameKey(cfg)) && (s.down.pushed[0] == 0 <==> !SameKey(cfg))
    ensures !SameKey(cfg) ==> s.up.pushed <= Handshake(cfg) && !s.sender.WriteRequest?
  {
    ReachableInv(cfg, s);
    RequestFields(cfg);
    hide Handshake, RequestMessage, RequestBytes;
  }

  /** The whole fields that the sender writes before the one that the receiver is about to read. */
  function WrittenBefore(cfg: Config, r: ReceiverPhase): seq<byte> {
    match r
    case ReadSalt => []
    case ReadNonce(_) => cfg.salt
    case ReadBox(_, _) => cfg.salt + cfg.nonce
    case ReadHeader(_, _, _) => cfg.salt + cfg.nonce + cfg.box
    case ReadRequest(_, _) => Handshake(cfg) + LE(|RequestBytes(Sent(cfg))|, 8)
    case Decide(_, _) => Handshake(cfg) + RequestMessage(cfg)
    case ReceiveFiles(_, _) => Handshake(cfg) + RequestMessage(cfg)
    case _ => Handshake(cfg)
  }

  lemma WrittenBeforeIsPrefix(cfg: Config, r: ReceiverPhase)
    requires ValidConfig(cfg)
    ensures WrittenBefore(cfg, r) <= Handshake(cfg) + RequestMessage(cfg)
    ensures var n := |WrittenBefore(cfg, r)|;
            match r
            case ReadSalt => n == 0
            case ReadNonce(_) => n == 16
            case ReadBox(_, _) => n == 40
            case ReadHeader(_, _, _) => n == 68
            case ReadRequest(_, _) => n == 100
            case Decide(_, _) => n == 100 + |RequestBytes(Sent(cfg))|
            case ReceiveFiles(_, _) => n == 100 + |RequestBytes(Sent(cfg))|
            case _ => n == 92
  {
    Widths();
    hide RequestBytes, LE;
  }

  /** Every read of the receiver starts where the sender's write of the same field starts, and what the receiver
      holds is what the sender wrote. */
  lemma ReadsStartAtWrites(cfg: Config, s: State)
    requires ValidConfig(cfg) && Reachable(cfg, s)
    ensures s.up.popped <= |s.up.pushed|
    ensures !s.receiver.Left() ==> s.up.pushed[..s.up.popped] == WrittenBefore(cfg, s.receiver)
    ensures s.receiver.Verify? ==>
              s.receiver.nonce == cfg.nonce && s.receiver.box == cfg.box && s.receiver.header == cfg.header
    ensures s.receiver.ReadRequest? ==> s.receiver.size == |RequestBytes(Sent(cfg))|
    ensures s.receiver.Decide? || s.receiver.ReceiveFiles? ==> s.receiver.request == Sent(cfg)
  {
    ReachableInv(cfg, s);
    OnScript(cfg, s);
    WrittenBeforeIsPrefix(cfg, s.receiver);
    hide Handshake, RequestMessage, RequestBytes, WrittenBefore, SenderSide;
  }

  // ---- The user's choice ----

  /** The receiver has said no. */
  predicate Declined(s: State) { s.receiver.ReceiverGivesUp? && s.down.pushed == [1, 0] }

  lemma SaysNo(cfg: Config, s: State)
    requires ValidConfig(cfg) && Inv(cfg, s) && s.receiver.Decide?
    ensures Next(cfg, s, ReceiverGoes(false)).Some? && Declined(Next(cfg, s, ReceiverGoes(false)).value)
  {
    hide SenderSide, RequestBytes, SameKey, SenderStream, ValidConfig;
  }

  lemma StillNo(cfg: Config, s: State, e: Event)
    requires Declined(s) && Next(cfg, s, e).Some?
    ensures Declined(Next(cfg, s, e).value)
  {
    hide RequestMessage, Printable;
  }

  lemma {:induction false} NoIsFinal(cfg: Config, s: State, events: seq<Event>)
    requires Declined(s) && Run(cfg, s, events).Some?
    ensures Declined(Run(cfg, s, events).value)
    decreases |events|
  {
    hide Next, Declined;
    if |events| > 0 {
      StillNo(cfg, s, events[0]);
      NoIsFinal(cfg, Next(cfg, s, events[0]).value, events[1..]);
    }
  }

  /** A user who declines is obeyed: the receiver answers no, and however the session goes on, neither side ever
      starts on the files. */
  lemma DeclinedNeverStarts(cfg: Config, s: State, events: seq<Event>)
    requires ValidConfig(cfg) && Reachable(cfg, s) && s.receiver.Decide?
    requires Run(cfg, s, [ReceiverGoes(false)] + events).Some?
    ensures var s' := Run(cfg, s, [ReceiverGoes(false)] + events).value;
            && s'.receiver.ReceiverGivesUp? && s'.down.pushed == [1, 0]
            && !s'.sender.SendFiles? && !s'.receiver.ReceiveFiles?
  {
    hide Next, Reachable, Inv, ValidConfig;
    ReachableInv(cfg, s);
    SaysNo(cfg, s);
    assert ([ReceiverGoes(false)] + events)[1..] == events;
    NoIsFinal(cfg, Next(cfg, s, ReceiverGoes(false)).value, events);
    RunKeeps(cfg, s, [ReceiverGoes(false)] + events);
    NoFilesAfterNo(cfg, Run(cfg, s, [ReceiverGoes(false)] + events).value);
  }

  lemma NoFilesAfterNo(cfg: Config, s: State)
    requires Inv(cfg, s) && Declined(s)
    ensures !s.sender.SendFiles? && !s.receiver.ReceiveFiles?
  {
    hide ReceiverSide, Handshake, RequestMessage, Printable;
  }

  lemma OnlyYesStarts(cfg: Config, s: State, e: Event)
    requires Next(cfg, s, e).Some? && !s.receiver.ReceiveFiles? && Next(cfg, s, e).value.receiver.ReceiveFiles?
    ensures e == ReceiverGoes(true) && s.receiver.Decide?
  {
    hide RequestMessage, Printable, Parse, UnLE, Peek, Available, Opens;
  }

  lemma {:induction false} YesWasSaid(cfg: Config, s: State, events: seq<Event>) returns (i: nat)
    requires !s.receiver.ReceiveFiles? && Run(cfg, s, events).Some? && Run(cfg, s, events).value.receiver.ReceiveFiles?
    ensures i < |events| && events[i] == ReceiverGoes(true)
    ensures Run(cfg, s, events[..i]).Some? && Run(cfg, s, events[..i]).value.receiver.Decide?
    decreases |events|
  {
    hide Next;
    var s1 := Next(cfg, s, events[0]).value;
    if s1.receiver.ReceiveFiles? {
      OnlyYesStarts(cfg, s, events[0]);
      i := 0;
    } else {
      var j := YesWasSaid(cfg, s1, events[1..]);
      i := j + 1;
      assert events[..i][1..] == events[1..][..j];
    }
  }

  /** Whoever has started on the files, the user of the receiver had been asked and had accepted. */
  lemma StartedMeansAccepted(cfg: Config, events: seq<Event>, s: State) returns (i: nat)
    requires ValidConfig(cfg) && Run(cfg, Init(cfg), events) == Some(s)
    requires s.sender.SendFiles? || s.receiver.ReceiveFiles?
    ensures i < |events| && events[i] == ReceiverGoes(true)
    ensures Run(cfg, Init(cfg), events[..i]).Some? && Run(cfg, Init(cfg), events[..i]).value.receiver.Decide?
  {
    hide Run, Next;
    if s.sender.SendFiles? {
      assert Reachable(cfg, s);
      FilesStartTogether(cfg, s);
    }
    i := YesWasSaid(cfg, Init(cfg), events);
  }

  /** Nobody can move. */
  ghost predicate Stuck(cfg: Config, s: State) { forall e: Event :: Next(cfg, s, e).None? }

  /** How a session ends: with different keys both sides give up; a request that cannot be made, or has a path that is
      too long, makes the sender fail and, once its connection is closed, the receiver too; otherwise both start on the
      files, or both give up because the receiver declined. */
  lemma SessionEnds(cfg: Config, s: State)
    requires ValidConfig(cfg) && Reachable(cfg, s) && Stuck(cfg, s)
    ensures if !SameKey(cfg) then s.sender.SenderGivesUp? && s.receiver.ReceiverGivesUp?
            else if !Printable(cfg) then s.sender.SenderFails? && s.receiver.ReceiverFails?
            else || (s.sender.SendFiles? && s.receiver.ReceiveFiles?)
                 || (s.sender.SenderGivesUp? && s.receiver.ReceiverGivesUp?)
    ensures !s.sender.SendFiles? ==> s.up.done && s.down.done
  {
    ReachableInv(cfg, s);
    RequestFields(cfg);
    assert Next(cfg, s, SenderGoes(1)).None? && Next(cfg, s, ReceiverGoes(true)).None?;
    assert Next(cfg, s, Closes(true)).None? && Next(cfg, s, Closes(false)).None?;
    assert Next(cfg, s, MeetsEnd(false)).None?;
    SenderRests(cfg, s);
    ReceiverRests(cfg, s);
    hide Handshake, RequestMessage, RequestBytes, Next, SenderStep, ReceiverStep;
  }

  /** The sender never meets the end of the answers: it always gets the one that it waits for. */
  lemma SenderNeverMeetsEnd(cfg: Config, s: State)
    requires ValidConfig(cfg) && Reachable(cfg, s)
    ensures (s.sender.AwaitVerdict? || s.sender.AwaitAnswer?) && s.down.Empty() ==> !s.down.done
  {
    ReachableInv(cfg, s);
    RequestFields(cfg);
    hide Handshake, RequestMessage, RequestBytes, SenderKey, SameKey, Printable;
  }

  lemma SenderRests(cfg: Config, s: State)
    requires SenderStep(cfg, s, 1).None?
    ensures !s.sender.WriteHandshake? && !s.sender.WriteRequest?
    ensures s.sender.AwaitVerdict? || s.sender.AwaitAnswer? ==> s.down.Empty()
  {
    hide RequestMessage, Printable;
  }

  lemma ReceiverRests(cfg: Config, s: State)
    requires ReceiverStep(cfg, s, true).None?
    ensures !s.receiver.Verify? && !s.receiver.Decide?
    ensures s.receiver.Wanted().Some? ==> !Available(s.up, s.receiver.Wanted().value)
  {
    hide Parse, UnLE, Peek, Available;
  }

  // ---- No session goes on for ever ----

  function SenderWork(cfg: Config, s: State): nat {
    var closing := if s.up.done then 0 else 1;
    closing + match s.sender
              case WriteHandshake(rest) => |rest| + |RequestMessage(cfg)| + 5
              case AwaitVerdict => |RequestMessage(cfg)| + 4
              case WriteRequest(rest) => |rest| + 3
              case AwaitAnswer => 2
              case _ => 0
  }

  function ReceiverWork(s: State): nat {
    var closing := if s.down.done then 0 else 1;
    closing + match s.receiver
              case ReadSalt => 9
              case ReadNonce(_) => 8
              case ReadBox(_, _) => 7
              case ReadHeader(_, _, _) => 6
              case Verify(_, _, _, _) => 5
              case ReadSize(_) => 4
              case ReadRequest(_, _) => 3
              case Decide(_, _) => 2
              case _ => 0
  }

  lemma WorkLowers(cfg: Config, s: State, e: Event)
    requires Next(cfg, s, e).Some?
    ensures var s' := Next(cfg, s, e).value;
            SenderWork(cfg, s') + ReceiverWork(s') < SenderWork(cfg, s) + ReceiverWork(s)
  {
    match e {
      case SenderGoes(n) => SenderWorkLowers(cfg, s, n);
      case ReceiverGoes(yes) => ReceiverWorkLowers(cfg, s, yes);
      case _ => EndWorkLowers(cfg, s, e);
    }
    hide RequestMessage, SenderStep, ReceiverStep, Close, MeetEnd, SenderWork, ReceiverWork;
  }

  lemma EndWorkLowers(cfg: Config, s: State, e: Event)
    requires (e.Closes? || e.MeetsEnd?) && Next(cfg, s, e).Some?
    ensures var s' := Next(cfg, s, e).value;
            SenderWork(cfg, s') + ReceiverWork(s') < SenderWork(cfg, s) + ReceiverWork(s)
  {
    hide RequestMessage, Available;
  }

  lemma SenderWorkLowers(cfg: Config, s: State, n: nat)
    requires SenderStep(cfg, s, n).Some?
    ensures var s' := SenderStep(cfg, s, n).value;
            SenderWork(cfg, s') < SenderWork(cfg, s) && ReceiverWork(s') == ReceiverWork(s)
  {
    hide RequestMessage, Printable;
  }

  lemma ReceiverWorkLowers(cfg: Config, s: State, yes: bool)
    requires ReceiverStep(cfg, s, yes).Some?
    ensures var s' := ReceiverStep(cfg, s, yes).value;
            SenderWork(cfg, s') == SenderWork(cfg, s) && ReceiverWork(s') < ReceiverWork(s)
  {
    hide RequestMessage, Parse, UnLE, Peek, Available, Opens;
  }

  /** Every run is at most as long as the work at its start, so every session reaches one of the ends of SessionEnds. */
  lemma {:induction false} SessionIsFinite(cfg: Config, s: State, events: seq<Event>)
    requires Run(cfg, s, events).Some?
    ensures |events| <= SenderWork(cfg, s) + ReceiverWork(s)
    decreases |events|
  {
    hide Next, SenderWork, ReceiverWork;
    if |events| > 0 {
      WorkLowers(cfg, s, events[0]);
      SessionIsFinite(cfg, Next(cfg, s, events[0]).value, events[1..]);
    }
  }
}
