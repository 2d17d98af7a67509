# A model of trit's transfer pipeline and pattern translator

trit sends staged files over TCP. The sender packs all files into chunks of at most 8192 bytes, encrypts them as one
secret stream and writes them to the socket; the receiver reads, decrypts and cuts the byte stream back into files.
Each side does this with three threads joined by bounded queues and "done" flags. Files are selected with patterns
that are translated to regular expressions. This project models that behaviour in Dafny and proves what it promises.

| file | what it holds |
|---|---|
| `Bytes.dfy`, `Chunk.dfy` | results, machine integers, byte strings, little-endian integers; the chunk |
| `TransferRequest.dfy` | the chunk plan and the codec of the transfer request |
| `Packing.dfy`, `Cutting.dfy`, `FileManager.dfy` | "split the concatenation", "cut by sizes", and the reader and writer loops over arrays, proved against them |
| `TransferManager.dfy`, `EncryptionManager.dfy` | chunk framing; encryption of single chunks over an idealised secret stream |
| `BoundedQueue.dfy` | the queue as a monitor with one mutex and two condition variables |
| `Threads.dfy`, `Stages.dfy` | the failure state of one side; the six stages, one atomic step at a time |
| `StageInvariants.dfy`, `Pipeline.dfy` | what each stage keeps; the whole system under every interleaving |
| `Safety.dfy`, `Progress.dfy`, `Outcomes.dfy` | what holds in every run; measure and stuck states; the race at the end of a transfer |
| `Failures.dfy` | what becomes of the threads after a failure: how long they go on, where they stop, when the joins return |
| `Hostile.dfy` | the same transfer over a network that delivers arbitrary bytes |
| `Session.dfy`, `Transfer.dfy` | handshake and transfer request between the two programs; plan, session and pipeline together |
| `Regex.dfy`, `Staging.dfy` | the regular expressions that are emitted, the translator, selection, staging |

## How the system is modelled

- In the pipeline every load of a flag, every queue operation, every store of a done flag, every partial socket write
  or read is a step of its own, and any running thread may throw before any step. `try_pop`, the load of `input_done`
  and `empty()` are three steps. Queue capacities, files and the sizes of socket transfers are arbitrary.
- A queue of the pipeline is a `Fifo`: everything ever pushed, and how much of it was popped. `BoundedQueue.Linearizable`
  justifies this for the monitor of `include/BoundedThreadSafeQueue.h`: every call, with its answer, takes effect at
  one moment, and the moments form a legal run of an atomic bounded FIFO; `BoundedQueue.FifoIsAtomicQueue` says that the
  operations of a `Fifo` are the operations of that atomic queue, and `BoundedQueue.WaitersAreBlocked` that threads wait
  where its steps are not possible. `emplace` takes the same steps as `push`.
- The network is a byte FIFO of an arbitrary capacity, the bytes that can be written before anybody reads; a socket write
  waits for room, and the end of the stream is seen after its last byte. In `Pipeline` it is reliable; in `Hostile` the
  bytes still to be read can be replaced at any moment.
- The secret stream is idealised: pushing a message yields any bytes that are 17 longer (arbitrary, but fixed for one
  transfer), pulling accepts exactly the next pushed ciphertext and gives back its message and tag, and accepts nothing
  with another key or header. The handshake box opens exactly with the key and nonce that sealed it; key derivation is
  an arbitrary function.
- A file "on disk" consists of the bytes handed to `file.write`. A stream that is still open may hold back its last
  bytes; the file that the writer has open while it is blocked for ever is such a one.
- The reader, the writer, the codec, framing and the translator are also modelled as methods with the loops of the
  program. The stages in `Stages.dfy` are the same loops cut into atomic steps; `Safety.StagesAgreeWithLoops` says that
  both end alike.
- Transfers have 1 to 8192 * (2^32 - 1) bytes. `TransferRequests.PlanCoversIffItFits` shows that exactly these get a
  usable plan.

## What turned out not to hold as one might expect

- The receiver is not free of deadlock. After the last chunk the writer loads the decryptor's flag once; if it is not
  set yet, the writer blocks in `pop` for ever. `Progress.StuckStates` says exactly how a run without failures can end,
  `Outcomes.BothOutcomes` that every transfer has a schedule that blocks and one that does not, and
  `Outcomes.AlwaysCompleteIffLastNotEmpty` that files can be missing exactly when the last file of the list is empty.
- Raising the abort flag does not wake threads that wait in `push` or `pop`, so the joins need not return after a
  failure. A failed side always comes to a halt within a bounded number of its own steps (`Failures.FailedSideStops`);
  `Failures.SenderStalls` and `Failures.ReceiverStalls` say exactly where, and that the joins return if and only if
  nobody waits there.
- On the receiving side no transfer is spared. Thirteen zero bytes instead of a frame make the decryptor refuse a chunk
  with number 0; the file writer then waits for its first chunk for ever, and the captured exception is never reported
  (`Hostile.ZerosHangReceiver`, `Hostile.WriterNeverEnds`; without a changed byte, `Failures.DecryptorFailureHangs`).
- The sender's joins return, whatever fails, if and only if one queue holds all chunks and the network holds all frames
  (`Failures.SenderJoinsReturnIffSmall`). A connection that is lost during the first frame is enough to leave the reader
  waiting when there are at least two chunks more than a queue holds (`Failures.LostConnectionHangs`); with exactly one
  more, the hanging run of `Failures.SenderCanHang` has the encryptor fail before it takes its first chunk. With more
  bytes than the network holds, a receiver that hangs with its socket open is enough (`Failures.SenderCanStarve`).
- A request that cannot be made after the handshake, because the selected files are gone or empty, or that has a path
  longer than 65535 bytes, makes the sender fail; the receiver, which waits for the request, then fails as well, because
  the connection is closed (`Session.SessionEnds`).
- A directory is said to stand for everything below it (`README.md`, line 123). It stands for the paths that start with
  its name as it was given; so the current directory, given as a dot, and directories named from it select nothing
  (`Staging.DirectoryIsPrefix`, `Staging.DotSelectsNothing`).
- `README.md` (line 90) describes the pattern of two stars, a slash and `*.ext` as recursive. The translation needs at
  least one slash in the path, so files of the current directory are not selected (`Staging.FilesBelow`).
- The comparison of `chunk.size()` with `UINT16_MAX` in `send_chunks` can never hold, because `size()` is already
  16 bits wide. That nothing is lost to this truncation follows from the 8192-byte cap
  (`EncryptionManager.DecryptInvertsEncrypt`, `Pipeline.CipherChunkAt`).
- A pattern and its regular expression may disagree on paths with line terminators, since `.` excludes them
  (`Staging.AgreementIffNoLineTerminators`).
- A received request whose count does not agree with its file list is not read back
  (`TransferRequests.ParseInvertsPrint`).

## Model

| member | source | states |
|---|---|---|
| TransferRequests.FromFiles | src/TransferRequest.cpp:15-62 | creation fails exactly on an empty selection or a total size that is 0 modulo 2^64; otherwise the request announces the number of files and the total size, with their truncations, lists the files, uses chunks of at most 8192 bytes, and covers all bytes if they fit |
| TransferRequests.PlanCoversIffItFits | src/TransferRequest.cpp:48-58 | the plan describes the selected bytes if and only if the total is at most 8192 * (2^32 - 1); no wrap-around ever yields a usable plan |
| TransferRequests.Serialize | src/TransferRequest.cpp:144-172 | the printed form of every request whose paths have at most 65535 bytes; an error for any other |
| TransferRequests.Deserialize | src/TransferRequest.cpp:84-122 | the bounds-checked iterator loop computes the parse of the buffer, errors included |
| TransferRequests.ReadInt | include/utils.h:108-131 | one bounds-checked read: value, position, and failure exactly when bytes are missing |
| TransferRequests.ReadFile | src/TransferRequest.cpp:107-118 | one length-prefixed path and its size, or an error when any field is cut short |
| TransferRequests.ParseInvertsPrint | src/TransferRequest.cpp:84-172 | reading what was printed, followed by anything, gives the request back if and only if its count agrees with its file list |
| TransferRequests.AcceptedStartsWithPrint | src/TransferRequest.cpp:84-122 | every accepted buffer starts with the print of the request read from it |
| TransferRequests.TruncatedIsRejected | src/TransferRequest.cpp:84-122 | every strict prefix of a printed request is rejected as a bad buffer |
| TransferRequests.PlanIsReadBack | src/TransferRequest.cpp:15-172 | a planned request with fitting paths, followed by anything, is read back with all its files if and only if there are fewer than 2^32 of them |
| TransferRequests.RequestLayout | src/TransferRequest.cpp:68-72 | the position of each of the five fields, in bytes, and of the file list behind them |
| TransferRequests.FileLayout | src/TransferRequest.cpp:73-81 | the position of path length, path and size of one file |
| Bytes.LEByte | include/utils.h:88-107 | byte i of a printed integer is its i-th byte from the least significant end |
| Packing.PlanIsSplit | src/TransferRequest.cpp:45-58 | the chunks of a plan are the pieces of the simple split of all bytes by the chunk size |
| Packing.FlattenSplit | src/FileManager.cpp:39-78 | splitting loses and invents nothing |
| Packing.PlanPayloads | src/FileManager.cpp:39-78 | the first k chunks carry exactly the bytes before the start of chunk k |
| Packing.PackedPush | src/FileManager.cpp:61-77 | pushing a full buffer and choosing the next size the way the reader does keeps the plan; the counter never wraps |
| Packing.NothingLeft | src/FileManager.cpp:79-81 | when all bytes are consumed all chunks are pushed and the buffer is empty, although nothing flushes it |
| Packing.PackedPrefix | src/FileManager.cpp:61-77 | whatever was pushed so far is a beginning of the planned chunk list |
| FileManager.ReadFilesIntoChunks | src/FileManager.cpp:6-82 | the reader, over a real buffer: exactly the planned chunks when it finishes, a beginning of them on abort; the reason of the first file that changed or cannot be opened; the flag was found down before each file and before each read of at most 8192 bytes |
| FileManager.PushBuffer | src/FileManager.cpp:61-77 | a full buffer becomes the next chunk; the new buffer has the size the next chunk needs |
| Cutting.CutUndoesFlatten | src/FileManager.cpp:97-146 | cutting the concatenation by the files' own sizes gives the files back, empty ones included |
| Cutting.CutIsPrefix | src/FileManager.cpp:108-146 | cutting invents no bytes, and a file is short only when everything before and in it is all there is |
| Cutting.WriteMore | src/FileManager.cpp:113-128 | writing the next bytes of the stream, no more than the file still needs, writes the file's own bytes |
| Cutting.AllWritten | src/FileManager.cpp:137-139 | once every byte is written the current file is complete and all later files are empty |
| FileManager.WriteFilesFromChunks | src/FileManager.cpp:84-147 | whatever the chunk boundaries: files are beginnings of the data cut by sizes, all of it on return; every file so far could be opened, every write came after a look at the abort flag and was taken in full, and the first that was not ends the writer; with exact data it returns if the flag is set after the last chunk and blocks if not; the counter counts finished chunks |
| FileManager.WriterUndoesReader | src/FileManager.cpp:6-147 | packing files into planned chunks and cutting the chunks back restores every file |
| TransferManager.SendChunk | src/TransferManager.cpp:28-43 | the five fields of one chunk in order, as one frame |
| TransferManager.SendChunks | src/TransferManager.cpp:17-54 | the socket receives the frames of the chunks in order; the flag was found down before each, and at the end if all were sent |
| TransferManager.ReceiveChunk | src/TransferManager.cpp:66-83 | five blocking reads rebuild one frame's chunk, or none if bytes are missing |
| TransferManager.ReceiveChunks | src/TransferManager.cpp:56-87 | the chunks of the complete frames at the start of the stream, at most the announced number; fewer only when bytes are missing or the flag is seen, which was down before each of them |
| TransferManager.FrameParts | src/TransferManager.cpp:8-15 | the position and value of the five fields of a frame |
| TransferManager.UnframeInvertsFrame | src/TransferManager.cpp:28-83 | number, flag, original size and data survive framing if and only if the data fits 16 bits and an untransformed chunk records its own length |
| TransferManager.FrameIsPrefixCode | src/TransferManager.cpp:8-15 | frames delimit themselves in a stream of frames |
| TransferManager.DeliveredPrefix | src/TransferManager.cpp:61-86 | after any partial delivery the chunks passed on are a prefix of those sent; all of them after complete delivery |
| EncryptionManager.EncryptionManager.Encrypt | src/EncryptionManager.cpp:88-112 | keeps: every pushed message has a legal number and the final tag is exactly on the last number; a refused chunk leaves the stream alone, an accepted one decrypts at its place to the chunk again |
| EncryptionManager.EncryptionManager.Decrypt | src/EncryptionManager.cpp:114-138 | never pulls more than the peer pushed; an accepted chunk has a number from 1 to the number of chunks, holds the peer's next message and carries the last number exactly if that was tagged final; an authenticated message is consumed even when its tag is refused |
| EncryptionManager.EncryptChunks | src/EncryptionManager.cpp:66-75 | the encryptor on a whole queue: stops at the first refusal with its reason, what it emits decrypts to what it took, and chunks numbered from 1 leave an honest log |
| EncryptionManager.DecryptChunks | src/EncryptionManager.cpp:77-86 | the decryptor on a whole queue of arbitrary frames: stops at the first refusal with its reason; a beginning of the peer's messages, all of them if it accepts as many as announced |
| EncryptionManager.DecryptInvertsEncrypt | src/EncryptionManager.cpp:88-138 | decryption restores the chunk if and only if the 17 extra bytes still fit the 16-bit size; otherwise it is refused |
| EncryptionManager.EmittedArePrefix | src/EncryptionManager.cpp:114-138 | whatever frames arrive, the payloads that come out are a prefix of those encrypted |
| EncryptionManager.EmittedNumbers | src/EncryptionManager.cpp:115-119 | whatever frames arrive, nothing is passed on under a number outside the transfer |
| EncryptionManager.AllAcceptedMeansComplete | src/EncryptionManager.cpp:128-136 | if all announced frames are accepted nothing was left out, and only the last carried the last number and the final tag |
| Threads.WorkerContext.HandleException | src/WorkerContext.cpp:5-11 | raises the flag and keeps the first exception |
| BoundedQueue.NoWakeupLost | include/BoundedThreadSafeQueue.h:20-52 | no step loses a wakeup: an un-notified waiting consumer means at most as many elements as notified consumers still to look (those that wake by themselves are not counted), and dually for producers and free slots |
| BoundedQueue.QueueRuns | include/BoundedThreadSafeQueue.h:20-69 | every run of any number of threads, with barging try_pop and spurious wakeups, keeps mutual exclusion, order, capacity, answers and wakeups |
| BoundedQueue.WaitersHaveReason | include/BoundedThreadSafeQueue.h:20-43 | if no thread can run, consumers wait only on an empty queue and producers only on a full one, never both |
| BoundedQueue.RunnableMoves | include/BoundedThreadSafeQueue.h:20-52 | a thread that holds the mutex, or wants it while it is free, has a step |
| BoundedQueue.RefinesFifo | include/BoundedThreadSafeQueue.h:20-69 | every step is nothing or one operation of an atomic bounded FIFO with the answer due at that moment: try_pop gives nothing only when it is empty, empty() answers whether it is, pop returns what it removed |
| BoundedQueue.Linearizable | include/BoundedThreadSafeQueue.h:12-69 | over whole runs from construction: the operations in the order of their effects are legal with the answers given, and each thread's calls take effect in turn, once each, between call and return |
| BoundedQueue.FirstInFirstOut | include/BoundedThreadSafeQueue.h:20-52 | over whole runs from construction: nothing is lost, duplicated or reordered |
| BoundedQueue.FifoIsAtomicQueue | include/BoundedThreadSafeQueue.h:20-57 | the queue operations of the pipeline's stages are those of the atomic queue, with the same answers and possible in the same situations |
| BoundedQueue.WaitersAreBlocked | include/BoundedThreadSafeQueue.h:20-43 | when no thread of the monitor can run, threads wait in pop or push only where the pipeline's step is not possible either |
| StageInvariants.ReaderKeeps | src/FileManager.cpp:15-81 | every step of the reader keeps its place in the plan |
| StageInvariants.WorkerKeeps | src/EncryptionManager.cpp:15-29 | every step of the encryptor or decryptor loop keeps: output is the transform of the input taken, in order |
| StageInvariants.SenderKeeps | src/TransferManager.cpp:22-53 | every step of the socket writer keeps: the wire carries the frames of the chunks taken, the last perhaps in part |
| StageInvariants.ReceiverKeeps | src/TransferManager.cpp:61-86 | every step of the socket reader keeps: the bytes read are the frames passed on and part of the next |
| StageInvariants.WriterKeeps | src/FileManager.cpp:92-146 | every step of the writer keeps: all bytes taken, up to the offset in the current chunk, are in the right files, and the counter agrees |
| Pipeline.CipherChunkAt | src/EncryptionManager.cpp:95-111 | every planned chunk encrypts without error, and the 16-bit size of the result is its true size |
| Pipeline.LogIsHonest | src/EncryptionManager.cpp:95-107 | what the pipeline's encryptor pushes is numbered in order and tagged final on the last message only |
| Pipeline.NextKeeps | src/Receiver.cpp:159-217 | every step, exception or handler of any of the six threads keeps the invariant of all six stages |
| Safety.FilesAlwaysSafe | src/FileManager.cpp:97-146 | in every reachable state, failures included, each file on disk is a prefix of its source and all bytes together are a prefix of what was sent |
| Safety.WriterReturnsComplete | src/FileManager.cpp:97-147 | when the writer has returned without a failure on its side every file equals its source, empty ones included, and all chunks are counted |
| Safety.StagesAgreeWithLoops | src/FileManager.cpp:6-147 | the interleaved reader and writer end as their sequential loops do: the planned chunks, and what was taken cut by the sizes |
| Safety.BreakNeverTruncates | src/FileManager.cpp:132-144 | when the flag was loaded set and the queue is then seen empty, the current file is complete and every later file is empty |
| Safety.DoneIsFinal | src/EncryptionManager.cpp:15-29 | once a done flag is stored its queue never grows, whichever thread moves or fails |
| Safety.NothingLeftBehind | src/EncryptionManager.cpp:15-29 | a stage that left through "flag loaded, then queue seen empty" has passed on the element-wise transform of everything its producer ever pushes |
| Safety.FirstFailureKept | src/WorkerContext.cpp:3-19 | in any run the flag is never lowered and the captured exception never replaced |
| Safety.SuccessMeansAllSent | src/Sender.cpp:185-204 | if the joined sender finds no exception, no abort was raised, every stage left normally and all frames were written, so staging is cleared only after a complete send |
| Safety.SuccessMeansAllReceived | src/Receiver.cpp:212-229 | if the joined receiver finds no exception, every file is there |
| Progress.ProductiveStepLowers | src/Sender.cpp:131-183 | without failures every step that is not idle polling lowers a measure of the remaining work |
| Progress.WorkIsBounded | src/Sender.cpp:131-183 | under every schedule the number of such steps is bounded |
| Progress.SenderNeverStuck | src/Sender.cpp:131-183 | while a sending thread is live, some sending thread has a useful step, or, when the network is full, some receiving one |
| Progress.SenderFinished | src/Sender.cpp:168-183 | when the sending threads have finished, chunks_sent equals the number of chunks, the limit of the progress loop |
| Progress.StuckStates | src/FileManager.cpp:132-144 | exactly how a failure-free run ends: all but the writer finished, all chunks written, only trailing empty files missing; complete if and only if the writer returned or the last file is not empty |
| Progress.LastLoadDecides | src/FileManager.cpp:137-141 | from the load after the last chunk on, however the run continues, the writer returns if the flag was set and blocks for ever if not |
| Outcomes.ComesToRest | src/Receiver.cpp:159-217 | every failure-free run can be continued until nothing can make progress |
| Outcomes.BothOutcomes | src/FileManager.cpp:137-141 | every transfer has a failure-free schedule that blocks the writer for ever and one that lets it return |
| Outcomes.AlwaysCompleteIffLastNotEmpty | src/FileManager.cpp:132-146 | all failure-free runs that come to rest leave all files complete if and only if the last file of the list is not empty |
| Hostile.StepKeeps | src/EncryptionManager.cpp:15-29 | every step keeps the receiving stages' invariant while arbitrary bytes replace the wire and the sender's log grows |
| Hostile.DecryptorEmitsPrefix | src/EncryptionManager.cpp:114-138 | in every interleaving and whatever arrives, the decryptor's payloads are a prefix of those encrypted so far, under numbers of the transfer; if all are there, only the last carries the last number |
| Hostile.FilesStaySafe | src/FileManager.cpp:97-146 | whatever arrives, files on disk stay prefixes of their sources |
| Hostile.SuccessMeansAllReceived | src/Receiver.cpp:212-229 | whatever arrived, a joined receiver without an exception has every file |
| Hostile.OtherStreamWritesNothing | src/crypto.cpp:97-142 | with another key or header no chunk is passed on, no file is created and the receiver never succeeds |
| Hostile.ZerosHangReceiver | src/EncryptionManager.cpp:115-119 | for every transfer a run in which nothing throws but the decryptor, at a frame of zeros, leaves the file writer waiting for its first chunk |
| Hostile.WriterNeverEnds | src/Receiver.cpp:212-224 | from there, whatever arrives, the writer waits and the receiver's joins never return |
| Failures.FailedSideStops | src/WorkerContext.cpp:3-11 | after a failure the threads of a side take no more than a bounded number of steps, under every schedule |
| Failures.SenderStalls | src/Sender.cpp:131-188 | where the sending threads stop: ended, or waiting for room in a queue or on the network; the joins return if and only if none of the three waits |
| Failures.ReceiverStalls | src/Receiver.cpp:165-217 | the same for a failed receiving side, with a socket reader that waits for bytes and a writer that waits on an empty queue |
| Failures.RunsUntilStalled | src/Receiver.cpp:165-217 | every failed run can be continued to such an end by the side's own threads |
| Failures.DecryptorFailureHangs | src/Receiver.cpp:179-201 | in every transfer a decryptor that fails before its first chunk leaves the writer waiting for it |
| Failures.WriterNeverEnds | include/BoundedThreadSafeQueue.h:34-41 | a writer that waits for a decryptor that is gone waits in every continuation, so the receiver's joins never return |
| Failures.ReceiverCanHang | src/Receiver.cpp:212-224 | for every transfer some failed run stalls with the joins not returned |
| Failures.SmallTransfersNeverBlock | include/BoundedThreadSafeQueue.h:20-25 | with no more chunks than a queue holds no sending thread ever waits in push |
| Failures.SmallStreamNeverWaits | src/TcpSocket.cpp:25-27 | if the network holds all frames no socket write ever waits |
| Failures.LostConnectionHangs | src/TransferManager.cpp:33-43 | with two chunks more than a queue holds, a write that throws is enough to leave the reader waiting for ever |
| Failures.ReaderNeverEnds | include/BoundedThreadSafeQueue.h:20-25 | a reader that waits for an encryptor that has left waits in every continuation |
| Failures.SenderCanHang | src/Sender.cpp:140-188 | with more chunks than a queue holds some failed run stalls both sides with the reader waiting for room |
| Failures.SenderCanStarve | src/TransferManager.cpp:33-43 | with more bytes than the network holds a hanging receiver leaves the socket writer waiting, though nothing fails on the sending side |
| Failures.SenderJoinsReturnIffSmall | src/Sender.cpp:126-188 | the sender's joins return in all runs that stall if and only if a queue holds all chunks and the network holds all frames |
| Session.SenderKeeps | src/Sender.cpp:72-122 | every step of the sender keeps the joint invariant of the two programs |
| Session.ReceiverKeeps | src/Receiver.cpp:63-150 | every step of the receiver keeps it |
| Session.FilesStartTogether | src/Sender.cpp:39-58 | a sender that starts on the files faces a receiver that accepted an equal request and decrypts with the same key and header; both wires are empty |
| Session.VerdictIsSameKey | src/Receiver.cpp:96-103 | the verdict is success if and only if both passwords give the same key; otherwise no byte of the request is written |
| Session.ReadsStartAtWrites | src/Receiver.cpp:63-135 | every read of the receiver starts where the sender's write of the same field starts, and what it holds is what was written |
| Session.DeclinedNeverStarts | src/Receiver.cpp:138-150 | a user who declines is obeyed: the answer is no, and in no continuation does either side start on the files |
| Session.StartedMeansAccepted | src/Receiver.cpp:138-150 | in every run in which a side has started on the files, the user had been asked before and had accepted |
| Session.SenderNeverMeetsEnd | src/Sender.cpp:95-122 | the sender always gets the answer that it waits for |
| Session.SessionEnds | src/Receiver.cpp:21-46 | how a session ends: different keys, both give up; a request that cannot be made or printed, the sender fails and the receiver fails on the closed connection; otherwise both start on the files or both give up |
| Session.SessionIsFinite | src/Sender.cpp:39-58 | every run of a session has a bounded number of steps, so it reaches one of these ends |
| Transfer.PlanIsValid | src/TransferRequest.cpp:15-62 | a plan made for files that fit is one the pipeline can follow |
| Transfer.WholeTransfer | src/Sender.cpp:39-58 | plan, session and pipeline together, for fewer than 2^32 files: the receiver holds the whole list of files, and the agreed request, key and header make a pipeline whose receiver only ever holds prefixes of the sender's files, all of them when its writer returns without a failure, and which can end so |
| Staging.FilePatternToRegex | src/staging.cpp:168-216 | the loop emits the translation of every element of the pattern, in order |
| Staging.TranslationParses | src/staging.cpp:168-216 | for every pattern the text is well formed in the modelled part of the grammar, with one term for each element of the pattern |
| Staging.EscapesAreHarmless | src/staging.cpp:186-211 | no digit and no letter ever stands behind an escaping backslash, so no escape is a class, control, assertion or back-reference escape, and none is left open |
| Staging.LettersAndDigitsStay | src/staging.cpp:203-204 | a pattern of letters and digits is its own regular expression |
| Staging.OthersAreEscaped | src/staging.cpp:197-209 | every other character but the wildcards and the slash is escaped |
| Staging.QuestionMark | src/staging.cpp:195-196 | a question mark stands for any one character but a line feed or a carriage return |
| Staging.TranslationPreservesMeaning | src/staging.cpp:168-216 | for every pattern and every path without line terminators the text matches exactly when the pattern does |
| Staging.AgreementIffNoLineTerminators | src/staging.cpp:168-216 | all patterns agree with their translations on a path if and only if it has no line terminator |
| Staging.WholeDirectory | src/staging.cpp:168-216 | a wildcard-free directory followed by a slash and two stars selects, among paths without line terminators, exactly those that start with that directory |
| Staging.FilesInDirectory | src/staging.cpp:168-216 | a directory followed by `/*.ext` selects, on paths without line terminators, exactly the slash-free names with that ending directly in it |
| Staging.FilesBelow | README.md:90 | the "recursive" extension pattern needs a slash in the path, so it never selects files of the current directory |
| Staging.DirectoryIsPrefix | src/staging.cpp:238-252 | a directory given as a pattern selects exactly the paths that start with its name as given and a slash |
| Staging.DotSelectsNothing | src/staging.cpp:238-252 | the current directory, and a directory named from it with a dot, select nothing |
| Staging.PlainPatternIsGlob | src/staging.cpp:238-252 | a pattern that is no directory selects, among paths without line terminators, exactly what it matches |
| Staging.MatchFilePatternsToPaths | src/staging.cpp:220-236 | in any iteration order, exactly the paths that at least one pattern's regular expression matches |
| Staging.SelectionIsByMeaning | src/staging.cpp:220-236 | on paths without line terminators, exactly the paths at least one pattern means |
| Staging.StagingArea.Stage | src/staging.cpp:258-293 | adds exactly the files that some given pattern wants, a directory those that start with its name and a slash, any other pattern those that it matches; reports exactly the new ones |
| Staging.StagingArea.Unstage | src/staging.cpp:295-316 | removes exactly the staged files that some given pattern wants, in the same sense |
| Staging.AddThenDrop | src/staging.cpp:258-316 | staging and unstaging with the same patterns removes exactly what they select, and restores the staging area if and only if they selected nothing that was staged before |

## Left out

- Sockets, ASIO, file handles, directory creation and console output: files are byte sequences and TCP a byte FIFO.
- The internals of libsodium and zlib, randomness and key derivation: foreign code, idealised as described above.
- Storing the staging area, the lock directory, `list`, `clear`, and the dropping of staged files that have vanished from disk.
- Turning paths into paths relative to the current directory: the patterns are matched against paths that are already relative.
- `CompressionManager`, which the pipeline does not use.
- `ProgressTracker`: its thread is joined with the others; its counters are modelled, its drawing is not.
- `main.cpp`, address and port checks, logging, help texts.
- The receiver's loop that listens again after a refused handshake or request: one connection is modelled.
- An allocation that fails for an announced request size that is too large: a request is read as soon as its bytes are there.
- Locales: letters and digits are those of ASCII, paths are sequences of characters, and line terminators are CR and LF.
- TransferManager.SendChunks: `cs` is everything its queue will hold, so the polling and the exit test are left to `Stages.SenderStep`.
- EncryptionManager.EncryptChunks: `cs` is everything its queue will hold, so the flags and the exit test are left to `Stages.WorkerStep`; so it is with `DecryptChunks`.
- EncryptionManager.EncryptionManager.Decrypt: a ciphertext shorter than 17 bytes is one error here; the program fails while allocating the output buffer.
- A single system in which the pipeline's threads work on monitors: the queue and the pipeline are modelled apart and related by `BoundedQueue.Linearizable` and `BoundedQueue.FifoIsAtomicQueue`.
