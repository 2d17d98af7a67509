/** Encrypting and decrypting single chunks (src/EncryptionManager.cpp) over an idealised
    secret stream (src/crypto.cpp): pushing a message yields any bytes that are 17 longer,
    pulling accepts exactly the next pushed ciphertext and gives back its message and tag. */
module EncryptionManager {
  import opened Bytes
  import opened Chunks

  /** crypto_secretstream_xchacha20poly1305_ABYTES */
  const ENCRYPTION_ADDITIONAL_BYTES := 17

  /** What makes the two ends of a secret stream belong together. */
  datatype SecretStream = SecretStream(key: seq<byte>, header: seq<byte>)

  /** One message pushed into the stream, with what came out. `number` is the number of the chunk it was pushed for;
      the stream itself does not carry it. */
  datatype Sealed = Sealed(number: uint64, message: seq<byte>, isFinal: bool, ciphertext: seq<byte>)

  /** Decryptor::decrypt at position `pos` of the stream. */
  function Pull(log: seq<Sealed>, pos: nat, input: seq<byte>): Result<Sealed> {
    if |input| < ENCRYPTION_ADDITIONAL_BYTES then Err(CiphertextTooSmall)
    else if pos < |log| && input == log[pos].ciphertext then Ok(log[pos])
    else Err(AuthFailed)
  }

  /** What encrypting `c` pushes into the stream. */
  function SealOf(c: Chunk, ciphertext: seq<byte>, numChunks: nat): Sealed {
    Sealed(c.sequenceNum, c.data[..c.Size()], c.sequenceNum == numChunks, ciphertext)
  }

  function EncryptChunk(c: Chunk, ciphertext: seq<byte>, chunkSize: nat, numChunks: nat): Result<Chunk> {
    if c.sequenceNum == 0 || c.sequenceNum > numChunks then Err(BadSequence)
    else if c.Size() > chunkSize then Err(ChunkTooBig)
    else Ok(Transformed(c.sequenceNum, ciphertext, c.Size()))
  }

  function DecryptChunk(c: Chunk, log: seq<Sealed>, pos: nat, numChunks: nat): Result<Chunk> {
    if c.sequenceNum == 0 || c.sequenceNum > numChunks then Err(BadSequence) else
      match Pull(log, pos, c.data[..c.Size()])
      case Err(e) => Err(e)
      case Ok(s) =>
        if s.isFinal != (c.sequenceNum == numChunks) then Err(FinalMismatch)
        else Ok(Plain(c.sequenceNum, s.message))
  }

  /** What an encryptor has pushed: every message has a legal number, and the final tag is on number `numChunks`
      only. */
  predicate WellTagged(log: seq<Sealed>, numChunks: nat) {
    forall i :: 0 <= i < |log| ==> 1 <= log[i].number <= numChunks && (log[i].isFinal <==> log[i].number == numChunks)
  }

  /** The chunks came in order. */
  predicate Numbered(log: seq<Sealed>) { forall i :: 0 <= i < |log| ==> log[i].number == i + 1 }

  /** An honest encryptor has pushed at most `numChunks` messages and tagged exactly the last one final. */
  predicate HonestLog(log: seq<Sealed>, numChunks: nat) {
    |log| <= numChunks && forall i :: 0 <= i < |log| ==> (log[i].isFinal <==> i == numChunks - 1)
  }

  lemma NumberedIsHonest(log: seq<Sealed>, numChunks: nat)
    requires WellTagged(log, numChunks) && Numbered(log)
    ensures HonestLog(log, numChunks)
  {
    if |log| > 0 { assert log[|log| - 1].number == |log|; }
  }

  /** The plain chunk that decryption has to give back. */
  function Restored(c: Chunk): Chunk { Plain(c.sequenceNum, c.data[..c.Size()]) }

  /** One side of the stream; `sealed` is what an encryptor has pushed, `pulled` how far a decryptor is. */
  class EncryptionManager {
    const chunkSize: uint32
    const numChunks: uint32
    var sealed: seq<Sealed>
    var pulled: nat

    /** What an encryptor keeps. */
    predicate Valid()
      reads this
    {
      && WellTagged(sealed, numChunks)
      && forall i :: 0 <= i < |sealed| ==>
           |sealed[i].message| <= chunkSize
             && |sealed[i].ciphertext| == |sealed[i].message| + ENCRYPTION_ADDITIONAL_BYTES
    }

    /** What a decryptor keeps: it has never pulled more than its peer had pushed. */
    predicate Follows(log: seq<Sealed>)
      reads this
    {
      pulled <= |log|
    }

    constructor (chunkSize: uint32, numChunks: uint32)
      ensures this.chunkSize == chunkSize && this.numChunks == numChunks && sealed == [] && pulled == 0
      ensures Valid() && Follows([])
    {
      this.chunkSize, this.numChunks, sealed, pulled := chunkSize, numChunks, [], 0;
    }

    /** `ciphertext` is what the stream outputs for this message. A refused chunk leaves the stream alone; an accepted
        one is what a decryptor at this place of the stream turns back into the chunk, if its size survives. */
    method Encrypt(c: Chunk, ciphertext: seq<byte>) returns (res: Result<Chunk>)
      requires Valid() && |ciphertext| == c.Size() + ENCRYPTION_ADDITIONAL_BYTES
      modifies this`sealed
      ensures Valid()
      ensures res == EncryptChunk(c, ciphertext, chunkSize, numChunks)
      ensures res.Err? ==> sealed == old(sealed)
      ensures res.Ok? ==>
                && |sealed| == |old(sealed)| + 1 && old(sealed) <= sealed
                && sealed[|old(sealed)|].number == c.sequenceNum && sealed[|old(sealed)|].message == Restored(c).data
      ensures res.Ok? && c.Size() + ENCRYPTION_ADDITIONAL_BYTES <= 0xFFFF ==>
                DecryptChunk(res.value, sealed, |old(sealed)|, numChunks) == Ok(Restored(c))
    {
      if c.sequenceNum == 0 || c.sequenceNum > numChunks {
        return Err(BadSequence);
      }
      if c.Size() > chunkSize {
        return Err(ChunkTooBig);
      }
      var isFinal := c.sequenceNum == numChunks;
      sealed := sealed + [Sealed(c.sequenceNum, c.data[..c.Size()], isFinal, ciphertext)];
      res := Ok(Transformed(c.sequenceNum, ciphertext, c.Size()));
      assert res.value.Size() == |ciphertext| ==> res.value.data[..res.value.Size()] == ciphertext;
    }

    /** `log` is what the peer has pushed so far. A message that authenticates is consumed even when the chunk is then
        refused. Whatever the frame says, an accepted chunk holds the next message of the peer, and it carries the last
        number exactly if the peer tagged that message final. */
    method Decrypt(c: Chunk, log: seq<Sealed>) returns (res: Result<Chunk>)
      requires Follows(log)
      modifies this`pulled
      ensures Follows(log) && old(pulled) <= pulled
      ensures res == DecryptChunk(c, log, old(pulled), numChunks)
      ensures pulled == if res.Ok? || res == Err(FinalMismatch) then old(pulled) + 1 else old(pulled)
      ensures res.Ok? ==>
                && res.value.data == log[old(pulled)].message && res.value.sequenceNum == c.sequenceNum
                && (c.sequenceNum == numChunks <==> log[old(pulled)].isFinal) && 1 <= c.sequenceNum <= numChunks
      ensures res.Ok? && HonestLog(log, numChunks) ==> (c.sequenceNum == numChunks <==> pulled == numChunks)
    {
      if c.sequenceNum == 0 || c.sequenceNum > numChunks {
        return Err(BadSequence);
      }
      var input := c.data[..c.Size()];
      if |input| < ENCRYPTION_ADDITIONAL_BYTES {
        return Err(CiphertextTooSmall);
      }
      if pulled >= |log| || input != log[pulled].ciphertext {
        return Err(AuthFailed);
      }
      var s := log[pulled];
      pulled := pulled + 1;
      if s.isFinal != (c.sequenceNum == numChunks) {
        return Err(FinalMismatch);
      }
      res := Ok(Plain(c.sequenceNum, s.message));
    }
  }

  /** The encryptor on everything its queue will ever hold, in order. It stops at the first chunk it refuses.
      What it emits decrypts to what it took; and if the chunks come numbered from 1, its log is an honest one. */
  method EncryptChunks(manager: EncryptionManager, cs: seq<Chunk>, ciphertexts: seq<seq<byte>>)
    returns (out: seq<Chunk>, failed: Option<Reason>)
    requires manager.Valid() && manager.sealed == [] && |ciphertexts| == |cs|
    requires forall i :: 0 <= i < |cs| ==> |ciphertexts[i]| == cs[i].Size() + ENCRYPTION_ADDITIONAL_BYTES <= 0xFFFF
    modifies manager`sealed
    ensures manager.Valid() && |out| == |manager.sealed| <= |cs|
    ensures DecryptAll(out, manager.sealed, 0, manager.numChunks)
            == seq(|out|, i requires 0 <= i < |out| => Restored(cs[i]))
    ensures failed.None? <==> |out| == |cs|
    ensures forall i :: 0 <= i < |out| ==>
              EncryptChunk(cs[i], ciphertexts[i], manager.chunkSize, manager.numChunks) == Ok(out[i])
    ensures failed.Some? ==>
              EncryptChunk(cs[|out|], ciphertexts[|out|], manager.chunkSize, manager.numChunks) == Err(failed.value)
    ensures (forall i :: 0 <= i < |cs| ==> cs[i].sequenceNum == i + 1) ==> HonestLog(manager.sealed, manager.numChunks)
  {
    hide DecryptChunk, EncryptChunk;
    out, failed := [], None;
    for i := 0 to |cs|
      invariant manager.Valid() && |out| == |manager.sealed| == i
      invariant forall k :: 0 <= k < i ==> manager.sealed[k].number == cs[k].sequenceNum
      invariant forall k :: 0 <= k < i ==>
                  EncryptChunk(cs[k], ciphertexts[k], manager.chunkSize, manager.numChunks) == Ok(out[k])
      invariant forall k :: 0 <= k < i ==>
                  DecryptChunk(out[k], manager.sealed, k, manager.numChunks) == Ok(Restored(cs[k]))
    {
      ghost var log := manager.sealed;
      var result := manager.Encrypt(cs[i], ciphertexts[i]);
      if result.Err? {
        AcceptsAll(out, manager.sealed, 0, manager.numChunks, seq(i, k requires 0 <= k < i => Restored(cs[k])));
        HonestIfNumbered(manager.sealed, manager.numChunks, cs);
        return out, Some(result.reason);
      }
      forall k | 0 <= k < i ensures DecryptChunk(out[k], manager.sealed, k, manager.numChunks) == Ok(Restored(cs[k])) {
        StillDecrypts(out[k], log, manager.sealed, k, manager.numChunks);
      }
      out := out + [result.value];
    }
    AcceptsAll(out, manager.sealed, 0, manager.numChunks, seq(|cs|, k requires 0 <= k < |cs| => Restored(cs[k])));
    HonestIfNumbered(manager.sealed, manager.numChunks, cs);
  }

  lemma HonestIfNumbered(log: seq<Sealed>, numChunks: nat, cs: seq<Chunk>)
    requires WellTagged(log, numChunks) && |log| <= |cs|
    requires forall k :: 0 <= k < |log| ==> log[k].number == cs[k].sequenceNum
    ensures (forall i :: 0 <= i < |cs| ==> cs[i].sequenceNum == i + 1) ==> HonestLog(log, numChunks)
  {
    if forall i :: 0 <= i < |cs| ==> cs[i].sequenceNum == i + 1 {
      NumberedIsHonest(log, numChunks);
    }
  }

  /** The decryptor on everything its queue will ever hold: it passes on what the frames decrypt to, up to the first
      that is refused, and that is a beginning of what the peer has encrypted. */
  method DecryptChunks(manager: EncryptionManager, frames: seq<Chunk>, log: seq<Sealed>)
    returns (out: seq<Chunk>, failed: Option<Reason>)
    requires manager.Follows(log) && manager.pulled == 0
    modifies manager`pulled
    ensures manager.Follows(log) && |out| <= manager.pulled
    ensures out == DecryptAll(frames, log, 0, manager.numChunks) && (failed.None? <==> |out| == |frames|)
    ensures failed.Some? ==> DecryptChunk(frames[|out|], log, |out|, manager.numChunks) == Err(failed.value)
    ensures Payloads(out) <= Messages(log)
    ensures HonestLog(log, manager.numChunks) && |out| == manager.numChunks ==> Payloads(out) == Messages(log)
  {
    hide DecryptChunk, DecryptAll, Payloads, Messages, HonestLog;
    ghost var n := manager.numChunks;
    EmittedArePrefix(frames, log, n);
    if HonestLog(log, n) && |DecryptAll(frames, log, 0, n)| == n { AllAcceptedMeansComplete(frames, log, n); }
    out, failed := [], None;
    assert frames[0..] == frames && [] + DecryptAll(frames, log, 0, n) == DecryptAll(frames, log, 0, n);
    for i := 0 to |frames|
      invariant manager.Follows(log) && |out| == manager.pulled == i
      invariant DecryptAll(frames, log, 0, n) == out + DecryptAll(frames[i..], log, i, n)
    {
      Peel(frames, log, i, n);
      var result := manager.Decrypt(frames[i], log);
      if result.Err? {
        assert out + [] == out;
        return out, Some(result.reason);
      }
      Associate(out, [result.value], DecryptAll(frames[i + 1..], log, i + 1, n));
      out := out + [result.value];
    }
    Peel(frames, log, |frames|, n);
    assert out + [] == out;
  }

  lemma Peel(frames: seq<Chunk>, log: seq<Sealed>, i: nat, numChunks: nat)
    requires i <= |frames|
    ensures DecryptAll(frames[i..], log, i, numChunks) ==
            if i == |frames| || DecryptChunk(frames[i], log, i, numChunks).Err? then []
            else [DecryptChunk(frames[i], log, i, numChunks).value] + DecryptAll(frames[i + 1..], log, i + 1, numChunks)
  {
    hide DecryptChunk;
    if i < |frames| { assert frames[i..][0] == frames[i] && frames[i..][1..] == frames[i + 1..]; }
  }

  /** Decrypting what was encrypted gives the chunk back exactly when the 17 extra bytes
      still fit the 16-bit size; otherwise the shortened ciphertext is refused. */
  lemma DecryptInvertsEncrypt(n: uint64, data: seq<byte>, ciphertext: seq<byte>, chunkSize: nat, numChunks: nat,
                              log: seq<Sealed>, pos: nat)
    requires 1 <= n <= numChunks && |data| <= chunkSize && |data| <= 0xFFFF
    requires |ciphertext| == |data| + ENCRYPTION_ADDITIONAL_BYTES
    requires pos < |log| && log[pos] == SealOf(Plain(n, data), ciphertext, numChunks)
    ensures EncryptChunk(Plain(n, data), ciphertext, chunkSize, numChunks).Ok?
    ensures var e := EncryptChunk(Plain(n, data), ciphertext, chunkSize, numChunks).value;
            if |data| + 17 <= 65535
            then e.Size() == |ciphertext| && DecryptChunk(e, log, pos, numChunks) == Ok(Plain(n, data))
            else DecryptChunk(e, log, pos, numChunks) == Err(CiphertextTooSmall)
  {
    var c := Plain(n, data);
    assert c.data[..c.Size()] == data;
    var e := EncryptChunk(c, ciphertext, chunkSize, numChunks).value;
    if |data| + ENCRYPTION_ADDITIONAL_BYTES <= 0xFFFF {
      assert e.data[..e.Size()] == ciphertext;
    }
  }

  // ---- Arbitrary frames ----

  function Messages(log: seq<Sealed>): (ms: seq<seq<byte>>)
    ensures |ms| == |log| && forall i :: 0 <= i < |log| ==> ms[i] == log[i].message
  {
    seq(|log|, i requires 0 <= i < |log| => log[i].message)
  }

  /** What decrypt_chunks passes on when these frames arrive: it stops at the first refusal. */
  function DecryptAll(frames: seq<Chunk>, log: seq<Sealed>, pos: nat, numChunks: nat): (out: seq<Chunk>)
    ensures |out| <= |frames|
  {
    if |frames| == 0 then [] else
      match DecryptChunk(frames[0], log, pos, numChunks)
      case Err(_) => []
      case Ok(c) => [c] + DecryptAll(frames[1..], log, pos + 1, numChunks)
  }

  /** Nothing is passed on under a number outside the transfer. */
  lemma {:induction false} EmittedNumbers(frames: seq<Chunk>, log: seq<Sealed>, pos: nat, numChunks: nat, i: nat)
    requires i < |DecryptAll(frames, log, pos, numChunks)|
    ensures 1 <= DecryptAll(frames, log, pos, numChunks)[i].sequenceNum <= numChunks
    decreases i
  {
    NumberIsLegal(frames[0], log, pos, numChunks);
    hide DecryptChunk;
    if i > 0 {
      EmittedNumbers(frames[1..], log, pos + 1, numChunks, i - 1);
    }
  }

  lemma NumberIsLegal(c: Chunk, log: seq<Sealed>, pos: nat, numChunks: nat)
    ensures DecryptChunk(c, log, pos, numChunks).Ok? ==>
              1 <= DecryptChunk(c, log, pos, numChunks).value.sequenceNum <= numChunks
  {
  }

  lemma {:induction false} EmittedFrom(frames: seq<Chunk>, log: seq<Sealed>, pos: nat, numChunks: nat)
    requires pos <= |log|
    ensures var out := DecryptAll(frames, log, pos, numChunks);
            && pos + |out| <= |log|
            && forall i :: 0 <= i < |out| ==>
                 out[i].data == log[pos + i].message && (out[i].sequenceNum == numChunks <==> log[pos + i].isFinal)
  {
    if |frames| > 0 && DecryptChunk(frames[0], log, pos, numChunks).Ok? {
      EmittedFrom(frames[1..], log, pos + 1, numChunks);
      var c, rest := DecryptChunk(frames[0], log, pos, numChunks).value,
        DecryptAll(frames[1..], log, pos + 1, numChunks);
      forall i | 0 <= i < 1 + |rest|
        ensures ([c] + rest)[i].data == log[pos + i].message
        ensures ([c] + rest)[i].sequenceNum == numChunks <==> log[pos + i].isFinal
      {
        if i > 0 { assert ([c] + rest)[i] == rest[i - 1]; }
      }
    }
  }

  /** Whatever frames arrive, the payloads that come out are a beginning of those that were encrypted. */
  lemma EmittedArePrefix(frames: seq<Chunk>, log: seq<Sealed>, numChunks: nat)
    ensures Payloads(DecryptAll(frames, log, 0, numChunks)) <= Messages(log)
  {
    EmittedFrom(frames, log, 0, numChunks);
  }

  /** What is accepted stays accepted while the peer pushes more. */
  lemma StillDecrypts(c: Chunk, log: seq<Sealed>, log': seq<Sealed>, pos: nat, numChunks: nat)
    requires log <= log' && DecryptChunk(c, log, pos, numChunks).Ok?
    ensures DecryptChunk(c, log', pos, numChunks) == DecryptChunk(c, log, pos, numChunks)
  {
  }

  /** Frames that are accepted one by one are accepted together. */
  lemma {:induction false} AcceptsAll(frames: seq<Chunk>, log: seq<Sealed>, pos: nat, numChunks: nat, out: seq<Chunk>)
    requires |out| == |frames|
    requires forall i :: 0 <= i < |frames| ==> DecryptChunk(frames[i], log, pos + i, numChunks) == Ok(out[i])
    ensures DecryptAll(frames, log, pos, numChunks) == out
    decreases |frames|
  {
    hide DecryptChunk;
    if |frames| > 0 {
      assert DecryptChunk(frames[0], log, pos + 0, numChunks) == Ok(out[0]);
      forall i | 0 <= i < |frames[1..]|
        ensures DecryptChunk(frames[1..][i], log, pos + 1 + i, numChunks) == Ok(out[1..][i]) {
        assert DecryptChunk(frames[i + 1], log, pos + (i + 1), numChunks) == Ok(out[i + 1]);
      }
      AcceptsAll(frames[1..], log, pos + 1, numChunks, out[1..]);
    }
  }

  /** If all `numChunks` frames are accepted, nothing was left out, and only the last one carried
      the last sequence number and the final tag. */
  lemma AllAcceptedMeansComplete(frames: seq<Chunk>, log: seq<Sealed>, numChunks: nat)
    requires HonestLog(log, numChunks)
    requires |DecryptAll(frames, log, 0, numChunks)| == numChunks
    ensures Payloads(DecryptAll(frames, log, 0, numChunks)) == Messages(log)
    ensures forall i :: 0 <= i < numChunks ==>
              (DecryptAll(frames, log, 0, numChunks)[i].sequenceNum == numChunks <==> i == numChunks - 1)
  {
    EmittedFrom(frames, log, 0, numChunks);
  }
}
