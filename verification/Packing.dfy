/** What the reader must produce: the concatenation of all files, cut into chunks by the plan. */
module Packing {
  import opened Bytes
  import opened Chunks
  import opened TransferRequests

  /** "Split the concatenation": full pieces of `c` bytes, then whatever is left. */
  function Split(data: seq<byte>, c: nat): seq<seq<byte>>
    requires c >= 1
  {
    if |data| <= c then [data] else [data[..c]] + Split(data[c..], c)
  }

  lemma {:induction false} FlattenSplit(data: seq<byte>, c: nat)
    requires c >= 1
    ensures Flatten(Split(data, c)) == data
    decreases |data|
  {
    if |data| <= c {
      assert Split(data, c)[..0] == [];
    } else {
      FlattenSplit(data[c..], c);
      FlattenConcat([data[..c]], Split(data[c..], c));
      assert [data[..c]][..0] == [];
    }
  }

  /** Where chunk `k` starts. */
  function Start(r: Request, total: nat, k: nat): nat {
    if k < r.numChunks then k * r.chunkSize else total
  }

  /** The buffer size the reader chooses once `k` chunks are pushed. */
  function Capacity(r: Request, k: nat): nat {
    if k + 1 == r.numChunks && r.finalChunkSize != 0 then r.finalChunkSize else r.chunkSize
  }

  /** The buffer sizes the reader chooses fit the plan exactly. */
  lemma StartStep(r: Request, total: nat, k: nat)
    requires Covers(r, total) && k < r.numChunks
    ensures Start(r, total, k + 1) == Start(r, total, k) + Capacity(r, k) <= total
    ensures 1 <= Capacity(r, k) <= MAX_UNCOMPRESSED_CHUNK_SIZE
  {
    if k + 1 < r.numChunks {
      assert (k + 1) * r.chunkSize == k * r.chunkSize + r.chunkSize;
      MulBound(k + 1, r.chunkSize, r.numChunks - 1, r.chunkSize);
    }
  }

  lemma {:induction false} StartMonotone(r: Request, total: nat, i: nat, j: nat)
    requires Covers(r, total) && i <= j <= r.numChunks
    ensures Start(r, total, i) <= Start(r, total, j) <= total
    ensures i < j ==> Start(r, total, i) < Start(r, total, j)
    decreases j
  {
    if i < j {
      StartStep(r, total, j - 1);
      StartMonotone(r, total, i, j - 1);
    } else if j < r.numChunks {
      StartStep(r, total, j);
    }
  }

  /** The bytes of chunk `k`. */
  function Piece(r: Request, data: seq<byte>, k: nat): (p: seq<byte>)
    requires Covers(r, |data|) && k < r.numChunks
    ensures |p| == Capacity(r, k)
  {
    StartStep(r, |data|, k);
    data[Start(r, |data|, k)..Start(r, |data|, k + 1)]
  }

  /** The chunk list of a transfer: numbered from 1, untransformed. */
  function PlanChunks(r: Request, data: seq<byte>): (cs: seq<Chunk>)
    requires Covers(r, |data|)
    ensures |cs| == r.numChunks
  {
    seq(r.numChunks, k requires 0 <= k < r.numChunks => Plain(k + 1, Piece(r, data, k)))
  }

  /** The first `k` chunks carry exactly the bytes before the start of chunk `k`. */
  lemma {:induction false} PlanPayloads(r: Request, data: seq<byte>, k: nat)
    requires Covers(r, |data|) && k <= r.numChunks
    ensures Start(r, |data|, k) <= |data|
    ensures Flatten(Payloads(PlanChunks(r, data)[..k])) == data[..Start(r, |data|, k)]
  {
    StartWithin(r, |data|, k);
    if k > 0 {
      PlanPayloads(r, data, k - 1);
      StartStep(r, |data|, k - 1);
      PayloadsGrow(r, data, k - 1);
      hide Start, PlanChunks, Flatten, Capacity;
      FlattenAppend(Payloads(PlanChunks(r, data)[..k - 1]), Piece(r, data, k - 1));
    }
  }

  lemma StartWithin(r: Request, total: nat, k: nat)
    requires Covers(r, total) && k <= r.numChunks
    ensures Start(r, total, k) <= total && Start(r, total, 0) == 0
  {
    StartMonotone(r, total, k, r.numChunks);
  }

  lemma PayloadsGrow(r: Request, data: seq<byte>, k: nat)
    requires Covers(r, |data|) && k < r.numChunks
    ensures Payloads(PlanChunks(r, data)[..k + 1]) == Payloads(PlanChunks(r, data)[..k]) + [Piece(r, data, k)]
  {
    hide Piece;
  }

  /** The plan's chunks are the pieces of the simple split. */
  lemma {:induction false} PlanIsSplit(r: Request, data: seq<byte>)
    requires Covers(r, |data|)
    ensures Payloads(PlanChunks(r, data)) == Split(data, r.chunkSize)
    decreases r.numChunks
  {
    hide Capacity, Flatten, Piece, PlanChunks;
    var ps := Payloads(PlanChunks(r, data));
    FirstPiece(r, data);
    PayloadAt(r, data, 0);
    if r.numChunks == 1 {
      assert ps == [data];
    } else {
      ShorterPlan(r, data);
      var rest := r.(numChunks := r.numChunks - 1);
      PlanIsSplit(rest, data[r.chunkSize..]);
      var qs := Payloads(PlanChunks(rest, data[r.chunkSize..]));
      forall k | 1 <= k < r.numChunks ensures ps[k] == qs[k - 1] {
        PayloadAt(r, data, k);
        PayloadAt(rest, data[r.chunkSize..], k - 1);
        ShiftedPiece(r, data, k);
      }
      assert ps == [data[..r.chunkSize]] + qs;
    }
  }

  lemma PayloadAt(r: Request, data: seq<byte>, k: nat)
    requires Covers(r, |data|) && k < r.numChunks
    ensures Payloads(PlanChunks(r, data))[k] == Piece(r, data, k)
  {
  }

  lemma FirstPiece(r: Request, data: seq<byte>)
    requires Covers(r, |data|)
    ensures r.numChunks >= 1
    ensures r.numChunks == 1 ==> |data| <= r.chunkSize
    ensures r.numChunks > 1 ==> |data| >= r.chunkSize
    ensures Piece(r, data, 0) == if r.numChunks == 1 then data else data[..r.chunkSize]
  {
    StartStep(r, |data|, 0);
  }

  lemma ShorterPlan(r: Request, data: seq<byte>)
    requires Covers(r, |data|) && r.numChunks > 1
    ensures |data| > r.chunkSize
    ensures Covers(r.(numChunks := r.numChunks - 1), |data[r.chunkSize..]|)
  {
    MulBound(1, r.chunkSize, r.numChunks - 1, r.chunkSize);
    assert (r.numChunks - 1) * r.chunkSize == (r.numChunks - 2) * r.chunkSize + r.chunkSize;
  }

  lemma ShiftedPiece(r: Request, data: seq<byte>, k: nat)
    requires Covers(r, |data|) && 1 <= k < r.numChunks
    requires |data| > r.chunkSize
    requires Covers(r.(numChunks := r.numChunks - 1), |data[r.chunkSize..]|)
    ensures Piece(r, data, k) == Piece(r.(numChunks := r.numChunks - 1), data[r.chunkSize..], k - 1)
  {
    var rest := r.(numChunks := r.numChunks - 1);
    ShiftedStart(r, |data|, k);
    ShiftedStart(r, |data|, k + 1);
    StartStep(r, |data|, k);
    StartStep(rest, |data| - r.chunkSize, k - 1);
  }

  lemma ShiftedStart(r: Request, total: nat, k: nat)
    requires Covers(r, total) && r.numChunks > 1 && 1 <= k <= r.numChunks && total >= r.chunkSize
    ensures Start(r, total, k) == Start(r.(numChunks := r.numChunks - 1), total - r.chunkSize, k - 1) + r.chunkSize
  {
    assert k * r.chunkSize == (k - 1) * r.chunkSize + r.chunkSize;
  }

  /** The chunks carry the pieces of the plan in order, whatever their numbers and flags. */
  ghost predicate Carries(cs: seq<Chunk>, r: Request, data: seq<byte>) {
    && Covers(r, |data|) && |cs| <= r.numChunks
    && forall k :: 0 <= k < |cs| ==> cs[k].data == Piece(r, data, k)
  }

  ghost predicate CarriesAll(cs: seq<Chunk>, r: Request, data: seq<byte>) {
    Carries(cs, r, data) && |cs| == r.numChunks
  }

  lemma PlanCarries(cs: seq<Chunk>, r: Request, data: seq<byte>)
    requires Covers(r, |data|) && cs <= PlanChunks(r, data)
    ensures Carries(cs, r, data)
    ensures cs == PlanChunks(r, data) ==> CarriesAll(cs, r, data)
  {
    hide Piece;
  }

  // ---- The reader's loop ----

  /** The reader's state after taking `consumed` from the files: complete chunks are pushed,
      the rest waits in a buffer with room for `capacity` bytes. */
  ghost predicate Packed(r: Request, total: nat, consumed: seq<byte>,
                         pushed: seq<Chunk>, filled: seq<byte>, capacity: nat, sequenceCounter: nat)
  {
    && Planned(r, total)
    && |pushed| <= r.numChunks
    && |consumed| <= total
    && |consumed| == Start(r, total, |pushed|) + |filled|
    && filled == consumed[Start(r, total, |pushed|)..]
    && capacity == Capacity(r, |pushed|)
    && |filled| <= capacity
    && sequenceCounter == (|pushed| + 1) % 0x1_0000_0000
    && (forall k :: 0 <= k < |pushed| ==> Whole(r, total, consumed, pushed, k))
  }

  ghost predicate Whole(r: Request, total: nat, consumed: seq<byte>, pushed: seq<Chunk>, k: nat)
    requires k < |pushed|
  {
    && Start(r, total, k) <= Start(r, total, k + 1) <= |consumed|
    && pushed[k] == Plain((k + 1) % 0x1_0000_0000, consumed[Start(r, total, k)..Start(r, total, k + 1)])
  }

  lemma PackedStart(r: Request, total: nat)
    requires Planned(r, total)
    ensures Packed(r, total, [], [], [], r.chunkSize, 1)
  {
  }

  /** Reading a few more bytes into the free part of the buffer. */
  lemma PackedRead(r: Request, total: nat, consumed: seq<byte>, pushed: seq<Chunk>,
                   filled: seq<byte>, capacity: nat, n: nat, more: seq<byte>)
    requires Packed(r, total, consumed, pushed, filled, capacity, n)
    requires |filled| + |more| <= capacity && |consumed| + |more| <= total
    ensures Packed(r, total, consumed + more, pushed, filled + more, capacity, n)
  {
    forall k | 0 <= k < |pushed| ensures Whole(r, total, consumed + more, pushed, k) {
      assert Whole(r, total, consumed, pushed, k);
      var i, j := Start(r, total, k), Start(r, total, k + 1);
      assert (consumed + more)[i..j] == consumed[i..j];
    }
  }

  /** Pushing a full buffer and choosing the next buffer size the way the reader does. */
  lemma PackedPush(r: Request, total: nat, consumed: seq<byte>, pushed: seq<Chunk>,
                   filled: seq<byte>, capacity: nat, n: nat)
    requires Packed(r, total, consumed, pushed, filled, capacity, n)
    requires |filled| == capacity
    ensures |pushed| < r.numChunks && n == |pushed| + 1
    ensures var next := (n + 1) % 0x1_0000_0000;
            var size := if next == r.numChunks && r.finalChunkSize != 0 then r.finalChunkSize else r.chunkSize;
            Packed(r, total, consumed, pushed + [Plain(n, filled)], [], size, next)
  {
    NotAllPushed(r, total, consumed, pushed, filled, capacity, n);
    StartStep(r, total, |pushed|);
    NextCapacity(r, |pushed|);
    hide Start, Planned, Capacity;
    assert consumed[Start(r, total, |pushed|)..Start(r, total, |pushed| + 1)] == filled;
    MoreWhole(r, total, consumed, pushed, Plain(n, filled));
    hide Whole;
    assert consumed[Start(r, total, |pushed| + 1)..] == [];
  }

  /** The size that the reader chooses is that of the next chunk. */
  lemma NextCapacity(r: Request, k: nat)
    requires k < r.numChunks
    ensures var next := (k + 2) % 0x1_0000_0000;
            Capacity(r, k + 1) == if next == r.numChunks && r.finalChunkSize != 0 then r.finalChunkSize else r.chunkSize
  {
  }

  lemma MoreWhole(r: Request, total: nat, consumed: seq<byte>, pushed: seq<Chunk>, c: Chunk)
    requires forall k :: 0 <= k < |pushed| ==> Whole(r, total, consumed, pushed, k)
    requires Whole(r, total, consumed, pushed + [c], |pushed|)
    ensures forall k :: 0 <= k < |pushed + [c]| ==> Whole(r, total, consumed, pushed + [c], k)
  {
    hide Start;
    forall k | 0 <= k < |pushed| ensures Whole(r, total, consumed, pushed + [c], k) {
      assert Whole(r, total, consumed, pushed, k);
    }
  }

  lemma NotAllPushed(r: Request, total: nat, consumed: seq<byte>, pushed: seq<Chunk>,
                     filled: seq<byte>, capacity: nat, n: nat)
    requires Packed(r, total, consumed, pushed, filled, capacity, n) && |filled| == capacity
    ensures |pushed| < r.numChunks && 1 <= r.chunkSize && r.numChunks <= 0xFFFF_FFFF
  {
    hide Whole;
  }

  /** A partly filled buffer is never left behind: when all bytes are consumed, all chunks are pushed. */
  lemma NothingLeft(r: Request, total: nat, consumed: seq<byte>, pushed: seq<Chunk>,
                    filled: seq<byte>, capacity: nat, n: nat)
    requires Packed(r, total, consumed, pushed, filled, capacity, n)
    requires |consumed| == total && |filled| < capacity
    ensures |pushed| == r.numChunks && filled == []
  {
    if |pushed| < r.numChunks {
      StartStep(r, total, |pushed|);
    }
  }

  /** Whatever was pushed is the beginning of the planned chunk list. */
  lemma PackedPrefix(r: Request, data: seq<byte>, consumed: seq<byte>, pushed: seq<Chunk>,
                     filled: seq<byte>, capacity: nat, n: nat)
    requires Packed(r, |data|, consumed, pushed, filled, capacity, n)
    requires consumed <= data
    ensures pushed <= PlanChunks(r, data)
  {
    forall k | 0 <= k < |pushed| ensures pushed[k] == PlanChunks(r, data)[k] {
      assert Whole(r, |data|, consumed, pushed, k);
      WholeIsPlanned(r, data, consumed, pushed, k);
    }
  }

  lemma WholeIsPlanned(r: Request, data: seq<byte>, consumed: seq<byte>, pushed: seq<Chunk>, k: nat)
    requires Covers(r, |data|) && k < |pushed| <= r.numChunks
    requires consumed <= data && Whole(r, |data|, consumed, pushed, k)
    ensures pushed[k] == PlanChunks(r, data)[k]
  {
    StartStep(r, |data|, k);
    var i, j := Start(r, |data|, k), Start(r, |data|, k + 1);
    assert consumed[i..j] == data[i..j];
  }

  /** What the reader has taken from the files: all of the first `i`, and `pos` bytes of the next. */
  ghost function Consumed(cs: seq<seq<byte>>, i: nat, pos: nat): seq<byte>
    requires i <= |cs| && (i < |cs| ==> pos <= |cs[i]|)
  {
    Flatten(cs[..i]) + if i < |cs| then cs[i][..pos] else []
  }

  lemma ConsumeMore(cs: seq<seq<byte>>, i: nat, pos: nat, k: nat)
    requires i < |cs| && pos + k <= |cs[i]|
    ensures Consumed(cs, i, pos + k) == Consumed(cs, i, pos) + cs[i][pos..pos + k]
  {
    assert cs[i][..pos + k] == cs[i][..pos] + cs[i][pos..pos + k];
  }

  lemma ConsumeNext(cs: seq<seq<byte>>, i: nat)
    requires i < |cs|
    ensures Consumed(cs, i, |cs[i]|) == Consumed(cs, i + 1, 0)
    ensures Consumed(cs, i, 0) == Flatten(cs[..i])
  {
    FlattenStep(cs, i);
    assert cs[i][..|cs[i]|] == cs[i];
  }

  lemma ConsumedIsPrefix(cs: seq<seq<byte>>, i: nat, pos: nat)
    requires i <= |cs| && (i < |cs| ==> pos <= |cs[i]|)
    ensures Consumed(cs, i, pos) <= Flatten(cs)
  {
    hide Flatten;
    if i < |cs| {
      FlattenStep(cs, i);
      FlattenPrefix(cs, i + 1);
    } else {
      assert cs[..i] == cs;
    }
  }
}
