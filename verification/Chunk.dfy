/** One unit of the transfer stream (src/Chunk.cpp). */
module Chunks {
  import opened Bytes

  datatype Chunk = Chunk(sequenceNum: uint64, compressed: bool, originalSize: uint16, data: seq<byte>) {
    /** Only the low 16 bits of the length survive. */
    function Size(): uint16 { |data| % 0x1_0000 }
  }

  /** The two-argument constructor: an untransformed chunk. */
  function Plain(sequenceNum: uint64, data: seq<byte>): Chunk {
    Chunk(sequenceNum, false, |data| % 0x1_0000, data)
  }

  /** The three-argument constructor: the stored data stands for `originalSize` bytes. */
  function Transformed(sequenceNum: uint64, data: seq<byte>, originalSize: uint16): Chunk {
    Chunk(sequenceNum, true, originalSize, data)
  }

  /** The payloads of a list of chunks. */
  function Payloads(cs: seq<Chunk>): (ps: seq<seq<byte>>)
    ensures |ps| == |cs| && forall i :: 0 <= i < |cs| ==> ps[i] == cs[i].data
  {
    seq(|cs|, i requires 0 <= i < |cs| => cs[i].data)
  }
}
