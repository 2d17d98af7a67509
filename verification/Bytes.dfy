/** Results, machine integers, byte strings and little-endian integers. */
module Bytes {
  type byte = n: int | 0 <= n < 0x100
  type uint16 = n: int | 0 <= n < 0x1_0000
  type uint32 = n: int | 0 <= n < 0x1_0000_0000
  type uint64 = n: int | 0 <= n < 0x1_0000_0000_0000_0000

  datatype Option<+T> = None | Some(value: T)

  /** What the program throws, one constructor per message. */
  datatype Reason =
    | EmptySelection | NothingToSend            // transfer request creation
    | PathTooLong | BadBufferSize               // transfer request codec
    | SizeMismatch | CannotOpen | ShortRead                  // file reader
    | BadSequence | ChunkTooBig                 // encryption manager
    | CiphertextTooSmall | AuthFailed | FinalMismatch

  datatype Result<+T> = Ok(value: T) | Err(reason: Reason)

  function Min(a: nat, b: nat): nat { if a <= b then a else b }

  // ---- Concatenation ----

  /** The concatenation of a list of byte strings. */
  function Flatten(ss: seq<seq<byte>>): seq<byte> {
    if |ss| == 0 then [] else Flatten(ss[..|ss| - 1]) + ss[|ss| - 1]
  }

  lemma FlattenAppend(ss: seq<seq<byte>>, x: seq<byte>)
    ensures Flatten(ss + [x]) == Flatten(ss) + x
  {
    assert (ss + [x])[..|ss|] == ss;
  }

  lemma FlattenStep(ss: seq<seq<byte>>, i: nat)
    requires i < |ss|
    ensures Flatten(ss[..i + 1]) == Flatten(ss[..i]) + ss[i]
  {
    assert ss[..i + 1] == ss[..i] + [ss[i]];
    FlattenAppend(ss[..i], ss[i]);
  }

  /** Concatenating a prefix of the list gives a prefix of the bytes. */
  lemma {:induction false} FlattenPrefix(ss: seq<seq<byte>>, i: nat)
    requires i <= |ss|
    ensures Flatten(ss[..i]) <= Flatten(ss)
    decreases |ss| - i
  {
    if i == |ss| {
      assert ss[..i] == ss;
    } else {
      FlattenStep(ss, i);
      FlattenPrefix(ss, i + 1);
    }
  }

  lemma {:induction false} FlattenConcat(a: seq<seq<byte>>, b: seq<seq<byte>>)
    ensures Flatten(a + b) == Flatten(a) + Flatten(b)
    decreases |b|
  {
    if |b| == 0 {
      assert a + b == a;
    } else {
      var m := |b| - 1;
      assert a + b == (a + b[..m]) + [b[m]];
      FlattenAppend(a + b[..m], b[m]);
      FlattenConcat(a, b[..m]);
    }
  }

  lemma {:induction false} FlattenEmpties(ss: seq<seq<byte>>)
    ensures Flatten(ss) == [] <==> forall i :: 0 <= i < |ss| ==> ss[i] == []
  {
    if |ss| > 0 {
      var m := |ss| - 1;
      FlattenEmpties(ss[..m]);
      assert forall i :: 0 <= i < m ==> ss[..m][i] == ss[i];
    }
  }

  lemma Associate<T>(a: seq<T>, b: seq<T>, c: seq<T>)
    ensures a + (b + c) == (a + b) + c
  {
  }

  // ---- Little-endian integers ----

  function Pow256(k: nat): nat { if k == 0 then 1 else 256 * Pow256(k - 1) }

  /** `k` bytes of `v`, least significant first. */
  function LE(v: nat, k: nat): (b: seq<byte>)
    ensures |b| == k
  {
    if k == 0 then [] else [v % 256] + LE(v / 256, k - 1)
  }

  function UnLE(b: seq<byte>): nat {
    if |b| == 0 then 0 else b[0] + 256 * UnLE(b[1..])
  }

  lemma {:induction false} UnLEofLE(v: nat, k: nat)
    requires v < Pow256(k)
    ensures UnLE(LE(v, k)) == v
  {
    if k > 0 {
      UnLEofLE(v / 256, k - 1);
      assert LE(v, k)[1..] == LE(v / 256, k - 1);
    }
  }

  lemma {:induction false} LEofUnLE(b: seq<byte>)
    ensures UnLE(b) < Pow256(|b|)
    ensures LE(UnLE(b), |b|) == b
  {
    if |b| > 0 {
      LEofUnLE(b[1..]);
      assert UnLE(b) / 256 == UnLE(b[1..]) && UnLE(b) % 256 == b[0];
      assert b == [b[0]] + b[1..];
    }
  }

  /** The byte order: the least significant byte comes first. */
  lemma {:induction false} LEByte(v: nat, k: nat, i: nat)
    requires i < k
    ensures Pow256(i) > 0 && LE(v, k)[i] == v / Pow256(i) % 256
    decreases i
  {
    if i > 0 {
      LEByte(v / 256, k - 1, i - 1);
      DivTwice(v, Pow256(i - 1));
    }
  }

  lemma DivTwice(v: nat, b: nat)
    requires b > 0
    ensures v / 256 / b == v / (256 * b)
  {
    var q, r := v / 256, v % 256;
    var p, t := q / b, q % b;
    assert q == p * b + t;
    assert p * (256 * b) == 256 * (p * b);
    DivUnique(v, 256 * b, p, 256 * t + r);
  }

  lemma Widths()
    ensures Pow256(1) == 0x100 && Pow256(2) == 0x1_0000
    ensures Pow256(4) == 0x1_0000_0000 && Pow256(8) == 0x1_0000_0000_0000_0000
  {
    assert Pow256(3) == 256 * Pow256(2);
    assert Pow256(5) == 256 * Pow256(4);
    assert Pow256(6) == 256 * Pow256(5);
    assert Pow256(7) == 256 * Pow256(6);
  }

  // ---- Arithmetic ----

  lemma DivUnique(x: nat, c: nat, q: nat, m: nat)
    requires 1 <= c && x == q * c + m && m < c
    ensures x / c == q
  {
    assert x == (x / c) * c + x % c;
    SameQuotient(x / c, x % c, q, m, c);
  }

  lemma SameQuotient(p: nat, k: nat, q: nat, m: nat, c: nat)
    requires p * c + k == q * c + m && k < c && m < c
    ensures p == q
  {
    assert (p + 1) * c == p * c + c;
    assert (q + 1) * c == q * c + c;
    if p < q {
      MulBound(p + 1, c, q, c);
    } else if q < p {
      MulBound(q + 1, c, p, c);
    }
  }

  lemma MulBound(a: nat, b: nat, x: nat, y: nat)
    requires a <= x && b <= y
    ensures a * b <= x * y
  {
    assert a * b <= a * y by { assert a * (y - b) >= 0; }
    assert a * y <= x * y by { assert (x - a) * y >= 0; }
  }
}
