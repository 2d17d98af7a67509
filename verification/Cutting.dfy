/** What the writer must produce: the received bytes, cut into files by their declared sizes. */
module Cutting {
  import opened Bytes

  /** Cut `data` by `sizes`; when the data runs out, the remaining files are short or empty. */
  function CutBySizes(data: seq<byte>, sizes: seq<nat>): (fs: seq<seq<byte>>)
    ensures |fs| == |sizes|
  {
    if |sizes| == 0 then [] else
      var k := Min(|data|, sizes[0]);
      [data[..k]] + CutBySizes(data[k..], sizes[1..])
  }

  function Sizes(fs: seq<seq<byte>>): (ns: seq<nat>)
    ensures |ns| == |fs| && forall i :: 0 <= i < |fs| ==> ns[i] == |fs[i]|
  {
    seq(|fs|, i requires 0 <= i < |fs| => |fs[i]|)
  }

  lemma FlattenFirst(f: seq<byte>, fs: seq<seq<byte>>)
    ensures Flatten([f] + fs) == f + Flatten(fs)
  {
    FlattenConcat([f], fs);
    assert [f][..0] == [];
  }

  lemma CutStep(data: seq<byte>, f: seq<byte>, fs: seq<seq<byte>>, i: nat)
    requires f <= data && i <= |fs|
    ensures Flatten(fs) <= data[|f|..] ==> Flatten([f] + fs) <= data
    ensures Flatten(fs[..i]) == data[|f|..] ==> Flatten(([f] + fs)[..i + 1]) == data
    ensures Flatten([]) == []
  {
    FlattenFirst(f, fs);
    FlattenFirst(f, fs[..i]);
    assert ([f] + fs)[..i + 1] == [f] + fs[..i];
    assert data == f + data[|f|..];
  }

  /** Cutting never invents bytes, and each file is its declared size or everything that was left. */
  lemma {:induction false} CutIsPrefix(data: seq<byte>, sizes: seq<nat>, i: nat)
    requires i < |sizes|
    ensures Flatten(CutBySizes(data, sizes)) <= data
    ensures |CutBySizes(data, sizes)[i]| <= sizes[i]
    ensures |CutBySizes(data, sizes)[i]| < sizes[i] ==> Flatten(CutBySizes(data, sizes)[..i + 1]) == data
    decreases |sizes|
  {
    var k := Min(|data|, sizes[0]);
    var f, fs := data[..k], CutBySizes(data[k..], sizes[1..]);
    if |sizes| > 1 {
      CutIsPrefix(data[k..], sizes[1..], if i == 0 then 0 else i - 1);
    }
    CutStep(data, f, fs, i);
  }

  function Sum(sizes: seq<nat>): nat { if |sizes| == 0 then 0 else sizes[0] + Sum(sizes[1..]) }

  lemma {:induction false} SumAppend(ns: seq<nat>, n: nat)
    ensures Sum(ns + [n]) == Sum(ns) + n
    decreases |ns|
  {
    if |ns| == 0 {
      assert ns + [n] == [n] && [n][1..] == [];
    } else {
      assert (ns + [n])[1..] == ns[1..] + [n];
      SumAppend(ns[1..], n);
    }
  }

  /** Enough data fills every file. */
  lemma {:induction false} CutIsFull(data: seq<byte>, sizes: seq<nat>)
    requires Sum(sizes) <= |data|
    ensures Sizes(CutBySizes(data, sizes)) == sizes
  {
    if |sizes| > 0 {
      CutIsFull(data[sizes[0]..], sizes[1..]);
      var fs := CutBySizes(data[sizes[0]..], sizes[1..]);
      assert forall i :: 1 <= i < |sizes| ==> sizes[i] == Sizes(fs)[i - 1];
    }
  }

  /** If the sizes add up to the data, nothing of it is left over. */
  lemma {:induction false} CutIsAll(data: seq<byte>, sizes: seq<nat>)
    requires Sum(sizes) == |data|
    ensures Flatten(CutBySizes(data, sizes)) == data
    decreases |sizes|
  {
    if |sizes| > 0 {
      var f, fs := data[..sizes[0]], CutBySizes(data[sizes[0]..], sizes[1..]);
      CutIsAll(data[sizes[0]..], sizes[1..]);
      FlattenFirst(f, fs);
      assert data == f + data[sizes[0]..];
    }
  }

  /** Cutting the concatenation by the files' own sizes gives the files back. */
  lemma {:induction false} CutUndoesFlatten(files: seq<seq<byte>>)
    ensures CutBySizes(Flatten(files), Sizes(files)) == files
  {
    if |files| > 0 {
      var f, fs := files[0], files[1..];
      assert files == [f] + fs;
      FlattenFirst(f, fs);
      assert Sizes(files)[1..] == Sizes(fs);
      assert Flatten(files)[..|f|] == f && Flatten(files)[|f|..] == Flatten(fs);
      CutUndoesFlatten(fs);
    }
  }

  // ---- The writer's loop ----

  /** `out` are the files created so far: all but the last are finished, the last is being written. */
  ghost predicate Writing(files: seq<seq<byte>>, out: seq<seq<byte>>) {
    && 1 <= |out| <= |files|
    && out[..|out| - 1] == files[..|out| - 1]
    && out[|out| - 1] <= files[|out| - 1]
  }

  /** Appending to the file being written. */
  function AppendToLast(out: seq<seq<byte>>, piece: seq<byte>): seq<seq<byte>>
    requires |out| >= 1
  {
    out[|out| - 1 := out[|out| - 1] + piece]
  }

  lemma FlattenAppendToLast(out: seq<seq<byte>>, piece: seq<byte>)
    requires |out| >= 1
    ensures Flatten(AppendToLast(out, piece)) == Flatten(out) + piece
  {
    var i := |out| - 1;
    assert AppendToLast(out, piece)[..i] == out[..i];
  }

  /** Writing the next bytes of the stream, no more than the file still needs, writes the file's own bytes. */
  lemma WriteMore(files: seq<seq<byte>>, out: seq<seq<byte>>, piece: seq<byte>)
    requires Writing(files, out)
    requires Flatten(out) + piece <= Flatten(files)
    requires |out[|out| - 1]| + |piece| <= |files[|out| - 1]|
    ensures Writing(files, AppendToLast(out, piece))
  {
    var i := |out| - 1;
    hide Flatten;
    FlattenStep(out, i);
    assert out[..i + 1] == out;
    var whole, before := Flatten(files), Flatten(files[..i]);
    FlattenStep(files, i);
    FlattenPrefix(files, i + 1);
    assert Flatten(out) == before + out[i];
    assert before + files[i] <= whole;
    assert before + (out[i] + piece) <= whole by { assert before + out[i] + piece == before + (out[i] + piece); }
    PrefixOfPrefix(before, out[i] + piece, files[i], whole);
    assert AppendToLast(out, piece)[..i] == files[..i];
  }

  lemma SameEnd(a: seq<byte>, b: seq<byte>, c: seq<byte>)
    requires b <= c && a + c <= a + b
    ensures b == c
  {
  }

  lemma PrefixOfPrefix(a: seq<byte>, b: seq<byte>, c: seq<byte>, w: seq<byte>)
    requires a + b <= w && a + c <= w && |b| <= |c|
    ensures b <= c
  {
    assert b == w[|a|..|a| + |b|] && c == w[|a|..|a| + |c|];
  }

  /** Once every byte is written, the current file is complete and the rest are empty. */
  lemma AllWritten(files: seq<seq<byte>>, out: seq<seq<byte>>)
    requires Writing(files, out) && Flatten(out) == Flatten(files)
    ensures out <= files
    ensures forall j :: |out| <= j < |files| ==> files[j] == []
  {
    hide Flatten;
    var i := |out| - 1;
    FlattenStep(files, i);
    FlattenStep(out, i);
    assert out[..i + 1] == out;
    FlattenPrefix(files, i + 1);
    SameEnd(Flatten(out[..i]), out[i], files[i]);
    FileDone(files, out);
    RestEmpty(files, out);
  }

  lemma RestEmpty(files: seq<seq<byte>>, out: seq<seq<byte>>)
    requires out <= files && Flatten(out) == Flatten(files)
    ensures forall j :: |out| <= j < |files| ==> files[j] == []
  {
    hide Flatten;
    var rest := files[|out|..];
    assert files == out + rest;
    FlattenConcat(out, rest);
    FlattenEmpties(rest);
    assert forall j :: |out| <= j < |files| ==> files[j] == rest[j - |out|];
  }

  /** A file that is written to its end is finished. */
  lemma FileDone(files: seq<seq<byte>>, out: seq<seq<byte>>)
    requires Writing(files, out) && |out[|out| - 1]| == |files[|out| - 1]|
    ensures out <= files
  {
    assert out[|out| - 1] == files[|out| - 1];
    assert out == files[..|out|];
  }

  /** Creating the next file, empty. */
  lemma CreateNext(files: seq<seq<byte>>, out: seq<seq<byte>>)
    requires out <= files && |out| < |files|
    ensures Writing(files, out + [[]])
    ensures Flatten(out + [[]]) == Flatten(out)
  {
    FlattenAppend(out, []);
    assert (out + [[]])[..|out|] == files[..|out|];
  }
}
