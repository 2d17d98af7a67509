/** The transfer request: the chunk plan and its wire format (src/TransferRequest.cpp). */
module TransferRequests {
  import opened Bytes

  /** utils::MAX_UNCOMPRESSED_CHUNK_SIZE */
  const MAX_UNCOMPRESSED_CHUNK_SIZE := 8192

  /** The largest transfer whose chunk count fits a 32-bit integer. */
  const MAX_TRANSFER := MAX_UNCOMPRESSED_CHUNK_SIZE * 0xFFFF_FFFF

  datatype FileInfo = FileInfo(path: seq<byte>, size: uint64)

  datatype Request = Request(
    numFiles: uint32, transferSize: uint64, chunkSize: uint32,
    finalChunkSize: uint32, numChunks: uint32, files: seq<FileInfo>)

  // ---- The chunk plan ----

  function TotalSize(files: seq<FileInfo>): nat {
    if |files| == 0 then 0 else TotalSize(files[..|files| - 1]) + files[|files| - 1].size
  }

  /** Size of the last chunk: the final size, unless it is 0. */
  function LastSize(r: Request): nat {
    if r.finalChunkSize != 0 then r.finalChunkSize else r.chunkSize
  }

  /** The plan cuts `total` bytes into chunks that are all full except possibly the last. */
  predicate Covers(r: Request, total: nat) {
    && 1 <= r.numChunks
    && 1 <= r.chunkSize <= MAX_UNCOMPRESSED_CHUNK_SIZE
    && r.finalChunkSize < r.chunkSize
    && total == (r.numChunks - 1) * r.chunkSize + LastSize(r)
  }

  /** A covering plan the reader can follow: its first buffer has the full chunk size,
      so a single chunk must be a full one. */
  predicate Planned(r: Request, total: nat) {
    Covers(r, total) && (r.numChunks == 1 ==> r.finalChunkSize == 0)
  }

  /** TransferRequest::from_file_paths, with every 32- and 64-bit truncation of the program. */
  method FromFiles(files: seq<FileInfo>) returns (res: Result<Request>)
    ensures res.Err? <==> |files| % 0x1_0000_0000 == 0 || TotalSize(files) % 0x1_0000_0000_0000_0000 == 0
    ensures res.Err? ==> res.reason == if |files| % 0x1_0000_0000 == 0 then EmptySelection else NothingToSend
    ensures res.Ok? ==> res.value == PlanFor(files)
    ensures res.Ok? ==>
              && res.value.numFiles == |files| % 0x1_0000_0000 && res.value.files == files
              && res.value.transferSize == TotalSize(files) % 0x1_0000_0000_0000_0000
              && res.value.chunkSize == (if res.value.transferSize <= 8192 then res.value.transferSize else 8192)
    ensures res.Ok? && |files| < 0x1_0000_0000 && TotalSize(files) <= 8192 * 0xFFFF_FFFF ==>
              && res.value.numFiles == |files| && res.value.transferSize == TotalSize(files)
              && Planned(res.value, TotalSize(files))
  {
    var numFiles: uint32 := |files| % 0x1_0000_0000;
    if numFiles == 0 {
      return Err(EmptySelection);
    }
    var transferSize: uint64 := 0;
    for i := 0 to |files|
      invariant transferSize == TotalSize(files[..i]) % 0x1_0000_0000_0000_0000
    {
      assert files[..i + 1][..i] == files[..i];
      WrapAdd(TotalSize(files[..i]), files[i].size);
      transferSize := (transferSize + files[i].size) % 0x1_0000_0000_0000_0000;
    }
    assert files[..|files|] == files;
    if transferSize == 0 {
      return Err(NothingToSend);
    }
    var chunkSize: uint32 := Min(transferSize, MAX_UNCOMPRESSED_CHUNK_SIZE);
    var lastChunkSize: uint32 := transferSize % chunkSize;
    var numChunks: uint32 :=
      ((transferSize + (chunkSize - 1)) % 0x1_0000_0000_0000_0000) / chunkSize % 0x1_0000_0000;
    res := Ok(Request(numFiles, transferSize, chunkSize, lastChunkSize, numChunks, files));
    assert res.value == PlanFor(files);
    PlanFields(files);
    hide *;
  }

  lemma WrapAdd(a: nat, b: nat)
    ensures (a % 0x1_0000_0000_0000_0000 + b) % 0x1_0000_0000_0000_0000 == (a + b) % 0x1_0000_0000_0000_0000
  {
  }

  /** The request planned for a selection whose total size is not 0 modulo 2^64. */
  function PlanFor(files: seq<FileInfo>): Request
    requires TotalSize(files) % 0x1_0000_0000_0000_0000 != 0
  {
    var t: uint64 := TotalSize(files) % 0x1_0000_0000_0000_0000;
    var c := Min(t, MAX_UNCOMPRESSED_CHUNK_SIZE);
    Request(|files| % 0x1_0000_0000, t, c, t % c,
            ((t + (c - 1)) % 0x1_0000_0000_0000_0000) / c % 0x1_0000_0000, files)
  }

  lemma PlanFields(files: seq<FileInfo>)
    requires TotalSize(files) % 0x1_0000_0000_0000_0000 != 0
    ensures var r := PlanFor(files);
            && r.numFiles == |files| % 0x1_0000_0000 && r.files == files
            && r.transferSize == TotalSize(files) % 0x1_0000_0000_0000_0000
            && r.chunkSize == (if r.transferSize <= 8192 then r.transferSize else 8192)
            && (|files| < 0x1_0000_0000 && TotalSize(files) <= 8192 * 0xFFFF_FFFF ==>
                  && r.numFiles == |files| && r.transferSize == TotalSize(files) && Planned(r, TotalSize(files)))
  {
    PlanHead(files);
    PlanCoversIffItFits(files);
    hide Planned, Covers, TotalSize, PlanFor;
  }

  lemma PlanHead(files: seq<FileInfo>)
    requires TotalSize(files) % 0x1_0000_0000_0000_0000 != 0
    ensures var r, t := PlanFor(files), TotalSize(files) % 0x1_0000_0000_0000_0000;
            && r.numFiles == |files| % 0x1_0000_0000 && r.files == files && r.transferSize == t
            && r.chunkSize == if t <= 8192 then t else 8192
  {
    hide TotalSize;
  }

  /** The plan describes the selected bytes exactly when the chunk count fits 32 bits;
      in particular no 64-bit wrap-around ever yields a usable plan. */
  lemma PlanCoversIffItFits(files: seq<FileInfo>)
    requires TotalSize(files) % 0x1_0000_0000_0000_0000 != 0
    ensures Planned(PlanFor(files), TotalSize(files)) <==> TotalSize(files) <= MAX_TRANSFER
    ensures Covers(PlanFor(files), TotalSize(files)) ==> TotalSize(files) <= MAX_TRANSFER
  {
    var r, total := PlanFor(files), TotalSize(files);
    if total <= MAX_TRANSFER {
      assert r.transferSize == total;
      PlanOf(total);
    } else if Covers(r, total) {
      MulBound(r.numChunks - 1, r.chunkSize, 0xFFFF_FFFE, MAX_UNCOMPRESSED_CHUNK_SIZE);
      assert false;
    }
  }

  /** No truncation happens on a total that fits. */
  lemma PlanOf(total: nat)
    requires 1 <= total <= MAX_TRANSFER
    ensures var c := Min(total, MAX_UNCOMPRESSED_CHUNK_SIZE);
            var n := (total + (c - 1)) / c;
            && (total + (c - 1)) % 0x1_0000_0000_0000_0000 / c % 0x1_0000_0000 == n
            && 1 <= n && total == (n - 1) * c + (if total % c != 0 then total % c else c)
  {
    CeilDiv(total, Min(total, MAX_UNCOMPRESSED_CHUNK_SIZE));
  }

  lemma CeilDiv(t: nat, c: nat)
    requires 1 <= c && 1 <= t
    ensures var n := (t + (c - 1)) / c;
            1 <= n <= t && t == (n - 1) * c + (if t % c != 0 then t % c else c)
    ensures t <= 0xFFFF_FFFF * c ==> (t + (c - 1)) / c <= 0xFFFF_FFFF
  {
    CeilSplit(t, c);
    var n := (t + (c - 1)) / c;
    var last := if t % c != 0 then t % c else c;
    assert n <= t by {
      if n > 1 { MulBound(n - 1, 1, n - 1, c); }
    }
    if t <= 0xFFFF_FFFF * c && n > 0xFFFF_FFFF {
      MulBound(0xFFFF_FFFF, c, n - 1, c);
      assert false;
    }
  }

  lemma CeilSplit(t: nat, c: nat)
    requires 1 <= c && 1 <= t
    ensures var n := (t + (c - 1)) / c;
            1 <= n && t == (n - 1) * c + (if t % c != 0 then t % c else c)
  {
    var q, m := t / c, t % c;
    assert t == q * c + m;
    if m == 0 {
      assert q >= 1;
      assert q * c == (q - 1) * c + c;
      DivUnique(t + (c - 1), c, q, c - 1);
    } else {
      assert (q + 1) * c == q * c + c;
      DivUnique(t + (c - 1), c, q + 1, m - 1);
    }
  }

  // ---- The wire format ----

  predicate PathsFit(files: seq<FileInfo>) {
    forall i :: 0 <= i < |files| ==> |files[i].path| <= 0xFFFF
  }

  function HeaderBytes(r: Request): seq<byte> {
    LE(r.numFiles, 4) + LE(r.transferSize, 8) + LE(r.chunkSize, 4) + LE(r.finalChunkSize, 4) + LE(r.numChunks, 4)
  }

  function FileBytes(f: FileInfo): seq<byte> {
    LE(|f.path| % 0x1_0000, 2) + f.path + LE(f.size, 8)
  }

  function FilesBytes(files: seq<FileInfo>): seq<byte> {
    if |files| == 0 then [] else FileBytes(files[0]) + FilesBytes(files[1..])
  }

  /** What a request looks like on the wire, when its paths fit. */
  function RequestBytes(r: Request): seq<byte> { HeaderBytes(r) + FilesBytes(r.files) }

  lemma {:induction false} FilesBytesAppend(fs: seq<FileInfo>, f: FileInfo)
    ensures FilesBytes(fs + [f]) == FilesBytes(fs) + FileBytes(f)
  {
    if |fs| == 0 {
      assert fs + [f] == [f];
    } else {
      assert (fs + [f])[1..] == fs[1..] + [f];
      FilesBytesAppend(fs[1..], f);
    }
  }

  lemma Grow(r: Request, i: nat, before: seq<byte>, after: seq<byte>)
    requires i < |r.files| && before == HeaderBytes(r) + FilesBytes(r.files[..i])
    requires var f := r.files[i]; after == before + LE(|f.path| % 0x1_0000, 2) + f.path + LE(f.size, 8)
    ensures after == HeaderBytes(r) + FilesBytes(r.files[..i + 1])
  {
    hide LE, UnLE;
    var f := r.files[i];
    assert r.files[..i + 1] == r.files[..i] + [f];
    FilesBytesAppend(r.files[..i], f);
    Reassociate(before, LE(|f.path| % 0x1_0000, 2), f.path, LE(f.size, 8));
    assert after == before + FileBytes(f);
  }

  lemma Reassociate<T>(a: seq<T>, b: seq<T>, c: seq<T>, d: seq<T>)
    ensures a + b + c + d == a + (b + c + d)
    ensures b + c + d == b + (c + d)
  {
  }

  lemma NoFiles(r: Request)
    ensures FilesBytes(r.files[..0]) == []
  {
  }

  /** TransferRequest::serialize: refuses the first path longer than 65535 bytes. */
  method Serialize(r: Request) returns (res: Result<seq<byte>>)
    ensures res == if PathsFit(r.files) then Ok(RequestBytes(r)) else Err(PathTooLong)
  {
    hide LE, FilesBytes;
    var buffer: seq<byte> := [];
    buffer := buffer + LE(r.numFiles, 4);
    buffer := buffer + LE(r.transferSize, 8);
    buffer := buffer + LE(r.chunkSize, 4);
    buffer := buffer + LE(r.finalChunkSize, 4);
    buffer := buffer + LE(r.numChunks, 4);
    NoFiles(r);
    for i := 0 to |r.files|
      invariant PathsFit(r.files[..i])
      invariant buffer == HeaderBytes(r) + FilesBytes(r.files[..i])
    {
      var f := r.files[i];
      if |f.path| > 0xFFFF {
        return Err(PathTooLong);
      }
      ghost var before := buffer;
      buffer := buffer + LE(|f.path| % 0x1_0000, 2);
      buffer := buffer + f.path;
      buffer := buffer + LE(f.size, 8);
      Grow(r, i, before, buffer);
    }
    assert r.files[..|r.files|] == r.files;
    return Ok(buffer);
  }

  /** utils::deserialize of a `k`-byte integer: its value and what follows it. */
  function GetInt(b: seq<byte>, k: nat): Result<(nat, seq<byte>)> {
    if |b| < k then Err(BadBufferSize) else Ok((UnLE(b[..k]), b[k..]))
  }

  /** utils::deserialize of a string resized to `k` bytes. */
  function GetString(b: seq<byte>, k: nat): Result<(seq<byte>, seq<byte>)> {
    if |b| < k then Err(BadBufferSize) else Ok((b[..k], b[k..]))
  }

  function GetFile(b: seq<byte>): (res: Result<(FileInfo, seq<byte>)>)
    ensures res.Ok? ==> |res.value.0.path| <= 0xFFFF
  {
    match GetInt(b, 2)
    case Err(e) => Err(e)
    case Ok((n, b1)) =>
      Int2(b);
      match GetString(b1, n)
      case Err(e) => Err(e)
      case Ok((path, b2)) =>
        match GetInt(b2, 8)
        case Err(e) => Err(e)
        case Ok((size, b3)) => IntFits(b2, 8); Ok((FileInfo(path, size), b3))
  }

  lemma IntFits(b: seq<byte>, k: nat)
    requires k <= |b|
    ensures UnLE(b[..k]) < Pow256(k)
    ensures Pow256(4) == 0x1_0000_0000 && Pow256(8) == 0x1_0000_0000_0000_0000
  {
    LEofUnLE(b[..k]);
    Widths();
  }

  lemma Int2(b: seq<byte>)
    ensures |b| >= 2 ==> UnLE(b[..2]) <= 0xFFFF
  {
    if |b| >= 2 {
      LEofUnLE(b[..2]);
      Widths();
    }
  }

  function GetFiles(b: seq<byte>, n: nat): (res: Result<(seq<FileInfo>, seq<byte>)>)
    ensures res.Ok? ==> |res.value.0| == n && PathsFit(res.value.0)
  {
    if n == 0 then Ok(([], b)) else
      match GetFile(b)
      case Err(e) => Err(e)
      case Ok((f, b1)) =>
        match GetFiles(b1, n - 1)
        case Err(e) => Err(e)
        case Ok((fs, b2)) => Ok(([f] + fs, b2))
  }

  /** The first 24 bytes: a request without files. */
  function GetHeader(b: seq<byte>): (res: Result<(Request, seq<byte>)>)
    ensures res.Ok? <==> |b| >= 24
    ensures res.Err? ==> res.reason == BadBufferSize
  {
    if |b| < 24 then Err(BadBufferSize) else
      IntFits(b, 4); IntFits(b[4..], 8); IntFits(b[12..], 4); IntFits(b[16..], 4); IntFits(b[20..], 4);
      Ok((Request(UnLE(b[..4]), UnLE(b[4..][..8]), UnLE(b[12..][..4]), UnLE(b[16..][..4]), UnLE(b[20..][..4]), []),
          b[24..]))
  }

  /** What a received buffer means. Bytes after the last file are ignored. */
  function Parse(b: seq<byte>): (res: Result<Request>)
    ensures res.Ok? ==> |res.value.files| == res.value.numFiles && PathsFit(res.value.files)
  {
    match GetHeader(b)
    case Err(e) => Err(e)
    case Ok((h, b1)) =>
      match GetFiles(b1, h.numFiles)
      case Err(e) => Err(e)
      case Ok((fs, _)) => Ok(h.(files := fs))
  }

  /** Putting already read files in front of the result of reading the others. */
  function Prepend(done: seq<FileInfo>, rest: Result<(seq<FileInfo>, seq<byte>)>): Result<(seq<FileInfo>, seq<byte>)> {
    match rest
    case Err(e) => Err(e)
    case Ok((fs, b)) => Ok((done + fs, b))
  }

  lemma PrependNothing(rest: Result<(seq<FileInfo>, seq<byte>)>)
    ensures Prepend([], rest) == rest
  {
    if rest.Ok? { assert [] + rest.value.0 == rest.value.0; }
  }

  /** One bounds-checked read of the iterator `it`. */
  method ReadInt(buffer: seq<byte>, it: nat, k: nat) returns (res: Result<nat>, next: nat)
    requires it <= |buffer|
    ensures res == match GetInt(buffer[it..], k) case Err(e) => Err(e) case Ok((v, _)) => Ok(v)
    ensures res.Ok? ==> next == it + k <= |buffer| && buffer[next..] == buffer[it..][k..] && res.value < Pow256(k)
  {
    if |buffer| - it < k {
      return Err(BadBufferSize), it;
    }
    assert buffer[it..][..k] == buffer[it..it + k];
    LEofUnLE(buffer[it..it + k]);
    return Ok(UnLE(buffer[it..it + k])), it + k;
  }

  /** The five fixed-size fields. */
  method ReadHeader(buffer: seq<byte>) returns (res: Result<Request>, it: nat)
    ensures res == match GetHeader(buffer) case Err(e) => Err(e) case Ok((h, _)) => Ok(h)
    ensures res.Ok? ==> it == 24 <= |buffer|
  {
    hide LE, UnLE;
    Widths();
    it := 0;
    var v: Result<nat>;
    assert buffer[0..] == buffer;
    v, it := ReadInt(buffer, it, 4);
    if v.Err? { return Err(v.reason), it; }
    var numFiles := v.value;
    v, it := ReadInt(buffer, it, 8);
    if v.Err? { return Err(v.reason), it; }
    var transferSize := v.value;
    v, it := ReadInt(buffer, it, 4);
    if v.Err? { return Err(v.reason), it; }
    var chunkSize := v.value;
    v, it := ReadInt(buffer, it, 4);
    if v.Err? { return Err(v.reason), it; }
    var lastChunkSize := v.value;
    v, it := ReadInt(buffer, it, 4);
    if v.Err? { return Err(v.reason), it; }
    res := Ok(Request(numFiles, transferSize, chunkSize, lastChunkSize, v.value, []));
  }

  /** One length-prefixed path and its file size. */
  method ReadFile(buffer: seq<byte>, start: nat) returns (res: Result<FileInfo>, it: nat)
    requires start <= |buffer|
    ensures res == match GetFile(buffer[start..]) case Err(e) => Err(e) case Ok((f, _)) => Ok(f)
    ensures res.Ok? ==> it <= |buffer| && GetFile(buffer[start..]) == Ok((res.value, buffer[it..]))
  {
    hide LE, UnLE;
    ghost var b := buffer[start..];
    Int2(b);
    Widths();
    var n, size: Result<nat>;
    n, it := ReadInt(buffer, start, 2);
    if n.Err? { return Err(n.reason), it; }
    if |buffer| - it < n.value {
      return Err(BadBufferSize), it;
    }
    var path := buffer[it..it + n.value];
    assert path == b[2..][..n.value];
    it := it + n.value;
    assert buffer[it..] == b[2..][n.value..];
    size, it := ReadInt(buffer, it, 8);
    if size.Err? { return Err(size.reason), it; }
    res := Ok(FileInfo(path, size.value));
  }

  lemma GetOneMore(infos: seq<FileInfo>, b: seq<byte>, n: nat)
    requires n > 0
    ensures Prepend(infos, GetFiles(b, n)) ==
            match GetFile(b) case Err(e) => Err(e) case Ok((f, rest)) => Prepend(infos + [f], GetFiles(rest, n - 1))
  {
    hide GetFile;
    if GetFile(b).Ok? {
      var (f, rest) := GetFile(b).value;
      if GetFiles(rest, n - 1).Ok? {
        var fs := GetFiles(rest, n - 1).value.0;
        assert infos + ([f] + fs) == (infos + [f]) + fs;
      }
    }
  }

  /** TransferRequest::deserialize: an iterator moves over the buffer, the files are appended one by one. */
  method Deserialize(buffer: seq<byte>) returns (res: Result<Request>)
    ensures res == Parse(buffer)
  {
    hide GetFile, GetFiles, LE, UnLE;
    var header, it := ReadHeader(buffer);
    if header.Err? {
      return header;
    }
    var infos: seq<FileInfo> := [];
    PrependNothing(GetFiles(buffer[it..], header.value.numFiles));
    for i := 0 to header.value.numFiles
      invariant 0 <= it <= |buffer|
      invariant GetFiles(buffer[24..], header.value.numFiles)
                == Prepend(infos, GetFiles(buffer[it..], header.value.numFiles - i))
    {
      GetOneMore(infos, buffer[it..], header.value.numFiles - i);
      var file: Result<FileInfo>;
      file, it := ReadFile(buffer, it);
      if file.Err? {
        return Err(file.reason);
      }
      infos := infos + [file.value];
    }
    NoMoreFiles(buffer[it..]);
    assert infos + [] == infos;
    return Ok(header.value.(files := infos));
  }

  lemma NoMoreFiles(b: seq<byte>)
    ensures GetFiles(b, 0) == Ok(([], b))
  {
  }

  // ---- Parsing inverts printing ----

  lemma GetIntOfLE(v: nat, k: nat, rest: seq<byte>)
    requires v < Pow256(k)
    ensures GetInt(LE(v, k) + rest, k) == Ok((v, rest))
  {
    UnLEofLE(v, k);
    assert (LE(v, k) + rest)[..k] == LE(v, k) && (LE(v, k) + rest)[k..] == rest;
  }

  lemma FileRoundTrip(f: FileInfo, rest: seq<byte>)
    requires |f.path| <= 0xFFFF
    ensures GetFile(FileBytes(f) + rest) == Ok((f, rest))
  {
    Widths();
    var b := LE(|f.path|, 2) + (f.path + (LE(f.size, 8) + rest));
    assert FileBytes(f) + rest == b;
    GetIntOfLE(|f.path|, 2, f.path + (LE(f.size, 8) + rest));
    assert (f.path + (LE(f.size, 8) + rest))[..|f.path|] == f.path;
    assert (f.path + (LE(f.size, 8) + rest))[|f.path|..] == LE(f.size, 8) + rest;
    GetIntOfLE(f.size, 8, rest);
  }

  lemma SplitFirst(fs: seq<FileInfo>, rest: seq<byte>)
    requires PathsFit(fs) && |fs| > 0
    ensures GetFile(FilesBytes(fs) + rest) == Ok((fs[0], FilesBytes(fs[1..]) + rest))
  {
    assert FilesBytes(fs) + rest == FileBytes(fs[0]) + (FilesBytes(fs[1..]) + rest);
    FileRoundTrip(fs[0], FilesBytes(fs[1..]) + rest);
  }

  lemma {:induction false} FilesRoundTrip(fs: seq<FileInfo>, n: nat, rest: seq<byte>)
    requires PathsFit(fs) && n <= |fs|
    ensures GetFiles(FilesBytes(fs) + rest, n) == Ok((fs[..n], FilesBytes(fs[n..]) + rest))
  {
    hide LE, UnLE, FileBytes, GetFile;
    if n > 0 {
      SplitFirst(fs, rest);
      FilesRoundTrip(fs[1..], n - 1, rest);
      assert [fs[0]] + fs[1..][..n - 1] == fs[..n];
      assert fs[1..][n - 1..] == fs[n..];
    }
  }

  lemma HeaderRoundTrip(r: Request, rest: seq<byte>)
    ensures GetHeader(HeaderBytes(r) + rest) == Ok((r.(files := []), rest))
  {
    Widths();
    var b := HeaderBytes(r) + rest;
    assert b[..4] == LE(r.numFiles, 4) && b[4..][..8] == LE(r.transferSize, 8);
    assert b[12..][..4] == LE(r.chunkSize, 4) && b[16..][..4] == LE(r.finalChunkSize, 4);
    assert b[20..][..4] == LE(r.numChunks, 4) && b[24..] == rest;
    UnLEofLE(r.numFiles, 4);
    UnLEofLE(r.transferSize, 8);
    UnLEofLE(r.chunkSize, 4);
    UnLEofLE(r.finalChunkSize, 4);
    UnLEofLE(r.numChunks, 4);
  }

  /** Reading back what was written, whatever follows it, gives the request
      exactly when its count agrees with its file list. */
  lemma ParseInvertsPrint(r: Request, junk: seq<byte>)
    requires PathsFit(r.files)
    ensures Parse(RequestBytes(r) + junk) == Ok(r) <==> r.numFiles == |r.files|
  {
    hide LE, UnLE;
    var files := FilesBytes(r.files) + junk;
    assert RequestBytes(r) + junk == HeaderBytes(r) + files;
    HeaderRoundTrip(r, files);
    if r.numFiles == |r.files| {
      FilesRoundTrip(r.files, |r.files|, junk);
      assert r.files[..|r.files|] == r.files;
    }
  }

  /** A planned request is read back, whatever follows it, exactly when the number of files fits 32 bits. */
  lemma PlanIsReadBack(files: seq<FileInfo>, junk: seq<byte>)
    requires TotalSize(files) % 0x1_0000_0000_0000_0000 != 0 && PathsFit(files)
    ensures var r := PlanFor(files);
            Parse(RequestBytes(r) + junk) == Ok(r) && r.numFiles == |files| && r.files == files
            <==> |files| < 0x1_0000_0000
  {
    PlanLists(files);
    ParseInvertsPrint(PlanFor(files), junk);
    FitsWord(|files|);
    hide *;
  }

  lemma FitsWord(n: nat)
    ensures n % 0x1_0000_0000 == n <==> n < 0x1_0000_0000
  {
  }

  lemma PlanLists(files: seq<FileInfo>)
    requires TotalSize(files) % 0x1_0000_0000_0000_0000 != 0
    ensures PlanFor(files).numFiles == |files| % 0x1_0000_0000 && PlanFor(files).files == files
  {
    hide TotalSize;
  }

  /** Where the fields are on the wire. */
  lemma RequestLayout(r: Request)
    ensures var b := RequestBytes(r);
            && |b| >= 24
            && UnLE(b[0..4]) == r.numFiles && UnLE(b[4..12]) == r.transferSize && UnLE(b[12..16]) == r.chunkSize
            && UnLE(b[16..20]) == r.finalChunkSize && UnLE(b[20..24]) == r.numChunks
            && b[24..] == FilesBytes(r.files)
  {
    Widths();
    UnLEofLE(r.numFiles, 4);
    UnLEofLE(r.transferSize, 8);
    UnLEofLE(r.chunkSize, 4);
    UnLEofLE(r.finalChunkSize, 4);
    UnLEofLE(r.numChunks, 4);
    hide LE, UnLE, FilesBytes;
    FiveFields(LE(r.numFiles, 4), LE(r.transferSize, 8), LE(r.chunkSize, 4), LE(r.finalChunkSize, 4),
               LE(r.numChunks, 4), FilesBytes(r.files));
  }

  lemma FiveFields(a: seq<byte>, b: seq<byte>, c: seq<byte>, d: seq<byte>, e: seq<byte>, f: seq<byte>)
    requires |a| == 4 && |b| == 8 && |c| == 4 && |d| == 4 && |e| == 4
    ensures var all := (a + b + c + d + e) + f;
            && all[0..4] == a && all[4..12] == b && all[12..16] == c && all[16..20] == d && all[20..24] == e
            && all[24..] == f
  {
  }

  lemma FileLayout(f: FileInfo)
    requires |f.path| <= 65535
    ensures var b, n := FileBytes(f), |f.path|;
            |b| == n + 10 && UnLE(b[0..2]) == n && b[2..2 + n] == f.path && UnLE(b[2 + n..]) == f.size
  {
    Widths();
    UnLEofLE(|f.path|, 2);
    UnLEofLE(f.size, 8);
    FileFields(f);
    ThreeFields(LE(|f.path|, 2), f.path, LE(f.size, 8));
    hide *;
  }

  lemma FileFields(f: FileInfo)
    requires |f.path| <= 65535
    ensures FileBytes(f) == LE(|f.path|, 2) + f.path + LE(f.size, 8)
  {
    hide LE;
  }

  lemma ThreeFields(a: seq<byte>, b: seq<byte>, c: seq<byte>)
    requires |a| == 2 && |c| == 8
    ensures var all := a + b + c;
            |all| == |b| + 10 && all[0..2] == a && all[2..2 + |b|] == b && all[2 + |b|..] == c
  {
  }

  lemma IntPrints(b: seq<byte>, k: nat)
    requires k <= |b|
    ensures LE(UnLE(b[..k]), k) == b[..k]
  {
    LEofUnLE(b[..k]);
  }

  lemma AcceptedFile(b: seq<byte>)
    requires GetFile(b).Ok?
    ensures var (f, rest) := GetFile(b).value; b == FileBytes(f) + rest
  {
    hide LE, UnLE;
    var n := UnLE(b[..2]);
    Int2(b);
    IntPrints(b, 2);
    var b2 := b[2..][n..];
    IntPrints(b2, 8);
    assert b == b[..2] + (b[2..][..n] + (b2[..8] + b2[8..]));
  }

  lemma {:induction false} AcceptedFiles(b: seq<byte>, n: nat)
    requires GetFiles(b, n).Ok?
    ensures var (fs, rest) := GetFiles(b, n).value; b == FilesBytes(fs) + rest
    decreases n
  {
    hide LE, UnLE, FileBytes, GetFile;
    if n > 0 {
      AcceptedFile(b);
      var (f, b1) := GetFile(b).value;
      AcceptedFiles(b1, n - 1);
      var (fs, b2) := GetFiles(b1, n - 1).value;
      assert ([f] + fs)[1..] == fs;
      assert b == (FileBytes(f) + FilesBytes(fs)) + b2;
    }
  }

  lemma HeaderPrints(b: seq<byte>)
    requires |b| >= 24
    ensures HeaderBytes(GetHeader(b).value.0) + b[24..] == b
  {
    hide LE, UnLE;
    IntPrints(b, 4);
    IntPrints(b[4..], 8);
    IntPrints(b[12..], 4);
    IntPrints(b[16..], 4);
    IntPrints(b[20..], 4);
    assert b[..4] + b[4..][..8] + b[12..][..4] + b[16..][..4] + b[20..][..4] == b[..24];
    assert b[..24] + b[24..] == b;
  }

  lemma SameHeader(h: Request, fs: seq<FileInfo>)
    ensures HeaderBytes(h.(files := fs)) == HeaderBytes(h)
  {
  }

  /** An accepted buffer starts with the print of the request read from it. */
  lemma AcceptedStartsWithPrint(b: seq<byte>)
    requires Parse(b).Ok?
    ensures RequestBytes(Parse(b).value) <= b
  {
    hide LE, UnLE, FilesBytes, HeaderBytes, GetFiles;
    var (h, b1) := GetHeader(b).value;
    HeaderPrints(b);
    AcceptedFiles(b1, h.numFiles);
    var (fs, rest) := GetFiles(b1, h.numFiles).value;
    assert Parse(b) == Ok(h.(files := fs));
    SameHeader(h, fs);
    assert b == HeaderBytes(h) + (FilesBytes(fs) + rest);
  }

  /** A request cut short anywhere is refused. */
  lemma TruncatedIsRejected(r: Request, p: seq<byte>)
    requires PathsFit(r.files) && r.numFiles == |r.files|
    requires p < RequestBytes(r)
    ensures Parse(p) == Err(BadBufferSize)
  {
    OnlyBadSize(p);
    if Parse(p).Ok? {
      var q := Parse(p).value;
      AcceptedStartsWithPrint(p);
      var junk := RequestBytes(r)[|RequestBytes(q)|..];
      assert RequestBytes(r) == RequestBytes(q) + junk;
      ParseInvertsPrint(q, junk);
      assert RequestBytes(r) + [] == RequestBytes(r);
      ParseInvertsPrint(r, []);
      assert false;
    }
  }

  lemma {:induction false} OnlyBadSizeInFiles(b: seq<byte>, n: nat)
    ensures GetFiles(b, n).Err? ==> GetFiles(b, n).reason == BadBufferSize
  {
    if n > 0 && GetFile(b).Ok? {
      OnlyBadSizeInFiles(GetFile(b).value.1, n - 1);
    }
  }

  lemma OnlyBadSize(b: seq<byte>)
    ensures Parse(b).Err? ==> Parse(b).reason == BadBufferSize
  {
    if GetHeader(b).Ok? {
      var (h, b1) := GetHeader(b).value;
      OnlyBadSizeInFiles(b1, h.numFiles);
    }
  }
}
