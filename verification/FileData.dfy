/** File contents: the bytes of a cluster chain laid end to end, and the loops that read and write them. */
module FileData {
  import opened Bytes
  import opened EntrySets
  import opened Fats
  import opened Footprints
  import opened Geometries
  import opened Volumes

  /** The clusters of `ch` laid end to end. */
  function Flatten(data: seq<seq<byte>>, ch: seq<nat>): seq<byte>
    requires forall i :: 0 <= i < |ch| ==> ch[i] < |data|
  {
    if ch == [] then [] else data[ch[0]] + Flatten(data, ch[1..])
  }

  ghost predicate Sized(data: seq<seq<byte>>, ch: seq<nat>, cb: nat)
  {
    forall i :: 0 <= i < |ch| ==> ch[i] < |data| && |data[ch[i]]| == cb
  }

  lemma {:induction false} FlattenSize(data: seq<seq<byte>>, ch: seq<nat>, cb: nat)
    requires Sized(data, ch, cb)
    ensures |Flatten(data, ch)| == |ch| * cb
  {
    if ch != [] {
      FlattenSize(data, ch[1..], cb);
      BlocksEnd(1, |ch| - 1, cb);
    }
  }

  lemma {:induction false} FlattenAt(data: seq<seq<byte>>, ch: seq<nat>, cb: nat, i: nat, j: nat)
    requires Sized(data, ch, cb) && i < |ch| && j < cb
    ensures i * cb + j < |Flatten(data, ch)|
    ensures Flatten(data, ch)[i * cb + j] == data[ch[i]][j]
  {
    FlattenSize(data, ch[1..], cb);
    if i > 0 {
      FlattenAt(data, ch[1..], cb, i - 1, j);
      BlocksEnd(1, i - 1, cb);
    } else {
      assert i * cb == 0;
    }
  }

  lemma {:induction false} FlattenFrame(data: seq<seq<byte>>, data': seq<seq<byte>>, ch: seq<nat>)
    requires forall i :: 0 <= i < |ch| ==> ch[i] < |data| && ch[i] < |data'| && data'[ch[i]] == data[ch[i]]
    ensures Flatten(data', ch) == Flatten(data, ch)
  {
    if ch != [] {
      FlattenFrame(data, data', ch[1..]);
    }
  }

  lemma {:induction false} FlattenAppend(data: seq<seq<byte>>, a: seq<nat>, b: seq<nat>)
    requires forall i :: 0 <= i < |a| ==> a[i] < |data|
    requires forall i :: 0 <= i < |b| ==> b[i] < |data|
    ensures Flatten(data, a + b) == Flatten(data, a) + Flatten(data, b)
  {
    if a == [] {
      assert a + b == b;
    } else {
      FlattenAppend(data, a[1..], b);
      assert (a + b)[1..] == a[1..] + b;
    }
  }

  lemma SpliceLeft<T>(a: seq<T>, b: seq<T>, at: nat, d: seq<T>)
    requires at + |d| <= |a|
    ensures Splice(a, at, d) + b == Splice(a + b, at, d)
  {
  }

  lemma SpliceRight<T>(a: seq<T>, b: seq<T>, at: nat, d: seq<T>)
    requires at + |d| <= |b|
    ensures |a| + at + |d| <= |a + b|
    ensures a + Splice(b, at, d) == Splice(a + b, |a| + at, d)
  {
    var l, r := a + Splice(b, at, d), Splice(a + b, |a| + at, d);
    assert l[..|a|] == r[..|a|];
    assert r == a + b[..at] + d + b[at + |d|..];
  }

  /** Writing inside the `i`-th cluster of a chain is a splice of the chain's contents. */
  lemma {:induction false} FlattenWrite(data: seq<seq<byte>>, ch: seq<nat>, cb: nat, i: nat, within: nat, d: seq<byte>)
    requires Sized(data, ch, cb) && Distinct(ch) && i < |ch| && within + |d| <= cb
    ensures i * cb + within + |d| <= |Flatten(data, ch)|
    ensures var data' := data[ch[i] := Splice(data[ch[i]], within, d)];
            Flatten(data', ch) == Splice(Flatten(data, ch), i * cb + within, d)
  {
    var data' := data[ch[i] := Splice(data[ch[i]], within, d)];
    var head, rest := data[ch[0]], Flatten(data, ch[1..]);
    FlattenSize(data, ch[1..], cb);
    if i == 0 {
      assert i * cb == 0;
      FlattenFrame(data, data', ch[1..]);
      SpliceLeft(head, rest, within, d);
    } else {
      FlattenWrite(data, ch[1..], cb, i - 1, within, d);
      BlocksEnd(1, i - 1, cb);
      SpliceRight(head, rest, (i - 1) * cb + within, d);
    }
  }

  lemma SpliceTwice<T>(s: seq<T>, at: nat, a: seq<T>, b: seq<T>)
    requires at + |a| + |b| <= |s|
    ensures Splice(Splice(s, at, a), at + |a|, b) == Splice(s, at, a + b)
  {
    var l, r := Splice(Splice(s, at, a), at + |a|, b), Splice(s, at, a + b);
    forall i | 0 <= i < |s|
      ensures l[i] == r[i]
    {
      SpliceAt(s, at, a, i);
      SpliceAt(Splice(s, at, a), at + |a|, b, i);
      SpliceAt(s, at, a + b, i);
    }
  }

  // ---- Writing -------------------------------------------------------------------------

  /** Clusters a file may own: of the volume, each once, none of the bitmap's. */
  ghost predicate FileClusters(g: Geometry, bm: BitmapLoc, ch: seq<nat>)
    requires 0 < g.ClusterBytes()
  {
    Distinct(ch) && forall i :: 0 <= i < |ch| ==> g.InRange(ch[i]) && !g.InBitmapRun(bm, ch[i])
  }

  /** `v` is `v0` except in the contents of the clusters of `cs`. */
  ghost predicate OnlyData(v0: Vol, v: Vol, cs: set<nat>)
  {
    && v.fat == v0.fat && v.bits == v0.bits && |v.data| == |v0.data|
    && forall c :: 0 <= c < |v.data| && c !in cs ==> v.data[c] == v0.data[c]
  }

  lemma OnlyDataConfined(v0: Vol, v: Vol, cs: set<nat>)
    requires OnlyData(v0, v, cs)
    ensures Confined(v0, v, ContentsOf(cs))
  {
  }

  lemma BlockIndex(pos: nat, cb: nat, n: nat)
    requires 0 < cb
    ensures pos / cb < n <==> pos < n * cb
    ensures pos == pos / cb * cb + pos % cb && pos % cb < cb
  {
    DivMod(pos, cb);
    if pos / cb < n {
      MulMono(pos / cb, n, cb);
    } else {
      MulMono(n, pos / cb, cb);
    }
  }

  ghost predicate Written(v0: Vol, v: Vol, chain: seq<nat>, offset: nat, d: seq<byte>, cb: nat)
  {
    && Sized(v0.data, chain, cb) && Sized(v.data, chain, cb)
    && offset + |d| <= |Flatten(v0.data, chain)|
    && Flatten(v.data, chain) == Splice(Flatten(v0.data, chain), offset, d)
  }

  lemma WrittenNothing(v0: Vol, chain: seq<nat>, offset: nat, cb: nat)
    requires Sized(v0.data, chain, cb) && offset <= |chain| * cb
    ensures Written(v0, v0, chain, offset, [], cb)
  {
    FlattenSize(v0.data, chain, cb);
    var f := Flatten(v0.data, chain);
    assert Splice(f, offset, []) == f;
  }

  lemma WrittenMore(v0: Vol, v1: Vol, v2: Vol, chain: seq<nat>, offset: nat, d: seq<byte>, e: seq<byte>, cb: nat)
    requires Written(v0, v1, chain, offset, d, cb) && Written(v1, v2, chain, offset + |d|, e, cb)
    ensures Written(v0, v2, chain, offset, d + e, cb)
  {
    SpliceTwice(Flatten(v0.data, chain), offset, d, e);
  }

  lemma PieceWritten(v0: Vol, chain: seq<nat>, cb: nat, ci: nat, within: nat, d: seq<byte>)
    requires Sized(v0.data, chain, cb) && Distinct(chain) && ci < |chain| && within + |d| <= cb
    ensures var v := v0.WithData(chain[ci], within, d);
            Written(v0, v, chain, ci * cb + within, d, cb) && OnlyData(v0, v, Elems(chain))
  {
    FlattenWrite(v0.data, chain, cb, ci, within, d);
  }

  lemma SizedClusters(v: Volume, chain: seq<nat>)
    requires v.Valid() && 0 < v.geo.ClusterBytes() && FileClusters(v.geo, v.bm, chain)
    ensures Sized(v.vol.data, chain, v.geo.ClusterBytes())
  {
    v.Sizes();
  }

  /** One write of at most a cluster, which the caller keeps inside the cluster that holds `pos`. */
  method WritePiece(v: Volume, chain: seq<nat>, pos: nat, d: seq<byte>) returns (r: Result<()>)
    requires v.Valid() && 0 < v.geo.ClusterBytes() && FileClusters(v.geo, v.bm, chain)
    requires pos % v.geo.ClusterBytes() + |d| <= v.geo.ClusterBytes()
    modifies v, v.disk
    ensures v.Valid()
    ensures r.Ok? <==> pos < |chain| * v.geo.ClusterBytes()
    ensures r.Ok? ==> v.trace == old(v.trace) + [v.vol] && OnlyData(old(v.vol), v.vol, Elems(chain))
    ensures r.Ok? ==> Written(old(v.vol), v.vol, chain, pos, d, v.geo.ClusterBytes())
    ensures r.Err? ==> v.vol == old(v.vol) && v.trace == old(v.trace)
  {
    hide Volume.Valid, Flatten, Distinct, Written, OnlyData, Geometry.ClusterBytes;
    SizedClusters(v, chain);
    var cb := v.geo.ClusterBytes();
    var ci, within := pos / cb, pos % cb;
    BlockIndex(pos, cb, |chain|);
    if ci >= |chain| {
      return Err(Invalid("write past chain"));
    }
    PieceWritten(v.vol, chain, cb, ci, within, d);
    r := v.WriteCluster(chain[ci], within, d);
  }

  /** The common invariant of the two writing loops: `done` bytes of `buf` are on disk. */
  ghost predicate Progress(v0: Vol, v: Vol, chain: seq<nat>, offset: nat, done: seq<byte>, cb: nat)
  {
    && OnlyData(v0, v, Elems(chain))
    && (if offset <= |chain| * cb then Written(v0, v, chain, offset, done, cb) else done == [])
    && (done == [] ==> v == v0)
    && (done != [] ==> offset + |done| <= |chain| * cb)
  }

  lemma ProgressStart(v: Volume, chain: seq<nat>, offset: nat, cb: nat)
    requires v.Valid() && 0 < cb == v.geo.ClusterBytes() && FileClusters(v.geo, v.bm, chain)
    ensures Progress(v.vol, v.vol, chain, offset, [], cb)
  {
    hide Volume.Valid;
    SizedClusters(v, chain);
    if offset <= |chain| * cb {
      WrittenNothing(v.vol, chain, offset, cb);
    }
  }

  lemma ProgressStep(v0: Vol, v1: Vol, v2: Vol, chain: seq<nat>, offset: nat, done: seq<byte>, d: seq<byte>, cb: nat)
    requires 0 < cb && d != [] && (offset + |done|) % cb + |d| <= cb
    requires Progress(v0, v1, chain, offset, done, cb)
    requires offset + |done| < |chain| * cb
    requires Written(v1, v2, chain, offset + |done|, d, cb) && OnlyData(v1, v2, Elems(chain))
    ensures Progress(v0, v2, chain, offset, done + d, cb)
    ensures Confined(v0, v2, ContentsOf(Elems(chain)))
  {
    WrittenMore(v0, v1, v2, chain, offset, done, d, cb);
    OnlyDataConfined(v0, v2, Elems(chain));
    FlattenSize(v0.data, chain, cb);
  }

  /** Write `buf` at `offset` of the chain's contents, cluster by cluster. */
  method WriteRange(v: Volume, chain: seq<nat>, offset: nat, buf: seq<byte>) returns (r: Result<()>)
    requires v.Valid() && 0 < v.geo.ClusterBytes() && FileClusters(v.geo, v.bm, chain)
    modifies v, v.disk
    ensures v.Valid() && old(v.trace) <= v.trace && OnlyData(old(v.vol), v.vol, Elems(chain))
    ensures r.Ok? <==> buf == [] || offset + |buf| <= |chain| * v.geo.ClusterBytes()
    ensures r.Ok? && buf != [] ==> Written(old(v.vol), v.vol, chain, offset, buf, v.geo.ClusterBytes())
    ensures r.Ok? && buf == [] ==> v.vol == old(v.vol)
    ensures Through(old(v.vol), v.trace, |old(v.trace)|, ContentsOf(Elems(chain)))
  {
    hide Volume.Valid, Confined, Progress, FileClusters, Elems, OnlyData, Written, Geometry.ClusterBytes;
    var cb := v.geo.ClusterBytes();
    ghost var v0 := v.vol;
    var done := 0;
    ProgressStart(v, chain, offset, cb);
    while done < |buf|
      invariant v.Valid() && old(v.trace) <= v.trace
      invariant done <= |buf| && Progress(v0, v.vol, chain, offset, buf[..done], cb)
      invariant Through(v0, v.trace, |old(v.trace)|, ContentsOf(Elems(chain)))
    {
      var pos := offset + done;
      BlockIndex(pos, cb, |chain|);
      var n := Min(cb - pos % cb, |buf| - done);
      ghost var v1, piece := v.vol, buf[done..done + n];
      var written := WritePiece(v, chain, pos, buf[done..done + n]);
      if written.Err? {
        ProgressEnd(v0, v.vol, chain, offset, buf[..done], cb);
        return written;
      }
      ProgressStep(v0, v1, v.vol, chain, offset, buf[..done], piece, cb);
      assert buf[..done] + piece == buf[..done + n];
      done := done + n;
    }
    assert buf[..|buf|] == buf;
    ProgressEnd(v0, v.vol, chain, offset, buf, cb);
    return Ok(());
  }

  lemma ProgressEnd(v0: Vol, v: Vol, chain: seq<nat>, offset: nat, done: seq<byte>, cb: nat)
    requires Progress(v0, v, chain, offset, done, cb)
    ensures OnlyData(v0, v, Elems(chain))
    ensures done != [] ==> Written(v0, v, chain, offset, done, cb) && offset + |done| <= |chain| * cb
    ensures done == [] ==> v == v0
  {
  }

  function Zeros(n: nat): (z: seq<byte>)
    ensures |z| == n && forall i :: 0 <= i < n ==> z[i] == 0
  {
    Fill(n, 0)
  }

  lemma ZerosJoin(m: nat, n: nat)
    ensures Zeros(m) + Zeros(n) == Zeros(m + n)
  {
  }

  /** Zero `len` bytes from `offset` of the chain's contents on. */
  method ZeroRange(v: Volume, chain: seq<nat>, offset: nat, len: nat) returns (r: Result<()>)
    requires v.Valid() && 0 < v.geo.ClusterBytes() && FileClusters(v.geo, v.bm, chain)
    modifies v, v.disk
    ensures v.Valid() && old(v.trace) <= v.trace && OnlyData(old(v.vol), v.vol, Elems(chain))
    ensures r.Ok? <==> len == 0 || offset + len <= |chain| * v.geo.ClusterBytes()
    ensures r.Ok? && len != 0 ==> Written(old(v.vol), v.vol, chain, offset, Zeros(len), v.geo.ClusterBytes())
    ensures r.Ok? && len == 0 ==> v.vol == old(v.vol)
    ensures Through(old(v.vol), v.trace, |old(v.trace)|, ContentsOf(Elems(chain)))
  {
    hide Volume.Valid, Confined, Progress, FileClusters, Elems, OnlyData, Written, Geometry.ClusterBytes, Zeros;
    var cb := v.geo.ClusterBytes();
    ghost var v0 := v.vol;
    var done := 0;
    ProgressStart(v, chain, offset, cb);
    assert Zeros(0) == [];
    while done < len
      invariant v.Valid() && old(v.trace) <= v.trace
      invariant done <= len && Progress(v0, v.vol, chain, offset, Zeros(done), cb)
      invariant Through(v0, v.trace, |old(v.trace)|, ContentsOf(Elems(chain)))
    {
      var pos := offset + done;
      BlockIndex(pos, cb, |chain|);
      var n := Min(cb - pos % cb, len - done);
      ghost var v1 := v.vol;
      var written := WritePiece(v, chain, pos, Zeros(n));
      if written.Err? {
        ProgressEnd(v0, v.vol, chain, offset, Zeros(done), cb);
        return Err(Invalid("zero past chain"));
      }
      ProgressStep(v0, v1, v.vol, chain, offset, Zeros(done), Zeros(n), cb);
      ZerosJoin(done, n);
      done := done + n;
    }
    ProgressEnd(v0, v.vol, chain, offset, Zeros(len), cb);
    return Ok(());
  }

  // ---- Reading -------------------------------------------------------------------------

  /** The clusters a read of `e` goes through: a run for a NoFatChain file, else what the FAT links, up to
      the number its size calls for. The numbers of a run are added on 32 bits. */
  function ReadClusters(fat: seq<nat>, e: Entry, cb: nat): Result<seq<nat>>
    requires 0 < cb
  {
    if e.noFatChain then Ok(ClusterRun(e, cb))
    else Walk(fat, e.firstCluster, DivCeil(e.size, cb), true)
  }

  function ClusterRun(e: Entry, cb: nat): (run: seq<nat>)
    requires 0 < cb
    ensures |run| == DivCeil(e.size, cb)
  {
    seq(DivCeil(e.size, cb), i requires 0 <= i => (e.firstCluster + i) % 0x1_0000_0000)
  }

  /** Byte `pos` of the file: past ValidDataLength a zero, whatever the disk holds. */
  function FileByte(v: Vol, e: Entry, ch: seq<nat>, cb: nat, pos: nat): byte
    requires 0 < cb
  {
    if pos < e.validSize && Backed(v, e, ch, cb, pos) then v.data[ch[pos / cb]][pos % cb] else 0
  }

  /** Byte `pos` can be read: it is past ValidDataLength or some cluster holds it. */
  predicate Backed(v: Vol, e: Entry, ch: seq<nat>, cb: nat, pos: nat)
    requires 0 < cb
  {
    pos < e.validSize ==>
      pos / cb < |ch| && 2 <= ch[pos / cb] < |v.data| && pos % cb < |v.data[ch[pos / cb]]|
  }

  ghost predicate AllBacked(v: Vol, e: Entry, ch: seq<nat>, cb: nat, from: nat, to: nat)
    requires 0 < cb
  {
    forall p: nat :: from <= p < to ==> Backed(v, e, ch, cb, p)
  }

  /** The bytes of the file from `from` up to `to`. */
  function FileBytes(v: Vol, e: Entry, ch: seq<nat>, cb: nat, from: nat, to: nat): (s: seq<byte>)
    requires 0 < cb && from <= to
    ensures |s| == to - from
  {
    seq<byte>(to - from, i requires 0 <= i < to - from => FileByte(v, e, ch, cb, from + i))
  }

  lemma FileBytesJoin(v: Vol, e: Entry, ch: seq<nat>, cb: nat, a: nat, b: nat, c: nat)
    requires 0 < cb && a <= b <= c
    ensures FileBytes(v, e, ch, cb, a, b) + FileBytes(v, e, ch, cb, b, c) == FileBytes(v, e, ch, cb, a, c)
    ensures AllBacked(v, e, ch, cb, a, b) && AllBacked(v, e, ch, cb, b, c) <==> AllBacked(v, e, ch, cb, a, c)
  {
  }

  lemma SameBlock(pos: nat, cb: nat, p: nat)
    requires 0 < cb && pos <= p && pos % cb + (p - pos) < cb
    ensures p / cb == pos / cb && p % cb == pos % cb + (p - pos)
  {
    DivMod(pos, cb);
    DivModUnique(pos / cb, cb, pos % cb + (p - pos));
  }

  /** A piece of the file inside one cluster: the cluster's bytes as far as they are valid, then zeros. */
  lemma PieceBytes(v: Vol, e: Entry, ch: seq<nat>, cb: nat, pos: nat, n: nat)
    requires 0 < cb && 0 < n && pos % cb + n <= cb && pos < e.validSize
    requires forall i :: 0 <= i < |ch| && 2 <= ch[i] < |v.data| ==> |v.data[ch[i]]| == cb
    ensures var c, w, m := pos / cb, pos % cb, Min(n, e.validSize - pos);
      AllBacked(v, e, ch, cb, pos, pos + n) <==> c < |ch| && 2 <= ch[c] < |v.data|
    ensures var c, w, m := pos / cb, pos % cb, Min(n, e.validSize - pos);
      c < |ch| && 2 <= ch[c] < |v.data| ==>
        FileBytes(v, e, ch, cb, pos, pos + n) == v.data[ch[c]][w..w + m] + Zeros(n - m)
  {
    forall p: nat | pos <= p < pos + n
      ensures p / cb == pos / cb && p % cb == pos % cb + (p - pos)
    {
      SameBlock(pos, cb, p);
    }
    assert AllBacked(v, e, ch, cb, pos, pos + n) ==> Backed(v, e, ch, cb, pos);
    var c, w, m := pos / cb, pos % cb, Min(n, e.validSize - pos);
    if c < |ch| && 2 <= ch[c] < |v.data| {
      var l, r := FileBytes(v, e, ch, cb, pos, pos + n), v.data[ch[c]][w..w + m] + Zeros(n - m);
      forall i | 0 <= i < n
        ensures l[i] == r[i]
      {
        assert l[i] == FileByte(v, e, ch, cb, pos + i);
      }
    }
  }

  lemma PastValid(v: Vol, e: Entry, ch: seq<nat>, cb: nat, pos: nat, n: nat)
    requires 0 < cb && e.validSize <= pos
    ensures AllBacked(v, e, ch, cb, pos, pos + n) && FileBytes(v, e, ch, cb, pos, pos + n) == Zeros(n)
  {
    var l, r := FileBytes(v, e, ch, cb, pos, pos + n), Zeros(n);
    forall i | 0 <= i < n
      ensures l[i] == r[i]
    {
      assert l[i] == FileByte(v, e, ch, cb, pos + i);
    }
  }

  ghost predicate OffBitmap(g: Geometry, bm: BitmapLoc, ch: seq<nat>)
    requires 0 < g.ClusterBytes()
  {
    forall i :: 0 <= i < |ch| ==> !g.InBitmapRun(bm, ch[i])
  }

  lemma ValidPiece(v: Volume, e: Entry, ch: seq<nat>, pos: nat, n: nat, cb: nat, c: nat, w: nat)
    requires v.Valid() && 0 < cb == v.geo.ClusterBytes() && OffBitmap(v.geo, v.bm, ch)
    requires c == pos / cb && w == pos % cb
    requires 0 < n && w + n <= cb && pos < e.validSize
    ensures AllBacked(v.vol, e, ch, cb, pos, pos + n) <==> c < |ch| && v.geo.InRange(ch[c])
    ensures c < |ch| && v.geo.InRange(ch[c]) ==>
      && |v.vol.data| == v.geo.clusterCount + 2
      && |v.vol.data[ch[c]]| == cb
      && FileBytes(v.vol, e, ch, cb, pos, pos + n)
         == v.vol.data[ch[c]][w..w + Min(n, e.validSize - pos)] + Zeros(n - Min(n, e.validSize - pos))
  {
    v.Sizes();
    hide Volume.Valid, Geometry.ClusterBytes, AllBacked, FileBytes, Geometry.InBitmapRun;
    PieceBytes(v.vol, e, ch, cb, pos, n);
  }

  /** Read `n` bytes at `pos`, inside one cluster. */
  method ReadPiece(v: Volume, e: Entry, ch: seq<nat>, pos: nat, n: nat) returns (r: Result<seq<byte>>)
    requires v.Valid() && 0 < v.geo.ClusterBytes() && OffBitmap(v.geo, v.bm, ch)
    requires 0 < n && pos % v.geo.ClusterBytes() + n <= v.geo.ClusterBytes()
    ensures r.Ok? <==> AllBacked(v.vol, e, ch, v.geo.ClusterBytes(), pos, pos + n)
    ensures r.Ok? ==> r.value == FileBytes(v.vol, e, ch, v.geo.ClusterBytes(), pos, pos + n)
  {
    hide Volume.Valid, Geometry.ClusterBytes, AllBacked, FileBytes, Geometry.InBitmapRun;
    var cb := v.geo.ClusterBytes();
    if pos >= e.validSize {
      PastValid(v.vol, e, ch, cb, pos, n);
      return Ok(Zeros(n));
    }
    var nValid := Min(n, e.validSize - pos);
    var ci, within := pos / cb, pos % cb;
    ValidPiece(v, e, ch, pos, n, cb, ci, within);
    if ci >= |ch| {
      return Err(Invalid("cluster chain shorter than file"));
    }
    var got := v.ReadCluster(ch[ci], within, nValid);
    if got.Err? {
      return got;
    }
    return Ok(got.value + Zeros(n - nValid));
  }

  // ---- What is read, said about the disk --------------------------------------------------------

  /** `b` is byte `pos` of the file if that byte lies in cluster `c`: a zero past the valid length. */
  ghost predicate ByteFrom(v: Vol, e: Entry, c: nat, cb: nat, pos: nat, b: byte)
    requires 0 < cb
  {
    if pos < e.validSize then 2 <= c < |v.data| && pos % cb < |v.data[c]| && b == v.data[c][pos % cb] else b == 0
  }

  /** The cluster of a NoFatChain file that holds byte `pos`. */
  function RunCluster(e: Entry, cb: nat, pos: nat): nat
    requires 0 < cb
  {
    (e.firstCluster + pos / cb) % 0x1_0000_0000
  }

  /** `s` is what a NoFatChain file holds from `offset` on. */
  ghost predicate RunHolds(v: Vol, e: Entry, cb: nat, offset: nat, s: seq<byte>)
    requires 0 < cb
  {
    forall i: nat :: i < |s| ==> ByteFrom(v, e, RunCluster(e, cb, offset + i), cb, offset + i, s[i])
  }

  /** The clusters of a NoFatChain file that hold its valid bytes from `from` up to `to` are clusters of the volume. */
  ghost predicate RunInRange(g: Geometry, e: Entry, cb: nat, from: nat, to: nat)
    requires 0 < cb
  {
    forall pos: nat :: from <= pos < to && pos < e.validSize ==> g.InRange(RunCluster(e, cb, pos))
  }

  /** The FAT leads from `first` through the clusters of `ch`. */
  ghost predicate PathFrom(fat: seq<nat>, first: nat, ch: seq<nat>)
  {
    ch != [] && ch[0] == first && Links(fat, ch)
  }

  /** `s` is what a file of those clusters holds from `offset` on. */
  ghost predicate PathHolds(v: Vol, e: Entry, ch: seq<nat>, cb: nat, offset: nat, s: seq<byte>)
    requires 0 < cb
  {
    forall i: nat :: i < |s| ==> PathByte(v, e, ch, cb, offset + i, s[i])
  }

  /** Every valid byte lies in a cluster of the path. */
  ghost predicate PathByte(v: Vol, e: Entry, ch: seq<nat>, cb: nat, pos: nat, b: byte)
    requires 0 < cb
  {
    if pos / cb < |ch| then ByteFrom(v, e, ch[pos / cb], cb, pos, b) else e.validSize <= pos && b == 0
  }

  lemma RunIndex(e: Entry, cb: nat, pos: nat)
    requires 0 < cb && pos < e.size
    ensures pos / cb < |ClusterRun(e, cb)| && ClusterRun(e, cb)[pos / cb] == RunCluster(e, cb, pos)
  {
    DivCeilBounds(e.size, cb);
    BlockIndex(pos, cb, DivCeil(e.size, cb));
  }

  /** A NoFatChain file can be read exactly where its clusters are clusters of the volume. */
  lemma RunBacked(g: Geometry, bm: BitmapLoc, v: Vol, e: Entry, cb: nat, from: nat, to: nat)
    requires 0 < cb && from <= to <= e.size
    requires cb == g.ClusterBytes() && Shaped(g, bm, v) && OffBitmap(g, bm, ClusterRun(e, cb))
    ensures AllBacked(v, e, ClusterRun(e, cb), cb, from, to) <==> RunInRange(g, e, cb, from, to)
  {
    hide Geometry.ClusterBytes, ClusterRun, RunCluster, OffBitmap, Shaped, Backed;
    var run := ClusterRun(e, cb);
    forall pos: nat | from <= pos < to
      ensures Backed(v, e, run, cb, pos) <==> (pos < e.validSize ==> g.InRange(RunCluster(e, cb, pos)))
    {
      RunIndex(e, cb, pos);
      BackedIs(g, bm, v, e, run, cb, pos);
    }
  }

  /** What is read from it lies in those clusters. */
  lemma RunReads(v: Vol, e: Entry, cb: nat, from: nat, to: nat)
    requires 0 < cb && from <= to <= e.size && AllBacked(v, e, ClusterRun(e, cb), cb, from, to)
    ensures RunHolds(v, e, cb, from, FileBytes(v, e, ClusterRun(e, cb), cb, from, to))
  {
    hide ClusterRun, RunCluster, FileByte, Backed, ByteFrom;
    var run := ClusterRun(e, cb);
    var s := FileBytes(v, e, run, cb, from, to);
    forall i: nat | i < |s|
      ensures ByteFrom(v, e, RunCluster(e, cb, from + i), cb, from + i, s[i])
    {
      assert Backed(v, e, run, cb, from + i);
      RunIndex(e, cb, from + i);
      ByteIs(v, e, run, cb, from + i);
    }
  }

  lemma BackedIs(g: Geometry, bm: BitmapLoc, v: Vol, e: Entry, ch: seq<nat>, cb: nat, pos: nat)
    requires 0 < cb && pos / cb < |ch|
    requires cb == g.ClusterBytes() && Shaped(g, bm, v) && OffBitmap(g, bm, ch)
    ensures Backed(v, e, ch, cb, pos) <==> (pos < e.validSize ==> g.InRange(ch[pos / cb]))
  {
    BlockIndex(pos, cb, 0);
    hide Geometry.ClusterBytes, Geometry.InBitmapRun;
  }

  lemma ByteIs(v: Vol, e: Entry, ch: seq<nat>, cb: nat, pos: nat)
    requires 0 < cb && pos / cb < |ch| && Backed(v, e, ch, cb, pos)
    ensures ByteFrom(v, e, ch[pos / cb], cb, pos, FileByte(v, e, ch, cb, pos))
  {
  }

  /** A read of a FAT-chained file goes through a path of the FAT. */
  lemma PathReads(v: Vol, e: Entry, ch: seq<nat>, cb: nat, from: nat, to: nat)
    requires 0 < cb && from <= to && AllBacked(v, e, ch, cb, from, to)
    ensures PathHolds(v, e, ch, cb, from, FileBytes(v, e, ch, cb, from, to))
  {
    hide FileByte, PathByte;
    var s := FileBytes(v, e, ch, cb, from, to);
    forall i: nat | i < |s|
      ensures PathByte(v, e, ch, cb, from + i, s[i])
    {
      assert Backed(v, e, ch, cb, from + i);
      PathByteIs(v, e, ch, cb, from + i);
    }
  }

  lemma PathByteIs(v: Vol, e: Entry, ch: seq<nat>, cb: nat, pos: nat)
    requires 0 < cb && Backed(v, e, ch, cb, pos)
    ensures PathByte(v, e, ch, cb, pos, FileByte(v, e, ch, cb, pos))
  {
  }

  /** The walk of known length follows every path the FAT has, unless the last cluster is marked bad. */
  lemma {:induction false} WalkFollows(fat: seq<nat>, first: nat, ch: seq<nat>)
    requires |fat| <= BAD_CLUSTER && PathFrom(fat, first, ch) && fat[ch[|ch| - 1]] != BAD_CLUSTER
    ensures Walk(fat, first, |ch|, true) == Ok(ch)
    decreases |ch|
  {
    if |ch| == 1 {
      WalkOne(fat, first);
      assert ch == [first];
    } else {
      var t := ch[1..];
      assert forall i :: 0 <= i < |t| ==> t[i] == ch[i + 1];
      assert fat[ch[0]] == ch[1];
      WalkFollows(fat, ch[1], t);
      assert ch == [first] + t;
    }
  }

  lemma WalkOne(fat: seq<nat>, first: nat)
    requires 2 <= first < |fat| && fat[first] != BAD_CLUSTER
    ensures Walk(fat, first, 1, true) == Ok([first])
  {
    assert Walk(fat, fat[first], 0, true) == Ok([]);
    assert [first] + [] == [first];
  }

  /** The FAT leads from the file's first cluster through as many clusters as its size calls for. */
  ghost predicate WholePath(fat: seq<nat>, e: Entry, ch: seq<nat>, cb: nat)
    requires 0 < cb
  {
    PathFrom(fat, e.firstCluster, ch) && |ch| == DivCeil(e.size, cb) && fat[ch[|ch| - 1]] != BAD_CLUSTER
  }

  /** Where there is such a path, the read goes through it. */
  lemma WholePathReads(v: Volume, e: Entry, cb: nat, from: nat, to: nat)
    requires v.Valid() && 0 < cb == v.geo.ClusterBytes() && from <= to <= e.size && !e.noFatChain
    requires ReadClusters(v.vol.fat, e, cb).Ok? ==> OffBitmap(v.geo, v.bm, ReadClusters(v.vol.fat, e, cb).value)
    ensures forall ch :: WholePath(v.vol.fat, e, ch, cb) ==>
      ReadClusters(v.vol.fat, e, cb) == Ok(ch) && AllBacked(v.vol, e, ch, cb, from, to)
  {
    v.Sizes();
    FatBelowBad(v.vol);
    hide Volume.Valid, Geometry.ClusterBytes, OffBitmap, Walk, AllBacked, WholePath, Shaped;
    forall ch | WholePath(v.vol.fat, e, ch, cb)
      ensures ReadClusters(v.vol.fat, e, cb) == Ok(ch) && AllBacked(v.vol, e, ch, cb, from, to)
    {
      WholePathWalk(v.vol.fat, e, ch, cb);
      WholePathBacked(v.geo, v.bm, v.vol, e, ch, cb, from, to);
    }
  }

  lemma FatBelowBad(v: Vol)
    requires v.Unreserved()
    ensures |v.fat| <= BAD_CLUSTER
  {
  }

  lemma WholePathWalk(fat: seq<nat>, e: Entry, ch: seq<nat>, cb: nat)
    requires 0 < cb && |fat| <= BAD_CLUSTER && WholePath(fat, e, ch, cb) && !e.noFatChain
    ensures ReadClusters(fat, e, cb) == Ok(ch)
  {
    WalkFollows(fat, e.firstCluster, ch);
    hide Walk, Links, DivCeil;
  }

  lemma WholePathBacked(g: Geometry, bm: BitmapLoc, v: Vol, e: Entry, ch: seq<nat>, cb: nat, from: nat, to: nat)
    requires 0 < cb && WholePath(v.fat, e, ch, cb) && from <= to <= e.size
    requires cb == g.ClusterBytes() && Shaped(g, bm, v) && OffBitmap(g, bm, ch)
    ensures AllBacked(v, e, ch, cb, from, to)
  {
    ShapedSizes(g, bm, v);
    hide Geometry.ClusterBytes, OffBitmap, Shaped, DivCeil, Backed;
    DivCeilBounds(e.size, cb);
    forall pos: nat | from <= pos < to
      ensures Backed(v, e, ch, cb, pos)
    {
      BlockIndex(pos, cb, |ch|);
      BackedIs(g, bm, v, e, ch, cb, pos);
    }
  }

  lemma ShapedSizes(g: Geometry, bm: BitmapLoc, v: Vol)
    requires Shaped(g, bm, v)
    ensures |v.fat| == g.clusterCount + 2
  {
  }

  lemma WalkPath(fat: seq<nat>, first: nat, n: nat)
    requires 0 < n && Walk(fat, first, n, true).Ok?
    ensures PathFrom(fat, first, Walk(fat, first, n, true).value) && |Walk(fat, first, n, true).value| <= n
  {
    ReadKnownLength(fat, first, n);
    hide Walk;
  }

  /** The reading loop, over the clusters of `chain`. */
  method ReadAlong(v: Volume, e: Entry, chain: seq<nat>, offset: nat, want: nat, buf: array<byte>) returns (r: Result<nat>)
    requires v.Valid() && 0 < v.geo.ClusterBytes() && OffBitmap(v.geo, v.bm, chain) && want <= buf.Length
    modifies buf
    ensures r.Ok? <==> AllBacked(v.vol, e, chain, v.geo.ClusterBytes(), offset, offset + want)
    ensures r.Ok? ==> r.value == want && buf[..want] == FileBytes(v.vol, e, chain, v.geo.ClusterBytes(), offset, offset + want)
    ensures r.Ok? ==> buf[want..] == old(buf[want..])
  {
    hide Volume.Valid, Geometry.ClusterBytes, FileBytes, AllBacked, OffBitmap, Backed;
    var cb := v.geo.ClusterBytes();
    var done := 0;
    NothingRead(v.vol, e, chain, cb, offset);
    while done < want
      invariant done <= want
      invariant buf[done..] == old(buf[..])[done..]
      invariant AllBacked(v.vol, e, chain, cb, offset, offset + done)
      invariant buf[..done] == FileBytes(v.vol, e, chain, cb, offset, offset + done)
    {
      var pos := offset + done;
      BlockIndex(pos, cb, 0);
      var n := Min(cb - pos % cb, want - done);
      var piece := ReadPiece(v, e, chain, pos, n);
      FileBytesJoin(v.vol, e, chain, cb, offset, pos, pos + n);
      if piece.Err? {
        FileBytesJoin(v.vol, e, chain, cb, offset, pos + n, offset + want);
        return Err(piece.error);
      }
      ghost var before := buf[..];
      CopyInto(buf, done, piece.value);
      assert buf[..done + n] == before[..done] + piece.value;
      RestKept(old(buf[..]), before, buf[..], done, n);
      done := done + n;
    }
    return Ok(done);
  }

  /** Read from the file `e` describes, at `offset`, into `buf`; the count falls short of the buffer only at
      the end of the file. A NoFatChain file is read from consecutive clusters, any other along the FAT. */
  method ReadFile(v: Volume, e: Entry, offset: nat, buf: array<byte>) returns (r: Result<nat>)
    requires v.Valid() && 0 < v.geo.ClusterBytes()
    requires var c := ReadClusters(v.vol.fat, e, v.geo.ClusterBytes());
             c.Ok? ==> OffBitmap(v.geo, v.bm, c.value)
    modifies buf
    ensures r.Ok? ==> r.value == if offset < e.size then Min(buf.Length, e.size - offset) else 0
    ensures var c, cb := ReadClusters(v.vol.fat, e, v.geo.ClusterBytes()), v.geo.ClusterBytes();
      r.Ok? <==> !e.isDir && (offset < e.size ==>
        c.Ok? && AllBacked(v.vol, e, c.value, cb, offset, offset + Min(buf.Length, e.size - offset)))
    ensures var c, cb := ReadClusters(v.vol.fat, e, v.geo.ClusterBytes()), v.geo.ClusterBytes();
      r.Ok? && offset < e.size ==> buf[..r.value] == FileBytes(v.vol, e, c.value, cb, offset, offset + r.value)
    ensures e.noFatChain && !e.isDir && offset < e.size ==>
      (r.Ok? <==> RunInRange(v.geo, e, v.geo.ClusterBytes(), offset, offset + Min(buf.Length, e.size - offset)))
    ensures e.noFatChain && r.Ok? ==> RunHolds(v.vol, e, v.geo.ClusterBytes(), offset, buf[..r.value])
    ensures !e.noFatChain && r.Ok? && offset < e.size ==> exists ch ::
      PathFrom(v.vol.fat, e.firstCluster, ch) && |ch| <= DivCeil(e.size, v.geo.ClusterBytes())
      && PathHolds(v.vol, e, ch, v.geo.ClusterBytes(), offset, buf[..r.value])
    ensures !e.noFatChain && !e.isDir && offset < e.size ==>
      forall ch :: WholePath(v.vol.fat, e, ch, v.geo.ClusterBytes()) ==>
        r.Ok? && PathHolds(v.vol, e, ch, v.geo.ClusterBytes(), offset, buf[..r.value])
    ensures r.Ok? ==> buf[r.value..] == old(buf[r.value..])
  {
    hide Volume.Valid, Geometry.ClusterBytes, FileBytes, AllBacked, OffBitmap, Walk, DivCeil, Backed, RunHolds, RunInRange;
    hide PathHolds, PathFrom, WholePath, Shaped;
    if e.isDir {
      return Err(Invalid("read_file on a directory"));
    }
    if offset >= e.size {
      NothingHeld(v.vol, e, v.geo.ClusterBytes(), offset);
      return Ok(0);
    }
    var want := Min(buf.Length, e.size - offset);
    var cb := v.geo.ClusterBytes();
    var chain;
    if e.noFatChain {
      chain := seq(DivCeil(e.size, cb), i requires 0 <= i => (e.firstCluster + i) % 0x1_0000_0000);
      v.Sizes();
      RunBacked(v.geo, v.bm, v.vol, e, cb, offset, offset + want);
      if AllBacked(v.vol, e, chain, cb, offset, offset + want) {
        RunReads(v.vol, e, cb, offset, offset + want);
      }
    } else {
      WholePathReads(v, e, cb, offset, offset + want);
      chain :- ReadChain(v, e.firstCluster, Some(DivCeil(e.size, cb)));
      DivCeilBounds(e.size, cb);
      WalkPath(v.vol.fat, e.firstCluster, DivCeil(e.size, cb));
      if AllBacked(v.vol, e, chain, cb, offset, offset + want) {
        PathReads(v.vol, e, chain, cb, offset, offset + want);
      }
    }
    r := ReadAlong(v, e, chain, offset, want, buf);
  }

  lemma NothingHeld(v: Vol, e: Entry, cb: nat, offset: nat)
    requires 0 < cb
    ensures RunHolds(v, e, cb, offset, [])
  {
  }

  lemma NothingRead(v: Vol, e: Entry, ch: seq<nat>, cb: nat, offset: nat)
    requires 0 < cb
    ensures AllBacked(v, e, ch, cb, offset, offset) && FileBytes(v, e, ch, cb, offset, offset) == []
  {
  }

  lemma RestKept<T>(was: seq<T>, before: seq<T>, after: seq<T>, done: nat, n: nat)
    requires |was| == |before| == |after| && done + n <= |was|
    requires before[done..] == was[done..] && after[done + n..] == before[done + n..]
    ensures after[done + n..] == was[done + n..]
  {
    assert before[done + n..] == before[done..][n..] == was[done..][n..] == was[done + n..];
  }

  /** Copy `d` into the buffer from index `at` on. */
  method CopyInto(buf: array<byte>, at: nat, d: seq<byte>)
    requires at + |d| <= buf.Length
    modifies buf
    ensures buf[..at + |d|] == old(buf[..at]) + d
    ensures buf[at + |d|..] == old(buf[at + |d|..])
  {
    forall i | 0 <= i < |d| {
      buf[at + i] := d[i];
    }
  }
}
