/** A formatted device seen as a FAT, an allocation bitmap and cluster contents.

    Everything above this module reads and writes the disk through the operations of `Volume`, each of
    which is proved to do to the bytes what its contract does to the view. */
module Volumes {
  import opened Bytes
  import opened Disks
  import opened Geometries

  /** The view. Every component is indexed by cluster number; indices 0 and 1 are not clusters.
      The contents of the bitmap's own clusters are left out: `bits` is what they say. */
  datatype Vol = Vol(fat: seq<nat>, bits: seq<bool>, data: seq<seq<byte>>)
  {
    function WithFat(c: nat, v: nat): Vol
      requires c < |fat|
    {
      this.(fat := fat[c := v])
    }

    /** Bits past the last cluster are padding the view does not show. */
    function WithBit(c: nat, on: bool): Vol
    {
      if c < |bits| then this.(bits := bits[c := on]) else this
    }

    function WithData(c: nat, at: nat, d: seq<byte>): Vol
      requires c < |data| && at + |d| <= |data[c]|
    {
      this.(data := data[c := Splice(data[c], at, d)])
    }

    /** No cluster number collides with a reserved FAT value. */
    ghost predicate Unreserved() { 2 <= |fat| <= BAD_CLUSTER }

    /** The 32 bytes at a slot address. */
    function Slot(a: SlotAddr): seq<byte>
    {
      if a.cluster < |data| && SLOT * a.index + SLOT <= |data[a.cluster]|
      then data[a.cluster][SLOT * a.index..SLOT * a.index + SLOT]
      else []
    }
  }

  // ---- The view of an image --------------------------------------------------------------

  function FatWord(img: seq<byte>, g: Geometry, c: nat): nat
  {
    var o := g.FatBase() + 4 * c;
    if o + 4 <= |img| then FromLe(img[o..o + 4]) else 0
  }

  predicate BitOf(img: seq<byte>, g: Geometry, bm: BitmapLoc, c: nat)
  {
    2 <= bm.firstCluster && 2 <= c &&
    var o := g.ClusterStart(bm.firstCluster) + (c - 2) / 8;
    o < |img| && BitSet(img[o], (c - 2) % 8)
  }

  function ClusterOf(img: seq<byte>, g: Geometry, c: nat): seq<byte>
  {
    if 2 <= c && g.ClusterStart(c) + g.ClusterBytes() <= |img|
    then img[g.ClusterStart(c)..g.ClusterStart(c) + g.ClusterBytes()]
    else []
  }

  ghost predicate Shaped(g: Geometry, bm: BitmapLoc, v: Vol)
  {
    && 0 < g.ClusterBytes()
    && |v.fat| == |v.bits| == |v.data| == g.clusterCount + 2
    && (forall c :: g.InRange(c) && !g.InBitmapRun(bm, c) ==> |v.data[c]| == g.ClusterBytes())
    && (forall c :: 0 <= c < |v.fat| ==> v.fat[c] < 0x1_0000_0000)
  }

  /** `v` is what `img` holds. */
  ghost predicate Views(g: Geometry, bm: BitmapLoc, img: seq<byte>, v: Vol)
  {
    && Shaped(g, bm, v)
    && (forall c: nat {:trigger FatWord(img, g, c)} :: g.InRange(c) ==> FatWord(img, g, c) == v.fat[c])
    && (forall c: nat {:trigger BitOf(img, g, bm, c)} :: g.InRange(c) ==> BitOf(img, g, bm, c) == v.bits[c])
    && (forall c: nat {:trigger ClusterOf(img, g, c)} ::
          g.InRange(c) && !g.InBitmapRun(bm, c) ==> ClusterOf(img, g, c) == v.data[c])
  }

  /** Every image that fits the geometry has a view, and only one up to the parts left out. */
  lemma FatWriteViewed(g: Geometry, bm: BitmapLoc, img: seq<byte>, v: Vol, c: nat, value: nat)
    requires g.Fits(bm, |img|) && Views(g, bm, img, v)
    requires g.InRange(c) && value < 0x1_0000_0000 && g.FatBase() + 4 * c + 4 <= |img|
    ensures Views(g, bm, Splice(img, g.FatBase() + 4 * c, Le(value, 4)), v.WithFat(c, value))
  {
    hide Geometry.Fits, Geometry.FatBase, Geometry.HeapBase, Geometry.ClusterBytes, FatWord, BitOf, ClusterOf, Splice, Le;
    var img' := Splice(img, g.FatBase() + 4 * c, Le(value, 4));
    forall c': nat {:trigger FatWord(img', g, c')} | g.InRange(c')
      ensures FatWord(img', g, c') == v.WithFat(c, value).fat[c']
    {
      assert FatWord(img, g, c') == v.fat[c'];
      WordAfterFatWrite(g, bm, img, c, value, c');
    }
    forall c': nat {:trigger BitOf(img', g, bm, c')} | g.InRange(c')
      ensures BitOf(img', g, bm, c') == v.bits[c']
    {
      assert BitOf(img, g, bm, c') == v.bits[c'];
      BitAfterFatWrite(g, bm, img, c, value, c');
    }
    forall c': nat {:trigger ClusterOf(img', g, c')} | g.InRange(c') && !g.InBitmapRun(bm, c')
      ensures ClusterOf(img', g, c') == v.data[c']
    {
      assert ClusterOf(img, g, c') == v.data[c'];
      ClusterAfterFatWrite(g, bm, img, c, value, c');
    }
  }

  lemma FatInside(g: Geometry, bm: BitmapLoc, size: nat, c: nat)
    requires g.Fits(bm, size) && g.InRange(c)
    ensures g.FatBase() + 4 * c + 4 <= g.HeapBase() <= size
  {
    MulNonNegative(g.clusterCount, g.ClusterBytes());
    hide Geometry.FatBase, Geometry.HeapBase, Geometry.ClusterBytes;
  }

  lemma WordAfterFatWrite(g: Geometry, bm: BitmapLoc, img: seq<byte>, c: nat, value: nat, c': nat)
    requires g.Fits(bm, |img|) && g.InRange(c) && g.InRange(c') && value < 0x1_0000_0000
    requires g.FatBase() + 4 * c + 4 <= |img|
    ensures FatWord(Splice(img, g.FatBase() + 4 * c, Le(value, 4)), g, c') == if c' == c then value else FatWord(img, g, c')
  {
    PowersOf256();
    FromLeOfLe(value, 4);
    FatInside(g, bm, |img|, c');
    hide Geometry.Fits, Geometry.FatBase, Geometry.HeapBase, Splice, Le, FromLe, Pow256;
    var at, d, o := g.FatBase() + 4 * c, Le(value, 4), g.FatBase() + 4 * c';
    if c' == c {
      SpliceShows(img, at, d);
    } else {
      SliceOutside(img, at, d, o, o + 4);
    }
  }

  lemma BitAfterFatWrite(g: Geometry, bm: BitmapLoc, img: seq<byte>, c: nat, value: nat, c': nat)
    requires g.Fits(bm, |img|) && g.InRange(c) && g.InRange(c') && g.FatBase() + 4 * c + 4 <= |img|
    ensures BitOf(Splice(img, g.FatBase() + 4 * c, Le(value, 4)), g, bm, c') == BitOf(img, g, bm, c')
  {
    FatInside(g, bm, |img|, c);
    g.BitmapInside(bm, |img|);
    var at' := g.ClusterStart(bm.firstCluster) + (c' - 2) / 8;
    SpliceAt(img, g.FatBase() + 4 * c, Le(value, 4), at');
    MulNonNegative(bm.firstCluster - 2, g.ClusterBytes());
    hide Geometry.FatBase, Geometry.HeapBase, Geometry.ClusterBytes, Splice, Le, BitSet;
  }

  lemma ClusterAfterFatWrite(g: Geometry, bm: BitmapLoc, img: seq<byte>, c: nat, value: nat, c': nat)
    requires g.Fits(bm, |img|) && g.InRange(c) && g.InRange(c') && g.FatBase() + 4 * c + 4 <= |img|
    ensures ClusterOf(Splice(img, g.FatBase() + 4 * c, Le(value, 4)), g, c') == ClusterOf(img, g, c')
  {
    FatInside(g, bm, |img|, c);
    g.ClusterInside(bm, |img|, c');
    MulNonNegative(c' - 2, g.ClusterBytes());
    hide Geometry.Fits, Geometry.FatBase, Geometry.HeapBase, Geometry.ClusterBytes, Splice, Le;
    SliceOutside(img, g.FatBase() + 4 * c, Le(value, 4), g.ClusterStart(c'), g.ClusterStart(c') + g.ClusterBytes());
  }

  /** A write to the heap leaves the FAT alone. */
  lemma WordAfterHeapWrite(g: Geometry, bm: BitmapLoc, img: seq<byte>, at: nat, d: seq<byte>, c: nat)
    requires g.Fits(bm, |img|) && g.InRange(c) && g.HeapBase() <= at && at + |d| <= |img|
    ensures FatWord(Splice(img, at, d), g, c) == FatWord(img, g, c)
  {
    FatInside(g, bm, |img|, c);
    hide Geometry.Fits, Geometry.FatBase, Geometry.HeapBase, Splice;
    SliceOutside(img, at, d, g.FatBase() + 4 * c, g.FatBase() + 4 * c + 4);
  }

  /** A write to the bitmap leaves the other clusters alone. */
  lemma ClusterAfterBitmapWrite(g: Geometry, bm: BitmapLoc, img: seq<byte>, at: nat, d: seq<byte>, c: nat)
    requires g.Fits(bm, |img|) && g.InRange(c) && !g.InBitmapRun(bm, c) && at + |d| <= |img|
    requires g.ClusterStart(bm.firstCluster) <= at && at + |d| <= g.ClusterStart(bm.firstCluster) + bm.lengthBytes
    ensures ClusterOf(Splice(img, at, d), g, c) == ClusterOf(img, g, c)
  {
    g.ClusterInside(bm, |img|, c);
    g.BitmapApart(bm, |img|, c);
    hide Geometry.Fits, Geometry.ClusterStart, Geometry.ClusterBytes, Geometry.InBitmapRun, Splice;
    SliceOutside(img, at, d, g.ClusterStart(c), g.ClusterStart(c) + g.ClusterBytes());
  }

  lemma BitWriteViewed(g: Geometry, bm: BitmapLoc, img: seq<byte>, v: Vol, c: nat, on: bool)
    requires g.Fits(bm, |img|) && Views(g, bm, img, v)
    requires 2 <= c && (c - 2) / 8 < bm.lengthBytes
    requires g.ClusterStart(bm.firstCluster) + bm.lengthBytes <= |img|
    ensures var o := g.ClusterStart(bm.firstCluster) + (c - 2) / 8;
            Views(g, bm, Splice(img, o, [WithBitAt(img[o], (c - 2) % 8, on)]), v.WithBit(c, on))
  {
    var at := g.ClusterStart(bm.firstCluster) + (c - 2) / 8;
    var d := [WithBitAt(img[at], (c - 2) % 8, on)];
    var img' := Splice(img, at, d);
    g.BitmapInside(bm, |img|);
    forall c': nat {:trigger FatWord(img', g, c')} | g.InRange(c')
      ensures FatWord(img', g, c') == v.fat[c']
    {
      assert FatWord(img, g, c') == v.fat[c'];
      WordAfterHeapWrite(g, bm, img, at, d, c');
    }
    forall c': nat {:trigger BitOf(img', g, bm, c')} | g.InRange(c')
      ensures BitOf(img', g, bm, c') == v.WithBit(c, on).bits[c']
    {
      assert BitOf(img, g, bm, c') == v.bits[c'];
      BitAfterBitWrite(img, g, bm, c, on, c');
    }
    forall c': nat {:trigger ClusterOf(img', g, c')} | g.InRange(c') && !g.InBitmapRun(bm, c')
      ensures ClusterOf(img', g, c') == v.data[c']
    {
      assert ClusterOf(img, g, c') == v.data[c'];
      ClusterAfterBitmapWrite(g, bm, img, at, d, c');
    }
  }

  lemma BitAfterBitWrite(img: seq<byte>, g: Geometry, bm: BitmapLoc, c: nat, on: bool, c': nat)
    requires 2 <= c && 2 <= c' && 2 <= bm.firstCluster
    requires g.ClusterStart(bm.firstCluster) + (c - 2) / 8 < |img|
    requires g.ClusterStart(bm.firstCluster) + (c' - 2) / 8 < |img|
    ensures var o := g.ClusterStart(bm.firstCluster) + (c - 2) / 8;
            BitOf(Splice(img, o, [WithBitAt(img[o], (c - 2) % 8, on)]), g, bm, c')
            == if c' == c then on else BitOf(img, g, bm, c')
  {
    var base := g.ClusterStart(bm.firstCluster);
    var at, at' := base + (c - 2) / 8, base + (c' - 2) / 8;
    SpliceAt(img, at, [WithBitAt(img[at], (c - 2) % 8, on)], at');
    WithBitBits(img[at], (c - 2) % 8, on, (c' - 2) % 8);
  }

  lemma DataWriteViewed(g: Geometry, bm: BitmapLoc, img: seq<byte>, v: Vol, c: nat, at: nat, d: seq<byte>)
    requires g.Fits(bm, |img|) && Views(g, bm, img, v)
    requires g.InRange(c) && !g.InBitmapRun(bm, c) && at + |d| <= g.ClusterBytes()
    requires g.ClusterStart(c) + g.ClusterBytes() <= |img|
    ensures Views(g, bm, Splice(img, g.ClusterStart(c) + at, d), v.WithData(c, at, d))
  {
    var o := g.ClusterStart(c) + at;
    var img' := Splice(img, o, d);
    MulNonNegative(c - 2, g.ClusterBytes());
    hide Geometry.ClusterBytes, Geometry.HeapBase, Geometry.FatBase, Splice, FatWord, BitOf, ClusterOf;
    forall c': nat {:trigger FatWord(img', g, c')} | g.InRange(c')
      ensures FatWord(img', g, c') == v.fat[c']
    {
      assert FatWord(img, g, c') == v.fat[c'];
      WordAfterHeapWrite(g, bm, img, o, d, c');
    }
    forall c': nat {:trigger BitOf(img', g, bm, c')} | g.InRange(c')
      ensures BitOf(img', g, bm, c') == v.bits[c']
    {
      assert BitOf(img, g, bm, c') == v.bits[c'];
      BitAfterDataWrite(g, bm, img, c, at, d, c');
    }
    forall c': nat {:trigger ClusterOf(img', g, c')} | g.InRange(c') && !g.InBitmapRun(bm, c')
      ensures ClusterOf(img', g, c') == v.WithData(c, at, d).data[c']
    {
      assert ClusterOf(img, g, c) == v.data[c] && ClusterOf(img, g, c') == v.data[c'];
      ClusterAfterDataWrite(g, bm, img, c, at, d, c');
    }
  }

  lemma BitAfterDataWrite(g: Geometry, bm: BitmapLoc, img: seq<byte>, c: nat, at: nat, d: seq<byte>, c': nat)
    requires g.Fits(bm, |img|) && g.InRange(c) && g.InRange(c') && !g.InBitmapRun(bm, c)
    requires at + |d| <= g.ClusterBytes() && g.ClusterStart(c) + g.ClusterBytes() <= |img|
    ensures BitOf(Splice(img, g.ClusterStart(c) + at, d), g, bm, c') == BitOf(img, g, bm, c')
  {
    g.BitmapByteInside(bm, |img|, c');
    g.BitmapApart(bm, |img|, c);
    hide Geometry.Fits, Geometry.ClusterStart, Geometry.ClusterBytes, Geometry.InBitmapRun, Geometry.ClusterOffset, Splice, BitSet;
    SpliceAt(img, g.ClusterStart(c) + at, d, g.ClusterStart(bm.firstCluster) + (c' - 2) / 8);
  }

  lemma ClusterAfterDataWrite(g: Geometry, bm: BitmapLoc, img: seq<byte>, c: nat, at: nat, d: seq<byte>, c': nat)
    requires g.Fits(bm, |img|)
    requires g.InRange(c) && g.InRange(c') && at + |d| <= g.ClusterBytes()
    requires g.ClusterStart(c) + g.ClusterBytes() <= |img|
    ensures |ClusterOf(img, g, c)| == g.ClusterBytes()
    ensures ClusterOf(Splice(img, g.ClusterStart(c) + at, d), g, c')
         == if c' == c then Splice(ClusterOf(img, g, c), at, d) else ClusterOf(img, g, c')
  {
    hide Geometry.Fits, Geometry.ClusterStart, Geometry.ClusterBytes, Geometry.HeapBase, Geometry.FatBase, Splice;
    g.ClusterInside(bm, |img|, c');
    if c < c' {
      g.ClustersApart(c, c');
    } else if c' < c {
      g.ClustersApart(c', c);
    }
    BlockAfterSplice(img, g.ClusterStart(c), g.ClusterBytes(), at, d, g.ClusterStart(c'));
  }

  lemma ClusterViewed(g: Geometry, bm: BitmapLoc, img: seq<byte>, v: Vol, c: nat, at: nat, n: nat)
    requires g.Fits(bm, |img|) && Views(g, bm, img, v)
    requires g.InRange(c) && !g.InBitmapRun(bm, c) && at + n <= g.ClusterBytes()
    ensures g.ClusterStart(c) + g.ClusterBytes() <= |img|
    ensures img[g.ClusterStart(c) + at..g.ClusterStart(c) + at + n] == v.data[c][at..at + n]
  {
    hide Geometry.ClusterStart, Geometry.ClusterBytes, Geometry.HeapBase, Geometry.FatBase;
    g.ClusterInside(bm, |img|, c);
    assert ClusterOf(img, g, c) == v.data[c];
    SliceOfSlice(img, g.ClusterStart(c), g.ClusterStart(c) + g.ClusterBytes(), at, n);
  }

  // ---- Slots ---------------------------------------------------------------------------

  /** Writing one whole slot changes that slot and no other. */
  lemma SlotWritten(v: Vol, a: SlotAddr, d: seq<byte>, a': SlotAddr)
    requires a.cluster < |v.data| && SLOT * a.index + SLOT <= |v.data[a.cluster]| && |d| == SLOT
    ensures v.WithData(a.cluster, SLOT * a.index, d).Slot(a') == if a' == a then d else v.Slot(a')
  {
    if a'.cluster == a.cluster && SLOT * a'.index + SLOT <= |v.data[a.cluster]| {
      var s, at, lo := v.data[a.cluster], SLOT * a.index, SLOT * a'.index;
      if a'.index == a.index {
        SliceAround(s, at, d, lo, lo + SLOT);
        assert Splice(s[lo..lo + SLOT], 0, d) == d;
      } else {
        SliceOutside(s, at, d, lo, lo + SLOT);
      }
    }
  }

  /** View `k` of a trace is a view of the image it was taken from, both counted from the end. */
  ghost predicate ViewedAt(g: Geometry, bm: BitmapLoc, images: seq<seq<byte>>, trace: seq<Vol>, k: nat)
    requires k < |trace| <= |images|
  {
    Views(g, bm, images[|images| - |trace| + k], trace[k])
  }

  /** The disk, its geometry and its bitmap, as every function of the allocator takes them. */
  class Volume {
    const disk: Disk
    const geo: Geometry
    const bm: BitmapLoc
    /** The view of the disk now. */
    ghost var vol: Vol
    /** The views after each write since the volume was attached; the last is the present one. */
    ghost var trace: seq<Vol>

    ghost predicate Valid()
      reads this, disk
    {
      && disk.Valid()
      && geo.Fits(bm, |disk.bytes|)
      && Views(geo, bm, disk.bytes, vol)
      && 0 < |trace| <= |disk.images|
      && trace[|trace| - 1] == vol
      && (forall k {:trigger ViewedAt(geo, bm, disk.images, trace, k)} :: 0 <= k < |trace| ==>
            ViewedAt(geo, bm, disk.images, trace, k))
    }

    constructor (disk: Disk, geo: Geometry, bm: BitmapLoc, ghost view: Vol)
      requires disk.Valid() && geo.Fits(bm, |disk.bytes|) && Views(geo, bm, disk.bytes, view)
      ensures Valid() && this.disk == disk && this.geo == geo && this.bm == bm
      ensures vol == view && trace == [view]
    {
      this.disk, this.geo, this.bm := disk, geo, bm;
      vol, trace := view, [view];
    }

    /** The sizes a valid volume has. */
    lemma Sizes()
      requires Valid()
      ensures Shaped(geo, bm, vol)
      ensures geo.ClusterBytes() == SLOT * geo.Per() && geo.clusterCount <= 0xFFFF_FFF5
      ensures vol.Unreserved()
    {
    }

    /** One device write, recorded in the view's history. */
    method Put(offset: nat, d: seq<byte>, ghost next: Vol) returns (r: Result<()>)
      requires Valid() && offset + |d| <= |disk.bytes|
      requires Views(geo, bm, Splice(disk.bytes, offset, d), next)
      modifies this, disk
      ensures Valid() && r == Ok(()) && vol == next && trace == old(trace) + [vol]
    {
      hide Views, Splice;
      ghost var n, t := |disk.images|, |trace|;
      r := disk.WriteAt(offset, d);
      vol := next;
      trace := trace + [next];
      forall k | 0 <= k < |trace|
        ensures ViewedAt(geo, bm, disk.images, trace, k)
      {
        if k < t {
          assert ViewedAt(geo, bm, old(disk.images), old(trace), k);
        }
      }
    }

    /** Read the FAT word of `cluster`. */
    method FatEntry(cluster: nat) returns (r: Result<nat>)
      requires Valid()
      ensures |vol.fat| == geo.clusterCount + 2
      ensures r == if geo.InRange(cluster) then Ok(vol.fat[cluster]) else Err(Invalid("FAT index out of range"))
    {
      if cluster < 2 || cluster >= geo.clusterCount + 2 {
        return Err(Invalid("FAT index out of range"));
      }
      MulNonNegative(geo.clusterCount, geo.ClusterBytes());
      var e :- disk.ReadAt(geo.FatBase() + 4 * cluster, 4);
      assert FatWord(disk.bytes, geo, cluster) == vol.fat[cluster];
      return Ok(FromLe(e));
    }

    /** Write the FAT word of `cluster`. */
    method SetFat(cluster: nat, value: nat) returns (r: Result<()>)
      requires Valid() && value < 0x1_0000_0000
      modifies this, disk
      ensures Valid() && |old(vol).fat| == geo.clusterCount + 2
      ensures geo.InRange(cluster) ==>
        r == Ok(()) && vol == old(vol).WithFat(cluster, value) && trace == old(trace) + [vol]
      ensures !geo.InRange(cluster) ==> r.Err? && vol == old(vol) && trace == old(trace)
    {
      if cluster < 2 || cluster >= geo.clusterCount + 2 {
        return Err(Invalid("FAT index out of range"));
      }
      FatInside(geo, bm, |disk.bytes|, cluster);
      FatWriteViewed(geo, bm, disk.bytes, vol, cluster, value);
      r := Put(geo.FatBase() + 4 * cluster, Le(value, 4), vol.WithFat(cluster, value));
    }

    method IsAllocated(cluster: nat) returns (r: Result<bool>)
      requires Valid() && 2 <= cluster
      ensures |vol.bits| == geo.clusterCount + 2
      ensures geo.InRange(cluster) ==> r == Ok(vol.bits[cluster])
      ensures (cluster - 2) / 8 >= bm.lengthBytes ==> r == Err(Invalid("bitmap index out of range"))
    {
      hide Geometry.Fits, Geometry.ClusterBytes, Geometry.ClusterStart, Geometry.ClusterOffset;
      geo.BitmapByteInside(bm, |disk.bytes|, cluster);
      if (cluster - 2) / 8 >= bm.lengthBytes {
        return Err(Invalid("bitmap index out of range"));
      }
      var base :- geo.ClusterOffset(bm.firstCluster);
      var b :- disk.ReadAt(base + (cluster - 2) / 8, 1);
      assert geo.InRange(cluster) ==> BitOf(disk.bytes, geo, bm, cluster) == vol.bits[cluster];
      return Ok(BitSet(b[0], (cluster - 2) % 8));
    }

    method SetBit(cluster: nat, on: bool) returns (r: Result<()>)
      requires Valid() && 2 <= cluster
      modifies this, disk
      ensures Valid()
      ensures (cluster - 2) / 8 < bm.lengthBytes ==>
        r == Ok(()) && vol == old(vol).WithBit(cluster, on) && trace == old(trace) + [vol]
      ensures (cluster - 2) / 8 >= bm.lengthBytes ==> r.Err? && vol == old(vol) && trace == old(trace)
      ensures geo.InRange(cluster) ==> (cluster - 2) / 8 < bm.lengthBytes
    {
      hide Views, WithBitAt, Disk.Valid, Geometry.Fits, Geometry.ClusterStart, Geometry.ClusterOffset, Splice;
      geo.BitmapByteInside(bm, |disk.bytes|, cluster);
      geo.BitmapInside(bm, |disk.bytes|);
      if (cluster - 2) / 8 >= bm.lengthBytes {
        return Err(Invalid("bitmap index out of range"));
      }
      var base :- geo.ClusterOffset(bm.firstCluster);
      var off := base + (cluster - 2) / 8;
      var b :- disk.ReadAt(off, 1);
      assert b[0] == disk.bytes[off];
      BitWriteViewed(geo, bm, disk.bytes, vol, cluster, on);
      r := Put(off, [WithBitAt(b[0], (cluster - 2) % 8, on)], vol.WithBit(cluster, on));
    }

    /** Read `n` bytes at `at` inside `cluster`. */
    method ReadCluster(cluster: nat, at: nat, n: nat) returns (r: Result<seq<byte>>)
      requires Valid() && at + n <= geo.ClusterBytes()
      requires !geo.InBitmapRun(bm, cluster)
      ensures |vol.data| == geo.clusterCount + 2
      ensures geo.InRange(cluster) ==>
        |vol.data[cluster]| == geo.ClusterBytes() && r == Ok(vol.data[cluster][at..at + n])
      ensures !geo.InRange(cluster) ==> r.Err?
    {
      var start :- geo.ClusterOffset(cluster);
      ClusterViewed(geo, bm, disk.bytes, vol, cluster, at, n);
      r := disk.ReadAt(start + at, n);
    }

    /** Write `d` at `at` inside `cluster`. */
    method WriteCluster(cluster: nat, at: nat, d: seq<byte>) returns (r: Result<()>)
      requires Valid() && at + |d| <= geo.ClusterBytes()
      requires !geo.InBitmapRun(bm, cluster)
      modifies this, disk
      ensures Valid() && |old(vol).data| == geo.clusterCount + 2
      ensures geo.InRange(cluster) ==>
        && r == Ok(())
        && |old(vol).data[cluster]| == geo.ClusterBytes()
        && vol == old(vol).WithData(cluster, at, d)
        && trace == old(trace) + [vol]
      ensures !geo.InRange(cluster) ==> r.Err? && vol == old(vol) && trace == old(trace)
    {
      var start :- geo.ClusterOffset(cluster);
      geo.ClusterInside(bm, |disk.bytes|, cluster);
      DataWriteViewed(geo, bm, disk.bytes, vol, cluster, at, d);
      r := Put(start + at, d, vol.WithData(cluster, at, d));
    }

    method ReadSlot(a: SlotAddr) returns (r: Result<seq<byte>>)
      requires Valid() && geo.InRange(a.cluster) && !geo.InBitmapRun(bm, a.cluster) && a.index < geo.Per()
      ensures r == Ok(vol.Slot(a)) && |r.value| == SLOT
    {
      r := ReadCluster(a.cluster, SLOT * a.index, SLOT);
    }

    method WriteSlot(a: SlotAddr, d: seq<byte>) returns (r: Result<()>)
      requires Valid() && geo.InRange(a.cluster) && !geo.InBitmapRun(bm, a.cluster) && a.index < geo.Per()
      requires |d| == SLOT
      modifies this, disk
      ensures Valid() && r == Ok(())
      ensures vol.fat == old(vol).fat && vol.bits == old(vol).bits && |vol.data| == |old(vol).data|
      ensures forall c :: 0 <= c < |vol.data| && c != a.cluster ==> vol.data[c] == old(vol).data[c]
      ensures forall a' :: vol.Slot(a') == if a' == a then d else old(vol).Slot(a')
      ensures trace == old(trace) + [vol]
    {
      r := WriteCluster(a.cluster, SLOT * a.index, d);
      forall a'
        ensures vol.Slot(a') == if a' == a then d else old(vol).Slot(a')
      {
        SlotWritten(old(vol), a, d, a');
      }
    }
  }
}
