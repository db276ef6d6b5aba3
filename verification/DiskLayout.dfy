/** Where a volume's parts lie on the device, in numbers: the view that every operation works on, read off the bytes. */
module DiskLayouts {
  import opened Bytes
  import opened Geometries
  import opened Volumes

  /** The link of cluster `c` is the `c`-th four-byte word of the FAT. */
  lemma LinkOnDisk(v: Volume, c: nat)
    requires v.Valid() && v.geo.InRange(c)
    ensures var at := v.geo.bytesPerSector * v.geo.fatOffsetSectors + 4 * c;
      at + 4 <= |v.disk.bytes| && c < |v.vol.fat| && v.vol.fat[c] == Value4(v.disk.bytes, at)
  {
    LinkInImage(v.geo, v.bm, v.disk.bytes, v.vol, c);
  }

  lemma LinkInImage(g: Geometry, bm: BitmapLoc, img: seq<byte>, v: Vol, c: nat)
    requires g.Fits(bm, |img|) && Views(g, bm, img, v) && g.InRange(c)
    ensures var at := g.bytesPerSector * g.fatOffsetSectors + 4 * c;
      at + 4 <= |img| && c < |v.fat| && v.fat[c] == Value4(img, at)
  {
    MulNonNegative(g.clusterCount, g.ClusterBytes());
    hide BitOf, ClusterOf, Geometry.ClusterBytes, Geometry.HeapBase;
    FromLeIsValue4(img, g.FatBase() + 4 * c);
    assert FatWord(img, g, c) == v.fat[c];
    hide FromLe, Value4;
  }

  /** The allocation bit of cluster `c` is bit `c - 2` of the bitmap. */
  lemma BitOnDisk(v: Volume, c: nat)
    requires v.Valid() && v.geo.InRange(c)
    ensures var cb := v.geo.bytesPerSector * v.geo.sectorsPerCluster;
      var at := v.geo.bytesPerSector * v.geo.clusterHeapOffsetSectors + (v.bm.firstCluster - 2) * cb + (c - 2) / 8;
      && c < |v.vol.bits| && 0 <= at < |v.disk.bytes|
      && (v.vol.bits[c] <==> v.disk.bytes[at] as nat / Pow2((c - 2) % 8) % 2 == 1)
  {
    BitInImage(v.geo, v.bm, v.disk.bytes, v.vol, c);
  }

  lemma BitInImage(g: Geometry, bm: BitmapLoc, img: seq<byte>, v: Vol, c: nat)
    requires g.Fits(bm, |img|) && Views(g, bm, img, v) && g.InRange(c)
    ensures var cb := g.bytesPerSector * g.sectorsPerCluster;
      var at := g.bytesPerSector * g.clusterHeapOffsetSectors + (bm.firstCluster - 2) * cb + (c - 2) / 8;
      && c < |v.bits| && 0 <= at < |img| && (v.bits[c] <==> img[at] as nat / Pow2((c - 2) % 8) % 2 == 1)
  {
    g.BitmapInside(bm, |img|);
    MulNonNegative(bm.firstCluster - 2, g.ClusterBytes());
    hide FatWord, ClusterOf, BitSet, Pow2;
    assert BitOf(img, g, bm, c) == v.bits[c];
    var at := g.ClusterStart(bm.firstCluster) + (c - 2) / 8;
    assert at < |img| by {
      assert (c - 2) / 8 < bm.lengthBytes;
    }
    BitSetCounts(img[at], (c - 2) % 8);
  }

  /** Byte `j` of cluster `c` lies in the `c - 2`-th cluster of the heap. */
  lemma ByteOnDisk(v: Volume, c: nat, j: nat)
    requires v.Valid() && 0 < v.geo.ClusterBytes() && v.geo.InRange(c) && !v.geo.InBitmapRun(v.bm, c)
    requires j < v.geo.bytesPerSector * v.geo.sectorsPerCluster
    ensures var cb := v.geo.bytesPerSector * v.geo.sectorsPerCluster;
      var at := v.geo.bytesPerSector * v.geo.clusterHeapOffsetSectors + (c - 2) * cb + j;
      && c < |v.vol.data| && |v.vol.data[c]| == cb && 0 <= at < |v.disk.bytes| && v.vol.data[c][j] == v.disk.bytes[at]
  {
    ByteInImage(v.geo, v.bm, v.disk.bytes, v.vol, c, j);
  }

  lemma ByteInImage(g: Geometry, bm: BitmapLoc, img: seq<byte>, v: Vol, c: nat, j: nat)
    requires g.Fits(bm, |img|) && Views(g, bm, img, v) && g.InRange(c) && !g.InBitmapRun(bm, c)
    requires j < g.bytesPerSector * g.sectorsPerCluster
    ensures var cb := g.bytesPerSector * g.sectorsPerCluster;
      var at := g.bytesPerSector * g.clusterHeapOffsetSectors + (c - 2) * cb + j;
      && c < |v.data| && |v.data[c]| == cb && 0 <= at < |img| && v.data[c][j] == img[at]
  {
    g.ClusterInside(bm, |img|, c);
    MulNonNegative(c - 2, g.ClusterBytes());
    hide FatWord, BitOf;
    assert ClusterOf(img, g, c) == v.data[c];
  }

  /** Slot `i` of a cluster is its `i`-th 32 bytes. */
  lemma SlotIs(v: Vol, c: nat, i: nat, j: nat)
    requires c < |v.data| && 32 * i + 32 <= |v.data[c]| && j < 32
    ensures |v.Slot(SlotAddr(c, i))| == 32 && v.Slot(SlotAddr(c, i))[j] == v.data[c][32 * i + j]
  {
  }
}
