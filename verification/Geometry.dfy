/** Where things are on an exFAT volume. */
module Geometries {
  import opened Bytes

  const END_OF_CHAIN := 0xFFFF_FFFF
  const BAD_CLUSTER := 0xFFFF_FFF7
  const SLOT := 32

  datatype BitmapLoc = BitmapLoc(firstCluster: nat, lengthBytes: nat)

  datatype Geometry = Geometry(
    bytesPerSector: nat,
    sectorsPerCluster: nat,
    fatOffsetSectors: nat,
    fatLengthSectors: nat,
    clusterHeapOffsetSectors: nat,
    clusterCount: nat,
    rootFirstCluster: nat)
  {
    function ClusterBytes(): nat { bytesPerSector * sectorsPerCluster }

    function FatBase(): nat { bytesPerSector * fatOffsetSectors }

    function HeapBase(): nat { bytesPerSector * clusterHeapOffsetSectors }

    /** Clusters are numbered from 2. */
    predicate InRange(cluster: int) { 2 <= cluster < clusterCount + 2 }

    /** Offset of a cluster's first byte. */
    function ClusterStart(cluster: nat): nat
      requires 2 <= cluster
    {
      HeapBase() + (cluster - 2) * ClusterBytes()
    }

    function ClusterOffset(cluster: nat): Result<nat>
    {
      if InRange(cluster) then Ok(ClusterStart(cluster)) else Err(Invalid("cluster number out of range"))
    }

    /** The clusters the allocation bitmap occupies, one contiguous run. */
    predicate InBitmapRun(bm: BitmapLoc, cluster: int)
      requires 0 < ClusterBytes()
    {
      bm.firstCluster <= cluster < bm.firstCluster + DivCeil(bm.lengthBytes, ClusterBytes())
    }

    /** A volume of `size` bytes whose regions follow one another: the FAT, which has a word for every
        cluster, then the heap, which holds every cluster and, inside it, a bitmap with a bit for every
        cluster. The specification's bound on the cluster count keeps cluster numbers off the FAT's
        reserved values. */
    ghost predicate Fits(bm: BitmapLoc, size: nat)
    {
      && 0 < ClusterBytes() <= 0x200_0000 && ClusterBytes() % SLOT == 0
      && clusterCount <= 0xFFFF_FFF5
      && FatBase() + 4 * (clusterCount + 2) <= HeapBase()
      && HeapBase() + clusterCount * ClusterBytes() <= size
      && clusterCount <= 8 * bm.lengthBytes
      && 2 <= bm.firstCluster
      && bm.firstCluster + DivCeil(bm.lengthBytes, ClusterBytes()) <= clusterCount + 2
      && InRange(rootFirstCluster)
    }

    /** Slots per cluster. */
    function Per(): nat { ClusterBytes() / SLOT }

    /** Distinct clusters occupy disjoint ranges of the heap. */
    lemma ClustersApart(c: nat, c': nat)
      requires 2 <= c < c'
      ensures ClusterStart(c) + ClusterBytes() <= ClusterStart(c')
    {
      MulMono(c - 2, c' - 2, ClusterBytes());
    }

    lemma ClusterInside(bm: BitmapLoc, size: nat, c: nat)
      requires Fits(bm, size) && InRange(c)
      ensures ClusterStart(c) + ClusterBytes() <= size
    {
      MulMono(c - 2, clusterCount, ClusterBytes());
    }

    /** The bitmap's bytes meet no cluster outside its run, and lie in the heap. */
    lemma BitmapApart(bm: BitmapLoc, size: nat, c: nat)
      requires Fits(bm, size) && 2 <= c && !InBitmapRun(bm, c)
      ensures ClusterStart(c) + ClusterBytes() <= ClusterStart(bm.firstCluster)
           || ClusterStart(bm.firstCluster) + bm.lengthBytes <= ClusterStart(c)
    {
      var n, b := DivCeil(bm.lengthBytes, ClusterBytes()), ClusterBytes();
      hide ClusterBytes, HeapBase, DivCeil;
      DivCeilBounds(bm.lengthBytes, b);
      if c < bm.firstCluster {
        MulMono(c - 2, bm.firstCluster - 2, b);
      } else {
        BlocksEnd(bm.firstCluster - 2, n, b);
        MulMono(bm.firstCluster - 2 + n, c - 2, b);
      }
    }

    lemma BitmapInside(bm: BitmapLoc, size: nat)
      requires Fits(bm, size)
      ensures HeapBase() <= ClusterStart(bm.firstCluster)
      ensures ClusterStart(bm.firstCluster) + bm.lengthBytes <= size
    {
      var n, b := DivCeil(bm.lengthBytes, ClusterBytes()), ClusterBytes();
      hide ClusterBytes, HeapBase, DivCeil;
      DivCeilBounds(bm.lengthBytes, b);
      BlocksEnd(bm.firstCluster - 2, n, b);
      MulMono(bm.firstCluster - 2 + n, clusterCount, b);
      MulNonNegative(bm.firstCluster - 2, b);
    }

    /** The byte of the bitmap that holds the bit of `cluster`. */
    lemma BitmapByteInside(bm: BitmapLoc, size: nat, cluster: nat)
      requires Fits(bm, size) && 2 <= cluster
      ensures InRange(cluster) ==> (cluster - 2) / 8 < bm.lengthBytes
      ensures (cluster - 2) / 8 < bm.lengthBytes ==>
        2 <= bm.firstCluster && ClusterOffset(bm.firstCluster) == Ok(ClusterStart(bm.firstCluster))
        && ClusterStart(bm.firstCluster) + (cluster - 2) / 8 + 1 <= size
    {
      BitmapInside(bm, size);
      DivCeilBounds(bm.lengthBytes, ClusterBytes());
      MulLess(DivCeil(bm.lengthBytes, ClusterBytes()), ClusterBytes());
      hide ClusterBytes, HeapBase, DivCeil, ClusterStart;
    }
  }

  /** A 32-byte directory slot: its cluster and its index there. Its disk offset is
      `ClusterStart(cluster) + 32 * index`. */
  datatype SlotAddr = SlotAddr(cluster: nat, index: nat)
}
