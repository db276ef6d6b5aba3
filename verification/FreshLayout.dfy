/** The bytes of a freshly formatted volume, place by place. */
module FreshLayouts {
  import opened Boots
  import opened Bytes
  import opened EntrySets
  import opened FileData
  import opened Formats
  import opened Layouts
  import opened RollingSums
  import opened UpcaseTables

  // ---- The boot region -------------------------------------------------------------------------

  lemma {:induction false} SectorsAt(n: nat, sector: seq<byte>, k: nat)
    requires |sector| == 512 && k < n
    ensures Sectors(n, sector)[512 * k..512 * k + 512] == sector
  {
    if k > 0 {
      SectorsAt(n - 1, sector, k - 1);
      var s, t := Sectors(n, sector), Sectors(n - 1, sector);
      assert s[512 * k..512 * k + 512] == t[512 * (k - 1)..512 * (k - 1) + 512];
    }
  }

  lemma ExtendedBytes()
    ensures forall i :: 0 <= i < 512 ==> ExtendedSector()[i] == if i == 510 then 0x55 else if i == 511 then 0xAA else 0
  {
  }

  /** Sector `k` is zero but for its signature. */
  ghost predicate Extended(r: seq<byte>, k: nat)
    requires 512 * k + 512 <= |r|
  {
    var s := r[512 * k..512 * k + 512];
    forall i :: 0 <= i < 512 ==> s[i] == if i == 510 then 0x55 else if i == 511 then 0xAA else 0
  }

  /** A boot region: the boot sector, eight extended boot sectors that are zero but for their signature, two sectors of
      zeros, and a sector that repeats the rolling checksum of the eleven before it. */
  lemma RegionBytes(l: Layout, serial: nat, percent: byte)
    ensures var r := BootRegion(l, serial, percent);
      && |r| == 6144 && r[..512] == BootSector(l, serial, percent)
      && (forall k: nat :: 1 <= k <= 8 ==> Extended(r, k))
      && (forall i :: 4608 <= i < 5632 ==> r[i] == 0)
      && (forall i: nat :: i < 128 ==> RollsTo(32, VbrBytes(r[..5632]), Value4(r, 5632 + 4 * i)))
  {
    var r, body := BootRegion(l, serial, percent), BootBody(l, serial, percent);
    var sum := VbrSum(body, 5632);
    hide BootSector, Le, Repeated, VbrSum, RollsTo, VbrBytes, Value4;
    assert r[..5632] == body;
    VbrSumRolls(body);
    forall i: nat | i < 128
      ensures Value4(r, 5632 + 4 * i) == sum
    {
      RepeatsChecksum(body, sum, i);
    }
    BodyParts(BootSector(l, serial, percent), Sectors(8, ExtendedSector()), Zeros(1024), Repeated(128, Le(sum, 4)), r);
    ExtendedBytes();
    hide ExtendedSector, Sectors;
    forall k: nat | 1 <= k <= 8
      ensures Extended(r, k)
    {
      SectorsAt(8, ExtendedSector(), k - 1);
      SliceOfSlice(r, 512, 4608, 512 * (k - 1), 512);
    }
  }

  lemma BodyParts(a: seq<byte>, b: seq<byte>, c: seq<byte>, d: seq<byte>, r: seq<byte>)
    requires |a| == 512 && |b| == 4096 && |c| == 1024 && |d| == 512 && r == a + b + c + d
    requires forall i :: 0 <= i < |c| ==> c[i] == 0
    ensures r[..512] == a && r[512..4608] == b && forall i :: 4608 <= i < 5632 ==> r[i] == 0
  {
    forall i | 4608 <= i < 5632
      ensures r[i] == 0
    {
      assert r[i] == c[i - 4608];
    }
  }

  /** `img` is a device of its size, formatted. */
  ghost predicate Fresh(totalBytes: nat, img: seq<byte>, l: Layout, serial: nat, table: seq<byte>)
  {
    && Plan(totalBytes) == Ok(l) && l.clusterCount <= 0xFFFF_FFF5 && |img| == totalBytes && |table| == 5836
    && Formatted(img, l, serial, table)
  }

  /** The parts lie inside the device. */
  lemma Room(totalBytes: nat, img: seq<byte>, l: Layout, serial: nat, table: seq<byte>)
    requires Fresh(totalBytes, img, l, serial, table)
    ensures 0 < l.bitmapClusters < 0xFFFF_FFFE && 0 < l.upcaseClusters && l.bitmapBytes < 0x1_0000_0000_0000_0000
    ensures 12288 <= |img| && 512 * l.fatOffset + 512 * l.fatLength <= |img| && 4096 <= l.ClusterBytes()
    ensures 5836 <= Size(l, l.upcaseClusters) && 512 * l.heapOffset + Size(l, l.bitmapClusters) <= |img|
    ensures HeapAt(l, l.bitmapClusters) + Size(l, l.upcaseClusters) <= |img|
    ensures HeapAt(l, l.bitmapClusters + l.upcaseClusters) + l.ClusterBytes() <= |img|
  {
    hide Plan, Formatted, DivCeil;
    PlanFits(totalBytes);
    PlanExactly(totalBytes);
    DivCeilBounds(l.clusterCount, 8);
    Regions(totalBytes);
    hide Layout.ClusterBytes;
  }

  /** Both copies of the boot region. */
  lemma BootBytes(totalBytes: nat, img: seq<byte>, l: Layout, serial: nat, table: seq<byte>) returns (percent: byte)
    requires Fresh(totalBytes, img, l, serial, table)
    ensures InUse(l, percent) && 12288 <= |img|
    ensures img[..6144] == BootRegion(l, serial, percent) && img[6144..12288] == BootRegion(l, serial, percent)
  {
    Room(totalBytes, img, l, serial, table);
    hide *;
    FreshIs(totalBytes, img, l, serial, table);
    percent := BootOf(img, l, serial, table);
    PartsAre(img, l);
  }

  lemma FreshIs(totalBytes: nat, img: seq<byte>, l: Layout, serial: nat, table: seq<byte>)
    requires Fresh(totalBytes, img, l, serial, table)
    ensures Formatted(img, l, serial, table) && |table| == 5836
  {
    hide Formatted, Plan;
  }

  lemma PartsAre(img: seq<byte>, l: Layout)
    requires 12288 <= |img|
    ensures Part(img, 0, 12 * BPS) == img[..6144] && Part(img, 12 * BPS, 12 * BPS) == img[6144..12288]
  {
    assert img[0..6144] == img[..6144];
  }

  // ---- The FAT ---------------------------------------------------------------------------------

  /** What the word of cluster `j` says: media and end marks first, then one chain for each of bitmap, table and root
      directory, the rest free. */
  ghost predicate FreshLink(l: Layout, j: nat, word: nat)
  {
    var table, root := 2 + l.bitmapClusters, 2 + l.bitmapClusters + l.upcaseClusters;
    && (j == 0 ==> word == 0xFFFF_FFF8)
    && (j == 1 ==> word == 0xFFFF_FFFF)
    && (2 <= j <= root ==> word == if j + 1 == table || j + 1 == root || j == root then 0xFFFF_FFFF else j + 1)
    && (root < j ==> word == 0)
  }

  lemma FreshLinks(l: Layout, j: nat)
    requires 0 < l.bitmapClusters && 0 < l.upcaseClusters
    ensures FreshLink(l, j, FreshWord(l, j))
  {
  }

  lemma WordOfPart(img: seq<byte>, at: nat, n: nat, j: nat)
    requires at + n <= |img| && 4 * j + 4 <= n
    ensures WordAt(Part(img, at, n), j) == Value4(img, at + 4 * j)
  {
    FromLeIsValue4(img, at + 4 * j);
    SliceOfSlice(img, at, at + n, 4 * j, 4);
    hide FromLe, Value4;
  }

  lemma FatPart(img: seq<byte>, l: Layout, serial: nat, table: seq<byte>, j: nat)
    requires Formatted(img, l, serial, table)
    ensures WordAt(Part(img, 512 * l.fatOffset, 512 * l.fatLength), j) == FreshWord(l, j)
  {
    hide BootOk, BitmapOk, TableImage, RootBytes, FreshWord, WordAt, Part, HeapAt, Size, Layout.ClusterBytes;
  }

  /** Every word of the FAT. */
  lemma FatBytes(totalBytes: nat, img: seq<byte>, l: Layout, serial: nat, table: seq<byte>, j: nat)
    requires Fresh(totalBytes, img, l, serial, table) && 4 * j + 4 <= 512 * l.fatLength
    ensures 512 * l.fatOffset + 4 * j + 4 <= |img|
    ensures FreshLink(l, j, Value4(img, 512 * l.fatOffset + 4 * j))
  {
    hide *;
    Room(totalBytes, img, l, serial, table);
    FreshIs(totalBytes, img, l, serial, table);
    FreshLinks(l, j);
    WordOfPart(img, 512 * l.fatOffset, 512 * l.fatLength, j);
    FatPart(img, l, serial, table, j);
  }

  // ---- The heap --------------------------------------------------------------------------------

  lemma BitmapPart(img: seq<byte>, l: Layout, serial: nat, table: seq<byte>, at: nat, n: nat, k: nat)
    requires Formatted(img, l, serial, table) && at == 512 * l.heapOffset && n == l.bitmapClusters * l.ClusterBytes()
    requires at + n <= |img| && k < 8 * n
    ensures BitSet(img[at + k / 8], k % 8) <==> k < l.bitmapClusters + l.upcaseClusters + 1
  {
    hide BootOk, FatOk, TableImage, RootBytes, BitSet, Layout.ClusterBytes;
    var b := Part(img, HeapAt(l, 0), Size(l, l.bitmapClusters));
    assert HeapAt(l, 0) == at && b == img[at..at + n];
    assert BitAt(b, k) <==> k < l.Used();
  }

  /** Every bit of the allocation bitmap: set for the clusters of bitmap, table and root directory. */
  lemma BitmapBytes(totalBytes: nat, img: seq<byte>, l: Layout, serial: nat, table: seq<byte>, k: nat)
    requires Fresh(totalBytes, img, l, serial, table) && k < 8 * (l.bitmapClusters * l.ClusterBytes())
    ensures 512 * l.heapOffset + k / 8 < |img|
    ensures img[512 * l.heapOffset + k / 8] as nat / Pow2(k % 8) % 2 == 1 <==> k < l.bitmapClusters + l.upcaseClusters + 1
  {
    hide *;
    Room(totalBytes, img, l, serial, table);
    FreshIs(totalBytes, img, l, serial, table);
    SizeIs(l, l.bitmapClusters);
    var at, n := 512 * l.heapOffset, l.bitmapClusters * l.ClusterBytes();
    BitmapPart(img, l, serial, table, at, n, k);
    BitSetCounts(img[at + k / 8], k % 8);
  }

  lemma SizeIs(l: Layout, k: nat)
    ensures Size(l, k) == k * l.ClusterBytes() && HeapAt(l, k) == 512 * l.heapOffset + k * l.ClusterBytes()
  {
    hide Layout.ClusterBytes;
  }

  lemma TablePart(img: seq<byte>, l: Layout, serial: nat, table: seq<byte>, at: nat, n: nat, i: nat)
    requires Formatted(img, l, serial, table) && |table| == 5836 <= n
    requires at == HeapAt(l, l.bitmapClusters) && n == Size(l, l.upcaseClusters) && at + n <= |img| && i < n
    ensures img[at + i] == if i < 5836 then table[i] else 0
  {
    hide BootOk, FatOk, BitmapOk, RootBytes, HeapAt, Size;
    var p := Part(img, at, n);
    assert p[i] == TableImage(l, table)[i];
  }

  /** The table lies in the clusters after the bitmap, padded with zeros. */
  lemma TableBytes(totalBytes: nat, img: seq<byte>, l: Layout, serial: nat, table: seq<byte>, i: nat)
    requires Fresh(totalBytes, img, l, serial, table) && i < l.upcaseClusters * l.ClusterBytes()
    ensures var at := 512 * l.heapOffset + l.bitmapClusters * l.ClusterBytes() + i;
      0 <= at < |img| && img[at] == if i < 5836 then table[i] else 0
  {
    hide *;
    Room(totalBytes, img, l, serial, table);
    FreshIs(totalBytes, img, l, serial, table);
    SizeIs(l, l.bitmapClusters);
    SizeIs(l, l.upcaseClusters);
    TablePart(img, l, serial, table, HeapAt(l, l.bitmapClusters), Size(l, l.upcaseClusters), i);
  }

  /** The root directory holds the volume label, the entry of the bitmap and the entry of the table with its rolling
      checksum, and nothing more. */
  ghost predicate RootHolds(r: seq<byte>, l: Layout, table: seq<byte>)
    requires 96 <= |r|
  {
    && LabelHolds(r[..32]) && BitmapHolds(r[32..64], 2, l.bitmapBytes)
    && (exists sum: nat :: RollsTo(32, table, sum) && TableHolds(r[64..96], sum, 2 + l.bitmapClusters, 5836))
    && forall i :: 96 <= i < |r| ==> r[i] == 0
  }

  /** "VAULTPONY". */
  ghost predicate LabelHolds(s: seq<byte>)
    requires |s| == 32
  {
    && s[0] == 0x83 && s[1] == 9 && (forall i :: 20 <= i < 32 ==> s[i] == 0)
    && forall k: nat :: k < 9 ==> Value2(s, 2 + 2 * k) == [86, 65, 85, 76, 84, 80, 79, 78, 89][k]
  }

  ghost predicate BitmapHolds(s: seq<byte>, first: nat, len: nat)
    requires |s| == 32
  {
    s[0] == 0x81 && (forall i :: 1 <= i < 20 ==> s[i] == 0) && Value4(s, 20) == first && Value8(s, 24) == len
  }

  ghost predicate TableHolds(s: seq<byte>, sum: nat, first: nat, len: nat)
    requires |s| == 32
  {
    && s[0] == 0x82 && (forall i :: 1 <= i < 4 || 8 <= i < 20 ==> s[i] == 0)
    && Value4(s, 4) == sum && Value4(s, 20) == first && Value8(s, 24) == len
  }

  lemma RootIs(l: Layout, table: seq<byte>, sum: u32)
    requires 96 <= l.ClusterBytes() && RollsTo(32, table, sum)
    requires l.bitmapBytes < 0x1_0000_0000_0000_0000 && l.bitmapClusters < 0xFFFF_FFFE
    ensures RootHolds(RootImage(l, sum), l, table)
  {
    LabelBytes();
    BitmapSlotBytes(2, l.bitmapBytes);
    UpcaseSlotBytes(sum, 2 + l.bitmapClusters, 5836);
    RootImageParts(l, sum);
    hide *;
    RootOf(l, table, LabelSlot(), BitmapSlot(2, l.bitmapBytes), UpcaseSlot(sum, 2 + l.bitmapClusters, 5836),
           Zeros(l.ClusterBytes() - 96), sum);
  }

  lemma RootImageParts(l: Layout, sum: u32)
    requires 96 <= l.ClusterBytes()
    ensures RootImage(l, sum)
         == LabelSlot() + BitmapSlot(2, l.bitmapBytes) + UpcaseSlot(sum, 2 + l.bitmapClusters, 5836) + Zeros(l.ClusterBytes() - 96)
  {
    hide LabelSlot, BitmapSlot, UpcaseSlot, Layout.ClusterBytes;
  }

  lemma RootOf(l: Layout, table: seq<byte>, a: seq<byte>, b: seq<byte>, c: seq<byte>, z: seq<byte>, sum: nat)
    requires |a| == |b| == |c| == 32 && forall i :: 0 <= i < |z| ==> z[i] == 0
    requires LabelHolds(a) && BitmapHolds(b, 2, l.bitmapBytes) && TableHolds(c, sum, 2 + l.bitmapClusters, 5836)
    requires RollsTo(32, table, sum)
    ensures RootHolds(a + b + c + z, l, table)
  {
    hide RollsTo, LabelHolds, BitmapHolds, TableHolds;
    SlotsApart(a, b, c, z, a + b + c + z);
  }

  lemma LabelBytes()
    ensures LabelHolds(LabelSlot())
  {
    hide UnitBytes;
    var a := LabelSlot();
    assert a == [0x83, 9] + UnitBytes(LABEL) + Zeros(12);
    forall k: nat | k < 9
      ensures Value2(a, 2 + 2 * k) == LABEL[k]
    {
      UnitValue(LABEL, k);
      assert a[2 + 2 * k] == UnitBytes(LABEL)[2 * k] && a[3 + 2 * k] == UnitBytes(LABEL)[2 * k + 1];
    }
  }

  lemma BitmapSlotBytes(first: nat, len: nat)
    requires first < 0x1_0000_0000 && len < 0x1_0000_0000_0000_0000
    ensures BitmapHolds(BitmapSlot(first, len), first, len)
  {
    var b := BitmapSlot(first, len);
    hide Le, Value4, Value8;
    assert b[20..24] == Le(first, 4) && b[24..32] == Le(len, 8);
    LeAt(b, 20, first);
    LongAt(b, 24, len);
  }

  lemma UpcaseSlotBytes(sum: u32, first: nat, len: nat)
    requires first < 0x1_0000_0000 && len < 0x1_0000_0000_0000_0000
    ensures TableHolds(UpcaseSlot(sum, first, len), sum, first, len)
  {
    var c := UpcaseSlot(sum, first, len);
    hide Le, Value4, Value8;
    assert c[4..8] == Le(sum, 4) && c[20..24] == Le(first, 4) && c[24..32] == Le(len, 8);
    LeAt(c, 4, sum);
    LeAt(c, 20, first);
    LongAt(c, 24, len);
  }

  lemma SlotsApart(a: seq<byte>, b: seq<byte>, c: seq<byte>, z: seq<byte>, r: seq<byte>)
    requires |a| == |b| == |c| == 32 && r == a + b + c + z && forall i :: 0 <= i < |z| ==> z[i] == 0
    ensures |r| == 96 + |z| && r[..32] == a && r[32..64] == b && r[64..96] == c
    ensures forall i :: 96 <= i < |r| ==> r[i] == 0
  {
  }

  /** The root directory of a formatted volume. */
  lemma RootBytesHold(totalBytes: nat, img: seq<byte>, l: Layout, serial: nat, table: seq<byte>)
    requires Fresh(totalBytes, img, l, serial, table)
    ensures var at := HeapAt(l, l.bitmapClusters + l.upcaseClusters);
      at + l.ClusterBytes() <= |img| && 96 <= l.ClusterBytes() && RootHolds(img[at..at + l.ClusterBytes()], l, table)
  {
    hide *;
    Room(totalBytes, img, l, serial, table);
    FreshIs(totalBytes, img, l, serial, table);
    TableRolls(table, 5836);
    assert table[..5836] == table;
    RootIs(l, table, TableSum(table, 5836));
    RootPart(img, l, serial, table);
  }

  lemma RootPart(img: seq<byte>, l: Layout, serial: nat, table: seq<byte>)
    requires Formatted(img, l, serial, table) && |table| == 5836 && 96 <= l.ClusterBytes()
    requires HeapAt(l, l.bitmapClusters + l.upcaseClusters) + l.ClusterBytes() <= |img|
    ensures var at := HeapAt(l, l.bitmapClusters + l.upcaseClusters);
      img[at..at + l.ClusterBytes()] == RootImage(l, TableSum(table, 5836))
  {
    hide BootOk, FatOk, BitmapOk, TableImage, HeapAt, Size, RootImage, TableSum, Layout.ClusterBytes;
  }
}
