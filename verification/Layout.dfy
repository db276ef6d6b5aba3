/** Where a freshly formatted volume puts its structures. */
module Layouts {
  import opened Bytes
  import opened Geometries

  const BPS := 512
  const BPS_SHIFT := 9
  /** The main boot region and its backup, twelve sectors each. */
  const BOOT_SECTORS := 24
  /** Length of the compressed up-case table the formatter writes. */
  const UPCASE_LEN := 5836

  function RoundUp(a: nat, m: nat): (r: nat)
    requires 0 < m
  {
    DivCeil(a, m) * m
  }

  lemma RoundUpBounds(a: nat, m: nat)
    requires 0 < m
    ensures a <= RoundUp(a, m) < a + m
  {
    DivCeilBounds(a, m);
  }

  /** Sectors per cluster, as a power of two: 4 KiB clusters up to 256 MiB, 32 KiB up to 32 GiB, else 128 KiB. */
  function ChooseSpcShift(totalBytes: nat): (s: nat)
    ensures s == 3 || s == 6 || s == 8
  {
    if totalBytes <= 0x1000_0000 then 3 else if totalBytes <= 0x8_0000_0000 then 6 else 8
  }

  function Spc(shift: nat): nat
  {
    if shift == 3 then 8 else if shift == 6 then 64 else 256
  }

  /** All quantities in sectors or clusters, as their names say. */
  datatype Layout = Layout(spcShift: nat, totalSectors: nat, fatOffset: nat, fatLength: nat, heapOffset: nat,
                           clusterCount: nat, bitmapBytes: nat, bitmapClusters: nat, upcaseClusters: nat)
  {
    function ClusterBytes(): nat { BPS * Spc(spcShift) }

    function UpcaseFirst(): nat { 2 + bitmapClusters }

    function RootFirst(): nat { UpcaseFirst() + upcaseClusters }

    /** Bitmap, up-case table and one cluster of root directory. */
    function Used(): nat { bitmapClusters + upcaseClusters + 1 }

    function Geo(): Geometry
    {
      Geometry(BPS, Spc(spcShift), fatOffset, fatLength, heapOffset, clusterCount, RootFirst())
    }

    function Bitmap(): BitmapLoc { BitmapLoc(2, bitmapBytes) }
  }

  /** The layout for a device of `totalBytes`, or why there is none. */
  function Plan(totalBytes: nat): Result<Layout>
  {
    var totalSectors, shift := totalBytes / BPS, ChooseSpcShift(totalBytes);
    var spc := Spc(shift);
    var fatOffset := RoundUp(BOOT_SECTORS, spc);
    if totalSectors <= fatOffset then Err(Invalid("volume too small for exFAT"))
    else
      var ccMax := (totalSectors - fatOffset) / spc;
      var fatLength := RoundUp(DivCeil((ccMax + 2) * 4, BPS), spc);
      var heapOffset := fatOffset + fatLength;
      if totalSectors <= heapOffset then Err(Invalid("volume too small for exFAT"))
      else
        var clusterCount := (totalSectors - heapOffset) / spc;
        var bitmapBytes := DivCeil(clusterCount, 8);
        var l := Layout(shift, totalSectors, fatOffset, fatLength, heapOffset, clusterCount, bitmapBytes,
                        DivCeil(bitmapBytes, BPS * spc), DivCeil(UPCASE_LEN, BPS * spc));
        if clusterCount < l.Used() || l.RootFirst() + 1 > clusterCount + 2
        then Err(Invalid("volume too small for exFAT metadata"))
        else Ok(l)
  }

  lemma DivMono(a: nat, b: nat, m: nat)
    requires a <= b && 0 < m
    ensures a / m <= b / m
  {
    DivMod(a, m);
    DivMod(b, m);
    if b / m < a / m {
      MulMono(b / m + 1, a / m, m);
      BlocksEnd(b / m, 1, m);
    }
  }

  /** The largest count the space could hold bounds the real one, so the FAT has a word for every cluster. */
  lemma FatCovers(space: nat, space': nat, spc: nat)
    requires 0 < spc && space' <= space
    ensures space' / spc <= space / spc
    ensures BPS * RoundUp(DivCeil((space / spc + 2) * 4, BPS), spc) >= (space' / spc + 2) * 4
    ensures spc * (space' / spc) <= space'
  {
    DivMono(space', space, spc);
    DivCeilBounds((space / spc + 2) * 4, BPS);
    RoundUpBounds(DivCeil((space / spc + 2) * 4, BPS), spc);
    DivMod(space', spc);
    hide DivCeil, RoundUp;
  }

  /** The equations an accepted layout satisfies. */
  lemma PlanIs(totalBytes: nat)
    requires Plan(totalBytes).Ok?
    ensures var l := Plan(totalBytes).value; var spc := Spc(l.spcShift);
      && (spc == 8 || spc == 64 || spc == 256) && l.totalSectors == totalBytes / BPS
      && l.fatOffset == RoundUp(BOOT_SECTORS, spc) && l.fatOffset < l.totalSectors
      && l.fatLength == RoundUp(DivCeil(((l.totalSectors - l.fatOffset) / spc + 2) * 4, BPS), spc)
      && l.heapOffset == l.fatOffset + l.fatLength < l.totalSectors
      && l.clusterCount == (l.totalSectors - l.heapOffset) / spc
      && l.bitmapBytes == DivCeil(l.clusterCount, 8) && l.bitmapClusters == DivCeil(l.bitmapBytes, BPS * spc)
      && l.upcaseClusters == DivCeil(UPCASE_LEN, BPS * spc) && l.Used() <= l.clusterCount
  {
    hide DivCeil, RoundUp;
  }

  /** What the layout arithmetic is for: whatever the size of the device, an accepted layout has a FAT word and a
      bitmap bit for every cluster, the heap follows the FAT and ends inside the device, and the metadata
      clusters exist. */
  lemma PlanFits(totalBytes: nat)
    requires Plan(totalBytes).Ok? && Plan(totalBytes).value.clusterCount <= 0xFFFF_FFF5
    ensures var l := Plan(totalBytes).value;
      && l.Geo().Fits(l.Bitmap(), totalBytes)
      && BOOT_SECTORS <= l.fatOffset && l.heapOffset == l.fatOffset + l.fatLength
      && l.clusterCount * l.ClusterBytes() + BPS * l.heapOffset <= totalBytes
      && BPS * l.fatLength >= 4 * (l.clusterCount + 2)
      && l.bitmapClusters == DivCeil(l.bitmapBytes, l.ClusterBytes()) && 0 < l.bitmapClusters
      && 0 < l.upcaseClusters && UPCASE_LEN <= l.upcaseClusters * l.ClusterBytes()
      && l.Used() <= l.clusterCount && l.RootFirst() == l.Used() + 1
  {
    hide *;
    var l := Plan(totalBytes).value;
    var spc, cb := Spc(l.spcShift), l.ClusterBytes();
    PlanSpace(totalBytes);
    PlanClusters(totalBytes);
    SizesIs(l);
    HeapEnds(l, spc, totalBytes);
    FatEnds(l.fatOffset, l.fatLength, l.heapOffset, l.clusterCount);
    BitsCover(l.clusterCount, l.bitmapBytes);
    Counts(l);
    FitsIs(l, cb, totalBytes);
  }

  /** Sectors: the FAT and the heap share out the device. */
  lemma PlanSpace(totalBytes: nat)
    requires Plan(totalBytes).Ok?
    ensures var l := Plan(totalBytes).value; var spc := Spc(l.spcShift);
      && BOOT_SECTORS <= l.fatOffset && l.heapOffset == l.fatOffset + l.fatLength
      && BPS * l.fatLength >= (l.clusterCount + 2) * 4
      && l.heapOffset + spc * l.clusterCount <= l.totalSectors && BPS * l.totalSectors <= totalBytes
  {
    PlanIs(totalBytes);
    hide *;
    var l := Plan(totalBytes).value;
    SizesIs(l);
    var spc, a, b := Spc(l.spcShift), l.totalSectors - l.fatOffset, l.totalSectors - l.heapOffset;
    RoundUpBounds(BOOT_SECTORS, spc);
    FatCovers(a, b, spc);
    SectorsFit(totalBytes);
  }

  /** Clusters: the metadata's. */
  lemma PlanClusters(totalBytes: nat)
    requires Plan(totalBytes).Ok?
    ensures var l := Plan(totalBytes).value;
      && l.clusterCount <= l.bitmapBytes * 8 && (l.bitmapBytes == 0 <==> l.clusterCount == 0)
      && l.bitmapClusters == DivCeil(l.bitmapBytes, l.ClusterBytes()) && (l.bitmapClusters == 0 <==> l.bitmapBytes == 0)
      && UPCASE_LEN <= l.upcaseClusters * l.ClusterBytes() && (l.upcaseClusters == 0 <==> UPCASE_LEN == 0)
      && l.Used() <= l.clusterCount
  {
    PlanIs(totalBytes);
    hide *;
    var l := Plan(totalBytes).value;
    SizesIs(l);
    DivCeilBounds(l.clusterCount, 8);
    DivCeilBounds(l.bitmapBytes, l.ClusterBytes());
    DivCeilBounds(UPCASE_LEN, l.ClusterBytes());
  }

  lemma SizesIs(l: Layout)
    ensures var spc, cb := Spc(l.spcShift), l.ClusterBytes();
      && cb == BPS * spc && 0 < cb <= 0x200_0000 && cb % SLOT == 0 && 0 < spc
  {
  }

  lemma SectorsFit(totalBytes: nat)
    ensures BPS * (totalBytes / BPS) <= totalBytes
  {
  }

  lemma FatEnds(fo: nat, fl: nat, ho: nat, cc: nat)
    requires ho == fo + fl && BPS * fl >= (cc + 2) * 4
    ensures BPS * fo + 4 * (cc + 2) <= BPS * ho && BPS * fl >= 4 * (cc + 2)
  {
  }

  lemma BitsCover(cc: nat, bb: nat)
    requires cc <= bb * 8
    ensures cc <= 8 * bb && (0 < cc ==> 0 < bb)
  {
  }

  lemma Counts(l: Layout)
    ensures l.Used() == l.bitmapClusters + l.upcaseClusters + 1 && l.RootFirst() == l.Used() + 1
    ensures 0 < UPCASE_LEN
  {
  }

  lemma FitsIs(l: Layout, cb: nat, size: nat)
    requires cb == l.ClusterBytes() && 0 < cb <= 0x200_0000 && cb % SLOT == 0 && l.clusterCount <= 0xFFFF_FFF5
    requires BPS * l.fatOffset + 4 * (l.clusterCount + 2) <= BPS * l.heapOffset
    requires BPS * l.heapOffset + l.clusterCount * cb <= size
    requires l.clusterCount <= 8 * l.bitmapBytes && l.bitmapClusters == DivCeil(l.bitmapBytes, cb)
    requires l.Used() <= l.clusterCount
    ensures l.Geo().Fits(l.Bitmap(), size)
  {
    hide DivCeil, Spc;
  }

  lemma HeapEnds(l: Layout, spc: nat, totalBytes: nat)
    requires spc == Spc(l.spcShift) && l.heapOffset + spc * l.clusterCount <= l.totalSectors && BPS * l.totalSectors <= totalBytes
    ensures l.clusterCount * l.ClusterBytes() + BPS * l.heapOffset <= totalBytes
  {
    assert l.clusterCount * (BPS * spc) == BPS * (spc * l.clusterCount);
  }

  /** `n` blocks of `size` hold `what`, and one block less does not. */
  predicate LeastBlocks(n: nat, size: nat, what: nat) { n * size < what + size && what <= n * size }

  /** `n` is the number of whole blocks of `size` in `space`. */
  predicate WholeBlocks(n: nat, size: nat, space: int) { n * size <= space < n * size + size }

  /** `n` is the first multiple of `size` that is at least `what`. */
  predicate NextMultiple(n: nat, size: nat, what: nat)
    requires 0 < size
  {
    n % size == 0 && what <= n < what + size
  }

  /** Clusters of 4 KiB up to 256 MiB, of 32 KiB up to 32 GiB, of 128 KiB beyond. */
  function ClusterSizeFor(totalBytes: nat): nat
  {
    if totalBytes <= 256 * 0x10_0000 then 0x1000 else if totalBytes <= 32 * 0x4000_0000 then 0x8000 else 0x2_0000
  }

  /** The FAT takes the fewest clusters that hold two words and one for each of the `most` clusters that the space behind
      its start could hold. */
  ghost predicate FatPlanned(l: Layout, spc: nat, most: nat, words: nat)
    requires 0 < spc
  {
    WholeBlocks(most, spc, l.totalSectors - l.fatOffset) && LeastBlocks(words, 512, (most + 2) * 4) && NextMultiple(l.fatLength, spc, words)
  }

  /** The layout of an accepted device, without the arithmetic that finds it: the FAT starts on the first cluster boundary
      after the boot regions, the heap has as many clusters as fit behind the FAT, and bitmap and table take the fewest
      clusters that hold them. */
  lemma PlanExactly(totalBytes: nat)
    requires Plan(totalBytes).Ok?
    ensures var l, spc := Plan(totalBytes).value, ClusterSizeFor(totalBytes) / 512;
      && l.ClusterBytes() == ClusterSizeFor(totalBytes) && WholeBlocks(l.totalSectors, 512, totalBytes)
      && NextMultiple(l.fatOffset, spc, 24) && (exists most: nat, words: nat :: FatPlanned(l, spc, most, words))
      && l.heapOffset == l.fatOffset + l.fatLength && WholeBlocks(l.clusterCount, spc, l.totalSectors - l.heapOffset)
      && LeastBlocks(l.bitmapBytes, 8, l.clusterCount) && LeastBlocks(l.bitmapClusters, 512 * spc, l.bitmapBytes)
      && LeastBlocks(l.upcaseClusters, 512 * spc, 5836) && l.bitmapClusters + l.upcaseClusters + 1 <= l.clusterCount
  {
    hide *;
    PlanIs(totalBytes);
    PlanSize(totalBytes);
    var l := Plan(totalBytes).value;
    var spc := Spc(l.spcShift);
    var most := (l.totalSectors - l.fatOffset) / spc;
    WholeIs(totalBytes, 512);
    WholeIs(l.totalSectors - l.fatOffset, spc);
    WholeIs(l.totalSectors - l.heapOffset, spc);
    MultipleIs(24, spc);
    LeastIs((most + 2) * 4, 512);
    MultipleIs(DivCeil((most + 2) * 4, 512), spc);
    LeastIs(l.clusterCount, 8);
    LeastIs(l.bitmapBytes, 512 * spc);
    LeastIs(5836, 512 * spc);
    Constants();
    FatIs(l, spc, most, DivCeil((most + 2) * 4, 512));
    assert FatPlanned(l, spc, most, DivCeil((most + 2) * 4, 512));
    UsedIs(l);
  }

  lemma UsedIs(l: Layout)
    ensures l.Used() == l.bitmapClusters + l.upcaseClusters + 1
  {
  }

  lemma Constants()
    ensures BPS == 512 && BOOT_SECTORS == 24 && UPCASE_LEN == 5836
  {
  }

  lemma PlanSize(totalBytes: nat)
    requires Plan(totalBytes).Ok?
    ensures Plan(totalBytes).value.ClusterBytes() == ClusterSizeFor(totalBytes) == 512 * Spc(Plan(totalBytes).value.spcShift)
    ensures ClusterSizeFor(totalBytes) / 512 == Spc(Plan(totalBytes).value.spcShift)
  {
    hide DivCeil, RoundUp;
  }

  lemma FatIs(l: Layout, spc: nat, most: nat, words: nat)
    requires 0 < spc && WholeBlocks(most, spc, l.totalSectors - l.fatOffset) && LeastBlocks(words, 512, (most + 2) * 4)
    requires NextMultiple(l.fatLength, spc, words)
    ensures FatPlanned(l, spc, most, words)
  {
  }

  lemma WholeIs(space: nat, size: nat)
    requires 0 < size
    ensures WholeBlocks(space / size, size, space)
  {
    DivMod(space, size);
  }

  lemma LeastIs(what: nat, size: nat)
    requires 0 < size
    ensures LeastBlocks(DivCeil(what, size), size, what)
  {
    DivCeilBounds(what, size);
  }

  lemma MultipleIs(what: nat, size: nat)
    requires 0 < size
    ensures NextMultiple(RoundUp(what, size), size, what)
  {
    RoundUpBounds(what, size);
    DivModUnique(DivCeil(what, size), size, 0);
  }

  // ---- Which devices are accepted --------------------------------------------------------------

  /** On 1040 sectors and more, and with larger clusters on as many as call for them, the FAT leaves a heap... */
  lemma RoomyHeap(s: nat, spc: nat, fatOffset: nat, most: nat, words: nat, fatLength: nat)
    requires (spc == 8 && 1040 <= s && fatOffset == 24) || (spc == 64 && 524288 <= s && fatOffset == 64)
          || (spc == 256 && 67108864 <= s && fatOffset == 256)
    requires WholeBlocks(most, spc, s - fatOffset) && LeastBlocks(words, 512, (most + 2) * 4) && fatLength < words + spc
    ensures fatOffset + fatLength + 900 < s && 2 * (fatOffset + fatLength) <= s + 1000
  {
    assert 128 * words < most + 2 + 128;
  }

  /** ...with room for the metadata. */
  lemma Roomy(space: nat, spc: nat, count: nat, bitmapBytes: nat, bitmapClusters: nat)
    requires (spc == 8 && 100 <= space) || (spc == 64 && 1000 <= space) || (spc == 256 && 10000 <= space)
    requires WholeBlocks(count, spc, space) && LeastBlocks(bitmapBytes, 8, count) && LeastBlocks(bitmapClusters, 512 * spc, bitmapBytes)
    ensures bitmapClusters + 3 <= count
  {
    if spc == 8 {
      assert bitmapClusters * 4096 < bitmapBytes + 4096;
    } else if spc == 64 {
      assert bitmapClusters * 32768 < bitmapBytes + 32768;
    } else {
      assert bitmapClusters * 131072 < bitmapBytes + 131072;
    }
  }

  /** On fewer sectors the FAT is one cluster... */
  lemma TightFat(s: nat, most: nat, words: nat)
    requires 24 < s < 1040 && WholeBlocks(most, 8, s - 24) && LeastBlocks(words, 512, (most + 2) * 4)
    ensures words == 1
  {
  }

  /** ...and the bitmap too. */
  lemma Tight(s: nat, count: nat, bitmapBytes: nat, bitmapClusters: nat)
    requires 32 < s < 1040 && WholeBlocks(count, 8, s - 32) && LeastBlocks(bitmapBytes, 8, count)
    requires LeastBlocks(bitmapClusters, 4096, bitmapBytes)
    ensures 64 <= s <==> bitmapClusters + 3 <= count
  {
  }

  lemma TableClusters(spc: nat)
    requires spc == 8 || spc == 64 || spc == 256
    ensures DivCeil(5836, 512 * spc) == if spc == 8 then 2 else 1
  {
  }

  lemma FatStart(spc: nat)
    requires spc == 8 || spc == 64 || spc == 256
    ensures RoundUp(24, spc) == if spc == 8 then 24 else spc
  {
  }

  lemma PlanOk(totalBytes: nat, s: nat, spc: nat, fatOffset: nat, words: nat, fatLength: nat, count: nat, bitmapClusters: nat)
    requires s == totalBytes / 512 && spc == Spc(ChooseSpcShift(totalBytes)) && fatOffset == RoundUp(24, spc)
    requires fatOffset < s ==> words == DivCeil(((s - fatOffset) / spc + 2) * 4, 512) && fatLength == RoundUp(words, spc)
    requires fatOffset < s && fatOffset + fatLength < s ==>
      count == (s - fatOffset - fatLength) / spc && bitmapClusters == DivCeil(DivCeil(count, 8), 512 * spc)
    ensures Plan(totalBytes).Ok?
       <==> fatOffset < s && fatOffset + fatLength < s && bitmapClusters + DivCeil(5836, 512 * spc) + 1 <= count
  {
    hide DivCeil, RoundUp, ChooseSpcShift;
  }

  lemma Shifts(totalBytes: nat)
    ensures var spc := Spc(ChooseSpcShift(totalBytes));
      && spc == (if totalBytes <= 0x1000_0000 then 8 else if totalBytes <= 0x8_0000_0000 then 64 else 256)
      && 0 < spc
  {
  }

  /** The formatter accepts exactly the devices of at least 32 KiB. */
  lemma PlanAccepts(totalBytes: nat)
    ensures Plan(totalBytes).Ok? <==> 32768 <= totalBytes
  {
    hide *;
    Shifts(totalBytes);
    var s, spc := totalBytes / 512, Spc(ChooseSpcShift(totalBytes));
    DivMod(totalBytes, 512);
    FatStart(spc);
    TableClusters(spc);
    var fatOffset := RoundUp(24, spc);
    if s <= fatOffset {
      PlanOk(totalBytes, s, spc, fatOffset, 0, 0, 0, 0);
      return;
    }
    var most := (s - fatOffset) / spc;
    var words := DivCeil((most + 2) * 4, 512);
    var fatLength := RoundUp(words, spc);
    WholeIs(s - fatOffset, spc);
    LeastIs((most + 2) * 4, 512);
    RoundUpBounds(words, spc);
    OneWordFat(words);
    if spc == 8 && s < 1040 {
      TightFat(s, most, words);
    } else {
      RoomyHeap(s, spc, fatOffset, most, words, fatLength);
    }
    if s <= fatOffset + fatLength {
      PlanOk(totalBytes, s, spc, fatOffset, words, fatLength, 0, 0);
      return;
    }
    var count := (s - fatOffset - fatLength) / spc;
    var bitmapBytes := DivCeil(count, 8);
    var bitmapClusters := DivCeil(bitmapBytes, 512 * spc);
    WholeIs(s - fatOffset - fatLength, spc);
    LeastIs(count, 8);
    LeastIs(bitmapBytes, 512 * spc);
    PlanOk(totalBytes, s, spc, fatOffset, words, fatLength, count, bitmapClusters);
    if spc == 8 && s < 1040 {
      Tight(s, count, bitmapBytes, bitmapClusters);
    } else {
      Roomy(s - fatOffset - fatLength, spc, count, bitmapBytes, bitmapClusters);
    }
  }

  lemma OneWordFat(words: nat)
    ensures words == 1 ==> RoundUp(words, 8) == 8
  {
  }
}
