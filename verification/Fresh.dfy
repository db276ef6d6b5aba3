/** A freshly formatted volume is consistent: the start of every run of operations. */
module FreshVolumes {
  import opened Alloc
  import opened Bytes
  import opened Catalogues
  import opened EntrySets
  import opened Fats
  import opened FileData
  import opened Formats
  import opened Geometries
  import opened Layouts
  import opened Volumes

  /** The view an image has. */
  function VolOf(img: seq<byte>, g: Geometry, bm: BitmapLoc): Vol
  {
    Vol(seq<nat>(g.clusterCount + 2, c requires 0 <= c => FatWord(img, g, c)),
        seq<bool>(g.clusterCount + 2, c requires 0 <= c => BitOf(img, g, bm, c)),
        seq<seq<byte>>(g.clusterCount + 2, c requires 0 <= c => ClusterOf(img, g, c)))
  }

  lemma WordFits(img: seq<byte>, g: Geometry, c: nat)
    ensures FatWord(img, g, c) < 0x1_0000_0000
  {
    PowersOf256();
    var o := g.FatBase() + 4 * c;
    if o + 4 <= |img| {
      LeOfFromLe(img[o..o + 4]);
    }
  }

  /** Every image that fits its geometry has a view. */
  lemma ViewExists(img: seq<byte>, g: Geometry, bm: BitmapLoc)
    requires g.Fits(bm, |img|)
    ensures Views(g, bm, img, VolOf(img, g, bm))
  {
    var v := VolOf(img, g, bm);
    forall c | 0 <= c < |v.fat|
      ensures v.fat[c] < 0x1_0000_0000
    {
      WordFits(img, g, c);
    }
    forall c | g.InRange(c)
      ensures |v.data[c]| == g.ClusterBytes()
    {
      g.ClusterInside(bm, |img|, c);
    }
  }

  // ---- What the view of a formatted image shows ----------------------------------------------

  lemma FreshFat(totalBytes: nat, img: seq<byte>, l: Layout, serial: nat, table: seq<byte>, c: nat)
    requires Plan(totalBytes) == Ok(l) && l.clusterCount <= 0xFFFF_FFF5 && |img| == totalBytes && Formatted(img, l, serial, table)
    requires c < l.clusterCount + 2
    ensures FatWord(img, l.Geo(), c) == FreshWord(l, c)
  {
    hide *;
    PlanFits(totalBytes);
    Regions(totalBytes);
    FormattedFat(img, l, serial, table, c);
    FatPart(img, l, c);
  }

  lemma FormattedFat(img: seq<byte>, l: Layout, serial: nat, table: seq<byte>, c: nat)
    requires Formatted(img, l, serial, table)
    ensures WordAt(Part(img, BPS * l.fatOffset, BPS * l.fatLength), c) == FreshWord(l, c)
  {
    hide BootOk, BitmapOk, Part, WordAt, FreshWord, TableImage, RootBytes;
  }

  lemma FatPart(img: seq<byte>, l: Layout, c: nat)
    requires BPS * l.fatOffset + BPS * l.fatLength <= |img| && BPS * l.fatLength >= 4 * (l.clusterCount + 2) && c < l.clusterCount + 2
    ensures FatWord(img, l.Geo(), c) == WordAt(Part(img, BPS * l.fatOffset, BPS * l.fatLength), c)
  {
    hide FromLe, Layout.RootFirst, Layout.UpcaseFirst, Spc;
    var a := BPS * l.fatOffset;
    SliceOfSlice(img, a, a + BPS * l.fatLength, 4 * c, 4);
  }

  lemma FreshBits(totalBytes: nat, img: seq<byte>, l: Layout, serial: nat, table: seq<byte>, c: nat)
    requires Plan(totalBytes) == Ok(l) && l.clusterCount <= 0xFFFF_FFF5 && |img| == totalBytes && Formatted(img, l, serial, table)
    requires 2 <= c < l.clusterCount + 2
    ensures BitOf(img, l.Geo(), l.Bitmap(), c) <==> c - 2 < l.Used()
  {
    hide *;
    PlanFits(totalBytes);
    Regions(totalBytes);
    BitmapRoom(totalBytes, l);
    FormattedBits(img, l, serial, table, c - 2);
    BitPart(img, l, c);
  }

  lemma BitmapRoom(totalBytes: nat, l: Layout)
    requires Plan(totalBytes) == Ok(l)
    ensures l.clusterCount <= 8 * Size(l, l.bitmapClusters)
  {
    hide *;
    PlanClusters(totalBytes);
    SizesIs(l);
    SizeIs(l, l.bitmapClusters);
    DivCeilBounds(l.bitmapBytes, l.ClusterBytes());
  }

  lemma SizeIs(l: Layout, k: nat)
    ensures Size(l, k) == k * l.ClusterBytes()
  {
  }

  lemma FormattedBits(img: seq<byte>, l: Layout, serial: nat, table: seq<byte>, k: nat)
    requires Formatted(img, l, serial, table) && k < 8 * Size(l, l.bitmapClusters)
    ensures BitAt(Part(img, HeapAt(l, 0), Size(l, l.bitmapClusters)), k) <==> k < l.Used()
  {
    hide BootOk, FatOk, Part, BitAt, TableImage, RootBytes, Size, HeapAt;
  }

  lemma BitPart(img: seq<byte>, l: Layout, c: nat)
    requires 2 <= c && c - 2 < 8 * Size(l, l.bitmapClusters) && HeapAt(l, 0) + Size(l, l.bitmapClusters) <= |img|
    ensures BitOf(img, l.Geo(), l.Bitmap(), c) <==> BitAt(Part(img, HeapAt(l, 0), Size(l, l.bitmapClusters)), c - 2)
  {
    HeapStart(l);
    hide BitSet, Size, HeapAt, Geometry.ClusterStart, Layout.RootFirst, Spc, Layout.Geo;
    var h, n, k := HeapAt(l, 0), Size(l, l.bitmapClusters), (c - 2) / 8;
    assert img[h..h + n][k] == img[h + k];
  }

  lemma HeapStart(l: Layout)
    ensures l.Geo().ClusterStart(2) == HeapAt(l, 0) && l.Bitmap().firstCluster == 2
  {
    assert 0 * l.ClusterBytes() == 0;
  }

  lemma ClusterAt(l: Layout, k: nat)
    ensures l.Geo().ClusterStart(2 + k) == HeapAt(l, k) && l.Geo().ClusterBytes() == l.ClusterBytes()
  {
  }

  lemma FreshRoot(totalBytes: nat, img: seq<byte>, l: Layout, serial: nat, table: seq<byte>)
    requires Plan(totalBytes) == Ok(l) && l.clusterCount <= 0xFFFF_FFF5 && |img| == totalBytes && Formatted(img, l, serial, table)
    ensures ClusterOf(img, l.Geo(), l.RootFirst()) == RootBytes(l, table)
  {
    hide *;
    Regions(totalBytes);
    FormattedRoot(img, l, serial, table);
    ClusterAt(l, l.bitmapClusters + l.upcaseClusters);
    RootPart(img, l);
  }

  lemma FormattedRoot(img: seq<byte>, l: Layout, serial: nat, table: seq<byte>)
    requires Formatted(img, l, serial, table)
    ensures Part(img, HeapAt(l, l.bitmapClusters + l.upcaseClusters), l.ClusterBytes()) == RootBytes(l, table)
  {
    hide BootOk, FatOk, BitmapOk, Part, TableImage, RootBytes, Size, HeapAt;
  }

  lemma RootPart(img: seq<byte>, l: Layout)
    requires var k := l.bitmapClusters + l.upcaseClusters;
      && l.Geo().ClusterStart(2 + k) == HeapAt(l, k) && l.Geo().ClusterBytes() == l.ClusterBytes()
      && HeapAt(l, k) + l.ClusterBytes() <= |img|
    ensures ClusterOf(img, l.Geo(), l.RootFirst())
         == Part(img, HeapAt(l, l.bitmapClusters + l.upcaseClusters), l.ClusterBytes())
  {
    hide Size, HeapAt, Geometry.ClusterStart, Geometry.ClusterBytes, Layout.ClusterBytes, Layout.Geo;
  }

  // ---- The first catalogue -------------------------------------------------------------------

  /** Who owns the clusters of a fresh volume: the bitmap, the up-case table and the root, from cluster 2 on. */
  function FreshCat(l: Layout): Cat
  {
    Cat(map[ROOT := [l.RootFirst()], BITMAP := Run(2, l.bitmapClusters), UPCASE := Run(l.UpcaseFirst(), l.upcaseClusters)],
        map c | 2 <= c < l.RootFirst() + 1 :: FreshPlace(l, c), {}, map[], map[])
  }

  function FreshPlace(l: Layout, c: nat): Place
    requires 2 <= c
  {
    if c < l.UpcaseFirst() then Place(BITMAP, c - 2)
    else if c < l.RootFirst() then Place(UPCASE, c - l.UpcaseFirst())
    else Place(ROOT, 0)
  }

  lemma FreshPlaced(l: Layout)
    ensures Placed(FreshCat(l))
  {
    hide Spc, Layout.ClusterBytes;
    var cat := FreshCat(l);
    forall c | c in cat.own
      ensures var p := cat.own[c]; p.id in cat.chains && p.at < |cat.chains[p.id]| && cat.chains[p.id][p.at] == c
    {
      assert cat.own[c] == FreshPlace(l, c);
    }
  }

  lemma RunIsChain(fat: seq<nat>, first: nat, n: nat)
    requires 2 <= first && first + n <= |fat| && forall c :: first <= c < first + n ==> fat[c] == RunWord(c, first + n)
    ensures IsChain(fat, Run(first, n))
  {
    var ch := Run(first, n);
    forall i | 0 <= i < n - 1
      ensures fat[ch[i]] == ch[i + 1]
    {
      assert fat[first + i] == RunWord(first + i, first + n);
    }
  }

  /** What a view must show for the catalogue above to describe it. */
  ghost predicate LooksFresh(v: Vol, l: Layout, table: seq<byte>)
  {
    && |v.fat| == |v.bits| == |v.data| == l.clusterCount + 2
    && (forall c :: 2 <= c < |v.fat| ==> v.fat[c] == FreshWord(l, c))
    && (forall c :: 2 <= c < |v.bits| ==> (v.bits[c] <==> c - 2 < l.Used()))
    && l.RootFirst() < |v.data| && v.data[l.RootFirst()] == RootBytes(l, table)
  }

  lemma FreshOwned(v: Vol, l: Layout, table: seq<byte>)
    requires LooksFresh(v, l, table) && l.clusterCount <= 0xFFFF_FFF5 && 0 < l.clusterCount
    requires 0 < l.bitmapClusters && 0 < l.upcaseClusters && l.RootFirst() < l.clusterCount + 2
    ensures ChainsOwned(v, FreshCat(l))
  {
    FreshPlaced(l);
    FreshLinked(v, l, table);
    hide Placed, Linked, IsChain, RootBytes, Spc, FreshWord;
    var cat := FreshCat(l);
    forall c | 2 <= c < |v.bits|
      ensures v.bits[c] <==> c in cat.own || c in cat.spare
    {
    }
  }

  lemma FreshLinked(v: Vol, l: Layout, table: seq<byte>)
    requires LooksFresh(v, l, table)
    requires 0 < l.bitmapClusters && 0 < l.upcaseClusters && l.RootFirst() < l.clusterCount + 2
    ensures Linked(v.fat, FreshCat(l))
  {
    hide RootBytes, Spc, IsChain;
    var cat := FreshCat(l);
    RunIsChain(v.fat, 2, l.bitmapClusters);
    RunIsChain(v.fat, l.UpcaseFirst(), l.upcaseClusters);
    OneCluster(v.fat, l.RootFirst());
    forall id | id in cat.chains
      ensures IsChain(v.fat, cat.chains[id])
    {
    }
  }

  lemma OneCluster(fat: seq<nat>, c: nat)
    requires 2 <= c < |fat| && fat[c] == END_OF_CHAIN
    ensures IsChain(fat, [c])
  {
  }

  // ---- The root holds no file ------------------------------------------------------------------

  lemma ThreeSlots(a: seq<byte>, b: seq<byte>, c: seq<byte>, n: nat, i: nat)
    requires |a| == SLOT && |b| == SLOT && |c| == SLOT && SLOT * i + SLOT <= 3 * SLOT + n
    ensures var s := a + b + c + Zeros(n);
      s[SLOT * i..SLOT * i + SLOT] == if i == 0 then a else if i == 1 then b else if i == 2 then c else Zeros(SLOT)
  {
    var s := a + b + c + Zeros(n);
    if i >= 3 {
      var t := s[SLOT * i..SLOT * i + SLOT];
      assert forall j :: 0 <= j < |t| ==> t[j] == 0;
    }
  }

  /** The slots of a fresh root. */
  lemma RootSlot(v: Vol, l: Layout, table: seq<byte>, i: nat)
    requires l.RootFirst() < |v.data| && v.data[l.RootFirst()] == RootBytes(l, table)
    requires |table| == UPCASE_LEN && 3 * SLOT <= l.ClusterBytes() && SLOT * i + SLOT <= l.ClusterBytes()
    ensures v.Slot(SlotAddr(l.RootFirst(), i))
         == if i == 0 then LabelSlot() else if i == 1 then BitmapSlot(2, l.bitmapBytes)
            else if i == 2 then UpcaseSlot(TableSum(table, UPCASE_LEN), l.UpcaseFirst(), UPCASE_LEN) else Zeros(SLOT)
  {
    hide LabelSlot, BitmapSlot, UpcaseSlot, TableSum, Layout.RootFirst, Layout.ClusterBytes, Layout.UpcaseFirst;
    ThreeSlots(LabelSlot(), BitmapSlot(2, l.bitmapBytes), UpcaseSlot(TableSum(table, UPCASE_LEN), l.UpcaseFirst(), UPCASE_LEN),
               l.ClusterBytes() - 3 * SLOT, i);
  }

  lemma SystemSlots(first: nat, len: nat, sum: u32)
    ensures LabelSlot()[0] == ENTRY_LABEL && BitmapSlot(first, len)[0] == ENTRY_BITMAP && UpcaseSlot(sum, first, len)[0] == ENTRY_UPCASE
    ensures BitmapSlot(first, len)[1] == 0
  {
  }

  lemma NoFileInRoot(v: Vol, l: Layout, table: seq<byte>, a: SlotAddr)
    requires LooksFresh(v, l, table) && |table| == UPCASE_LEN && 3 * SLOT <= l.ClusterBytes()
    requires a.cluster == l.RootFirst() && SLOT * a.index + SLOT <= l.ClusterBytes()
    ensures |v.Slot(a)| == SLOT && v.Slot(a)[0] != ENTRY_FILE
  {
    hide FreshWord, RootBytes, LabelSlot, BitmapSlot, UpcaseSlot, TableSum, Vol.Slot, Layout.ClusterBytes, Layout.RootFirst;
    RootSlot(v, l, table, a.index);
    SystemSlots(2, l.bitmapBytes, 0);
    SystemSlots(l.UpcaseFirst(), UPCASE_LEN, TableSum(table, UPCASE_LEN));
    assert a == SlotAddr(l.RootFirst(), a.index);
  }

  lemma FreshSlots(v: Vol, l: Layout, table: seq<byte>)
    requires LooksFresh(v, l, table) && |table| == UPCASE_LEN && 3 * SLOT <= l.ClusterBytes()
    ensures SlotsOwned(v, FreshCat(l), l.ClusterBytes() / SLOT)
  {
    hide LooksFresh, Vol.Slot, Layout.ClusterBytes, FreshPlace;
    var cat := FreshCat(l);
    forall a: SlotAddr
      ensures !FileSlotAt(v, cat, l.ClusterBytes() / SLOT, a)
    {
      if cat.InDirectory(a.cluster) && a.index < l.ClusterBytes() / SLOT {
        OnlyRootIsDirectory(l, a.cluster);
        NoFileInRoot(v, l, table, a);
      }
    }
  }

  lemma OnlyRootIsDirectory(l: Layout, c: nat)
    requires FreshCat(l).InDirectory(c)
    ensures c == l.RootFirst()
  {
    hide Spc;
    assert FreshCat(l).own[c] == FreshPlace(l, c);
  }

  lemma FreshSystem(l: Layout, g: Geometry)
    requires g == l.Geo() && 0 < l.ClusterBytes() && l.bitmapClusters == DivCeil(l.bitmapBytes, l.ClusterBytes())
    ensures 0 < g.ClusterBytes() && SystemOk(FreshCat(l), g, l.Bitmap())
  {
    hide DivCeil, Spc;
  }

  /** A formatted device holds a consistent volume: every cluster in use is the bitmap's, the table's or the root's,
      and nothing is recorded yet. */
  lemma FreshIsConsistent(totalBytes: nat, img: seq<byte>, l: Layout, serial: nat, table: seq<byte>, upcase: seq<u16>)
    requires Plan(totalBytes) == Ok(l) && l.clusterCount <= 0xFFFF_FFF5 && |img| == totalBytes && |table| == UPCASE_LEN
    requires Formatted(img, l, serial, table)
    ensures Views(l.Geo(), l.Bitmap(), img, VolOf(img, l.Geo(), l.Bitmap())) && l.Geo().Fits(l.Bitmap(), |img|)
    ensures Consistent(VolOf(img, l.Geo(), l.Bitmap()), FreshCat(l), l.Geo(), l.Bitmap(), upcase)
    ensures LooksFresh(VolOf(img, l.Geo(), l.Bitmap()), l, table)
  {
    hide *;
    PlanFits(totalBytes);
    PlanClusters(totalBytes);
    Regions(totalBytes);
    SizesIs(l);
    Counts(l);
    ViewExists(img, l.Geo(), l.Bitmap());
    var v := VolOf(img, l.Geo(), l.Bitmap());
    FreshLooks(totalBytes, img, l, serial, table);
    FreshOwned(v, l, table);
    FreshSlots(v, l, table);
    FreshSystem(l, l.Geo());
    FreshConsistent(v, l, upcase);
  }

  lemma FreshConsistent(v: Vol, l: Layout, upcase: seq<u16>)
    requires ChainsOwned(v, FreshCat(l)) && SlotsOwned(v, FreshCat(l), l.ClusterBytes() / SLOT)
    requires 0 < l.Geo().ClusterBytes() && SystemOk(FreshCat(l), l.Geo(), l.Bitmap())
    ensures Consistent(v, FreshCat(l), l.Geo(), l.Bitmap(), upcase)
  {
    hide ChainsOwned, SlotsOwned, SystemOk, Spc;
    assert l.Geo().Per() == l.ClusterBytes() / SLOT;
    assert FreshCat(l).nodes == map[];
  }

  lemma FreshLooks(totalBytes: nat, img: seq<byte>, l: Layout, serial: nat, table: seq<byte>)
    requires Plan(totalBytes) == Ok(l) && l.clusterCount <= 0xFFFF_FFF5 && |img| == totalBytes && Formatted(img, l, serial, table)
    requires l.Used() <= l.clusterCount && l.RootFirst() == l.Used() + 1
    ensures LooksFresh(VolOf(img, l.Geo(), l.Bitmap()), l, table)
  {
    hide Plan, Formatted, FatWord, BitOf, ClusterOf, FreshWord, RootBytes, Layout.Used, Layout.RootFirst, Spc, Layout.UpcaseFirst;
    var v := VolOf(img, l.Geo(), l.Bitmap());
    FreshRoot(totalBytes, img, l, serial, table);
    forall c | 2 <= c < |v.fat|
      ensures v.fat[c] == FreshWord(l, c) && (v.bits[c] <==> c - 2 < l.Used())
    {
      FreshFat(totalBytes, img, l, serial, table, c);
      FreshBits(totalBytes, img, l, serial, table, c);
    }
  }
}
