/** From an account of who owns what to a device that holds it: every well-formed account is met by some volume,
    and every volume by some image. */
module Realisations {
  import opened Bytes
  import opened Catalogues
  import opened Disks
  import opened EntrySets
  import opened ExfatFileSystem
  import opened Fats
  import opened Geometries
  import opened Volumes

  // ---- The image of a view -----------------------------------------------------------------------

  /** `n` bits from index `at` on, the first one lowest. */
  function Pack(bits: seq<bool>, at: nat, n: nat): (b: nat)
    ensures b < Pow2(n)
    decreases n
  {
    if n == 0 then 0 else (if at < |bits| && bits[at] then 1 else 0) + 2 * Pack(bits, at + 1, n - 1)
  }

  lemma {:induction false} PackedBit(bits: seq<bool>, at: nat, n: nat, k: nat)
    requires k < n && at + k < |bits|
    ensures BitSet(Pack(bits, at, n), k) == bits[at + k]
    decreases n
  {
    if k > 0 {
      PackedBit(bits, at + 1, n - 1, k - 1);
      assert Pack(bits, at, n) / 2 == Pack(bits, at + 1, n - 1);
    }
  }

  function BitmapByte(bits: seq<bool>, k: nat): byte
  {
    assert Pow2(8) == 256 by {
      assert Pow2(3) == 8 && Pow2(5) == 4 * Pow2(3);
      assert Pow2(8) == 8 * Pow2(5);
    }
    Pack(bits, 2 + 8 * k, 8)
  }

  function HeapByte(v: Vol, cb: nat, at: nat): byte
    requires 0 < cb
  {
    var c := 2 + at / cb;
    if c < |v.data| && at % cb < |v.data[c]| then v.data[c][at % cb] else 0
  }

  /** Byte `i` of a device that holds `v`. */
  function ByteAt(g: Geometry, bm: BitmapLoc, v: Vol, i: nat): byte
    requires 0 < g.ClusterBytes() && 2 <= bm.firstCluster
  {
    if g.FatBase() <= i < g.FatBase() + 4 * |v.fat| then Le(v.fat[(i - g.FatBase()) / 4], 4)[(i - g.FatBase()) % 4]
    else if g.ClusterStart(bm.firstCluster) <= i < g.ClusterStart(bm.firstCluster) + bm.lengthBytes then
      BitmapByte(v.bits, i - g.ClusterStart(bm.firstCluster))
    else if g.HeapBase() <= i then HeapByte(v, g.ClusterBytes(), i - g.HeapBase())
    else 0
  }

  function ImageOf(g: Geometry, bm: BitmapLoc, v: Vol, size: nat): (img: seq<byte>)
    requires 0 < g.ClusterBytes() && 2 <= bm.firstCluster
    ensures |img| == size && forall i :: 0 <= i < size ==> img[i] == ByteAt(g, bm, v, i)
  {
    seq(size, i requires 0 <= i < size => ByteAt(g, bm, v, i))
  }

  /** Every volume is what some image of the device holds. */
  lemma ImageHolds(g: Geometry, bm: BitmapLoc, v: Vol, size: nat)
    requires g.Fits(bm, size) && Shaped(g, bm, v)
    ensures Views(g, bm, ImageOf(g, bm, v, size), v)
  {
    hide ImageOf, ByteAt;
    var img := ImageOf(g, bm, v, size);
    forall c: nat {:trigger FatWord(img, g, c)} | g.InRange(c)
      ensures FatWord(img, g, c) == v.fat[c]
    {
      ImageWord(g, bm, v, size, c);
    }
    forall c: nat {:trigger BitOf(img, g, bm, c)} | g.InRange(c)
      ensures BitOf(img, g, bm, c) == v.bits[c]
    {
      ImageBit(g, bm, v, size, c);
    }
    forall c: nat {:trigger ClusterOf(img, g, c)} | g.InRange(c) && !g.InBitmapRun(bm, c)
      ensures ClusterOf(img, g, c) == v.data[c]
    {
      ImageCluster(g, bm, v, size, c);
    }
  }

  lemma ImageWord(g: Geometry, bm: BitmapLoc, v: Vol, size: nat, c: nat)
    requires g.Fits(bm, size) && Shaped(g, bm, v) && g.InRange(c)
    ensures FatWord(ImageOf(g, bm, v, size), g, c) == v.fat[c]
  {
    var img, o := ImageOf(g, bm, v, size), g.FatBase() + 4 * c;
    MulNonNegative(g.clusterCount, g.ClusterBytes());
    hide ImageOf, Geometry.FatBase, Geometry.HeapBase, Geometry.ClusterBytes, Le, FromLe, BitmapByte, HeapByte, Geometry.ClusterStart;
    forall j | 0 <= j < 4
      ensures img[o + j] == Le(v.fat[c], 4)[j]
    {
      DivModUnique(c, 4, j);
      assert img[o + j] == ByteAt(g, bm, v, o + j);
    }
    assert img[o..o + 4] == Le(v.fat[c], 4);
    PowersOf256();
    FromLeOfLe(v.fat[c], 4);
  }

  lemma ImageBit(g: Geometry, bm: BitmapLoc, v: Vol, size: nat, c: nat)
    requires g.Fits(bm, size) && Shaped(g, bm, v) && g.InRange(c)
    ensures BitOf(ImageOf(g, bm, v, size), g, bm, c) == v.bits[c]
  {
    var img, k := ImageOf(g, bm, v, size), (c - 2) / 8;
    assert k < bm.lengthBytes && |v.bits| == g.clusterCount + 2;
    ImageBitmap(g, bm, v, size, k);
    PackedBitOf(v.bits, c);
    hide ImageOf, Geometry.Fits, Geometry.FatBase, Geometry.HeapBase, Geometry.ClusterBytes, BitSet, BitmapByte, ByteAt, Geometry.ClusterStart;
  }

  lemma PackedBitOf(bits: seq<bool>, c: nat)
    requires 2 <= c < |bits|
    ensures BitSet(BitmapByte(bits, (c - 2) / 8), (c - 2) % 8) == bits[c]
  {
    hide BitSet, Pack;
    var k, j := (c - 2) / 8, (c - 2) % 8;
    DivMod(c - 2, 8);
    assert 2 + 8 * k + j == c;
    PackedBit(bits, 2 + 8 * k, 8, j);
  }

  lemma ImageBitmap(g: Geometry, bm: BitmapLoc, v: Vol, size: nat, k: nat)
    requires g.Fits(bm, size) && Shaped(g, bm, v) && k < bm.lengthBytes
    ensures var o := g.ClusterStart(bm.firstCluster) + k;
      o < size && ImageOf(g, bm, v, size)[o] == BitmapByte(v.bits, k)
  {
    g.BitmapInside(bm, size);
    hide ImageOf, Geometry.FatBase, Geometry.HeapBase, Geometry.ClusterBytes, Le, BitmapByte, HeapByte, Geometry.ClusterStart;
    var o := g.ClusterStart(bm.firstCluster) + k;
    assert !(o < g.FatBase() + 4 * |v.fat|);
    assert ImageOf(g, bm, v, size)[o] == ByteAt(g, bm, v, o);
  }

  lemma HeapByteOf(v: Vol, cb: nat, c: nat, j: nat)
    requires 2 <= c < |v.data| && j < cb == |v.data[c]|
    ensures 0 <= (c - 2) * cb && HeapByte(v, cb, (c - 2) * cb + j) == v.data[c][j]
  {
    MulNonNegative(c - 2, cb);
    DivModUnique(c - 2, cb, j);
  }

  lemma ByteOfCluster(g: Geometry, bm: BitmapLoc, v: Vol, size: nat, c: nat, j: nat)
    requires g.Fits(bm, size) && Shaped(g, bm, v) && g.InRange(c) && !g.InBitmapRun(bm, c) && j < g.ClusterBytes()
    ensures ByteAt(g, bm, v, g.ClusterStart(c) + j) == v.data[c][j]
  {
    g.BitmapApart(bm, size, c);
    HeapByteOf(v, g.ClusterBytes(), c, j);
    hide Geometry.FatBase, Geometry.HeapBase, Geometry.ClusterBytes, Le, BitmapByte, HeapByte, Geometry.InBitmapRun;
  }

  lemma ImageCluster(g: Geometry, bm: BitmapLoc, v: Vol, size: nat, c: nat)
    requires g.Fits(bm, size) && Shaped(g, bm, v) && g.InRange(c) && !g.InBitmapRun(bm, c)
    ensures ClusterOf(ImageOf(g, bm, v, size), g, c) == v.data[c]
  {
    var img, cb, start := ImageOf(g, bm, v, size), g.ClusterBytes(), g.ClusterStart(c);
    g.ClusterInside(bm, size, c);
    hide ImageOf, ByteAt, Geometry.FatBase, Geometry.HeapBase, Geometry.ClusterBytes, Geometry.ClusterStart, Geometry.InBitmapRun;
    forall j | 0 <= j < cb
      ensures img[start + j] == v.data[c][j]
    {
      assert img[start + j] == ByteAt(g, bm, v, start + j);
      ByteOfCluster(g, bm, v, size, c, j);
    }
    assert img[start..start + cb] == v.data[c];
  }

  // ---- The volume of an account --------------------------------------------------------------------

  /** An account of a volume: the clusters of every owner and their inverse, the files and directories, and the
      first byte of each directory slot that is in no entry set. */
  datatype Account = Account(geo: Geometry, bm: BitmapLoc, upcase: seq<u16>,
                             chains: map<nat, seq<nat>>, own: map<nat, Place>, nodes: map<nat, Node>, fill: SlotAddr -> byte)
  {
    /** No two entry sets share a slot. */
    ghost predicate SetsDisjoint()
    {
      forall k, j, k', j' ::
        (k in nodes && k' in nodes && 0 <= j < nodes[k].Count() && 0 <= j' < nodes[k'].Count()
         && nodes[k].Addr(j) == nodes[k'].Addr(j')) ==> k == k'
    }

    function SlotOwn(): map<SlotAddr, nat>
      requires SetsDisjoint()
    {
      map k, j | k in nodes && 0 <= j < nodes[k].Count() :: nodes[k].Addr(j) := k
    }

    function Catalogue(): Cat
      requires SetsDisjoint()
    {
      Cat(chains, own, {}, nodes, SlotOwn())
    }

    ghost predicate AllRecordable()
    {
      forall k :: k in nodes ==> nodes[k].facts.Recordable()
    }

    /** The slot at `a`. */
    function SlotOf(a: SlotAddr): (s: seq<byte>)
      requires SetsDisjoint() && AllRecordable()
      ensures |s| == SLOT
    {
      if a in SlotOwn() then
        var n := nodes[SlotOwn()[a]];
        Encode(n.facts, upcase)[a.index - n.start]
      else [fill(a)] + Fill(SLOT - 1, 0)
    }

    /** Directory clusters hold their slots, all others zeros. */
    function Contents(c: nat): (d: seq<byte>)
      requires SetsDisjoint() && AllRecordable()
      ensures |d| == geo.ClusterBytes()
    {
      seq(geo.ClusterBytes(), i requires 0 <= i < geo.ClusterBytes() => SlotOf(SlotAddr(c, i / SLOT))[i % SLOT])
    }

    function Word(c: nat): nat
    {
      if c in own && own[c].id in chains then
        if own[c].at + 1 < |chains[own[c].id]| then chains[own[c].id][own[c].at + 1] else END_OF_CHAIN
      else 0
    }

    function View(): Vol
      requires SetsDisjoint() && AllRecordable()
    {
      Vol(seq(geo.clusterCount + 2, c requires 0 <= c < geo.clusterCount + 2 => Word(c)),
          seq(geo.clusterCount + 2, c requires 0 <= c < geo.clusterCount + 2 => c in own),
          seq(geo.clusterCount + 2, c requires 0 <= c < geo.clusterCount + 2 => Contents(c)))
    }

    /** Node `k` is recorded in its directory as the clusters it owns call for. */
    ghost predicate Fitting(k: nat)
      requires SetsDisjoint() && 0 < geo.ClusterBytes()
    {
      && k in nodes && k in chains
      && var n := nodes[k];
      && n.facts.Recordable() && n.facts.flags <= 1 && n.start + n.Count() <= geo.Per()
      && n.cluster in own && own[n.cluster].id == n.parent && Catalogue().IsDir(n.parent)
      && ChainSuits(chains[k], n.facts, geo.ClusterBytes())
    }

    ghost predicate WellFormed(size: nat)
    {
      && geo.Fits(bm, size) && MIN_CLUSTER <= geo.ClusterBytes()
      && SetsDisjoint() && Placed(Catalogue()) && (forall c :: c in own ==> geo.InRange(c))
      && (forall k {:trigger Fitting(k)} :: k in nodes ==> Fitting(k))
      && (forall a :: fill(a) != ENTRY_FILE)
      && SystemOk(Catalogue(), geo, bm)
    }

    lemma Described(size: nat)
      requires WellFormed(size)
      ensures SetsDisjoint() && AllRecordable() && 0 < geo.ClusterBytes()
    {
      hide Placed, SystemOk, Geometry.Fits, Geometry.ClusterBytes;
      assert forall k :: k in nodes ==> Fitting(k);
    }
  }

  // ---- The volume of a well-formed account is consistent -------------------------------------------

  lemma ViewOwned(b: Account, size: nat)
    requires b.WellFormed(size) && b.SetsDisjoint() && b.AllRecordable()
    ensures ChainsOwned(b.View(), b.Catalogue())
  {
    ViewBits(b, size);
    ViewLinked(b, size);
    hide Placed, SystemOk, Account.View, Account.Catalogue, Account.Fitting, BitsMatch, Linked, Vol.Unreserved, Geometry.Fits,
         Geometry.ClusterBytes;
  }

  lemma ViewBits(b: Account, size: nat)
    requires b.WellFormed(size) && b.SetsDisjoint() && b.AllRecordable()
    ensures var v := b.View(); |v.bits| == |v.fat| && v.Unreserved() && BitsMatch(v.bits, b.Catalogue())
  {
    hide Placed, SystemOk, Account.Contents, Account.Word, Account.SlotOwn, Account.Fitting, Geometry.ClusterBytes;
  }

  lemma ViewLinked(b: Account, size: nat)
    requires b.WellFormed(size) && b.SetsDisjoint() && b.AllRecordable()
    ensures Linked(b.View().fat, b.Catalogue())
  {
    hide Account.WellFormed, Account.View, Account.SlotOwn, IsChain;
    forall id | id in b.chains
      ensures IsChain(b.View().fat, b.chains[id])
    {
      ChainOnDisk(b, size, id);
    }
  }

  lemma ChainOnDisk(b: Account, size: nat, id: nat)
    requires b.WellFormed(size) && b.SetsDisjoint() && b.AllRecordable() && id in b.chains
    ensures IsChain(b.View().fat, b.chains[id])
  {
    hide SystemOk, Account.Contents, Account.SlotOwn, Geometry.ClusterBytes, Geometry.Fits;
    var ch, fat, cat := b.chains[id], b.View().fat, b.Catalogue();
    forall i | 0 <= i < |ch|
      ensures 2 <= ch[i] < |fat| && fat[ch[i]] == if i + 1 < |ch| then ch[i + 1] else END_OF_CHAIN
    {
      assert cat.chains[id][i] in cat.own && cat.own[cat.chains[id][i]] == Place(id, i);
      assert b.geo.InRange(ch[i]);
    }
  }

  /** What a slot address shows. */
  lemma SlotShown(b: Account, size: nat, a: SlotAddr)
    requires b.WellFormed(size) && b.SetsDisjoint() && b.AllRecordable() && b.geo.InRange(a.cluster) && a.index < b.geo.Per()
    ensures b.View().Slot(a) == b.SlotOf(a)
  {
    hide SystemOk, Placed, Account.SlotOf, Account.SlotOwn, Account.Word;
    var d, cb := b.Contents(a.cluster), b.geo.ClusterBytes();
    assert b.View().data[a.cluster] == d;
    assert cb == SLOT * b.geo.Per();
    hide Geometry.ClusterBytes, Geometry.Per, Geometry.Fits;
    forall j | 0 <= j < SLOT
      ensures d[SLOT * a.index + j] == b.SlotOf(a)[j]
    {
      DivModUnique(a.index, SLOT, j);
      assert SlotAddr(a.cluster, a.index) == a;
    }
    assert d[SLOT * a.index..SLOT * a.index + SLOT] == b.SlotOf(a);
  }

  lemma SetDrawn(b: Account, size: nat, k: nat)
    requires b.WellFormed(size) && b.SetsDisjoint() && b.AllRecordable() && k in b.nodes
    requires b.geo.InRange(b.nodes[k].cluster) && b.nodes[k].start + b.nodes[k].Count() <= b.geo.Per()
    ensures SetOnDisk(b.View(), b.nodes[k], b.upcase)
  {
    var n := b.nodes[k];
    assert n.facts.Recordable() && n.Count() == |Encode(n.facts, b.upcase)|;
    hide *;
    forall j | 0 <= j < n.Count()
      ensures b.View().Slot(n.Addr(j)) == Encode(n.facts, b.upcase)[j]
    {
      SlotInside(b, n, j);
      SlotShown(b, size, n.Addr(j));
      SlotOfNode(b, k, j);
    }
    SetOnDiskIs(b.View(), n, b.upcase);
  }

  lemma SlotInside(b: Account, n: Node, j: nat)
    requires j < n.Count() && n.start + n.Count() <= b.geo.Per() && n.facts.Recordable()
    ensures n.Addr(j).cluster == n.cluster && n.Addr(j).index < b.geo.Per() && j < |Encode(n.facts, b.upcase)|
  {
    hide Encode, Geometry.Per;
  }

  lemma SetOnDiskIs(v: Vol, n: Node, upcase: seq<u16>)
    requires n.facts.Recordable() && n.Count() <= |Encode(n.facts, upcase)|
    requires forall j :: 0 <= j < n.Count() ==> v.Slot(n.Addr(j)) == Encode(n.facts, upcase)[j]
    ensures SetOnDisk(v, n, upcase)
  {
    hide Encode, Vol.Slot;
  }

  lemma SetShown(b: Account, size: nat, k: nat)
    requires b.WellFormed(size) && b.SetsDisjoint() && b.AllRecordable() && k in b.nodes && 0 < b.geo.ClusterBytes()
    ensures NodeOk(b.View(), b.Catalogue(), b.geo.ClusterBytes(), b.upcase, k)
  {
    hide SystemOk, Placed, Account.View, Account.SlotOf, Account.SlotOwn, SetOnDisk, ChainSuits, Geometry.ClusterBytes, Geometry.Fits;
    assert b.Fitting(k);
    assert b.geo.InRange(b.nodes[k].cluster);
    SetDrawn(b, size, k);
  }

  lemma SlotOfNode(b: Account, k: nat, j: nat)
    requires b.SetsDisjoint() && b.AllRecordable() && k in b.nodes && j < b.nodes[k].Count()
    ensures b.nodes[k].Addr(j) in b.SlotOwn() && b.SlotOwn()[b.nodes[k].Addr(j)] == k
    ensures b.SlotOf(b.nodes[k].Addr(j)) == Encode(b.nodes[k].facts, b.upcase)[j]
  {
    hide Encode;
  }

  lemma ViewSlotsOwned(b: Account, size: nat)
    requires b.WellFormed(size) && b.SetsDisjoint() && b.AllRecordable()
    ensures SlotsOwned(b.View(), b.Catalogue(), b.geo.Per())
  {
    hide SystemOk, Placed, Account.View, Account.SlotOf, Geometry.ClusterBytes, Geometry.Fits, Geometry.Per, Vol.Slot;
    var cat := b.Catalogue();
    forall a | FileSlotAt(b.View(), cat, b.geo.Per(), a)
      ensures a in cat.slotOwn
    {
      assert b.geo.InRange(a.cluster);
      SlotShown(b, size, a);
      StraySlot(b, a);
    }
  }

  lemma StraySlot(b: Account, a: SlotAddr)
    requires b.SetsDisjoint() && b.AllRecordable() && (forall a :: b.fill(a) != ENTRY_FILE)
    ensures a !in b.SlotOwn() ==> b.SlotOf(a)[0] != ENTRY_FILE
  {
    hide Encode;
  }

  /** The volume of a well-formed account satisfies the invariant, and has the shape of a view. */
  lemma Realised(b: Account, size: nat)
    requires b.WellFormed(size)
    ensures b.SetsDisjoint() && b.AllRecordable() && 0 < b.geo.ClusterBytes()
    ensures Consistent(b.View(), b.Catalogue(), b.geo, b.bm, b.upcase)
    ensures Shaped(b.geo, b.bm, b.View())
  {
    b.Described(size);
    ViewOwned(b, size);
    ViewSlotsOwned(b, size);
    forall k | k in b.nodes
      ensures NodeOk(b.View(), b.Catalogue(), b.geo.ClusterBytes(), b.upcase, k)
    {
      SetShown(b, size, k);
    }
    ViewShaped(b, size);
    hide Placed, Account.View, ChainsOwned, SlotsOwned, NodeOk, Shaped, Geometry.ClusterBytes, Geometry.Fits, Account.SlotOwn;
  }

  lemma ViewShaped(b: Account, size: nat)
    requires b.WellFormed(size) && b.SetsDisjoint() && b.AllRecordable()
    ensures Shaped(b.geo, b.bm, b.View())
  {
    var v, cat := b.View(), b.Catalogue();
    hide Account.Contents, SystemOk, Geometry.ClusterBytes, Account.SlotOwn;
    forall c | 0 <= c < |v.fat|
      ensures v.fat[c] < 0x1_0000_0000
    {
      if c in b.own && b.own[c].id in b.chains && b.own[c].at + 1 < |b.chains[b.own[c].id]| {
        assert cat.chains[b.own[c].id][b.own[c].at + 1] in cat.own;
      }
    }
  }

  /** A device that holds the account, mounted. */
  method Realise(b: Account, size: nat) returns (fs: ExfatFs)
    requires b.WellFormed(size)
    ensures b.SetsDisjoint() && b.AllRecordable()
    ensures fresh(fs) && fresh(fs.volume) && fresh(fs.volume.disk) && fs.Valid() && |fs.volume.disk.bytes| == size
    ensures fs.volume.vol == b.View() && fs.cat == b.Catalogue()
    ensures fs.volume.geo == b.geo && fs.volume.bm == b.bm && fs.upcase == b.upcase
  {
    Realised(b, size);
    ImageHolds(b.geo, b.bm, b.View(), size);
    hide Consistent, Views, Shaped, Account.View, Placed, SystemOk, Account.SlotOwn, Account.Fitting, Geometry.ClusterBytes;
    var disk := new Disk(ImageOf(b.geo, b.bm, b.View(), size));
    var volume := new Volume(disk, b.geo, b.bm, b.View());
    fs := new ExfatFs(volume, b.upcase, b.Catalogue());
  }
}
