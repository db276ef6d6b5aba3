/** Growing, filling and publishing a file: the disk side of a write, on values and on the volume. */
module FileWrites {
  import opened Alloc
  import opened Bytes
  import opened Catalogues
  import opened Directories
  import opened EntrySets
  import opened Fats
  import opened FileData
  import opened Footprints
  import opened Geometries
  import opened Lookups
  import opened SlotWrites
  import opened Steps
  import opened Volumes

  const U32 := 0x1_0000_0000

  // ---- Contents ------------------------------------------------------------------------

  /** The bytes of a file of length `len` whose clusters are `ch`. */
  ghost function Content(v: Vol, ch: seq<nat>, len: nat): seq<byte>
  {
    if (forall i :: 0 <= i < |ch| ==> ch[i] < |v.data|) && len <= |Flatten(v.data, ch)|
    then Flatten(v.data, ch)[..len] else []
  }

  /** `old_` with `buf` laid over it at `offset`, zeros filling any gap before it. */
  function Overwritten(old_: seq<byte>, offset: nat, buf: seq<byte>): seq<byte>
  {
    var base := if offset > |old_| then old_ + Zeros(offset - |old_|) else old_;
    base[..offset] + buf + (if offset + |buf| < |base| then base[offset + |buf|..] else [])
  }

  /** Zeroing the gap and then laying `buf` over a longer buffer is, up to the new length, overwriting its
      first `len` bytes, whatever followed them. */
  lemma OverwrittenIs(f0: seq<byte>, len: nat, offset: nat, buf: seq<byte>)
    requires len <= |f0| && offset + |buf| <= |f0|
    ensures var f1 := if offset > len then Splice(f0, len, Zeros(offset - len)) else f0;
      Splice(f1, offset, buf)[..Max(offset + |buf|, len)] == Overwritten(f0[..len], offset, buf)
  {
    var f1 := if offset > len then Splice(f0, len, Zeros(offset - len)) else f0;
    var base := if offset > len then f0[..len] + Zeros(offset - len) else f0[..len];
    var n := Max(offset + |buf|, len);
    assert forall i :: 0 <= i < |base| ==> f1[i] == base[i];
    var l, r := Splice(f1, offset, buf)[..n], Overwritten(f0[..len], offset, buf);
    assert |r| == n;
    forall i | 0 <= i < n
      ensures l[i] == r[i]
    {
      SpliceAt(f1, offset, buf, i);
    }
  }

  // ---- Growing -------------------------------------------------------------------------

  /** The chain of `id` has become `ch`: what it was, followed by clusters that were free. */
  ghost predicate Grown(v0: Vol, v: Vol, cat: Cat, id: nat, ch: seq<nat>)
    requires id in cat.chains
  {
    && v.data == v0.data && cat.chains[id] <= ch && ChainStep(v0, v, cat, id, ch)
    && (forall i :: |cat.chains[id]| <= i < |ch| ==> ch[i] !in cat.own && ch[i] in FreeSet(v0))
  }

  /** What growing the chain `ch` may touch: free clusters, and the link behind the last one. */
  function GrowthPrint(v0: Vol, ch: seq<nat>): Footprint
  {
    Footprint(FreeSet(v0) + (if ch == [] then {} else {ch[|ch| - 1]}), FreeSet(v0), {}, {})
  }

  lemma GrownByAlloc(v0: Vol, v: Vol, cat: Cat, id: nat, chain: seq<nat>)
    requires ChainsOwned(v0, cat) && id in cat.chains && cat.chains[id] == [] && Allocated(v0, v, chain)
    ensures Grown(v0, v, cat, id, chain)
  {
    AllocStep(v0, v, cat, id, chain);
    assert forall i :: 0 <= i < |chain| ==> chain[i] in Elems(chain);
  }

  lemma GrownByExtending(v0: Vol, v: Vol, cat: Cat, id: nat, added: seq<nat>)
    requires ChainsOwned(v0, cat) && id in cat.chains && cat.chains[id] != []
    requires Extended(v0, v, cat.chains[id][|cat.chains[id]| - 1], added)
    ensures Grown(v0, v, cat, id, cat.chains[id] + added)
  {
    ExtendStep(v0, v, cat, id, added);
    var ch := cat.chains[id] + added;
    forall i | |cat.chains[id]| <= i < |ch|
      ensures ch[i] !in cat.own && ch[i] in FreeSet(v0)
    {
      assert ch[i] == added[i - |cat.chains[id]|] && ch[i] in Elems(added);
    }
  }

  lemma TailOwned(v: Vol, cat: Cat, id: nat)
    requires ChainsOwned(v, cat) && id in cat.chains && cat.chains[id] != []
    ensures var t := cat.chains[id][|cat.chains[id]| - 1]; 2 <= t < |v.fat| && v.bits[t]
  {
    var ch := cat.chains[id];
    assert IsChain(v.fat, ch);
    assert cat.own[ch[|ch| - 1]] == Place(id, |ch| - 1);
  }

  lemma GrownByNothing(v: Vol, cat: Cat, id: nat)
    requires ChainsOwned(v, cat) && id in cat.chains
    ensures Grown(v, v, cat, id, cat.chains[id])
  {
    OwnedIsInChain(cat, id);
  }

  /** The chain of a file of known length, as the write path reads it. */
  method ReadKnownChain(v: Volume, entry: EntryLoc, clusters: nat, ghost cat: Cat, ghost id: nat) returns (chain: seq<nat>)
    requires v.Valid() && ChainsOwned(v.vol, cat) && id in cat.chains
    requires (entry.dataLen == 0 <==> cat.chains[id] == []) && |cat.chains[id]| == clusters
    requires cat.chains[id] != [] ==> entry.firstCluster == cat.chains[id][0]
    ensures chain == cat.chains[id]
  {
    hide Volume.Valid, IsChain;
    v.Sizes();
    if entry.dataLen == 0 {
      return [];
    }
    var known := ReadChain(v, entry.firstCluster, Some(clusters));
    WalkOfChain(v.vol.fat, cat.chains[id], clusters, true);
    return known.value;
  }

  /** The clusters of a file, extended to `newClusters`: what one write asks of the allocator. */
  method GrowFile(v: Volume, entry: EntryLoc, oldClusters: nat, newClusters: nat, ghost cat: Cat, ghost id: nat)
    returns (r: Result<(nat, seq<nat>)>)
    requires v.Valid() && ChainsOwned(v.vol, cat) && id in cat.chains
    requires (entry.dataLen == 0 <==> cat.chains[id] == []) && |cat.chains[id]| == oldClusters
    requires cat.chains[id] != [] ==> entry.firstCluster == cat.chains[id][0]
    requires newClusters - oldClusters < U32
    modifies v, v.disk
    ensures v.Valid() && old(v.trace) <= v.trace
    ensures r.Ok? <==> newClusters - oldClusters <= |FreeSet(old(v.vol))|
    ensures r.Ok? ==> Grown(old(v.vol), v.vol, cat, id, r.value.1) && |r.value.1| == Max(oldClusters, newClusters)
    ensures r.Ok? && r.value.1 != [] ==> r.value.0 == r.value.1[0]
    ensures r.Ok? ==> Confined(old(v.vol), v.vol, GrowthPrint(old(v.vol), cat.chains[id]))
    ensures r.Err? ==> Marked(old(v.vol), v.vol, FreeSet(old(v.vol)))
    ensures Through(old(v.vol), v.trace, |old(v.trace)|, GrowthPrint(old(v.vol), cat.chains[id]))
  {
    hide Volume.Valid, Confined, ChainsOwned, Grown, Extended, Allocated, Marked, FreeSet, Through, Shaped, IsChain,
         Links, Geometry.ClusterBytes;
    v.Sizes();
    ghost var v0, t0, ch := v.vol, |v.trace|, cat.chains[id];
    var first := entry.firstCluster;
    var chain := ReadKnownChain(v, entry, oldClusters, cat, id);
    if newClusters > oldClusters {
      var need := (newClusters - oldClusters) % U32;
      if chain == [] {
        var c := AllocChain(v, need);
        ThroughWider(v0, v.trace, t0, ClustersOf(FreeSet(v0)), GrowthPrint(v0, ch));
        if c.Err? {
          return Err(c.error);
        }
        GrownByAlloc(v0, v.vol, cat, id, c.value);
        AllocatedConfined(v0, v.vol, c.value);
        ConfinedWider(v0, v.vol, ClustersOf(FreeSet(v0)), GrowthPrint(v0, ch));
        first := c.value[0];
        chain := c.value;
      } else {
        TailOwned(v0, cat, id);
        var added := ExtendChain(v, chain[|chain| - 1], need);
        if added.Err? {
          return Err(added.error);
        }
        GrownByExtending(v0, v.vol, cat, id, added.value);
        ExtendedConfined(v0, v.vol, ch[|ch| - 1], added.value);
        chain := chain + added.value;
      }
    } else {
      GrownByNothing(v0, cat, id);
      ConfinedNothing(v0, GrowthPrint(v0, ch));
      ThroughNothing(v0, v.trace, GrowthPrint(v0, ch));
    }
    return Ok((first, chain));
  }

  // ---- Filling -------------------------------------------------------------------------

  lemma ContentSize(v: Vol, ch: seq<nat>, cb: nat, len: nat)
    requires Sized(v.data, ch, cb) && len <= |ch| * cb
    ensures len <= |Flatten(v.data, ch)| && Content(v, ch, len) == Flatten(v.data, ch)[..len]
  {
    FlattenSize(v.data, ch, cb);
  }

  /** Zero any gap between the old end and the write offset, then write the payload. */
  method FillFile(v: Volume, chain: seq<nat>, dataLen: nat, offset: nat, buf: seq<byte>)
    requires v.Valid() && 0 < v.geo.ClusterBytes() && FileClusters(v.geo, v.bm, chain) && buf != []
    requires offset + |buf| <= |chain| * v.geo.ClusterBytes() && dataLen <= |chain| * v.geo.ClusterBytes()
    modifies v, v.disk
    ensures v.Valid() && old(v.trace) <= v.trace && OnlyData(old(v.vol), v.vol, Elems(chain))
    ensures Content(v.vol, chain, Max(offset + |buf|, dataLen))
         == Overwritten(Content(old(v.vol), chain, dataLen), offset, buf)
    ensures Through(old(v.vol), v.trace, |old(v.trace)|, ContentsOf(Elems(chain)))
  {
    hide Volume.Valid, Confined, FileClusters, OnlyData, Written, Geometry.ClusterBytes, Overwritten, Elems, Zeros;
    ghost var v0, t0, cb := v.vol, |v.trace|, v.geo.ClusterBytes();
    SizedClusters(v, chain);
    if offset > dataLen {
      var _ := ZeroRange(v, chain, dataLen, offset - dataLen);
    }
    ghost var v1, t1 := v.vol, v.trace;
    SameData(v0, Elems(chain));
    var _ := WriteRange(v, chain, offset, buf);
    OnlyDataChain(v0, v1, v.vol, Elems(chain));
    OnlyDataConfined(v0, v1, Elems(chain));
    ThroughChain(v0, t1, t0, ContentsOf(Elems(chain)), v1, v.trace, ContentsOf(Elems(chain)), ContentsOf(Elems(chain)));
    FilledContent(v0, v1, v.vol, chain, cb, dataLen, offset, buf);
  }

  lemma SameData(v: Vol, cs: set<nat>)
    ensures OnlyData(v, v, cs)
  {
  }

  lemma OnlyDataChain(v0: Vol, v1: Vol, v2: Vol, cs: set<nat>)
    requires OnlyData(v0, v1, cs) && OnlyData(v1, v2, cs)
    ensures OnlyData(v0, v2, cs)
  {
  }

  lemma FilledContent(v0: Vol, v1: Vol, v2: Vol, ch: seq<nat>, cb: nat, dataLen: nat, offset: nat, buf: seq<byte>)
    requires Sized(v0.data, ch, cb) && dataLen <= |ch| * cb && offset + |buf| <= |ch| * cb
    requires if offset > dataLen then Written(v0, v1, ch, dataLen, Zeros(offset - dataLen), cb) else v1 == v0
    requires Written(v1, v2, ch, offset, buf, cb)
    ensures Content(v2, ch, Max(offset + |buf|, dataLen)) == Overwritten(Content(v0, ch, dataLen), offset, buf)
  {
    hide Overwritten, Flatten, Zeros;
    ContentSize(v0, ch, cb, dataLen);
    ContentSize(v2, ch, cb, Max(offset + |buf|, dataLen));
    FlattenSize(v0.data, ch, cb);
    OverwrittenIs(Flatten(v0.data, ch), dataLen, offset, buf);
  }

  /** The content of a file does not change when its chain grows behind it. */
  lemma ContentOfLongerChain(v0: Vol, v: Vol, ch: seq<nat>, ch': seq<nat>, cb: nat, len: nat)
    requires ch <= ch' && v.data == v0.data && Sized(v.data, ch', cb) && len <= |ch| * cb
    ensures Content(v, ch', len) == Content(v0, ch, len)
  {
    assert ch' == ch + ch'[|ch|..];
    assert Sized(v.data, ch, cb) by { assert forall i :: 0 <= i < |ch| ==> ch'[i] == ch[i]; }
    FlattenAppend(v.data, ch, ch'[|ch|..]);
    ContentSize(v0, ch, cb, len);
  }

  /** Files whose clusters were not written read as before. */
  lemma ContentFrame(v0: Vol, v: Vol, ch: seq<nat>, len: nat)
    requires |v.data| == |v0.data| && forall c :: c in ch && c < |v.data| ==> v.data[c] == v0.data[c]
    ensures Content(v, ch, len) == Content(v0, ch, len)
  {
    if forall i :: 0 <= i < |ch| ==> ch[i] < |v.data| {
      FlattenFrame(v0.data, v.data, ch);
    }
  }

  // ---- The written file ------------------------------------------------------------------

  /** The facts after a write or a truncation that leaves `ch` and `len`. */
  function FactsAfter(f: Facts, ch: seq<nat>, len: nat, flags: byte): Facts
  {
    f.(first := if ch == [] then 0 else ch[0], len := len, flags := flags)
  }

  /** What a write, a truncation or a growth makes of the disk: the chain of `id` is `ch`, its set records
      it, and no other slot of a directory changed. */
  ghost predicate Updated(v0: Vol, v: Vol, cat: Cat, upcase: seq<u16>, id: nat, ch: seq<nat>, f: Facts)
    requires id in cat.nodes && f.Recordable()
  {
    && ChainStep(v0, v, cat, id, ch)
    && SetOnDisk(v, cat.nodes[id].(facts := f), upcase)
    && DirSlotsSame(v0, v, cat, cat.SetOf(id))
  }

  function UpdatedCat(cat: Cat, id: nat, ch: seq<nat>, f: Facts): Cat
    requires id in cat.nodes
  {
    cat.SetChain(id, ch).PutNode(id, cat.nodes[id].(facts := f))
  }

  /** A change of a file's chain and facts keeps a volume consistent. */
  lemma UpdateKeepsConsistent(v0: Vol, v: Vol, cat: Cat, g: Geometry, bm: BitmapLoc, upcase: seq<u16>,
                              id: nat, ch: seq<nat>, f: Facts)
    requires Consistent(v0, cat, g, bm, upcase) && id in cat.nodes && !cat.nodes[id].facts.isDir
    requires f.Recordable() && f.name == cat.nodes[id].facts.name && !f.isDir && f.flags <= 1
    requires ChainSuits(ch, f, g.ClusterBytes())
    requires forall c :: c in ch && c in cat.own ==> cat.own[c].id == id
    requires Updated(v0, v, cat, upcase, id, ch, f)
    ensures Consistent(v, UpdatedCat(cat, id, ch, f), g, bm, upcase)
  {
    UpdateFits(v0, v, cat, g, bm, upcase, id, ch, f);
    UpdatedParts(v0, v, cat, upcase, id, ch, f);
    hide *;
    RecordKeepsConsistent(v0, v, cat, g, bm, upcase, id, cat.nodes[id].(facts := f), ch);
  }

  lemma UpdatedParts(v0: Vol, v: Vol, cat: Cat, upcase: seq<u16>, id: nat, ch: seq<nat>, f: Facts)
    requires id in cat.nodes && cat.nodes[id].facts.name == f.name && f.Recordable() && Updated(v0, v, cat, upcase, id, ch, f)
    ensures var n := cat.nodes[id].(facts := f);
      && ChainStep(v0, v, cat, id, ch) && SetOnDisk(v, n, upcase)
      && DirSlotsSame(v0, v, cat, cat.SetOf(id) + Elems(n.SetAddrs()))
      && UpdatedCat(cat, id, ch, f) == cat.SetChain(id, ch).PutNode(id, n)
  {
    hide ChainStep, SetOnDisk, DirSlotsSame, Cat.PutNode, Cat.SetChain;
    var n := cat.nodes[id].(facts := f);
    assert n.SetAddrs() == cat.nodes[id].SetAddrs();
    assert cat.SetOf(id) + Elems(n.SetAddrs()) == cat.SetOf(id);
  }

  lemma UpdateFits(v0: Vol, v: Vol, cat: Cat, g: Geometry, bm: BitmapLoc, upcase: seq<u16>, id: nat, ch: seq<nat>, f: Facts)
    requires Consistent(v0, cat, g, bm, upcase)
    requires id in cat.nodes && !cat.nodes[id].facts.isDir
    requires f.Recordable() && f.name == cat.nodes[id].facts.name && !f.isDir && f.flags <= 1
    requires ChainSuits(ch, f, g.ClusterBytes())
    requires forall c :: c in ch && c in cat.own ==> cat.own[c].id == id
    ensures var n := cat.nodes[id].(facts := f);
      && id > UPCASE && Recordable(cat, id, n, ch) && NodeFits(cat, g.ClusterBytes(), n, ch)
      && NoStrayFile(v, cat, g.Per(), id, n, ch)
  {
    hide Placed, Linked, BitsMatch, SetOnDisk, ChainSuits, FileSlotAt, Geometry.ClusterBytes;
    assert NodeOk(v0, cat, g.ClusterBytes(), upcase, id);
    var n := cat.nodes[id].(facts := f);
    assert forall j :: 0 <= j < n.Count() ==> n.Addr(j) == cat.nodes[id].Addr(j);
    assert n.SetAddrs() == cat.nodes[id].SetAddrs();
  }

  // ---- One write, start to end -----------------------------------------------------------

  /** A file of the catalogue, and the location the search gave for it. */
  ghost predicate IsFile(v: Volume, cat: Cat, upcase: seq<u16>, id: nat, entry: EntryLoc)
    requires v.Valid()
    reads v, v.disk
  {
    && Consistent(v.vol, cat, v.geo, v.bm, upcase)
    && id in cat.nodes && !cat.nodes[id].facts.isDir && entry == LocOfNode(cat.nodes[id])
  }

  /** The clusters of a file suit its length. */
  lemma FileFacts(v: Volume, cat: Cat, upcase: seq<u16>, id: nat, entry: EntryLoc)
    requires v.Valid() && IsFile(v, cat, upcase, id, entry)
    ensures 0 < v.geo.ClusterBytes() && ChainsOwned(v.vol, cat) && id in cat.chains && id != BITMAP
    ensures cat.nodes[id].facts.Recordable()
    ensures |cat.chains[id]| == DivCeil(entry.dataLen, v.geo.ClusterBytes())
    ensures entry.dataLen == 0 <==> cat.chains[id] == []
    ensures entry.firstCluster == if cat.chains[id] == [] then 0 else cat.chains[id][0]
    ensures entry.dataLen <= |cat.chains[id]| * v.geo.ClusterBytes()
  {
    hide Volume.Valid, SlotsOwned, SetOnDisk, Placed, Linked, BitsMatch, DivCeil, Geometry.ClusterBytes;
    assert NodeOk(v.vol, cat, v.geo.ClusterBytes(), upcase, id);
    DivCeilBounds(entry.dataLen, v.geo.ClusterBytes());
  }

  lemma NodeFacts(v: Vol, cat: Cat, g: Geometry, bm: BitmapLoc, upcase: seq<u16>, id: nat)
    requires Consistent(v, cat, g, bm, upcase) && id in cat.nodes
    ensures 0 < g.ClusterBytes()
    ensures var n := cat.nodes[id];
      && n.facts.Recordable() && n.facts.flags <= 1 && SetOnDisk(v, n, upcase) && n.start + n.Count() <= g.Per()
      && cat.InDirectory(n.cluster) && cat.own[n.cluster].id == n.parent
  {
    hide SetOnDisk, ChainSuits, Placed, Linked, BitsMatch, SlotsOwned, Geometry.ClusterBytes;
    assert NodeOk(v, cat, g.ClusterBytes(), upcase, id);
  }

  lemma DirClusterReady(v: Volume, cat: Cat, upcase: seq<u16>, c: nat)
    requires v.Valid() && Consistent(v.vol, cat, v.geo, v.bm, upcase) && cat.InDirectory(c)
    ensures v.geo.InRange(c) && !v.geo.InBitmapRun(v.bm, c)
  {
    hide Volume.Valid, SlotsOwned, NodesOk, Linked, BitsMatch, Geometry.ClusterBytes, Geometry.InBitmapRun;
    var p := cat.own[c];
    OwnerClusters(v, cat, upcase, p.id);
    assert cat.chains[p.id][p.at] == c;
  }

  /** The entry set of any node can be read and rewritten where it lies. */
  lemma NodeSlotsReady(v: Volume, cat: Cat, upcase: seq<u16>, id: nat)
    requires v.Valid() && Consistent(v.vol, cat, v.geo, v.bm, upcase) && id in cat.nodes
    ensures 0 < v.geo.ClusterBytes() && DirAddrs(v, cat.nodes[id].SetAddrs()) && Distinct(cat.nodes[id].SetAddrs())
    ensures cat.nodes[id].facts.Recordable() && SlotsAt(v.vol, cat.nodes[id].SetAddrs()) == Encode(cat.nodes[id].facts, upcase)
  {
    NodeFacts(v.vol, cat, v.geo, v.bm, upcase, id);
    DirClusterReady(v, cat, upcase, cat.nodes[id].cluster);
    SetOnDiskSlots(v.vol, cat.nodes[id], upcase);
    SetAddrsReady(v, cat.nodes[id]);
    hide *;
  }

  lemma SetAddrsReady(v: Volume, n: Node)
    requires 0 < v.geo.ClusterBytes() && v.geo.InRange(n.cluster) && !v.geo.InBitmapRun(v.bm, n.cluster)
    requires n.start + n.Count() <= v.geo.Per()
    ensures DirAddrs(v, n.SetAddrs()) && Distinct(n.SetAddrs())
  {
    hide Geometry.InBitmapRun, Geometry.Per, Geometry.ClusterBytes, SetSize;
  }

  lemma GrownClusters(v: Volume, v0: Vol, cat: Cat, upcase: seq<u16>, id: nat, ch: seq<nat>)
    requires v.Valid() && Consistent(v0, cat, v.geo, v.bm, upcase) && id in cat.nodes && id in cat.chains
    requires Grown(v0, v.vol, cat, id, ch) && FileClusters(v.geo, v.bm, cat.chains[id])
    ensures FileClusters(v.geo, v.bm, ch)
    ensures forall c :: c in ch && c in cat.own ==> cat.own[c].id == id
  {
    v.Sizes();
    GrownParts(v0, v.vol, cat, v.geo, v.bm, upcase, id, ch);
    ChainDistinct(v.vol.fat, ch);
    ChainInRange(v.vol.fat, ch);
    hide *;
    forall i | 0 <= i < |ch|
      ensures v.geo.InRange(ch[i]) && !v.geo.InBitmapRun(v.bm, ch[i])
      ensures ch[i] in cat.own ==> cat.own[ch[i]].id == id
    {
      GrownCluster(cat, v.geo, v.bm, id, ch, i);
      InRangeIs(v.geo, ch[i]);
    }
    FileClustersIs(v.geo, v.bm, ch);
  }

  lemma ChainInRange(fat: seq<nat>, ch: seq<nat>)
    requires IsChain(fat, ch)
    ensures forall i :: 0 <= i < |ch| ==> 2 <= ch[i] < |fat|
  {
  }

  lemma InRangeIs(g: Geometry, c: nat)
    ensures g.InRange(c) <==> 2 <= c < g.clusterCount + 2
  {
  }

  lemma FileClustersIs(g: Geometry, bm: BitmapLoc, ch: seq<nat>)
    requires 0 < g.ClusterBytes() && Distinct(ch)
    requires forall i :: 0 <= i < |ch| ==> g.InRange(ch[i]) && !g.InBitmapRun(bm, ch[i])
    ensures FileClusters(g, bm, ch)
  {
  }

  lemma GrownParts(v0: Vol, v: Vol, cat: Cat, g: Geometry, bm: BitmapLoc, upcase: seq<u16>, id: nat, ch: seq<nat>)
    requires Consistent(v0, cat, g, bm, upcase) && id in cat.chains && Grown(v0, v, cat, id, ch)
    ensures 0 < g.ClusterBytes() && Placed(cat) && SystemOk(cat, g, bm)
    ensures IsChain(v.fat, ch) && cat.chains[id] <= ch && |v.fat| == |v0.fat|
    ensures forall i :: |cat.chains[id]| <= i < |ch| ==> ch[i] !in cat.own
  {
    hide Placed, SystemOk, Geometry.ClusterBytes, IsChain, NodesOk, SlotsOwned, Linked, BitsMatch, FreeSet;
  }

  lemma GrownCluster(cat: Cat, g: Geometry, bm: BitmapLoc, id: nat, ch: seq<nat>, i: nat)
    requires 0 < g.ClusterBytes() && Placed(cat) && SystemOk(cat, g, bm) && id in cat.chains
    requires FileClusters(g, bm, cat.chains[id]) && cat.chains[id] <= ch && i < |ch|
    requires |cat.chains[id]| <= i ==> ch[i] !in cat.own
    ensures !g.InBitmapRun(bm, ch[i]) && (ch[i] in cat.own ==> cat.own[ch[i]].id == id)
  {
    hide Geometry.ClusterBytes;
    if i < |cat.chains[id]| {
      assert ch[i] == cat.chains[id][i];
      assert cat.own[cat.chains[id][i]] == Place(id, i);
    } else {
      BitmapOwned(cat, g, bm, ch[i]);
    }
  }

  /** Filling a file's clusters leaves its entry set, and every other directory slot, alone. */
  lemma FilledSlots(v0: Vol, v: Vol, cat: Cat, g: Geometry, bm: BitmapLoc, upcase: seq<u16>, id: nat, ch: seq<nat>)
    requires Consistent(v0, cat, g, bm, upcase) && id in cat.nodes && !cat.nodes[id].facts.isDir
    requires |v.data| == |v0.data| && forall c :: 0 <= c < |v.data| && c !in ch ==> v.data[c] == v0.data[c]
    requires forall c :: c in ch && c in cat.own ==> cat.own[c].id == id
    ensures DirSlotsSame(v0, v, cat, {})
    ensures cat.nodes[id].facts.Recordable() && SetOnDisk(v, cat.nodes[id], upcase)
  {
    hide Linked, BitsMatch, Geometry.ClusterBytes, Encode, ChainSuits, Placed, SlotsOwned;
    assert NodeOk(v0, cat, g.ClusterBytes(), upcase, id);
    DataElsewhere(v0, v, cat, Elems(ch));
    var n := cat.nodes[id];
    assert forall j :: 0 <= j < n.Count() ==> n.Addr(j).cluster == n.cluster;
  }

  /** Rewriting the set after the file was filled completes the update. */
  lemma PublishedUpdate(v0: Vol, v1: Vol, v2: Vol, v3: Vol, cat: Cat, upcase: seq<u16>, id: nat, ch: seq<nat>, f: Facts)
    requires id in cat.nodes && cat.nodes[id].facts.Recordable() && f.Recordable()
    requires f.name == cat.nodes[id].facts.name && f.isDir == cat.nodes[id].facts.isDir
    requires ChainStep(v0, v1, cat, id, ch) && v2.fat == v1.fat && v2.bits == v1.bits
    requires DirSlotsSame(v0, v2, cat, {}) && SetOnDisk(v2, cat.nodes[id], upcase)
    requires var n := cat.nodes[id]; var next := Rewritten(Encode(n.facts, upcase), f.flags, f.len, f.first, f.len);
      SlotsWritten(v2, v3, n.SetAddrs()[..2], next[..2], 2)
    ensures Updated(v0, v3, cat, upcase, id, ch, f)
  {
    var n := cat.nodes[id];
    RewriteReencodes(n.facts, f, upcase);
    hide Encode, Rewritten, SetOnDisk;
    RewrittenOnDisk(v2, v3, n, f, upcase, Encode(f, upcase));
    hide DirSlotsSame;
    OnlyIsSame(v2, v3, cat, Elems(n.SetAddrs()));
    DirSlotsChain(v0, v2, v3, cat, {}, Elems(n.SetAddrs()));
    assert {} + Elems(n.SetAddrs()) == cat.SetOf(id);
    ChainStepSameLinks(v0, v1, v3, cat, id, ch);
  }

  // ---- Crash prefixes of a write -----------------------------------------------------------

  /** The footprint leaves the entry of `id` and its links up to the last cluster alone. */
  ghost predicate SparesEntry(f: Footprint, cat: Cat, id: nat)
    requires id in cat.nodes && id in cat.chains
  {
    var ch := cat.chains[id];
    && (forall i :: 0 <= i < |ch| - 1 ==> ch[i] !in f.links)
    && (forall i :: 0 <= i < |ch| ==> ch[i] !in f.marks)
    && cat.nodes[id].Addr(1) !in f.slots && cat.nodes[id].cluster !in f.data
  }

  lemma HeldUnder(v0: Vol, v: Vol, ch: seq<nat>, f: Footprint)
    requires RunHeld(v0, ch) && Confined(v0, v, f)
    requires forall i :: 0 <= i < |ch| - 1 ==> ch[i] !in f.links
    requires forall i :: 0 <= i < |ch| ==> ch[i] !in f.marks
    ensures RunHeld(v, ch)
  {
    hide Vol.Slot;
  }

  /** While the footprint spares the entry, what the entry shows stays published. */
  lemma SparedIsPublished(v0: Vol, v: Vol, cat: Cat, g: Geometry, bm: BitmapLoc, upcase: seq<u16>, id: nat, f: Footprint)
    requires Consistent(v0, cat, g, bm, upcase) && id in cat.nodes && id in cat.chains
    requires Confined(v0, v, f) && SparesEntry(f, cat, id)
    ensures Published(v, cat.nodes[id], g.ClusterBytes())
  {
    var n, ch, cb := cat.nodes[id], cat.chains[id], g.ClusterBytes();
    NodeFacts(v0, cat, g, bm, upcase, id);
    NodeChain(v0, cat, g, bm, upcase, id);
    NodeHeld(v0, cat, id);
    HeldUnder(v0, v, ch, f);
    SuitedLength(ch, n.facts, cb);
    StreamSpared(v0, v, n, upcase, f);
    hide *;
    FactsPublished(v, n, n.facts, upcase, ch, cb);
  }

  lemma NodeChain(v: Vol, cat: Cat, g: Geometry, bm: BitmapLoc, upcase: seq<u16>, id: nat)
    requires Consistent(v, cat, g, bm, upcase) && id in cat.nodes
    ensures 0 < g.ClusterBytes() && ChainsOwned(v, cat) && id in cat.chains
    ensures ChainSuits(cat.chains[id], cat.nodes[id].facts, g.ClusterBytes())
    ensures cat.chains[id] != [] ==> cat.nodes[id].facts.first == cat.chains[id][0]
  {
    hide SetOnDisk, SlotsOwned, Geometry.ClusterBytes, DivCeil, Placed, Linked, BitsMatch;
    assert NodeOk(v, cat, g.ClusterBytes(), upcase, id);
  }

  lemma StreamSpared(v0: Vol, v: Vol, n: Node, upcase: seq<u16>, f: Footprint)
    requires n.facts.Recordable() && SetOnDisk(v0, n, upcase) && Confined(v0, v, f)
    requires n.Addr(1) !in f.slots && n.cluster !in f.data
    ensures v.Slot(n.Addr(1)) == Encode(n.facts, upcase)[1]
  {
    hide Encode, Vol.Slot;
  }

  /** Every view of the trace shows the entry of `n` published. */
  ghost predicate AlwaysPublished(trace: seq<Vol>, from: nat, n: Node, cb: nat)
    requires 0 < cb
  {
    forall t :: from <= t < |trace| ==> Published(trace[t], n, cb)
  }

  lemma SparedThroughout(v0: Vol, trace: seq<Vol>, from: nat, cat: Cat, g: Geometry, bm: BitmapLoc, upcase: seq<u16>,
                         id: nat, f: Footprint)
    requires Consistent(v0, cat, g, bm, upcase) && id in cat.nodes && id in cat.chains
    requires Through(v0, trace, from, f) && SparesEntry(f, cat, id)
    ensures 0 < g.ClusterBytes() && AlwaysPublished(trace, from, cat.nodes[id], g.ClusterBytes())
  {
    hide Confined, Published, SparesEntry, ChainsOwned, NodesOk, SlotsOwned, SystemOk;
    forall t | from <= t < |trace|
      ensures Published(trace[t], cat.nodes[id], g.ClusterBytes())
    {
      SparedIsPublished(v0, trace[t], cat, g, bm, upcase, id, f);
    }
  }

  lemma PublishedLonger(t1: seq<Vol>, t2: seq<Vol>, from: nat, n: Node, cb: nat)
    requires 0 < cb && t1 <= t2 && AlwaysPublished(t1, from, n, cb)
    requires forall t :: |t1| <= t < |t2| ==> Published(t2[t], n, cb)
    ensures AlwaysPublished(t2, from, n, cb)
  {
    hide Published;
    forall t | from <= t < |t2|
      ensures Published(t2[t], n, cb)
    {
      if t < |t1| {
        assert t2[t] == t1[t];
      }
    }
  }

  /** The entry is published after each of the two writes of its rewrite: first it still shows the old facts,
      then the new ones. */
  lemma RewritePublished(v2: Vol, a: Vol, b: Vol, n: Node, f: Facts, upcase: seq<u16>, cb: nat, old_: seq<nat>, ch: seq<nat>)
    requires 0 < cb && n.facts.Recordable() && f.Recordable() && f.name == n.facts.name && f.isDir == n.facts.isDir
    requires SetOnDisk(v2, n, upcase)
    requires RunHeld(v2, old_) && DivCeil(n.facts.len, cb) <= |old_| && (old_ != [] ==> n.facts.first == old_[0])
    requires RunHeld(v2, ch) && DivCeil(f.len, cb) <= |ch| && (ch != [] ==> f.first == ch[0])
    requires var next := Rewritten(Encode(n.facts, upcase), f.flags, f.len, f.first, f.len);
      SlotsWritten(v2, a, n.SetAddrs()[..2], next[..2], 1) && SlotsWritten(v2, b, n.SetAddrs()[..2], next[..2], 2)
    ensures Published(a, n, cb) && Published(b, n, cb)
  {
    RewriteReencodes(n.facts, f, upcase);
    var next := Encode(f, upcase);
    assert n.SetAddrs()[..2] == [n.Addr(0), n.Addr(1)];
    TwoSlots(v2, a, b, n, next);
    assert v2.Slot(n.Addr(1)) == Encode(n.facts, upcase)[1];
    hide *;
    FactsPublished(a, n, n.facts, upcase, old_, cb);
    FactsPublished(b, n, f, upcase, ch, cb);
  }

  lemma TwoSlots(v2: Vol, a: Vol, b: Vol, n: Node, next: seq<seq<byte>>)
    requires |next| >= 2 && n.SetAddrs()[..2] == [n.Addr(0), n.Addr(1)]
    requires SlotsWritten(v2, a, n.SetAddrs()[..2], next[..2], 1) && SlotsWritten(v2, b, n.SetAddrs()[..2], next[..2], 2)
    ensures a.Slot(n.Addr(1)) == v2.Slot(n.Addr(1)) && b.Slot(n.Addr(1)) == next[1]
    ensures forall ch :: RunHeld(v2, ch) ==> RunHeld(a, ch) && RunHeld(b, ch)
  {
    hide Vol.Slot;
    var two := n.SetAddrs()[..2];
    assert b.Slot(two[1]) == next[..2][1];
    assert n.Addr(1) !in two[..1];
  }

  // ---- The write itself ----------------------------------------------------------------------

  /** What a write may touch: free clusters, the link behind the file's last cluster, the contents of the
      file's clusters and the file's own entry set. */
  function WritePrint(v0: Vol, cat: Cat, id: nat, ch: seq<nat>): Footprint
    requires id in cat.chains
  {
    GrowthPrint(v0, cat.chains[id]).Join(ContentsOf(Elems(ch))).Join(SlotsOf(cat.SetOf(id)))
  }

  /** A completed write of `buf` at `offset`: the file has the chain `ch` and the new length and content; no
      other cluster of a file, and no other slot of a directory, changed. */
  ghost predicate WriteDone(v0: Vol, v: Vol, cat: Cat, cb: nat, upcase: seq<u16>, id: nat, ch: seq<nat>, offset: nat, buf: seq<byte>)
    requires 0 < cb && id in cat.nodes && id in cat.chains
  {
    var f0 := cat.nodes[id].facts;
    var f := FactsAfter(f0, ch, Max(offset + |buf|, f0.len), 1);
    && f.Recordable() && Updated(v0, v, cat, upcase, id, ch, f) && ChainSuits(ch, f, cb)
    && cat.chains[id] <= ch
    && (forall c :: c in ch && c in cat.own ==> cat.own[c].id == id)
    && Content(v, ch, f.len) == Overwritten(Content(v0, cat.chains[id], f0.len), offset, buf)
    && |v.data| == |v0.data|
    && (forall c :: 0 <= c < |v.data| && c !in ch && !cat.InDirectory(c) ==> v.data[c] == v0.data[c])
  }

  lemma NewLength(len: nat, offset: nat, n: nat, cb: nat, clusters: nat)
    requires 0 < cb && clusters == Max(DivCeil(len, cb), DivCeil(Max(offset + n, len), cb))
    ensures clusters == DivCeil(Max(offset + n, len), cb)
    ensures offset + n <= clusters * cb && len <= clusters * cb
  {
    DivCeilMono(len, Max(offset + n, len), cb);
    DivCeilBounds(Max(offset + n, len), cb);
  }

  /** The growth phase spares the entry; so do growth and filling together. */
  lemma GrowthSpares(v0: Vol, cat: Cat, g: Geometry, bm: BitmapLoc, upcase: seq<u16>, id: nat, ch: seq<nat>)
    requires Consistent(v0, cat, g, bm, upcase) && id in cat.nodes && id in cat.chains && !cat.nodes[id].facts.isDir
    requires forall c :: c in ch && c in cat.own ==> cat.own[c].id == id
    ensures SparesEntry(GrowthPrint(v0, cat.chains[id]).Join(ContentsOf(Elems(ch))), cat, id)
  {
    NodeFacts(v0, cat, g, bm, upcase, id);
    NodeChain(v0, cat, g, bm, upcase, id);
    NodeHeld(v0, cat, id);
    FileIsNoDirectory(cat, g, bm, id);
    ChainLinked(v0, cat, id);
    ChainDistinct(v0.fat, cat.chains[id]);
    hide *;
    GrowthSparesFile(v0, cat, id, ch);
  }

  lemma ChainLinked(v: Vol, cat: Cat, id: nat)
    requires ChainsOwned(v, cat) && id in cat.chains
    ensures IsChain(v.fat, cat.chains[id]) && v.Unreserved()
  {
  }

  lemma FileIsNoDirectory(cat: Cat, g: Geometry, bm: BitmapLoc, id: nat)
    requires id in cat.nodes && !cat.nodes[id].facts.isDir && 0 < g.ClusterBytes() && SystemOk(cat, g, bm)
    ensures !cat.IsDir(id)
  {
  }

  lemma GrowthSparesFile(v0: Vol, cat: Cat, id: nat, ch: seq<nat>)
    requires id in cat.nodes && id in cat.chains && !cat.IsDir(id)
    requires RunHeld(v0, cat.chains[id]) && Distinct(cat.chains[id]) && cat.InDirectory(cat.nodes[id].cluster)
    requires forall c :: c in ch && c in cat.own ==> cat.own[c].id == id
    ensures SparesEntry(GrowthPrint(v0, cat.chains[id]).Join(ContentsOf(Elems(ch))), cat, id)
  {
    var old_ := cat.chains[id];
    assert forall i :: 0 <= i < |old_| ==> old_[i] !in FreeSet(v0);
    assert cat.nodes[id].cluster !in Elems(ch);
  }

  /** A file of the catalogue, the location the search gave for it, and a write the source can carry out: sizes
      stay within 64 bits and cluster counts within the 32 bits they are cast to. */
  ghost predicate CanWrite(v: Volume, cat: Cat, upcase: seq<u16>, id: nat, entry: EntryLoc, end: nat)
    requires v.Valid()
    reads v, v.disk
  {
    && IsFile(v, cat, upcase, id, entry)
    && end < 0x1_0000_0000_0000_0000
    && DivCeil(end, v.geo.ClusterBytes()) < U32
  }

  /** What holds at every device write of a write to `id`: only its own clusters, its own entry set and free
      clusters are touched, and its entry always heads the clusters its length calls for. */
  ghost predicate WriteTrace(v0: Vol, trace: seq<Vol>, from: nat, cat: Cat, cb: nat, id: nat, ch: seq<nat>)
  {
    && 0 < cb && id in cat.nodes && id in cat.chains
    && Through(v0, trace, from, WritePrint(v0, cat, id, ch))
    && AlwaysPublished(trace, from, cat.nodes[id], cb)
  }

  /** One write: grow the chain, zero any gap, write the payload, publish the new length. It succeeds exactly
      when enough clusters are free. */
  method WriteEntry(v: Volume, upcase: seq<u16>, entry: EntryLoc, offset: nat, buf: seq<byte>, ghost cat: Cat, ghost id: nat)
    returns (r: Result<()>, ghost ch: seq<nat>)
    requires v.Valid() && CanWrite(v, cat, upcase, id, entry, offset + |buf|) && buf != []
    modifies v, v.disk
    ensures v.Valid() && old(v.trace) <= v.trace && 0 < v.geo.ClusterBytes()
    ensures var cb := v.geo.ClusterBytes();
      r.Ok? <==> DivCeil(Max(offset + |buf|, entry.dataLen), cb) - DivCeil(entry.dataLen, cb) <= |FreeSet(old(v.vol))|
    ensures r.Ok? ==> WriteDone(old(v.vol), v.vol, cat, v.geo.ClusterBytes(), upcase, id, ch, offset, buf)
    ensures r.Err? ==> ch == [] && Marked(old(v.vol), v.vol, FreeSet(old(v.vol)))
    ensures WriteTrace(old(v.vol), v.trace, |old(v.trace)|, cat, v.geo.ClusterBytes(), id, ch)
  {
    hide *;
    ch := [];
    ghost var v0, t0 := v.vol, |v.trace|;
    WriteReady(v, cat, upcase, id, entry, offset + |buf|);
    MaxIs(offset + |buf|, entry.dataLen);
    var cb := v.geo.ClusterBytes();
    var newSize := Max(offset + |buf|, entry.dataLen);
    var oldClusters, newClusters := DivCeil(entry.dataLen, cb), DivCeil(newSize, cb);
    MaxIs(oldClusters, newClusters);
    var grown := GrowFile(v, entry, oldClusters, newClusters, cat, id);
    if grown.Err? {
      GrowthTrace(v, v0, v.trace, t0, cat, upcase, id);
      return Err(grown.error), ch;
    }
    var first, chain := grown.value.0, grown.value.1;
    ghost var v1, t1 := v.vol, v.trace;
    FillReady(v, v0, cat, upcase, id, entry, chain, offset, |buf|);
    FillFile(v, chain, entry.dataLen, offset, buf);
    ghost var v2, t2 := v.vol, v.trace;
    FilledReady(v, v0, v1, cat, upcase, id, entry, chain);
    RewriteStream(v, entry, first, newSize, newSize, 1);
    ch := chain;
    WriteCompletes(v0, v1, v2, v.vol, cat, v.geo, v.bm, upcase, id, ch, offset, buf);
    WriteTraced(v0, v1, v2, t1, t2, v.trace, t0, cat, v.geo, v.bm, upcase, id, ch, newSize);
    return Ok(()), ch;
  }

  lemma MaxIs(a: nat, b: nat)
    ensures 0 <= Max(a, b) && Max(a, b) == (if a < b then b else a)
  {
  }

  lemma WriteReady(v: Volume, cat: Cat, upcase: seq<u16>, id: nat, entry: EntryLoc, end: nat)
    requires v.Valid() && CanWrite(v, cat, upcase, id, entry, end)
    ensures 0 < v.geo.ClusterBytes() && ChainsOwned(v.vol, cat) && id in cat.chains && id in cat.nodes && id != BITMAP
    ensures |cat.chains[id]| == DivCeil(entry.dataLen, v.geo.ClusterBytes())
    ensures entry.dataLen == 0 <==> cat.chains[id] == []
    ensures cat.chains[id] != [] ==> entry.firstCluster == cat.chains[id][0]
    ensures DivCeil(Max(end, entry.dataLen), v.geo.ClusterBytes()) - DivCeil(entry.dataLen, v.geo.ClusterBytes()) < U32
    ensures DivCeil(entry.dataLen, v.geo.ClusterBytes()) <= DivCeil(Max(end, entry.dataLen), v.geo.ClusterBytes())
    ensures Consistent(v.vol, cat, v.geo, v.bm, upcase) && !cat.nodes[id].facts.isDir && entry == LocOfNode(cat.nodes[id])
    ensures FileClusters(v.geo, v.bm, cat.chains[id])
    ensures DirAddrs(v, entry.offsets) && Distinct(entry.offsets)
    ensures end < 0x1_0000_0000_0000_0000 && cat.nodes[id].facts.Recordable()
    ensures entry.dataLen == cat.nodes[id].facts.len && entry.offsets == cat.nodes[id].SetAddrs()
    ensures Max(end, entry.dataLen) < 0x1_0000_0000_0000_0000
  {
    hide Consistent, Volume.Valid, Distinct, DirAddrs, FileClusters, Encode;
    FileFacts(v, cat, upcase, id, entry);
    NodeSlotsReady(v, cat, upcase, id);
    OwnerClusters(v, cat, upcase, id);
    DivCeilMono(entry.dataLen, Max(end, entry.dataLen), v.geo.ClusterBytes());
    hide DivCeil;
  }

  lemma GrowthTrace(v: Volume, v0: Vol, trace: seq<Vol>, from: nat, cat: Cat, upcase: seq<u16>, id: nat)
    requires Consistent(v0, cat, v.geo, v.bm, upcase) && id in cat.nodes && id in cat.chains && !cat.nodes[id].facts.isDir
    requires Through(v0, trace, from, GrowthPrint(v0, cat.chains[id]))
    ensures WriteTrace(v0, trace, from, cat, v.geo.ClusterBytes(), id, [])
  {
    hide Consistent, GrowthPrint, SparesEntry, AlwaysPublished, Through;
    GrowthSpares(v0, cat, v.geo, v.bm, upcase, id, []);
    var f := GrowthPrint(v0, cat.chains[id]).Join(ContentsOf(Elems([])));
    ThroughWider(v0, trace, from, GrowthPrint(v0, cat.chains[id]), f);
    SparedThroughout(v0, trace, from, cat, v.geo, v.bm, upcase, id, f);
    ThroughWider(v0, trace, from, f, WritePrint(v0, cat, id, []));
  }

  lemma FillReady(v: Volume, v0: Vol, cat: Cat, upcase: seq<u16>, id: nat, entry: EntryLoc, ch: seq<nat>, offset: nat, n: nat)
    requires v.Valid() && Consistent(v0, cat, v.geo, v.bm, upcase) && id in cat.nodes && id in cat.chains
    requires 0 < v.geo.ClusterBytes() && FileClusters(v.geo, v.bm, cat.chains[id])
    requires Grown(v0, v.vol, cat, id, ch)
    requires |ch| == Max(DivCeil(entry.dataLen, v.geo.ClusterBytes()),
                         DivCeil(Max(offset + n, entry.dataLen), v.geo.ClusterBytes()))
    ensures FileClusters(v.geo, v.bm, ch) && Sized(v.vol.data, ch, v.geo.ClusterBytes())
    ensures forall c :: c in ch && c in cat.own ==> cat.own[c].id == id
    ensures |ch| == DivCeil(Max(offset + n, entry.dataLen), v.geo.ClusterBytes())
    ensures offset + n <= |ch| * v.geo.ClusterBytes() && entry.dataLen <= |ch| * v.geo.ClusterBytes()
    ensures 0 < n ==> ch != []
  {
    hide *;
    GrownClusters(v, v0, cat, upcase, id, ch);
    SizedClusters(v, ch);
    MaxIs(offset + n, entry.dataLen);
    NewLength(entry.dataLen, offset, n, v.geo.ClusterBytes(), |ch|);
  }

  /** After the fill the entry set is still the one the write began with. */
  lemma FilledReady(v: Volume, v0: Vol, v1: Vol, cat: Cat, upcase: seq<u16>, id: nat, entry: EntryLoc, ch: seq<nat>)
    requires v.Valid() && Consistent(v0, cat, v.geo, v.bm, upcase) && id in cat.nodes && id in cat.chains
    requires !cat.nodes[id].facts.isDir && entry == LocOfNode(cat.nodes[id])
    requires Grown(v0, v1, cat, id, ch) && OnlyData(v1, v.vol, Elems(ch))
    requires forall c :: c in ch && c in cat.own ==> cat.own[c].id == id
    ensures cat.nodes[id].facts.Recordable() && 2 <= |entry.offsets|
    ensures SetOnDisk(v.vol, cat.nodes[id], upcase)
    ensures SlotsAt(v.vol, entry.offsets) == Encode(cat.nodes[id].facts, upcase)
  {
    DataOutside(v0, v1, v.vol, cat, id, ch);
    FilledSlots(v0, v.vol, cat, v.geo, v.bm, upcase, id, ch);
    SetOnDiskSlots(v.vol, cat.nodes[id], upcase);
    hide Consistent, Grown, OnlyData, Volume.Valid, SetOnDisk, Encode;
  }

  lemma DataOutside(v0: Vol, v1: Vol, v2: Vol, cat: Cat, id: nat, ch: seq<nat>)
    requires id in cat.chains && Grown(v0, v1, cat, id, ch) && OnlyData(v1, v2, Elems(ch))
    ensures |v2.data| == |v0.data| && forall c :: 0 <= c < |v2.data| && c !in ch ==> v2.data[c] == v0.data[c]
  {
    hide ChainStep;
  }

  lemma WriteCompletes(v0: Vol, v1: Vol, v2: Vol, v3: Vol, cat: Cat, g: Geometry, bm: BitmapLoc, upcase: seq<u16>,
                       id: nat, ch: seq<nat>, offset: nat, buf: seq<byte>)
    requires Consistent(v0, cat, g, bm, upcase) && id in cat.nodes && id in cat.chains && !cat.nodes[id].facts.isDir
    requires 0 < g.ClusterBytes() && cat.nodes[id].facts.Recordable() && SetOnDisk(v2, cat.nodes[id], upcase)
    requires Grown(v0, v1, cat, id, ch) && OnlyData(v1, v2, Elems(ch)) && Sized(v1.data, ch, g.ClusterBytes())
    requires forall c :: c in ch && c in cat.own ==> cat.own[c].id == id
    requires buf != [] && offset + |buf| < 0x1_0000_0000_0000_0000
    requires var f0 := cat.nodes[id].facts;
      && |ch| == DivCeil(Max(offset + |buf|, f0.len), g.ClusterBytes())
      && Content(v2, ch, Max(offset + |buf|, f0.len)) == Overwritten(Content(v1, ch, f0.len), offset, buf)
    requires var f0, n := cat.nodes[id].facts, Max(offset + |buf|, cat.nodes[id].facts.len);
      ch != [] && SlotsWritten(v2, v3, cat.nodes[id].SetAddrs()[..2], Rewritten(Encode(f0, upcase), 1, n, ch[0], n)[..2], 2)
    ensures WriteDone(v0, v3, cat, g.ClusterBytes(), upcase, id, ch, offset, buf)
  {
    var n, f0, len := cat.nodes[id], cat.nodes[id].facts, Max(offset + |buf|, cat.nodes[id].facts.len);
    hide Consistent, SetOnDisk, Encode, Overwritten, Content, DivCeil, SlotsWritten, Updated, Rewritten, Placed, IsChain,
         DirSlotsSame, Sized, OnlyData, SystemOk, Links, Grown, Vol.Slot, ChainStep;
    WriteUpdates(v0, v1, v2, v3, cat, g, bm, upcase, id, ch, len);
    GrownParts(v0, v1, cat, g, bm, upcase, id, ch);
    DataOutside(v0, v1, v2, cat, id, ch);
    OwnContent(v0, v1, cat, g, bm, upcase, id, ch);
    SetElsewhere(v2, v3, cat, g, bm, upcase, v0, id, ch, len, Rewritten(Encode(f0, upcase), 1, len, ch[0], len)[..2]);
    hide *;
    WriteDoneIs(v0, v3, cat, g.ClusterBytes(), upcase, id, ch, offset, buf, len);
  }

  lemma WriteDoneIs(v0: Vol, v: Vol, cat: Cat, cb: nat, upcase: seq<u16>, id: nat, ch: seq<nat>, offset: nat, buf: seq<byte>,
                    len: nat)
    requires 0 < cb && id in cat.nodes && id in cat.chains && buf != [] && cat.chains[id] <= ch && ch != []
    requires len == Max(offset + |buf|, cat.nodes[id].facts.len) && |ch| == DivCeil(len, cb)
    requires FactsAfter(cat.nodes[id].facts, ch, len, 1).Recordable() && !cat.nodes[id].facts.isDir
    requires Updated(v0, v, cat, upcase, id, ch, FactsAfter(cat.nodes[id].facts, ch, len, 1))
    requires forall c :: c in ch && c in cat.own ==> cat.own[c].id == id
    requires Content(v, ch, len) == Overwritten(Content(v0, cat.chains[id], cat.nodes[id].facts.len), offset, buf)
    requires |v.data| == |v0.data|
    requires forall c :: 0 <= c < |v.data| && c !in ch && !cat.InDirectory(c) ==> v.data[c] == v0.data[c]
    ensures WriteDone(v0, v, cat, cb, upcase, id, ch, offset, buf)
  {
    hide Content, Overwritten, Updated, DivCeil;
  }

  /** The record of the file follows its new chain and length. */
  lemma WriteUpdates(v0: Vol, v1: Vol, v2: Vol, v3: Vol, cat: Cat, g: Geometry, bm: BitmapLoc, upcase: seq<u16>,
                     id: nat, ch: seq<nat>, len: nat)
    requires Consistent(v0, cat, g, bm, upcase) && id in cat.nodes && id in cat.chains && !cat.nodes[id].facts.isDir
    requires 0 < g.ClusterBytes() && cat.nodes[id].facts.Recordable() && SetOnDisk(v2, cat.nodes[id], upcase)
    requires Grown(v0, v1, cat, id, ch) && OnlyData(v1, v2, Elems(ch))
    requires forall c :: c in ch && c in cat.own ==> cat.own[c].id == id
    requires len < 0x1_0000_0000_0000_0000 && ch != []
    requires SlotsWritten(v2, v3, cat.nodes[id].SetAddrs()[..2],
                          Rewritten(Encode(cat.nodes[id].facts, upcase), 1, len, ch[0], len)[..2], 2)
    ensures FactsAfter(cat.nodes[id].facts, ch, len, 1).Recordable()
    ensures Updated(v0, v3, cat, upcase, id, ch, FactsAfter(cat.nodes[id].facts, ch, len, 1))
  {
    var f := FactsAfter(cat.nodes[id].facts, ch, len, 1);
    hide Consistent, SetOnDisk, Encode, SlotsWritten, Updated, Rewritten, Placed, IsChain, DirSlotsSame, SystemOk, Links,
         Vol.Slot, ChainStep;
    GrownParts(v0, v1, cat, g, bm, upcase, id, ch);
    ChainSize(v0, v1, cat, g, bm, upcase, id, ch);
    DataOutside(v0, v1, v2, cat, id, ch);
    FilledSlots(v0, v2, cat, g, bm, upcase, id, ch);
    assert f.Recordable();
    PublishedUpdate(v0, v1, v2, v3, cat, upcase, id, ch, f);
  }

  lemma ChainSize(v0: Vol, v: Vol, cat: Cat, g: Geometry, bm: BitmapLoc, upcase: seq<u16>, id: nat, ch: seq<nat>)
    requires Consistent(v0, cat, g, bm, upcase) && id in cat.chains && Grown(v0, v, cat, id, ch)
    ensures ch != [] ==> ch[0] < U32
  {
    hide NodesOk, SlotsOwned, SystemOk, Placed, Linked, BitsMatch, FreeSet;
  }

  /** What was there before the write is the head of what is there once the chain has grown. */
  lemma OwnContent(v0: Vol, v1: Vol, cat: Cat, g: Geometry, bm: BitmapLoc, upcase: seq<u16>, id: nat, ch: seq<nat>)
    requires Consistent(v0, cat, g, bm, upcase) && id in cat.nodes && id in cat.chains && !cat.nodes[id].facts.isDir
    requires 0 < g.ClusterBytes() && Grown(v0, v1, cat, id, ch) && Sized(v1.data, ch, g.ClusterBytes())
    ensures Content(v1, ch, cat.nodes[id].facts.len) == Content(v0, cat.chains[id], cat.nodes[id].facts.len)
  {
    NodeChain(v0, cat, g, bm, upcase, id);
    DivCeilBounds(cat.nodes[id].facts.len, g.ClusterBytes());
    hide Consistent, Content, Sized, DivCeil, ChainStep;
    ContentOfLongerChain(v0, v1, cat.chains[id], ch, g.ClusterBytes(), cat.nodes[id].facts.len);
  }

  /** The rewrite of the entry set touches no file's contents. */
  lemma SetElsewhere(v2: Vol, v3: Vol, cat: Cat, g: Geometry, bm: BitmapLoc, upcase: seq<u16>, v0: Vol, id: nat, ch: seq<nat>,
                     len: nat, next: seq<seq<byte>>)
    requires Consistent(v0, cat, g, bm, upcase) && id in cat.nodes && !cat.nodes[id].facts.isDir && |v2.data| == |v0.data|
    requires forall c :: 0 <= c < |v2.data| && c !in ch ==> v2.data[c] == v0.data[c]
    requires forall c :: c in ch && c in cat.own ==> cat.own[c].id == id
    requires |next| == 2 && SlotsWritten(v2, v3, cat.nodes[id].SetAddrs()[..2], next, 2)
    ensures Content(v3, ch, len) == Content(v2, ch, len)
    ensures |v3.data| == |v0.data|
    ensures forall c :: 0 <= c < |v3.data| && c !in ch && !cat.InDirectory(c) ==> v3.data[c] == v0.data[c]
  {
    NodeFacts(v0, cat, g, bm, upcase, id);
    FileIsNoDirectory(cat, g, bm, id);
    hide NodesOk, SlotsOwned, SystemOk, ChainsOwned, SetOnDisk, Content, Geometry.ClusterBytes, Geometry.Per, Vol.Slot;
    var two := cat.nodes[id].SetAddrs()[..2];
    assert forall i :: 0 <= i < 2 ==> two[i].cluster == cat.nodes[id].cluster;
    ContentFrame(v2, v3, ch, len);
  }

  lemma WriteTraced(v0: Vol, v1: Vol, v2: Vol, t1: seq<Vol>, t2: seq<Vol>, t3: seq<Vol>, from: nat, cat: Cat, g: Geometry,
                    bm: BitmapLoc, upcase: seq<u16>, id: nat, ch: seq<nat>, len: nat)
    requires Consistent(v0, cat, g, bm, upcase) && id in cat.nodes && id in cat.chains && !cat.nodes[id].facts.isDir
    requires 0 < g.ClusterBytes() && cat.nodes[id].facts.Recordable() && SetOnDisk(v2, cat.nodes[id], upcase)
    requires from <= |t1| && t1 <= t2 <= t3 && |t3| == |t2| + 2 && len < 0x1_0000_0000_0000_0000
    requires Grown(v0, v1, cat, id, ch) && OnlyData(v1, v2, Elems(ch)) && ch != [] && |ch| == DivCeil(len, g.ClusterBytes())
    requires forall c :: c in ch && c in cat.own ==> cat.own[c].id == id
    requires Through(v0, t1, from, GrowthPrint(v0, cat.chains[id])) && Confined(v0, v1, GrowthPrint(v0, cat.chains[id]))
    requires Through(v1, t2, |t1|, ContentsOf(Elems(ch)))
    requires var f0 := cat.nodes[id].facts; var next := Rewritten(Encode(f0, upcase), 1, len, ch[0], len);
      && SlotsWritten(v2, t3[|t2|], cat.nodes[id].SetAddrs()[..2], next[..2], 1)
      && SlotsWritten(v2, t3[|t2| + 1], cat.nodes[id].SetAddrs()[..2], next[..2], 2)
    ensures WriteTrace(v0, t3, from, cat, g.ClusterBytes(), id, ch)
  {
    hide *;
    var cb, n, f0 := g.ClusterBytes(), cat.nodes[id], cat.nodes[id].facts;
    var grow, fill := GrowthPrint(v0, cat.chains[id]), ContentsOf(Elems(ch));
    var both := grow.Join(fill);
    JoinContains(grow, fill);
    ThroughChain(v0, t1, from, grow, v1, t2, fill, both);
    GrowthSpares(v0, cat, g, bm, upcase, id, ch);
    SparedThroughout(v0, t2, from, cat, g, bm, upcase, id, both);
    FillConfined(v0, v1, v2, grow, ch);
    RewriteTraced(v0, v1, v2, t2, t3, cat, g, bm, upcase, id, ch, len);
    PublishedLonger(t2, t3, from, n, cb);
    RewriteConfined(v0, v2, t2, t3, from, cat, id, f0, upcase, ch, len, both);
    WriteTraceIs(v0, t3, from, cat, cb, id, ch);
  }

  lemma WriteTraceIs(v0: Vol, trace: seq<Vol>, from: nat, cat: Cat, cb: nat, id: nat, ch: seq<nat>)
    requires 0 < cb && id in cat.nodes && id in cat.chains
    requires Through(v0, trace, from, WritePrint(v0, cat, id, ch)) && AlwaysPublished(trace, from, cat.nodes[id], cb)
    ensures WriteTrace(v0, trace, from, cat, cb, id, ch)
  {
  }

  lemma FactsAfterIs(f0: Facts, ch: seq<nat>, len: nat, flags: byte)
    requires f0.Recordable() && ch != [] && ch[0] < U32 && len < 0x1_0000_0000_0000_0000
    ensures var f := FactsAfter(f0, ch, len, flags);
      && f.Recordable() && f.name == f0.name && f.isDir == f0.isDir
      && f.first == ch[0] && f.len == len && f.flags == flags
  {
  }

  lemma RewriteTraced(v0: Vol, v1: Vol, v2: Vol, t2: seq<Vol>, t3: seq<Vol>, cat: Cat, g: Geometry, bm: BitmapLoc,
                      upcase: seq<u16>, id: nat, ch: seq<nat>, len: nat)
    requires Consistent(v0, cat, g, bm, upcase) && id in cat.nodes && id in cat.chains && !cat.nodes[id].facts.isDir
    requires 0 < g.ClusterBytes() && cat.nodes[id].facts.Recordable() && SetOnDisk(v2, cat.nodes[id], upcase)
    requires |t3| == |t2| + 2 && len < 0x1_0000_0000_0000_0000
    requires Grown(v0, v1, cat, id, ch) && OnlyData(v1, v2, Elems(ch)) && ch != [] && |ch| == DivCeil(len, g.ClusterBytes())
    requires var f0 := cat.nodes[id].facts; var next := Rewritten(Encode(f0, upcase), 1, len, ch[0], len);
      && SlotsWritten(v2, t3[|t2|], cat.nodes[id].SetAddrs()[..2], next[..2], 1)
      && SlotsWritten(v2, t3[|t2| + 1], cat.nodes[id].SetAddrs()[..2], next[..2], 2)
    ensures forall t :: |t2| <= t < |t3| ==> Published(t3[t], cat.nodes[id], g.ClusterBytes())
  {
    hide *;
    var cb, n, f0 := g.ClusterBytes(), cat.nodes[id], cat.nodes[id].facts;
    BothHeld(v0, v1, v2, cat, g, bm, upcase, id, ch);
    ChainSize(v0, v1, cat, g, bm, upcase, id, ch);
    NodeChain(v0, cat, g, bm, upcase, id);
    SuitedLength(cat.chains[id], f0, cb);
    FactsAfterIs(f0, ch, len, 1);
    RewritePublished(v2, t3[|t2|], t3[|t2| + 1], n, FactsAfter(f0, ch, len, 1), upcase, cb, cat.chains[id], ch);
  }

  /** After the fill both the old chain and the new one are linked and allocated. */
  lemma BothHeld(v0: Vol, v1: Vol, v2: Vol, cat: Cat, g: Geometry, bm: BitmapLoc, upcase: seq<u16>, id: nat, ch: seq<nat>)
    requires Consistent(v0, cat, g, bm, upcase) && id in cat.nodes && id in cat.chains
    requires Grown(v0, v1, cat, id, ch) && OnlyData(v1, v2, Elems(ch))
    ensures RunHeld(v2, ch) && RunHeld(v2, cat.chains[id])
  {
    GrownHeld(v0, v1, v2, cat, id, ch);
    hide Consistent, Grown, OnlyData;
  }

  lemma GrownHeld(v0: Vol, v1: Vol, v2: Vol, cat: Cat, id: nat, ch: seq<nat>)
    requires |v0.fat| == |v0.bits| && id in cat.chains && Grown(v0, v1, cat, id, ch) && OnlyData(v1, v2, Elems(ch))
    ensures RunHeld(v2, ch) && RunHeld(v2, cat.chains[id])
  {
    var old_ := cat.chains[id];
    assert forall i :: 0 <= i < |old_| ==> old_[i] == ch[i];
  }

  lemma RewriteConfined(v0: Vol, v2: Vol, t2: seq<Vol>, t3: seq<Vol>, from: nat, cat: Cat, id: nat, f0: Facts, upcase: seq<u16>,
                        ch: seq<nat>, len: nat, both: Footprint)
    requires id in cat.nodes && id in cat.chains && f0.Recordable() && cat.nodes[id].facts == f0
    requires both == GrowthPrint(v0, cat.chains[id]).Join(ContentsOf(Elems(ch))) && ch != []
    requires from <= |t2| && t2 <= t3 && |t3| == |t2| + 2
    requires Through(v0, t2, from, both) && Confined(v0, v2, both)
    requires var next := Rewritten(Encode(f0, upcase), 1, len, ch[0], len);
      && SlotsWritten(v2, t3[|t2|], cat.nodes[id].SetAddrs()[..2], next[..2], 1)
      && SlotsWritten(v2, t3[|t2| + 1], cat.nodes[id].SetAddrs()[..2], next[..2], 2)
    ensures Through(v0, t3, from, WritePrint(v0, cat, id, ch))
  {
    hide Confined, Encode, Rewritten, GrowthPrint, SlotsWritten;
    var next := Rewritten(Encode(f0, upcase), 1, len, ch[0], len);
    var two := cat.nodes[id].SetAddrs()[..2];
    var s := SlotsOf(Elems(two));
    SlotsWrittenConfined(v2, t3[|t2|], two, next[..2], 1);
    SlotsWrittenConfined(v2, t3[|t2| + 1], two, next[..2], 2);
    assert Through(v2, t3, |t2|, s);
    assert Elems(two) <= cat.SetOf(id);
    ThroughChain(v0, t2, from, both, v2, t3, s, WritePrint(v0, cat, id, ch));
  }

  lemma FillConfined(v0: Vol, v1: Vol, v2: Vol, grow: Footprint, ch: seq<nat>)
    requires Confined(v0, v1, grow) && OnlyData(v1, v2, Elems(ch))
    ensures Confined(v0, v2, grow.Join(ContentsOf(Elems(ch))))
  {
    var both := grow.Join(ContentsOf(Elems(ch)));
    OnlyDataConfined(v1, v2, Elems(ch));
    ConfinedWider(v0, v1, grow, both);
    ConfinedWider(v1, v2, ContentsOf(Elems(ch)), both);
    hide Confined, OnlyData;
    ConfinedChain(v0, v1, v2, both);
  }
}
