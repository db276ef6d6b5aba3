/** Removing a file or an empty directory. */
module Removals {
  import opened Alloc
  import opened Bytes
  import opened Catalogues
  import opened Directories
  import opened EntrySets
  import opened Fats
  import opened FileWrites
  import opened Footprints
  import opened Geometries
  import opened Listings
  import opened Lookups
  import opened Outcomes
  import opened SlotLists
  import opened SlotWrites
  import opened Steps
  import opened Volumes

  /** The catalogue without node `id`. */
  function Without(cat: Cat, id: nat): Cat { cat.DropChain(id).DropNode(id) }

  lemma WithoutParts(cat: Cat, id: nat)
    ensures var cat' := Without(cat, id);
      && cat'.nodes == cat.nodes - {id} && cat'.chains == cat.chains - {id} && cat'.spare == cat.spare
      && cat' == cat.DropChain(id).DropNode(id)
  {
  }

  // ---- The cleared set -----------------------------------------------------------------------

  lemma ClearedSlots(v0: Vol, v1: Vol, n: Node, j: nat)
    requires Slots(SlotsAt(v0, n.SetAddrs())) && 1 <= j <= n.Count()
    requires SlotsWritten(v0, v1, n.SetAddrs(), ClearedAll(SlotsAt(v0, n.SetAddrs())), j)
    ensures v1.fat == v0.fat && v1.bits == v0.bits
    ensures |v1.Slot(n.Addr(0))| == SLOT && v1.Slot(n.Addr(0))[0] != ENTRY_FILE
    ensures forall a :: a !in n.SetAddrs() ==> v1.Slot(a) == v0.Slot(a)
    ensures j == n.Count() ==> forall a :: a in n.SetAddrs() && |v1.Slot(a)| == SLOT ==> v1.Slot(a)[0] != ENTRY_FILE
  {
    hide Vol.Slot, Cleared;
    var addrs, c := n.SetAddrs(), ClearedAll(SlotsAt(v0, n.SetAddrs()));
    assert addrs[0] == n.Addr(0) && v1.Slot(addrs[0]) == c[0] == Cleared(SlotsAt(v0, addrs)[0]);
    assert Usable(c[0]);
    if j == n.Count() {
      assert addrs[..j] == addrs;
      forall a | a in addrs && |v1.Slot(a)| == SLOT
        ensures v1.Slot(a)[0] != ENTRY_FILE
      {
        var i :| 0 <= i < |addrs| && addrs[i] == a;
        assert v1.Slot(addrs[i]) == c[i] == Cleared(SlotsAt(v0, addrs)[i]);
        assert Usable(c[i]);
      }
    }
  }

  /** The slots of the set of `n` are free for other use, and none of them ends the directory. */
  ghost predicate LeftUnused(v: Vol, n: Node)
  {
    forall a :: a in n.SetAddrs() ==> |v.Slot(a)| == SLOT && 0 < v.Slot(a)[0] < 0x80
  }

  lemma ClearedByte(s: seq<byte>)
    requires |s| == SLOT && (s[0] == ENTRY_FILE || s[0] == ENTRY_STREAM || s[0] == ENTRY_NAME)
    ensures |Cleared(s)| == SLOT && 0 < Cleared(s)[0] < 0x80
  {
  }

  lemma SetByte(f: Facts, upcase: seq<u16>, i: nat)
    requires f.Recordable() && i < |Encode(f, upcase)|
    ensures var s := Encode(f, upcase)[i]; |s| == SLOT && (s[0] == ENTRY_FILE || s[0] == ENTRY_STREAM || s[0] == ENTRY_NAME)
  {
    SetHead(f, upcase);
    hide Encode;
  }

  lemma ClearedSet(v0: Vol, v1: Vol, n: Node, upcase: seq<u16>)
    requires n.facts.Recordable() && SlotsAt(v0, n.SetAddrs()) == Encode(n.facts, upcase)
    requires SlotsWritten(v0, v1, n.SetAddrs(), ClearedAll(SlotsAt(v0, n.SetAddrs())), n.Count())
    ensures LeftUnused(v1, n)
  {
    hide Vol.Slot, Encode, Cleared, SetSize, Slots;
    var addrs, e := n.SetAddrs(), Encode(n.facts, upcase);
    forall a | a in addrs
      ensures |v1.Slot(a)| == SLOT && 0 < v1.Slot(a)[0] < 0x80
    {
      var i :| 0 <= i < |addrs| && addrs[i] == a;
      SetByte(n.facts, upcase, i);
      assert v1.Slot(addrs[i]) == ClearedAll(e)[i] == Cleared(e[i]);
      ClearedByte(e[i]);
    }
  }

  lemma UnusedStays(v1: Vol, v2: Vol, n: Node)
    requires LeftUnused(v1, n) && forall a: SlotAddr :: v2.Slot(a) == v1.Slot(a)
    ensures LeftUnused(v2, n)
  {
    hide Vol.Slot;
  }

  /** An entry whose File slot is no longer in use points at nothing. */
  lemma HiddenPublished(v: Vol, n: Node, cb: nat)
    requires 0 < cb && |v.Slot(n.Addr(0))| == SLOT && v.Slot(n.Addr(0))[0] != ENTRY_FILE
    ensures Published(v, n, cb)
  {
    hide Vol.Slot, HeadsRun;
  }

  /** What a removal may touch: the entry set, and the links and bits of the node's own clusters. */
  function RemovePrint(cat: Cat, id: nat): Footprint
    requires id in cat.chains
  {
    SlotsOf(cat.SetOf(id)).Join(ClustersOf(Elems(cat.chains[id])))
  }

  lemma RemovePrintIs(cat: Cat, id: nat)
    requires id in cat.chains
    ensures RemovePrint(cat, id) == SlotsOf(cat.SetOf(id)).Join(ClustersOf(Elems(cat.chains[id])))
  {
  }

  lemma RemoveAvoids(v0: Vol, cat: Cat, g: Geometry, bm: BitmapLoc, upcase: seq<u16>, id: nat, k: nat)
    requires Consistent(v0, cat, g, bm, upcase) && id in cat.nodes && id in cat.chains
    requires k in cat.nodes && k in cat.chains && k != id
    ensures Avoids(RemovePrint(cat, id), cat, k)
  {
    NodeFacts(v0, cat, g, bm, upcase, id);
    NodeIds(cat, g, bm, id);
    OwnershipParts(v0, cat, g, bm, upcase);
    ChainElems(cat, id);
    hide *;
    RelinkingAvoids(cat, id, Elems(cat.chains[id]), k);
    SetAvoids(v0, cat, g.Per(), id, k);
    AvoidsBoth(SlotsOf(cat.SetOf(id)), ClustersOf(Elems(cat.chains[id])), cat, k);
    RemovePrintIs(cat, id);
  }

  lemma ChainElems(cat: Cat, id: nat)
    requires Placed(cat) && id in cat.chains
    ensures forall c :: c in Elems(cat.chains[id]) <==> c in cat.own && cat.own[c].id == id
  {
    OwnedIsInChain(cat, id);
    assert forall c :: c in Elems(cat.chains[id]) <==> c in cat.chains[id];
  }

  lemma ClearTraced(v0: Vol, t0: seq<Vol>, t: seq<Vol>, cat: Cat, id: nat, v1: Vol)
    requires id in cat.nodes && id in cat.chains && t0 <= t && |t| == |t0| + cat.nodes[id].Count()
    requires Slots(SlotsAt(v0, cat.nodes[id].SetAddrs()))
    requires SlotTrace(v0, t, |t0|, cat.nodes[id].SetAddrs(), ClearedAll(SlotsAt(v0, cat.nodes[id].SetAddrs())))
    requires SlotsWritten(v0, v1, cat.nodes[id].SetAddrs(), ClearedAll(SlotsAt(v0, cat.nodes[id].SetAddrs())), cat.nodes[id].Count())
    ensures Through(v0, t, |t0|, SlotsOf(cat.SetOf(id))) && Confined(v0, v1, SlotsOf(cat.SetOf(id)))
  {
    hide Confined, SlotsWritten, ClearedAll, Slots, SlotsAt;
    var addrs, c := cat.nodes[id].SetAddrs(), ClearedAll(SlotsAt(v0, cat.nodes[id].SetAddrs()));
    assert cat.SetOf(id) == Elems(addrs);
    forall k | |t0| <= k < |t|
      ensures Confined(v0, t[k], SlotsOf(Elems(addrs)))
    {
      SlotsWrittenConfined(v0, t[k], addrs, c, k - |t0| + 1);
    }
    SlotsWrittenConfined(v0, v1, addrs, c, cat.nodes[id].Count());
  }

  lemma ClearPublished(v0: Vol, t0: seq<Vol>, t: seq<Vol>, n: Node, cb: nat)
    requires 0 < cb && t0 <= t && |t| == |t0| + n.Count() && Slots(SlotsAt(v0, n.SetAddrs()))
    requires SlotTrace(v0, t, |t0|, n.SetAddrs(), ClearedAll(SlotsAt(v0, n.SetAddrs())))
    ensures AlwaysPublished(t, |t0|, n, cb)
  {
    hide Vol.Slot, ClearedAll, SlotsWritten, Published, SlotsAt, Slots;
    forall k | |t0| <= k < |t|
      ensures Published(t[k], n, cb)
    {
      ClearedSlots(v0, t[k], n, k - |t0| + 1);
      HiddenPublished(t[k], n, cb);
    }
  }

  /** While clusters are freed the cleared entry stays cleared. */
  lemma FreePublished(v1: Vol, t1: seq<Vol>, t: seq<Vol>, n: Node, cb: nat, cs: set<nat>)
    requires 0 < cb && t1 <= t && Through(v1, t, |t1|, ClustersOf(cs))
    requires |v1.Slot(n.Addr(0))| == SLOT && v1.Slot(n.Addr(0))[0] != ENTRY_FILE
    ensures AlwaysPublished(t, |t1|, n, cb)
  {
    hide Vol.Slot, Published;
    forall k | |t1| <= k < |t|
      ensures Published(t[k], n, cb)
    {
      assert Confined(v1, t[k], ClustersOf(cs));
      assert t[k].Slot(n.Addr(0)) == v1.Slot(n.Addr(0));
      HiddenPublished(t[k], n, cb);
    }
  }

  // ---- The removal ---------------------------------------------------------------------------

  /** Set cleared and clusters freed. */
  ghost predicate Cleaned(v0: Vol, v1: Vol, v2: Vol, cat: Cat, id: nat)
    requires id in cat.nodes && id in cat.chains && Slots(SlotsAt(v0, cat.nodes[id].SetAddrs()))
  {
    && SlotsWritten(v0, v1, cat.nodes[id].SetAddrs(), ClearedAll(SlotsAt(v0, cat.nodes[id].SetAddrs())), cat.nodes[id].Count())
    && Freed(v1, v2, Elems(cat.chains[id]))
  }

  lemma CleanedSteps(v0: Vol, v1: Vol, v2: Vol, cat: Cat, id: nat)
    requires id in cat.nodes && id in cat.chains && Placed(cat) && Slots(SlotsAt(v0, cat.nodes[id].SetAddrs()))
    requires Cleaned(v0, v1, v2, cat, id) && 1 <= cat.nodes[id].Count()
    ensures |v2.fat| == |v0.fat| && |v2.bits| == |v0.bits|
    ensures forall c :: 0 <= c < |v2.fat| && c in cat.own && cat.own[c].id != id ==> v2.fat[c] == v0.fat[c]
    ensures forall c :: 2 <= c < |v2.bits| ==> v2.bits[c] == (v0.bits[c] && !(c in cat.own && cat.own[c].id == id))
    ensures DirSlotsSame(v0, v2, cat, cat.SetOf(id))
    ensures forall a :: a in cat.SetOf(id) && |v2.Slot(a)| == SLOT ==> v2.Slot(a)[0] != ENTRY_FILE
  {
    ClearedSlots(v0, v1, cat.nodes[id], cat.nodes[id].Count());
    ChainElems(cat, id);
    SetOfNode(cat, id);
    hide Vol.Slot, ClearedAll, SlotsWritten, Slots, SlotsAt, Placed, Cat.SetOf;
    SameSlots(v1, v2);
  }

  lemma SetOfNode(cat: Cat, id: nat)
    requires id in cat.nodes
    ensures cat.SetOf(id) == Elems(cat.nodes[id].SetAddrs())
    ensures forall a :: a in cat.SetOf(id) <==> a in cat.nodes[id].SetAddrs()
  {
  }

  lemma SameSlots(v1: Vol, v2: Vol)
    requires v2.data == v1.data || exists cs :: Freed(v1, v2, cs)
    ensures forall a: SlotAddr :: v2.Slot(a) == v1.Slot(a)
  {
  }

  /** Without children the removal keeps the volume consistent; with children it leaves them without a
      directory. */
  lemma RemovalExact(v0: Vol, v1: Vol, v2: Vol, cat: Cat, g: Geometry, bm: BitmapLoc, upcase: seq<u16>, id: nat)
    requires Consistent(v0, cat, g, bm, upcase) && id in cat.nodes && id in cat.chains
    requires Slots(SlotsAt(v0, cat.nodes[id].SetAddrs())) && Cleaned(v0, v1, v2, cat, id)
    ensures Consistent(v2, Without(cat, id), g, bm, upcase) <==> Childless(cat, id)
  {
    hide *;
    OwnershipParts(v0, cat, g, bm, upcase);
    NodeIds(cat, g, bm, id);
    AboveSystem(cat, g, bm, id);
    WithoutParts(cat, id);
    SetCount(cat.nodes[id]);
    CleanedSteps(v0, v1, v2, cat, id);
    if Childless(cat, id) {
      RemovalKeepsConsistent(v0, v2, cat, g, bm, upcase, id);
    }
    if Consistent(v2, Without(cat, id), g, bm, upcase) {
      NoOrphans(v2, cat, g, bm, upcase, id);
    }
  }

  lemma SetCount(n: Node)
    ensures 2 <= n.Count()
  {
  }

  lemma AboveSystem(cat: Cat, g: Geometry, bm: BitmapLoc, id: nat)
    requires 0 < g.ClusterBytes() && SystemOk(cat, g, bm) && id in cat.nodes
    ensures id > UPCASE && id != ROOT && id != BITMAP
  {
  }

  lemma NoOrphans(v2: Vol, cat: Cat, g: Geometry, bm: BitmapLoc, upcase: seq<u16>, id: nat)
    requires Consistent(v2, Without(cat, id), g, bm, upcase) && id in cat.nodes && id != ROOT
    ensures Childless(cat, id)
  {
    hide ChainsOwned, SlotsOwned, SystemOk, SetOnDisk, ChainSuits, Geometry.ClusterBytes;
    var cat' := Without(cat, id);
    forall k | k in cat.nodes && k != id
      ensures cat.nodes[k].parent != id
    {
      assert k in cat'.nodes && cat'.nodes[k] == cat.nodes[k];
      assert NodeOk(v2, cat', g.ClusterBytes(), upcase, k);
    }
  }

  /** Node `id` is gone, its clusters are free, and every other node has everything it had. */
  ghost predicate Removed(v0: Vol, cat0: Cat, v: Vol, cat: Cat, id: nat)
  {
    && id in cat0.nodes && id in cat0.chains && cat.nodes == cat0.nodes - {id} && cat.spare == cat0.spare
    && LeftUnused(v, cat0.nodes[id])
    && FreeSet(v) == FreeSet(v0) + Elems(cat0.chains[id])
    && OthersKept(v0, cat0, v, cat, {id})
  }

  lemma RemovedFrees(v0: Vol, v1: Vol, v2: Vol, cat: Cat, id: nat)
    requires ChainsOwned(v0, cat) && id in cat.nodes && id in cat.chains && Slots(SlotsAt(v0, cat.nodes[id].SetAddrs()))
    requires Cleaned(v0, v1, v2, cat, id)
    ensures FreeSet(v2) == FreeSet(v0) + Elems(cat.chains[id])
  {
    NodeHeld(v0, cat, id);
    hide Vol.Slot, ClearedAll, Slots, SlotsAt, ChainsOwned;
    var ch := cat.chains[id];
    assert forall c :: c in Elems(ch) ==> 2 <= c < |v0.bits|;
  }

  lemma RemovedIs(v: Volume, v0: Vol, t0: seq<Vol>, v1: Vol, cat: Cat, upcase: seq<u16>, id: nat)
    requires v.Valid() && t0 != [] && t0[|t0| - 1] == v0 && t0 <= v.trace && 0 < v.geo.ClusterBytes()
    requires Consistent(v0, cat, v.geo, v.bm, upcase) && id in cat.nodes && id in cat.chains
    requires Slots(SlotsAt(v0, cat.nodes[id].SetAddrs())) && Cleaned(v0, v1, v.vol, cat, id)
    requires CrashSafe(v0, v.trace, |t0|, cat, v.geo.ClusterBytes(), {id})
    ensures Removed(v0, cat, v.vol, Without(cat, id), id)
  {
    hide *;
    OwnershipParts(v0, cat, v.geo, v.bm, upcase);
    NodeFacts(v0, cat, v.geo, v.bm, upcase, id);
    SetOnDiskSlots(v0, cat.nodes[id], upcase);
    CleanedUnused(v0, v1, v.vol, cat, upcase, id);
    RemovedFrees(v0, v1, v.vol, cat, id);
    CrashSafeParts(v0, v.trace, |t0|, cat, v.geo.ClusterBytes(), {id});
    FinalKept(v, v0, t0, cat, {id});
    WithoutParts(cat, id);
    SafeKeepsOthers(v0, v.vol, cat, Without(cat, id), {id});
    RemovedParts(v0, cat, v.vol, id);
  }

  lemma CleanedUnused(v0: Vol, v1: Vol, v2: Vol, cat: Cat, upcase: seq<u16>, id: nat)
    requires id in cat.nodes && id in cat.chains && Slots(SlotsAt(v0, cat.nodes[id].SetAddrs())) && Cleaned(v0, v1, v2, cat, id)
    requires cat.nodes[id].facts.Recordable() && SlotsAt(v0, cat.nodes[id].SetAddrs()) == Encode(cat.nodes[id].facts, upcase)
    ensures LeftUnused(v2, cat.nodes[id])
  {
    hide Vol.Slot, Encode, ClearedAll, SlotsWritten, LeftUnused, Slots, SlotsAt;
    ClearedSet(v0, v1, cat.nodes[id], upcase);
    SameSlots(v1, v2);
    UnusedStays(v1, v2, cat.nodes[id]);
  }

  lemma RemovedParts(v0: Vol, cat: Cat, v: Vol, id: nat)
    requires id in cat.nodes && LeftUnused(v, cat.nodes[id])
    requires id in cat.chains && FreeSet(v) == FreeSet(v0) + Elems(cat.chains[id]) && OthersKept(v0, cat, v, Without(cat, id), {id})
    ensures Removed(v0, cat, v, Without(cat, id), id)
  {
    hide FreeSet, OthersKept, Elems, LeftUnused;
    WithoutParts(cat, id);
    hide Without;
  }

  // ---- The method ----------------------------------------------------------------------------

  /** Does the directory list anything? */
  method ListsNothing(v: Volume, upcase: seq<u16>, first: nat, ghost cat: Cat, ghost d: nat) returns (r: Result<bool>)
    requires v.Valid() && Consistent(v.vol, cat, v.geo, v.bm, upcase) && cat.IsDir(d)
    requires d in cat.chains && cat.chains[d] != [] && first == cat.chains[d][0]
    ensures r.Ok? && (r.value <==> NodesFrom(v.vol, cat, v.geo.Per(), d, 0) == [])
  {
    hide *;
    OwnershipParts(v.vol, cat, v.geo, v.bm, upcase);
    DirReady(v, cat, upcase, d);
    DirChainOk(v, cat, upcase, d);
    WalkableIs(v, cat, upcase, d);
    WholeDirectory(v, cat, d);
    DirectoryLists(v.vol, cat, v.geo.ClusterBytes(), v.geo.Per(), upcase, d, 0xFFFF_FFFF_FFFF_FFFF);
    NoEntries(cat, NodesFrom(v.vol, cat, v.geo.Per(), d, 0));
    var kids := ReadDirectory(v, first, 0xFFFF_FFFF_FFFF_FFFF);
    match kids {
      case Err(e) => return Err(e);
      case Ok(es) => return Ok(es == []);
    }
  }

  lemma DirChainOk(v: Volume, cat: Cat, upcase: seq<u16>, d: nat)
    requires v.Valid() && Consistent(v.vol, cat, v.geo, v.bm, upcase) && cat.IsDir(d)
    ensures 0 < v.geo.ClusterBytes() && d in cat.chains && cat.chains[d] != [] && DirClusters(v, cat.chains[d])
    ensures cat.chains[d][0] != 0
  {
    DirChainKnown(v, cat, upcase, d);
    OwnerClusters(v, cat, upcase, d);
    OwnershipParts(v.vol, cat, v.geo, v.bm, upcase);
    ChainLinked(v.vol, cat, d);
    hide Volume.Valid, Consistent, Geometry.ClusterBytes;
  }

  /** The bound the removal passes to the reader covers any directory. */
  lemma WholeDirectory(v: Volume, cat: Cat, d: nat)
    requires v.Valid() && ChainsOwned(v.vol, cat) && d in cat.chains
    ensures |Addrs(cat.chains[d], v.geo.Per())| <= DivCeil(0xFFFF_FFFF_FFFF_FFFF, SLOT)
  {
    v.Sizes();
    ClusterSize(v);
    ChainLinked(v.vol, cat, d);
    ChainDistinct(v.vol.fat, cat.chains[d]);
    hide Volume.Valid, ChainsOwned, Geometry.ClusterBytes, Geometry.Per, Addrs, DivCeil;
    var n, cb := |cat.chains[d]|, v.geo.ClusterBytes();
    MulMono(n, 0xFFFF_FFFF, cb);
    MulMono(cb, 0x200_0000, 0xFFFF_FFFF);
    assert n * cb <= 0xFFFF_FFFF * 0x200_0000 <= 0xFFFF_FFFF_FFFF_FFFF;
    CoversSlots(cat.chains[d], v.geo.Per(), cb, 0xFFFF_FFFF_FFFF_FFFF);
  }

  lemma ClusterSize(v: Volume)
    requires v.Valid()
    ensures v.geo.ClusterBytes() <= 0x200_0000 && v.geo.ClusterBytes() == SLOT * v.geo.Per()
  {
  }

  lemma NoEntries(cat: Cat, ks: seq<nat>)
    requires forall i :: 0 <= i < |ks| ==> ks[i] in cat.nodes
    ensures EntriesOf(cat, ks) == [] <==> ks == []
  {
  }

  /** Clear the set, then free the clusters. */
  method RemoveLocated(v: Volume, upcase: seq<u16>, entry: EntryLoc, ghost cat: Cat, ghost id: nat) returns (r: Result<()>)
    requires v.Valid() && Consistent(v.vol, cat, v.geo, v.bm, upcase) && id in cat.nodes && entry == LocOfNode(cat.nodes[id])
    modifies v, v.disk
    ensures v.Valid() && old(v.trace) <= v.trace && r.Ok? && 0 < v.geo.ClusterBytes()
    ensures Consistent(v.vol, Without(cat, id), v.geo, v.bm, upcase) <==> Childless(cat, id)
    ensures Removed(old(v.vol), cat, v.vol, Without(cat, id), id)
    ensures CrashSafe(old(v.vol), v.trace, |old(v.trace)|, cat, v.geo.ClusterBytes(), {id})
  {
    hide *;
    ghost var v0, t0, n := v.vol, v.trace, cat.nodes[id];
    TraceIs(v);
    NodeChain(v0, cat, v.geo, v.bm, upcase, id);
    NodeSlotsReady(v, cat, upcase, id);
    SetCount(n);
    EntryIs(n, entry);
    ClearSet(v, entry.offsets);
    ghost var v1, t1 := v.vol, v.trace;
    ClearedSlots(v0, v1, n, n.Count());
    ClearTraced(v0, t0, t1, cat, id, v1);
    ClearPublished(v0, t0, t1, n, v.geo.ClusterBytes());
    ChainToFree(v, v0, cat, upcase, id);
    if entry.firstCluster >= 2 {
      r := FreeChain(v, entry.firstCluster, None);
    } else {
      FreedNothing(v.vol);
      ThroughNothing(v.vol, v.trace, ClustersOf(Elems(cat.chains[id])));
      r := Ok(());
    }
    FreePublished(v1, t1, v.trace, n, v.geo.ClusterBytes(), Elems(cat.chains[id]));
    PublishedTwice(t1, v.trace, |t0|, n, v.geo.ClusterBytes());
    RemovalTraced(v0, v1, t0, t1, v.trace, cat, v.geo, v.bm, upcase, id);
    CleanedIs(v0, v1, v.vol, cat, id);
    RemovalExact(v0, v1, v.vol, cat, v.geo, v.bm, upcase, id);
    RemovedIs(v, v0, t0, v1, cat, upcase, id);
  }

  lemma TraceIs(v: Volume)
    requires v.Valid()
    ensures v.trace != [] && v.trace[|v.trace| - 1] == v.vol
  {
  }

  lemma EntryIs(n: Node, entry: EntryLoc)
    requires entry == LocOfNode(n)
    ensures entry.offsets == n.SetAddrs() && |entry.offsets| == n.Count() && entry.firstCluster == n.facts.first
  {
  }

  lemma PublishedTwice(t1: seq<Vol>, t2: seq<Vol>, from: nat, n: Node, cb: nat)
    requires 0 < cb && t1 <= t2 && from <= |t1| && AlwaysPublished(t1, from, n, cb) && AlwaysPublished(t2, |t1|, n, cb)
    ensures AlwaysPublished(t2, from, n, cb)
  {
    hide Published;
    PublishedLonger(t1, t2, from, n, cb);
  }

  /** The chain the removal walks and frees is the node's. */
  lemma ChainToFree(v: Volume, v0: Vol, cat: Cat, upcase: seq<u16>, id: nat)
    requires v.Valid() && Consistent(v0, cat, v.geo, v.bm, upcase) && id in cat.nodes && v.vol.fat == v0.fat
    ensures id in cat.chains
    ensures var ch, first := cat.chains[id], cat.nodes[id].facts.first;
      if first >= 2 then FreeList(v.vol.fat, first, None, v.geo.clusterCount) == Ok(ch) && forall i :: 0 <= i < |ch| ==> v.geo.InRange(ch[i])
      else Elems(ch) == {}
  {
    v.Sizes();
    NodeChain(v0, cat, v.geo, v.bm, upcase, id);
    ChainLinked(v0, cat, id);
    ChainDistinct(v0.fat, cat.chains[id]);
    hide Volume.Valid, Consistent, ChainsOwned, Geometry.ClusterBytes;
    if cat.chains[id] != [] {
      FreeWalkOfChain(v.vol.fat, cat.chains[id], v.geo.clusterCount);
    }
  }

  lemma CleanedIs(v0: Vol, v1: Vol, v2: Vol, cat: Cat, id: nat)
    requires id in cat.nodes && id in cat.chains && Slots(SlotsAt(v0, cat.nodes[id].SetAddrs()))
    requires SlotsWritten(v0, v1, cat.nodes[id].SetAddrs(), ClearedAll(SlotsAt(v0, cat.nodes[id].SetAddrs())), cat.nodes[id].Count())
    requires Freed(v1, v2, Elems(cat.chains[id]))
    ensures Cleaned(v0, v1, v2, cat, id)
  {
    hide SlotsWritten, Freed, ClearedAll, SlotsAt, Slots;
  }

  lemma RemovalTraced(v0: Vol, v1: Vol, t0: seq<Vol>, t1: seq<Vol>, t2: seq<Vol>, cat: Cat, g: Geometry, bm: BitmapLoc, upcase: seq<u16>, id: nat)
    requires Consistent(v0, cat, g, bm, upcase) && id in cat.nodes && id in cat.chains && t0 <= t1 <= t2 && 0 < g.ClusterBytes()
    requires Through(v0, t1, |t0|, SlotsOf(cat.SetOf(id))) && Confined(v0, v1, SlotsOf(cat.SetOf(id)))
    requires Through(v1, t2, |t1|, ClustersOf(Elems(cat.chains[id])))
    requires AlwaysPublished(t2, |t0|, cat.nodes[id], g.ClusterBytes())
    ensures CrashSafe(v0, t2, |t0|, cat, g.ClusterBytes(), {id})
  {
    hide *;
    NodesHaveChains(v0, cat, g, bm, upcase);
    var a, b := SlotsOf(cat.SetOf(id)), ClustersOf(Elems(cat.chains[id]));
    RemovePrintIs(cat, id);
    JoinContains(a, b);
    assert t2[..|t1|] == t1;
    ThroughChain(v0, t1, |t0|, a, v1, t2, b, RemovePrint(cat, id));
    forall k | k in cat.nodes && k !in {id}
      ensures Avoids(RemovePrint(cat, id), cat, k)
    {
      RemoveAvoids(v0, cat, g, bm, upcase, id, k);
    }
    SafeRun(v0, t2, |t0|, cat, g, bm, upcase, {id}, RemovePrint(cat, id));
  }
}
