/** Renaming: a fresh entry set over the same clusters, then the old set cleared. */
module Renames {
  import opened Alloc
  import opened Bytes
  import opened Catalogues
  import opened Creations
  import opened Directories
  import opened EntrySets
  import opened Fats
  import opened FileWrites
  import opened Footprints
  import opened Geometries
  import opened Lookups
  import opened Outcomes
  import opened Placements
  import opened Records
  import opened Removals
  import opened SlotWrites
  import opened Steps
  import opened Volumes

  /** The facts of a moved node: what it points at under a new name. */
  function Renamed(f: Facts, name: Name): Facts { f.(name := name) }

  lemma RenamedIs(f: Facts, name: Name)
    ensures var r := Renamed(f, name);
      r.name == name && r.isDir == f.isDir && r.first == f.first && r.len == f.len && r.flags == f.flags
  {
  }

  /** Node `id` now lies in directory `d` under `name` with what it had; a file has its bytes. Nobody else
      changed but `d`, which may have grown, also when it is the moved directory itself. */
  ghost predicate Moved(v0: Vol, cat0: Cat, v: Vol, cat: Cat, d: nat, id: nat, name: Name)
  {
    && id in cat0.nodes && id in cat0.chains && cat.nodes.Keys == cat0.nodes.Keys && id in cat.chains
    && cat.nodes[id].parent == d && cat.nodes[id].facts == Renamed(cat0.nodes[id].facts, name)
    && cat0.chains[id] <= cat.chains[id] && (d != id ==> cat.chains[id] == cat0.chains[id])
    && (!cat0.nodes[id].facts.isDir ==> FileContent(v, cat, id) == FileContent(v0, cat0, id))
    && (d in cat0.nodes && d != id ==> SameEntry(cat0.nodes[d], cat.nodes[d]))
    && cat.spare == cat0.spare
    && OthersKept(v0, cat0, v, cat, {d, id})
  }

  // ---- Placing the new set leaves the old one alone ------------------------------------------

  lemma OldSetStays(v0: Vol, cat0: Cat, mid: Vol, cat: Cat, v: Vol, from: nat, m: seq<Vol>, t: seq<Vol>,
                    g: Geometry, bm: BitmapLoc, upcase: seq<u16>, d: nat, n: Node, id: nat)
    requires Placing(v0, cat0, mid, cat, v, from, m, t, g, bm, upcase, d, n)
    requires id in cat0.nodes && id in cat0.chains && id != d && 0 < g.ClusterBytes()
    ensures NodeKept(v0, v, cat0, id) && AlwaysPublished(t, from, cat0.nodes[id], g.ClusterBytes())
    ensures cat0.nodes[id].facts.Recordable()
    ensures SetOnDisk(v, cat0.nodes[id], upcase) && SlotsAt(v, cat0.nodes[id].SetAddrs()) == Encode(cat0.nodes[id].facts, upcase)
  {
    hide *;
    PlacingParts(v0, cat0, mid, cat, v, from, m, t, g, bm, upcase, d, n);
    PlacingTraced(v0, cat0, mid, cat, v, from, m, t, g, bm, upcase, d, n);
    PlacingAvoids(v0, cat0, mid, cat, v, from, m, t, g, bm, upcase, d, n, id);
    AvoidedIsKept(v0, v, cat0, id, PlacePrint(v0, cat0, d, n));
    KeptThroughout(v0, t, from, cat0, g, bm, upcase, id, PlacePrint(v0, cat0, d, n));
    NodeFacts(v0, cat0, g, bm, upcase, id);
    KeptSet(v0, v, cat0, upcase, id);
    SetOnDiskSlots(v, cat0.nodes[id], upcase);
  }

  lemma KeptSet(v0: Vol, v: Vol, cat: Cat, upcase: seq<u16>, id: nat)
    requires id in cat.nodes && id in cat.chains && cat.nodes[id].facts.Recordable() && NodeKept(v0, v, cat, id)
    requires SetOnDisk(v0, cat.nodes[id], upcase)
    ensures SetOnDisk(v, cat.nodes[id], upcase)
  {
    hide Encode, Vol.Slot;
  }

  // ---- The record ------------------------------------------------------------------------------

  /** The new set written and the old one cleared make the same node, recorded elsewhere. */
  lemma MoveRecorded(mid: Vol, v1: Vol, v2: Vol, m: seq<Vol>, t: seq<Vol>, cat: Cat, g: Geometry, bm: BitmapLoc, upcase: seq<u16>,
                     id: nat, n: Node)
    requires Consistent(mid, cat, g, bm, upcase) && 0 < g.ClusterBytes() && id in cat.nodes && id in cat.chains
    requires Room(mid, cat, g.Per(), n.parent, n.Count(), n.cluster, n.start) && cat.IsDir(n.parent)
    requires SetPlaced(mid, v1, m, t, upcase, n) && n.facts == Renamed(cat.nodes[id].facts, n.facts.name)
    requires Slots(SlotsAt(v1, cat.nodes[id].SetAddrs()))
    requires SlotsWritten(v1, v2, cat.nodes[id].SetAddrs(), ClearedAll(SlotsAt(v1, cat.nodes[id].SetAddrs())), cat.nodes[id].Count())
    ensures Consistent(v2, WithNode(cat, id, cat.chains[id], n), g, bm, upcase)
  {
    hide *;
    var ch := cat.chains[id];
    OwnershipParts(mid, cat, g, bm, upcase);
    AboveSystem(cat, g, bm, id);
    PlacedOnDisk(mid, v1, m, t, upcase, n);
    RoomIsFree(mid, cat, g, bm, upcase, n.parent, n);
    SetCount(cat.nodes[id]);
    ClearedSlots(v1, v2, cat.nodes[id], cat.nodes[id].Count());
    SetsDisjoint(mid, cat, g.Per(), id, n);
    SetOnDiskAfterClear(v1, v2, cat.nodes[id], n, upcase);
    SameChain(mid, cat, id);
    ChainStepSameLinks(mid, mid, v2, cat, id, ch);
    MovedSlots(mid, v1, v2, cat, id, n);
    NodeChain(mid, cat, g, bm, upcase, id);
    NodeFacts(mid, cat, g, bm, upcase, id);
    MovedFits(v2, cat, g, id, n);
    RecordKeepsConsistent(mid, v2, cat, g, bm, upcase, id, n, ch);
    WithNodeParts(cat, id, ch, n);
  }

  lemma SameChain(v: Vol, cat: Cat, id: nat)
    requires ChainsOwned(v, cat) && id in cat.chains
    ensures ChainStep(v, v, cat, id, cat.chains[id])
  {
    GrownByNothing(v, cat, id);
  }

  lemma SetsDisjoint(v: Vol, cat: Cat, per: nat, id: nat, n: Node)
    requires SlotsOwned(v, cat, per) && id in cat.nodes && forall j :: 0 <= j < n.Count() ==> n.Addr(j) !in cat.slotOwn
    ensures forall j :: 0 <= j < n.Count() ==> n.Addr(j) !in cat.nodes[id].SetAddrs()
    ensures forall a :: a in cat.nodes[id].SetAddrs() ==> a !in n.SetAddrs()
  {
    hide Vol.Slot;
    assert forall j :: 0 <= j < cat.nodes[id].Count() ==> cat.nodes[id].Addr(j) in cat.slotOwn;
  }

  lemma SetOnDiskAfterClear(v1: Vol, v2: Vol, old_: Node, n: Node, upcase: seq<u16>)
    requires n.facts.Recordable() && SetOnDisk(v1, n, upcase)
    requires forall a :: a !in old_.SetAddrs() ==> v2.Slot(a) == v1.Slot(a)
    requires forall j :: 0 <= j < n.Count() ==> n.Addr(j) !in old_.SetAddrs()
    ensures SetOnDisk(v2, n, upcase)
  {
    hide Encode, Vol.Slot;
  }

  lemma MovedSlots(mid: Vol, v1: Vol, v2: Vol, cat: Cat, id: nat, n: Node)
    requires id in cat.nodes
    requires forall a :: a !in n.SetAddrs() ==> v1.Slot(a) == mid.Slot(a)
    requires forall a :: a !in cat.nodes[id].SetAddrs() ==> v2.Slot(a) == v1.Slot(a)
    ensures DirSlotsSame(mid, v2, cat, cat.SetOf(id) + Elems(n.SetAddrs()))
  {
    hide Vol.Slot;
  }

  lemma MovedFits(v2: Vol, cat: Cat, g: Geometry, id: nat, n: Node)
    requires 0 < g.ClusterBytes() && Placed(cat) && id in cat.nodes && id in cat.chains && id != ROOT
    requires n.facts == Renamed(cat.nodes[id].facts, n.facts.name) && n.facts.Recordable() && cat.nodes[id].facts.flags <= 1
    requires cat.IsDir(n.parent) && n.cluster in cat.own && cat.own[n.cluster].id == n.parent && n.start + n.Count() <= g.Per()
    requires forall j :: 0 <= j < n.Count() ==> n.Addr(j) !in cat.slotOwn
    requires ChainSuits(cat.chains[id], cat.nodes[id].facts, g.ClusterBytes())
    requires forall a :: a in cat.nodes[id].SetAddrs() && |v2.Slot(a)| == SLOT ==> v2.Slot(a)[0] != ENTRY_FILE
    ensures Recordable(cat, id, n, cat.chains[id]) && NodeFits(cat, g.ClusterBytes(), n, cat.chains[id])
    ensures NoStrayFile(v2, cat, g.Per(), id, n, cat.chains[id])
  {
    OwnedIsInChain(cat, id);
    hide Placed, Vol.Slot, Geometry.ClusterBytes, Geometry.Per;
  }

  // ---- The device writes -------------------------------------------------------------------------

  lemma CrashSafeWider(v0: Vol, t: seq<Vol>, from: nat, cat: Cat, cb: nat, a: set<nat>, b: set<nat>)
    requires CrashSafe(v0, t, from, cat, cb, a) && a <= b
    ensures CrashSafe(v0, t, from, cat, cb, b)
  {
    hide NodeKept, AlwaysPublished;
  }

  /** What a move may touch. */
  function MovePrint(v0: Vol, cat: Cat, d: nat, n: Node, id: nat): Footprint
    requires d in cat.chains
  {
    PlacePrint(v0, cat, d, n).Join(SlotsOf(cat.SetOf(id)))
  }

  lemma MovePrintIs(v0: Vol, cat: Cat, d: nat, n: Node, id: nat)
    requires d in cat.chains
    ensures MovePrint(v0, cat, d, n, id) == PlacePrint(v0, cat, d, n).Join(SlotsOf(cat.SetOf(id)))
  {
  }

  /** While the new set is written and the old one cleared, the directory it went into is published. */
  lemma MovingDirPublished(mid: Vol, v1: Vol, m: seq<Vol>, t1: seq<Vol>, t2: seq<Vol>, cat: Cat, g: Geometry, bm: BitmapLoc,
                           upcase: seq<u16>, n: Node, id: nat, d: nat)
    requires Consistent(mid, cat, g, bm, upcase) && 0 < g.ClusterBytes() && cat.IsDir(n.parent)
    requires Room(mid, cat, g.Per(), n.parent, n.Count(), n.cluster, n.start) && SetPlaced(mid, v1, m, t1, upcase, n)
    requires id in cat.nodes && d in cat.nodes && d in cat.chains && d != id && t1 <= t2
    requires Through(v1, t2, |t1|, SlotsOf(cat.SetOf(id)))
    ensures AlwaysPublished(t2, |m|, cat.nodes[d], g.ClusterBytes())
  {
    hide *;
    var a, b := SlotsOf(Elems(n.SetAddrs())), SlotsOf(cat.SetOf(id));
    OwnershipParts(mid, cat, g, bm, upcase);
    PlacedTraced(mid, v1, m, t1, upcase, n);
    PlacedLength(mid, v1, m, t1, upcase, n);
    JoinContains(a, b);
    assert t2[..|t1|] == t1;
    ThroughChain(mid, t1, |m|, a, v1, t2, b, a.Join(b));
    NewSetAvoids(mid, cat, g, bm, upcase, n, d);
    OwnSetAvoids(mid, cat, g, bm, upcase, id, d);
    AvoidsBoth(a, b, cat, d);
    KeptThroughout(mid, t2, |m|, cat, g, bm, upcase, d, a.Join(b));
  }

  /** The new entry heads its clusters from its first slot on, also while the old set is cleared. */
  lemma MovedPublished(mid: Vol, v1: Vol, m: seq<Vol>, t1: seq<Vol>, t2: seq<Vol>, cat: Cat, g: Geometry, bm: BitmapLoc,
                       upcase: seq<u16>, n: Node, id: nat)
    requires Consistent(mid, cat, g, bm, upcase) && 0 < g.ClusterBytes() && cat.IsDir(n.parent)
    requires Room(mid, cat, g.Per(), n.parent, n.Count(), n.cluster, n.start) && SetPlaced(mid, v1, m, t1, upcase, n)
    requires id in cat.nodes && id in cat.chains && t1 <= t2 && HeadsPart(cat.chains[id], n.facts, g.ClusterBytes())
    requires Through(v1, t2, |t1|, SlotsOf(cat.SetOf(id)))
    ensures |m| <= |t1| && AlwaysPublished(t2, |m|, n, g.ClusterBytes())
  {
    hide *;
    var ch, cb := cat.chains[id], g.ClusterBytes();
    OwnershipParts(mid, cat, g, bm, upcase);
    HeadsPartIs(ch, n.facts, cb);
    NodeHeld(mid, cat, id);
    PlacedLength(mid, v1, m, t1, upcase, n);
    NewSetPublished(mid, v1, m, t1, upcase, n, cat, g.Per(), ch, cb);
    PlacedOnDisk(mid, v1, m, t1, upcase, n);
    RoomIsFree(mid, cat, g, bm, upcase, n.parent, n);
    SetsDisjoint(mid, cat, g.Per(), id, n);
    SetCount(n);
    ClearingPublished(mid, v1, t1, t2, cat, id, n, upcase, ch, cb);
    PublishedTwice(t1, t2, |m|, n, cb);
  }

  /** The facts point at the head of `ch`, and `ch` is as long as their length calls for, or longer. */
  ghost predicate HeadsPart(ch: seq<nat>, f: Facts, cb: nat)
    requires 0 < cb
  {
    DivCeil(f.len, cb) <= |ch| && (ch != [] ==> f.first == ch[0])
  }

  lemma HeadsPartIs(ch: seq<nat>, f: Facts, cb: nat)
    requires 0 < cb && HeadsPart(ch, f, cb)
    ensures DivCeil(f.len, cb) <= |ch| && (ch != [] ==> f.first == ch[0])
  {
  }

  /** A moved node's record still fits its chain, also when the chain has grown: only a directory's does, and
      that is not empty. */
  lemma MovedHeads(v0: Vol, cat0: Cat, g: Geometry, bm: BitmapLoc, upcase: seq<u16>, id: nat, f: Facts, ch: seq<nat>)
    requires Consistent(v0, cat0, g, bm, upcase) && id in cat0.nodes && id in cat0.chains && cat0.chains[id] <= ch
    requires f == Renamed(cat0.nodes[id].facts, f.name) && (ch == cat0.chains[id] || cat0.nodes[id].facts.isDir)
    ensures 0 < g.ClusterBytes() && HeadsPart(ch, f, g.ClusterBytes())
  {
    NodeChain(v0, cat0, g, bm, upcase, id);
    RenamedSuits(cat0.chains[id], cat0.nodes[id].facts, f, g.ClusterBytes());
    SuitedLength(cat0.chains[id], f, g.ClusterBytes());
    hide Consistent, ChainsOwned, DivCeil, Geometry.ClusterBytes;
  }

  lemma RenamedSuits(ch: seq<nat>, f: Facts, f': Facts, cb: nat)
    requires 0 < cb && ChainSuits(ch, f, cb) && f' == Renamed(f, f'.name)
    ensures ChainSuits(ch, f', cb) && (ch != [] ==> f'.first == ch[0])
  {
  }

  lemma ClearingPublished(mid: Vol, v1: Vol, t1: seq<Vol>, t2: seq<Vol>, cat: Cat, id: nat, n: Node, upcase: seq<u16>, ch: seq<nat>, cb: nat)
    requires 0 < cb && id in cat.nodes && n.facts.Recordable() && SetOnDisk(v1, n, upcase) && t1 <= t2
    requires v1.fat == mid.fat && v1.bits == mid.bits && RunHeld(mid, ch) && 2 <= n.Count()
    requires DivCeil(n.facts.len, cb) <= |ch| && (ch != [] ==> n.facts.first == ch[0])
    requires Through(v1, t2, |t1|, SlotsOf(cat.SetOf(id)))
    requires forall j :: 0 <= j < n.Count() ==> n.Addr(j) !in cat.nodes[id].SetAddrs()
    ensures AlwaysPublished(t2, |t1|, n, cb)
  {
    hide Vol.Slot, Encode, Published, DivCeil;
    assert v1.Slot(n.Addr(1)) == Encode(n.facts, upcase)[1];
    forall k | |t1| <= k < |t2|
      ensures Published(t2[k], n, cb)
    {
      assert Confined(v1, t2[k], SlotsOf(cat.SetOf(id)));
      assert t2[k].Slot(n.Addr(1)) == v1.Slot(n.Addr(1));
      assert RunHeld(t2[k], ch);
      FactsPublished(t2[k], n, n.facts, upcase, ch, cb);
    }
  }

  /** The whole move is safe for everybody else, and both the moved node's old entry and the directory it goes
      into stay published. */
  lemma MoveSafe(v0: Vol, cat0: Cat, mid: Vol, cat: Cat, v1: Vol, from: nat, m: seq<Vol>, t1: seq<Vol>, t2: seq<Vol>,
                 g: Geometry, bm: BitmapLoc, upcase: seq<u16>, d: nat, n: Node, id: nat)
    requires Placing(v0, cat0, mid, cat, v1, from, m, t1, g, bm, upcase, d, n)
    requires id in cat0.nodes && id in cat0.chains && id != d && t1 <= t2 && |t2| == |t1| + cat0.nodes[id].Count()
    requires Slots(SlotsAt(v1, cat0.nodes[id].SetAddrs()))
    requires SlotTrace(v1, t2, |t1|, cat0.nodes[id].SetAddrs(), ClearedAll(SlotsAt(v1, cat0.nodes[id].SetAddrs())))
    requires Through(v1, t2, |t1|, SlotsOf(cat0.SetOf(id)))
    ensures CrashSafe(v0, t2, from, cat0, g.ClusterBytes(), {d, id})
    ensures d in cat0.chains && Through(v0, t2, from, MovePrint(v0, cat0, d, n, id))
  {
    hide *;
    PlacingParts(v0, cat0, mid, cat, v1, from, m, t1, g, bm, upcase, d, n);
    PlacingTraced(v0, cat0, mid, cat, v1, from, m, t1, g, bm, upcase, d, n);
    NodesHaveChains(v0, cat0, g, bm, upcase);
    ButDirParts(cat0, cat, d);
    var a, b := PlacePrint(v0, cat0, d, n), SlotsOf(cat0.SetOf(id));
    MovePrintIs(v0, cat0, d, n, id);
    JoinContains(a, b);
    assert t2[..|t1|] == t1;
    ThroughChain(v0, t1, from, a, v1, t2, b, MovePrint(v0, cat0, d, n, id));
    forall k | k in cat0.nodes && k !in {d, id}
      ensures Avoids(MovePrint(v0, cat0, d, n, id), cat0, k)
    {
      PlacingAvoids(v0, cat0, mid, cat, v1, from, m, t1, g, bm, upcase, d, n, k);
      OwnSetAvoids(v0, cat0, g, bm, upcase, id, k);
      AvoidsBoth(a, b, cat0, k);
    }
    OldSetStays(v0, cat0, mid, cat, v1, from, m, t1, g, bm, upcase, d, n, id);
    ClearPublished(v1, t1, t2, cat0.nodes[id], g.ClusterBytes());
    PublishedTwice(t1, t2, from, cat0.nodes[id], g.ClusterBytes());
    if d in cat0.nodes {
      MoveDirPublished(v0, cat0, mid, cat, v1, from, m, t1, t2, g, bm, upcase, d, n, id);
    }
    SafeRun(v0, t2, from, cat0, g, bm, upcase, {d, id}, MovePrint(v0, cat0, d, n, id));
  }

  lemma MoveDirPublished(v0: Vol, cat0: Cat, mid: Vol, cat: Cat, v1: Vol, from: nat, m: seq<Vol>, t1: seq<Vol>, t2: seq<Vol>,
                         g: Geometry, bm: BitmapLoc, upcase: seq<u16>, d: nat, n: Node, id: nat)
    requires Placing(v0, cat0, mid, cat, v1, from, m, t1, g, bm, upcase, d, n) && 0 < g.ClusterBytes()
    requires id in cat0.nodes && d in cat0.nodes && id != d && t1 <= t2
    requires Through(v1, t2, |t1|, SlotsOf(cat0.SetOf(id)))
    ensures AlwaysPublished(t2, from, cat0.nodes[d], g.ClusterBytes())
  {
    hide *;
    PlacingParts(v0, cat0, mid, cat, v1, from, m, t1, g, bm, upcase, d, n);
    PlacingTraced(v0, cat0, mid, cat, v1, from, m, t1, g, bm, upcase, d, n);
    ButDirParts(cat0, cat, d);
    SameSetOf(cat0, cat, id);
    MovingDirPublished(mid, v1, m, t1, t2, cat, g, bm, upcase, n, id, d);
    EntryPlace(cat0.nodes[d], cat.nodes[d]);
    PublishedInPieces(m, t2, from, cat0.nodes[d], cat.nodes[d], g.ClusterBytes());
  }

  lemma SameSetOf(cat0: Cat, cat: Cat, id: nat)
    requires id in cat0.nodes && id in cat.nodes && cat.nodes[id] == cat0.nodes[id]
    ensures cat.SetOf(id) == cat0.SetOf(id)
  {
  }

  // ---- The method ----------------------------------------------------------------------------------

  /** A move keeps the volume consistent unless it puts a directory into itself and has to grow it for that: the
      new entry then records the length from before the growth. */
  ghost predicate MoveSound(v0: Vol, cat0: Cat, per: nat, d: nat, id: nat, name: Name)
    requires d in cat0.chains
  {
    d != id || !NoRun(v0, cat0.chains[d], per, SetSize(name))
  }

  /** What a move of node `id` into directory `d` promises. */
  ghost predicate MoveMade(v0: Vol, cat0: Cat, t0: seq<Vol>, v: Vol, cat: Cat, t: seq<Vol>, g: Geometry, bm: BitmapLoc,
                           upcase: seq<u16>, d: nat, id: nat, name: Name, r: Result<()>)
    requires id in cat0.nodes
  {
    && 0 < g.ClusterBytes() && d in cat0.chains
    && (r.Ok? <==> !BadName(name) && !(NoRun(v0, cat0.chains[d], g.Per(), SetSize(name)) && FreeSet(v0) == {}))
    && (r.Err? ==> Consistent(v, cat, g, bm, upcase) && OnlySpares(v0, cat0, v, cat)
                   && CrashSafe(v0, t, |t0|, cat0, g.ClusterBytes(), {d, id}))
    && (r.Ok? ==>
          && (Consistent(v, cat, g, bm, upcase) <==> MoveSound(v0, cat0, g.Per(), d, id, name))
          && (!MoveSound(v0, cat0, g.Per(), d, id, name) ==> Stale(v, cat, g.ClusterBytes(), upcase, id))
          && Moved(v0, cat0, v, cat, d, id, name)
          && CrashSafe(v0, t, |t0|, cat0, g.ClusterBytes(), {d, id})
          && id in cat.nodes && |t0| <= |t| - SetSize(name) - cat0.nodes[id].Count()
          && AlwaysPublished(t, |t| - SetSize(name) - cat0.nodes[id].Count(), cat.nodes[id], g.ClusterBytes())
          && PlacedWhere(v0, cat0, cat, g.Per(), d, cat.nodes[id])
          && Confined(v0, v, MovePrint(v0, cat0, d, cat.nodes[id], id)) && LeftUnused(v, cat0.nodes[id]))
  }

  /** Place a fresh set for the node in directory `d`, then clear the old one. No cluster changes hands. */
  method MoveLocated(v: Volume, upcase: seq<u16>, src: EntryLoc, dir: DirHandle, name: Name, ghost cat: Cat, ghost id: nat, ghost d: nat)
    returns (r: Result<()>, ghost cat': Cat)
    requires v.Valid() && Consistent(v.vol, cat, v.geo, v.bm, upcase) && 19 <= v.geo.Per()
    requires id in cat.nodes && src == LocOfNode(cat.nodes[id]) && HandleFor(cat, dir, d)
    modifies v, v.disk
    ensures v.Valid() && old(v.trace) <= v.trace
    ensures MoveMade(old(v.vol), cat, old(v.trace), v.vol, cat', v.trace, v.geo, v.bm, upcase, d, id, name, r)
  {
    hide *;
    ghost var v0, t0, f0 := v.vol, v.trace, cat.nodes[id].facts;
    TraceIs(v);
    NodeSlotsReady(v, cat, upcase, id);
    NodeChain(v0, cat, v.geo, v.bm, upcase, id);
    SourceFacts(cat.nodes[id], src, name);
    var f := Facts(name, src.isDir, src.firstCluster, src.dataLen, src.flags);
    ghost var n, mid, m, cat1;
    r, cat1, n, mid, m := PlaceEntrySet(v, upcase, dir, f, cat, d);
    cat' := cat1;
    if r.Err? {
      GrowthSafe(v0, v.trace, |t0|, cat, v.geo, v.bm, upcase, d);
      CrashSafeWider(v0, v.trace, |t0|, cat, v.geo.ClusterBytes(), {d}, {d, id});
      FailedMove(v, v0, t0, cat, cat1, upcase, dir, d, name);
      MoveMadeIs(v0, cat, t0, v.vol, cat', v.trace, v.geo, v.bm, upcase, d, id, name, r);
      return;
    }
    ghost var v1, t1 := v.vol, v.trace;
    ClearSet(v, src.offsets);
    MoveSoundIs(v0, cat, v.geo.Per(), d, id, name);
    if d != id {
      cat' := MoveDone(v, v0, t0, mid, m, v1, t1, cat, cat1, upcase, dir, d, n, id, name);
    } else {
      cat' := SelfMoveDone(v, v0, t0, mid, m, v1, t1, cat, cat1, upcase, dir, n, id, name);
      SelfIsBoth(id, d);
      if NoRun(v0, cat.chains[id], v.geo.Per(), n.Count()) {
        StaleIsBroken(v.vol, cat', v.geo, v.bm, upcase, id);
      }
    }
    MoveMadeIs(v0, cat, t0, v.vol, cat', v.trace, v.geo, v.bm, upcase, d, id, name, r);
  }

  lemma MoveSoundIs(v0: Vol, cat0: Cat, per: nat, d: nat, id: nat, name: Name)
    requires d in cat0.chains
    ensures MoveSound(v0, cat0, per, d, id, name) <==> d != id || !NoRun(v0, cat0.chains[d], per, SetSize(name))
  {
  }

  lemma SelfIsBoth(id: nat, d: nat)
    requires d == id
    ensures {d, id} == {id}
  {
  }

  lemma SourceFacts(n: Node, src: EntryLoc, name: Name)
    requires src == LocOfNode(n) && n.facts.Recordable()
    ensures src.offsets == n.SetAddrs() && |src.offsets| == n.Count()
    ensures Facts(name, src.isDir, src.firstCluster, src.dataLen, src.flags) == Renamed(n.facts, name)
    ensures src.firstCluster < 0x1_0000_0000 && src.dataLen < 0x1_0000_0000_0000_0000
  {
  }

  lemma FailedMove(v: Volume, v0: Vol, t0: seq<Vol>, cat: Cat, cat1: Cat, upcase: seq<u16>, dir: DirHandle, d: nat, name: Name)
    requires v.Valid() && t0 != [] && t0[|t0| - 1] == v0 && t0 <= v.trace && 0 < v.geo.ClusterBytes()
    requires Consistent(v0, cat, v.geo, v.bm, upcase) && HandleFor(cat, dir, d)
    requires CrashSafe(v0, v.trace, |t0|, cat, v.geo.ClusterBytes(), {d})
    requires cat1 == cat || cat1 == cat.(spare := cat.spare + FreeSet(v0))
    ensures OnlySpares(v0, cat, v.vol, cat1)
  {
    hide *;
    OwnershipParts(v0, cat, v.geo, v.bm, upcase);
    RootIsNoNode(cat, v.geo, v.bm);
    FailedPlacement(v, v0, t0, cat, cat1, dir, d);
  }

  /** The bookkeeping of a completed move. */
  lemma MoveDone(v: Volume, v0: Vol, t0: seq<Vol>, mid: Vol, m: seq<Vol>, v1: Vol, t1: seq<Vol>, cat: Cat, cat1: Cat,
                 upcase: seq<u16>, dir: DirHandle, d: nat, n: Node, id: nat, name: Name) returns (cat': Cat)
    requires v.Valid() && t0 != [] && t0[|t0| - 1] == v0 && t0 <= m <= t1 <= v.trace && 0 < v.geo.ClusterBytes()
    requires Consistent(v0, cat, v.geo, v.bm, upcase) && Consistent(mid, cat1, v.geo, v.bm, upcase) && HandleFor(cat, dir, d)
    requires d in cat.chains && id in cat.nodes && id in cat.chains && d != id && n.parent == d && n.facts == Renamed(cat.nodes[id].facts, name)
    requires Room(mid, cat1, v.geo.Per(), d, n.Count(), n.cluster, n.start)
    requires RoomChosen(v0, cat, mid, cat1, v.geo.Per(), v.geo.ClusterBytes(), d, n.Count(), n.cluster, n.start)
    requires SetPlaced(mid, v1, m, t1, upcase, n)
    requires Through(v0, m, |t0|, DirGrowthPrint(v0, cat, d)) && Confined(v0, mid, DirGrowthPrint(v0, cat, d))
    requires d in cat.nodes ==> AlwaysPublished(m, |t0|, cat.nodes[d], v.geo.ClusterBytes())
    requires Slots(SlotsAt(v1, cat.nodes[id].SetAddrs())) && |v.trace| == |t1| + cat.nodes[id].Count()
    requires SlotsWritten(v1, v.vol, cat.nodes[id].SetAddrs(), ClearedAll(SlotsAt(v1, cat.nodes[id].SetAddrs())), cat.nodes[id].Count())
    requires SlotTrace(v1, v.trace, |t1|, cat.nodes[id].SetAddrs(), ClearedAll(SlotsAt(v1, cat.nodes[id].SetAddrs())))
    ensures Consistent(v.vol, cat', v.geo, v.bm, upcase) && Moved(v0, cat, v.vol, cat', d, id, name)
    ensures CrashSafe(v0, v.trace, |t0|, cat, v.geo.ClusterBytes(), {d, id})
    ensures id in cat'.nodes && |t0| <= |v.trace| - SetSize(name) - cat.nodes[id].Count()
    ensures AlwaysPublished(v.trace, |v.trace| - SetSize(name) - cat.nodes[id].Count(), cat'.nodes[id], v.geo.ClusterBytes())
    ensures PlacedWhere(v0, cat, cat', v.geo.Per(), d, cat'.nodes[id])
    ensures Confined(v0, v.vol, MovePrint(v0, cat, d, cat'.nodes[id], id)) && LeftUnused(v.vol, cat.nodes[id])
  {
    hide *;
    RoomSameButDir(v0, cat, mid, cat1, v.geo.Per(), v.geo.ClusterBytes(), d, n.Count(), n.cluster, n.start);
    DirsSame(cat, dir, cat1, d);
    ButDirParts(cat, cat1, d);
    PlacingIs(v0, cat, mid, cat1, v1, |t0|, m, t1, v.geo, v.bm, upcase, d, n);
    SameSetOf(cat, cat1, id);
    RenamedIs(cat.nodes[id].facts, name);
    MoveRecorded(mid, v1, v.vol, m, t1, cat1, v.geo, v.bm, upcase, id, n);
    cat' := WithNode(cat1, id, cat1.chains[id], n);
    WithNodeParts(cat1, id, cat1.chains[id], n);
    ClearTraced(v1, t1, v.trace, cat, id, v.vol);
    MoveSafe(v0, cat, mid, cat1, v1, |t0|, m, t1, v.trace, v.geo, v.bm, upcase, d, n, id);
    MoveKept(v, v0, t0, mid, m, v1, t1, cat, cat1, cat', upcase, d, n, id, name);
    OldSetStays(v0, cat, mid, cat1, v1, |t0|, m, t1, v.geo, v.bm, upcase, d, n, id);
    ClearedSet(v1, v.vol, cat.nodes[id], upcase);
    MovedHeads(v0, cat, v.geo, v.bm, upcase, id, n.facts, cat.chains[id]);
    MovedPublished(mid, v1, m, t1, v.trace, cat1, v.geo, v.bm, upcase, n, id);
    PlacedLength(mid, v1, m, t1, upcase, n);
    NamesSize(n);
    ChosenWhere(v0, cat, mid, cat1, v.geo.Per(), v.geo.ClusterBytes(), d, n, cat');
    MoveConfined(v0, cat, mid, cat1, v1, v.vol, |t0|, m, t1, v.geo, v.bm, upcase, d, n, id);
  }

  // ---- Moving a directory into itself --------------------------------------------------------------

  lemma SameSet(n0: Node, n: Node)
    requires SameEntry(n0, n)
    ensures n.SetAddrs() == n0.SetAddrs() && n.Count() == n0.Count() && n.Addr(0) == n0.Addr(0)
  {
  }

  lemma SameSetOfEntry(cat0: Cat, cat: Cat, id: nat)
    requires id in cat0.nodes && id in cat.nodes && SameEntry(cat0.nodes[id], cat.nodes[id])
    ensures cat.SetOf(id) == cat0.SetOf(id)
  {
    SameSet(cat0.nodes[id], cat.nodes[id]);
  }

  /** Room was found in the directory as it was, or the directory grew. */
  lemma RoomOrGrowth(v0: Vol, cat0: Cat, v: Vol, cat: Cat, per: nat, cb: nat, d: nat, k: nat, c: nat, s: nat)
    requires d in cat0.chains && RoomChosen(v0, cat0, v, cat, per, cb, d, k, c, s)
    ensures !NoRun(v0, cat0.chains[d], per, k) ==> v == v0 && cat == cat0
    ensures NoRun(v0, cat0.chains[d], per, k) ==> d in cat.chains && cat.chains[d] == cat0.chains[d] + [c]
  {
    hide RunAt, IndexOf;
    if i: nat :| FirstRun(v0, cat0.chains[d], per, k, i, s) && c == cat0.chains[d][i] && v == v0 && cat == cat0 {
      RunInChain(v0, cat0.chains[d], per, k, i, s);
    }
  }

  /** A move of a directory into itself is safe for everybody else, and its old entry stays published. */
  lemma SelfMoveSafe(v0: Vol, cat0: Cat, mid: Vol, cat: Cat, v1: Vol, from: nat, m: seq<Vol>, t1: seq<Vol>, t2: seq<Vol>,
                     g: Geometry, bm: BitmapLoc, upcase: seq<u16>, n: Node, id: nat)
    requires Placing(v0, cat0, mid, cat, v1, from, m, t1, g, bm, upcase, id, n)
    requires id in cat0.nodes && id in cat0.chains && t1 <= t2 && |t2| == |t1| + cat0.nodes[id].Count()
    requires Slots(SlotsAt(v1, cat0.nodes[id].SetAddrs()))
    requires SlotTrace(v1, t2, |t1|, cat0.nodes[id].SetAddrs(), ClearedAll(SlotsAt(v1, cat0.nodes[id].SetAddrs())))
    requires Through(v1, t2, |t1|, SlotsOf(cat0.SetOf(id)))
    ensures CrashSafe(v0, t2, from, cat0, g.ClusterBytes(), {id})
  {
    hide *;
    PlacingParts(v0, cat0, mid, cat, v1, from, m, t1, g, bm, upcase, id, n);
    PlacingTraced(v0, cat0, mid, cat, v1, from, m, t1, g, bm, upcase, id, n);
    NodesHaveChains(v0, cat0, g, bm, upcase);
    var a, b := PlacePrint(v0, cat0, id, n), SlotsOf(cat0.SetOf(id));
    MovePrintIs(v0, cat0, id, n, id);
    JoinContains(a, b);
    assert t2[..|t1|] == t1;
    ThroughChain(v0, t1, from, a, v1, t2, b, MovePrint(v0, cat0, id, n, id));
    forall k | k in cat0.nodes && k !in {id}
      ensures Avoids(MovePrint(v0, cat0, id, n, id), cat0, k)
    {
      PlacingAvoids(v0, cat0, mid, cat, v1, from, m, t1, g, bm, upcase, id, n, k);
      OwnSetAvoids(v0, cat0, g, bm, upcase, id, k);
      AvoidsBoth(a, b, cat0, k);
    }
    PlacingDirPublished(v0, cat0, mid, cat, v1, from, m, t1, g, bm, upcase, id, n);
    ClearPublished(v1, t1, t2, cat0.nodes[id], g.ClusterBytes());
    PublishedTwice(t1, t2, from, cat0.nodes[id], g.ClusterBytes());
    SafeRun(v0, t2, from, cat0, g, bm, upcase, {id}, MovePrint(v0, cat0, id, n, id));
  }

  /** The old set, whatever length it was last given, is cleared. */
  lemma SelfMoveCleared(v0: Vol, cat0: Cat, mid: Vol, cat: Cat, v1: Vol, v2: Vol, from: nat, m: seq<Vol>, t1: seq<Vol>,
                        g: Geometry, bm: BitmapLoc, upcase: seq<u16>, n: Node, id: nat)
    requires Placing(v0, cat0, mid, cat, v1, from, m, t1, g, bm, upcase, id, n) && id in cat0.nodes
    requires Slots(SlotsAt(v1, cat0.nodes[id].SetAddrs()))
    requires SlotsWritten(v1, v2, cat0.nodes[id].SetAddrs(), ClearedAll(SlotsAt(v1, cat0.nodes[id].SetAddrs())), cat0.nodes[id].Count())
    ensures LeftUnused(v2, cat0.nodes[id])
  {
    hide *;
    PlacingParts(v0, cat0, mid, cat, v1, from, m, t1, g, bm, upcase, id, n);
    NodesHaveChains(mid, cat, g, bm, upcase);
    ButDirParts(cat0, cat, id);
    SameSet(cat0.nodes[id], cat.nodes[id]);
    PlacingKeepsNodes(mid, v1, m, t1, upcase, n, cat, g, bm, id);
    NodeFacts(mid, cat, g, bm, upcase, id);
    KeptSet(mid, v1, cat, upcase, id);
    SetOnDiskSlots(v1, cat.nodes[id], upcase);
    ClearedSet(v1, v2, cat.nodes[id], upcase);
    SameUnused(v2, cat0.nodes[id], cat.nodes[id]);
  }

  lemma SameUnused(v: Vol, n0: Node, n: Node)
    requires n.SetAddrs() == n0.SetAddrs() && LeftUnused(v, n)
    ensures LeftUnused(v, n0)
  {
    hide Vol.Slot;
  }

  /** The new record says what the old one said before the directory grew: it lies on disk, its chain is linked,
      and its length is that of the chain without the new cluster. */
  ghost predicate Stale(v: Vol, cat: Cat, cb: nat, upcase: seq<u16>, id: nat)
    requires 0 < cb
  {
    && id in cat.nodes && id in cat.chains && cat.nodes[id].facts.Recordable()
    && SetOnDisk(v, cat.nodes[id], upcase) && IsChain(v.fat, cat.chains[id])
    && cat.nodes[id].facts.isDir && cat.nodes[id].facts.len + cb == |cat.chains[id]| * cb
  }

  lemma StaleIsBroken(v: Vol, cat: Cat, g: Geometry, bm: BitmapLoc, upcase: seq<u16>, id: nat)
    requires 0 < g.ClusterBytes() && Stale(v, cat, g.ClusterBytes(), upcase, id)
    ensures !Consistent(v, cat, g, bm, upcase)
  {
    hide ChainsOwned, SlotsOwned, SystemOk, SetOnDisk, IsChain, Geometry.ClusterBytes;
    assert !NodeOk(v, cat, g.ClusterBytes(), upcase, id);
  }

  lemma SelfMoveStale(v0: Vol, cat0: Cat, mid: Vol, cat: Cat, v1: Vol, v2: Vol, m: seq<Vol>, t1: seq<Vol>, g: Geometry, bm: BitmapLoc,
                      upcase: seq<u16>, n: Node, id: nat)
    requires Consistent(v0, cat0, g, bm, upcase) && Consistent(mid, cat, g, bm, upcase) && 0 < g.ClusterBytes()
    requires id in cat0.nodes && id in cat0.chains && id in cat.nodes && id in cat.chains && cat0.nodes[id].facts.isDir
    requires SameEntry(cat0.nodes[id], cat.nodes[id]) && n.facts == Renamed(cat0.nodes[id].facts, n.facts.name)
    requires Room(mid, cat, g.Per(), n.parent, n.Count(), n.cluster, n.start) && SetPlaced(mid, v1, m, t1, upcase, n)
    requires cat.chains[id] == cat0.chains[id] + [n.cluster]
    requires Slots(SlotsAt(v1, cat0.nodes[id].SetAddrs()))
    requires SlotsWritten(v1, v2, cat0.nodes[id].SetAddrs(), ClearedAll(SlotsAt(v1, cat0.nodes[id].SetAddrs())), cat0.nodes[id].Count())
    ensures Stale(v2, WithNode(cat, id, cat.chains[id], n), g.ClusterBytes(), upcase, id)
  {
    hide *;
    var last := WithNode(cat, id, cat.chains[id], n);
    OwnershipParts(mid, cat, g, bm, upcase);
    WithNodeParts(cat, id, cat.chains[id], n);
    PlacedOnDisk(mid, v1, m, t1, upcase, n);
    RoomIsFree(mid, cat, g, bm, upcase, n.parent, n);
    SetCount(cat0.nodes[id]);
    ClearedSlots(v1, v2, cat0.nodes[id], cat0.nodes[id].Count());
    SameSet(cat0.nodes[id], cat.nodes[id]);
    SetsDisjoint(mid, cat, g.Per(), id, n);
    SetOnDiskAfterClear(v1, v2, cat0.nodes[id], n, upcase);
    ChainLinked(mid, cat, id);
    NodeChain(v0, cat0, g, bm, upcase, id);
    RenamedIs(cat0.nodes[id].facts, n.facts.name);
    StaleLength(cat0.chains[id], cat0.nodes[id].facts, cat.chains[id], n.cluster, g.ClusterBytes());
    StaleIs(v2, last, g.ClusterBytes(), upcase, id);
  }

  lemma StaleLength(ch: seq<nat>, f: Facts, longer: seq<nat>, c: nat, cb: nat)
    requires 0 < cb && ChainSuits(ch, f, cb) && f.isDir && longer == ch + [c]
    ensures f.len + cb == |longer| * cb
  {
    BlocksEnd(|ch|, 1, cb);
  }

  lemma StaleIs(v: Vol, cat: Cat, cb: nat, upcase: seq<u16>, id: nat)
    requires 0 < cb && id in cat.nodes && id in cat.chains && cat.nodes[id].facts.Recordable()
    requires SetOnDisk(v, cat.nodes[id], upcase) && IsChain(v.fat, cat.chains[id])
    requires cat.nodes[id].facts.isDir && cat.nodes[id].facts.len + cb == |cat.chains[id]| * cb
    ensures Stale(v, cat, cb, upcase, id)
  {
    hide SetOnDisk, IsChain;
  }

  /** The bookkeeping of a directory moved into itself. */
  lemma SelfMoveDone(v: Volume, v0: Vol, t0: seq<Vol>, mid: Vol, m: seq<Vol>, v1: Vol, t1: seq<Vol>, cat: Cat, cat1: Cat,
                     upcase: seq<u16>, dir: DirHandle, n: Node, id: nat, name: Name) returns (cat': Cat)
    requires v.Valid() && t0 != [] && t0[|t0| - 1] == v0 && t0 <= m <= t1 <= v.trace && 0 < v.geo.ClusterBytes()
    requires Consistent(v0, cat, v.geo, v.bm, upcase) && Consistent(mid, cat1, v.geo, v.bm, upcase) && HandleFor(cat, dir, id)
    requires id in cat.nodes && id in cat.chains && n.parent == id && n.facts == Renamed(cat.nodes[id].facts, name)
    requires Room(mid, cat1, v.geo.Per(), id, n.Count(), n.cluster, n.start)
    requires RoomChosen(v0, cat, mid, cat1, v.geo.Per(), v.geo.ClusterBytes(), id, n.Count(), n.cluster, n.start)
    requires SetPlaced(mid, v1, m, t1, upcase, n)
    requires Through(v0, m, |t0|, DirGrowthPrint(v0, cat, id)) && Confined(v0, mid, DirGrowthPrint(v0, cat, id))
    requires AlwaysPublished(m, |t0|, cat.nodes[id], v.geo.ClusterBytes())
    requires Slots(SlotsAt(v1, cat.nodes[id].SetAddrs())) && |v.trace| == |t1| + cat.nodes[id].Count()
    requires SlotsWritten(v1, v.vol, cat.nodes[id].SetAddrs(), ClearedAll(SlotsAt(v1, cat.nodes[id].SetAddrs())), cat.nodes[id].Count())
    requires SlotTrace(v1, v.trace, |t1|, cat.nodes[id].SetAddrs(), ClearedAll(SlotsAt(v1, cat.nodes[id].SetAddrs())))
    ensures Moved(v0, cat, v.vol, cat', id, id, name)
    ensures !NoRun(v0, cat.chains[id], v.geo.Per(), n.Count()) ==> Consistent(v.vol, cat', v.geo, v.bm, upcase)
    ensures NoRun(v0, cat.chains[id], v.geo.Per(), n.Count()) ==> Stale(v.vol, cat', v.geo.ClusterBytes(), upcase, id)
    ensures CrashSafe(v0, v.trace, |t0|, cat, v.geo.ClusterBytes(), {id})
    ensures id in cat'.nodes && |t0| <= |v.trace| - SetSize(name) - cat.nodes[id].Count() && n.Count() == SetSize(name)
    ensures AlwaysPublished(v.trace, |v.trace| - SetSize(name) - cat.nodes[id].Count(), cat'.nodes[id], v.geo.ClusterBytes())
    ensures PlacedWhere(v0, cat, cat', v.geo.Per(), id, cat'.nodes[id])
    ensures Confined(v0, v.vol, MovePrint(v0, cat, id, cat'.nodes[id], id)) && LeftUnused(v.vol, cat.nodes[id])
  {
    hide *;
    RoomSameButDir(v0, cat, mid, cat1, v.geo.Per(), v.geo.ClusterBytes(), id, n.Count(), n.cluster, n.start);
    RoomOrGrowth(v0, cat, mid, cat1, v.geo.Per(), v.geo.ClusterBytes(), id, n.Count(), n.cluster, n.start);
    HandleParts(cat, dir, id);
    OwnershipParts(v0, cat, v.geo, v.bm, upcase);
    AboveSystem(cat, v.geo, v.bm, id);
    DirsSame(cat, dir, cat1, id);
    ButDirParts(cat, cat1, id);
    PlacingIs(v0, cat, mid, cat1, v1, |t0|, m, t1, v.geo, v.bm, upcase, id, n);
    SameSetOfEntry(cat, cat1, id);
    RenamedIs(cat.nodes[id].facts, name);
    cat' := WithNode(cat1, id, cat1.chains[id], n);
    WithNodeParts(cat1, id, cat1.chains[id], n);
    ClearTraced(v1, t1, v.trace, cat, id, v.vol);
    SelfMoveSafe(v0, cat, mid, cat1, v1, |t0|, m, t1, v.trace, v.geo, v.bm, upcase, n, id);
    SelfMoveCleared(v0, cat, mid, cat1, v1, v.vol, |t0|, m, t1, v.geo, v.bm, upcase, n, id);
    ChosenWhere(v0, cat, mid, cat1, v.geo.Per(), v.geo.ClusterBytes(), id, n, cat');
    GrownPrefix(v0, cat, cat', v.geo.Per(), id, n);
    MovedHeads(v0, cat, v.geo, v.bm, upcase, id, n.facts, cat1.chains[id]);
    MovedPublished(mid, v1, m, t1, v.trace, cat1, v.geo, v.bm, upcase, n, id);
    PlacedLength(mid, v1, m, t1, upcase, n);
    NamesSize(n);
    MoveConfined(v0, cat, mid, cat1, v1, v.vol, |t0|, m, t1, v.geo, v.bm, upcase, id, n, id);
    SelfMoveKept(v, v0, t0, cat, cat1, cat', v.geo, n, id, name);
    if NoRun(v0, cat.chains[id], v.geo.Per(), n.Count()) {
      SelfMoveStale(v0, cat, mid, cat1, v1, v.vol, m, t1, v.geo, v.bm, upcase, n, id);
    } else {
      MoveRecorded(mid, v1, v.vol, m, t1, cat1, v.geo, v.bm, upcase, id, n);
    }
  }

  lemma SelfMoveKept(v: Volume, v0: Vol, t0: seq<Vol>, cat: Cat, cat1: Cat, cat': Cat, g: Geometry, n: Node, id: nat, name: Name)
    requires v.Valid() && t0 != [] && t0[|t0| - 1] == v0 && t0 <= v.trace && 0 < g.ClusterBytes()
    requires SameButDir(cat, cat1, id) && cat1.spare == cat.spare && id in cat.nodes && id in cat.chains && id in cat1.chains
    requires cat.nodes[id].facts.isDir && cat.chains[id] <= cat1.chains[id]
    requires n.parent == id && n.facts == Renamed(cat.nodes[id].facts, name) && cat' == WithNode(cat1, id, cat1.chains[id], n)
    requires CrashSafe(v0, v.trace, |t0|, cat, g.ClusterBytes(), {id})
    ensures Moved(v0, cat, v.vol, cat', id, id, name)
  {
    hide *;
    ButDirParts(cat, cat1, id);
    WithNodeParts(cat1, id, cat1.chains[id], n);
    CrashSafeParts(v0, v.trace, |t0|, cat, g.ClusterBytes(), {id});
    FinalKept(v, v0, t0, cat, {id});
    SafeKeepsOthers(v0, v.vol, cat, cat', {id});
    SelfMovedIs(v0, cat, v.vol, cat', n, id, name);
  }

  lemma GrownPrefix(v0: Vol, cat0: Cat, cat: Cat, per: nat, d: nat, n: Node)
    requires PlacedWhere(v0, cat0, cat, per, d, n)
    ensures d in cat0.chains && d in cat.chains && cat0.chains[d] <= cat.chains[d]
  {
    hide NoRun, FirstRun;
  }

  lemma SelfMovedIs(v0: Vol, cat0: Cat, v: Vol, cat: Cat, n: Node, id: nat, name: Name)
    requires id in cat0.nodes && id in cat0.chains && cat.nodes.Keys == cat0.nodes.Keys && id in cat.chains
    requires cat.nodes[id] == n && n.parent == id && n.facts == Renamed(cat0.nodes[id].facts, name)
    requires cat0.nodes[id].facts.isDir && cat0.chains[id] <= cat.chains[id]
    requires cat.spare == cat0.spare && OthersKept(v0, cat0, v, cat, {id})
    ensures Moved(v0, cat0, v, cat, id, id, name)
  {
    hide FileContent, Renamed;
  }

  lemma MoveConfined(v0: Vol, cat0: Cat, mid: Vol, cat: Cat, v1: Vol, v2: Vol, from: nat, m: seq<Vol>, t1: seq<Vol>,
                     g: Geometry, bm: BitmapLoc, upcase: seq<u16>, d: nat, n: Node, id: nat)
    requires Placing(v0, cat0, mid, cat, v1, from, m, t1, g, bm, upcase, d, n)
    requires Confined(v1, v2, SlotsOf(cat0.SetOf(id)))
    ensures d in cat0.chains && Confined(v0, v2, MovePrint(v0, cat0, d, n, id))
  {
    hide *;
    PlacingTraced(v0, cat0, mid, cat, v1, from, m, t1, g, bm, upcase, d, n);
    var a, b := PlacePrint(v0, cat0, d, n), SlotsOf(cat0.SetOf(id));
    MovePrintIs(v0, cat0, d, n, id);
    JoinContains(a, b);
    ConfinedWider(v0, v1, a, a.Join(b));
    ConfinedWider(v1, v2, b, a.Join(b));
    ConfinedChain(v0, v1, v2, a.Join(b));
  }

  lemma MoveKept(v: Volume, v0: Vol, t0: seq<Vol>, mid: Vol, m: seq<Vol>, v1: Vol, t1: seq<Vol>, cat: Cat, cat1: Cat, cat': Cat,
                 upcase: seq<u16>, d: nat, n: Node, id: nat, name: Name)
    requires v.Valid() && t0 != [] && t0[|t0| - 1] == v0 && t0 <= v.trace && 0 < v.geo.ClusterBytes()
    requires Placing(v0, cat, mid, cat1, v1, |t0|, m, t1, v.geo, v.bm, upcase, d, n)
    requires id in cat.nodes && id in cat.chains && d != id && n.facts == Renamed(cat.nodes[id].facts, name)
    requires id in cat1.chains && cat' == WithNode(cat1, id, cat1.chains[id], n) && cat1.spare == cat.spare
    requires CrashSafe(v0, v.trace, |t0|, cat, v.geo.ClusterBytes(), {d, id})
    requires Slots(SlotsAt(v1, cat.nodes[id].SetAddrs()))
    requires SlotsWritten(v1, v.vol, cat.nodes[id].SetAddrs(), ClearedAll(SlotsAt(v1, cat.nodes[id].SetAddrs())), cat.nodes[id].Count())
    ensures Moved(v0, cat, v.vol, cat', d, id, name)
  {
    hide *;
    PlacingParts(v0, cat, mid, cat1, v1, |t0|, m, t1, v.geo, v.bm, upcase, d, n);
    ButDirParts(cat, cat1, d);
    WithNodeParts(cat1, id, cat1.chains[id], n);
    CrashSafeParts(v0, v.trace, |t0|, cat, v.geo.ClusterBytes(), {d, id});
    FinalKept(v, v0, t0, cat, {d, id});
    SafeKeepsOthers(v0, v.vol, cat, cat', {d, id});
    OldSetStays(v0, cat, mid, cat1, v1, |t0|, m, t1, v.geo, v.bm, upcase, d, n, id);
    MovedContent(v0, v1, v.vol, cat, v.geo, v.bm, upcase, id);
    RenamedIs(cat.nodes[id].facts, name);
    MovedIs(v0, cat, v.vol, cat', d, n, id, name);
  }

  /** Clearing the old set touches no byte of the file. */
  lemma MovedContent(v0: Vol, v1: Vol, v2: Vol, cat: Cat, g: Geometry, bm: BitmapLoc, upcase: seq<u16>, id: nat)
    requires Consistent(v0, cat, g, bm, upcase) && id in cat.nodes && id in cat.chains && NodeKept(v0, v1, cat, id)
    requires Slots(SlotsAt(v1, cat.nodes[id].SetAddrs()))
    requires SlotsWritten(v1, v2, cat.nodes[id].SetAddrs(), ClearedAll(SlotsAt(v1, cat.nodes[id].SetAddrs())), cat.nodes[id].Count())
    ensures !cat.nodes[id].facts.isDir ==>
      Content(v2, cat.chains[id], cat.nodes[id].facts.len) == Content(v0, cat.chains[id], cat.nodes[id].facts.len)
  {
    if !cat.nodes[id].facts.isDir {
      OwnershipParts(v0, cat, g, bm, upcase);
      NodeHome(v0, cat, g, bm, upcase, id);
      FileIsNoDirectory(cat, g, bm, id);
      OwnedIsInChain(cat, id);
      hide Consistent, ChainsOwned, SlotsOwned, NodesOk, SystemOk, Placed, Content, Vol.Slot, ClearedAll, Slots, SlotsAt;
      var addrs := cat.nodes[id].SetAddrs();
      assert forall i :: 0 <= i < |addrs| ==> addrs[i].cluster == cat.nodes[id].cluster;
      ContentFrame(v0, v2, cat.chains[id], cat.nodes[id].facts.len);
    }
  }

  lemma MovedIs(v0: Vol, cat0: Cat, v: Vol, cat: Cat, d: nat, n: Node, id: nat, name: Name)
    requires id in cat0.nodes && id in cat0.chains && cat.nodes.Keys == cat0.nodes.Keys && id in cat.chains
    requires cat.nodes[id] == n && n.parent == d && n.facts == Renamed(cat0.nodes[id].facts, name) && cat.chains[id] == cat0.chains[id]
    requires n.facts.len == cat0.nodes[id].facts.len
    requires !cat0.nodes[id].facts.isDir ==>
      Content(v, cat0.chains[id], cat0.nodes[id].facts.len) == Content(v0, cat0.chains[id], cat0.nodes[id].facts.len)
    requires d in cat0.nodes ==> SameEntry(cat0.nodes[d], cat.nodes[d])
    requires cat.spare == cat0.spare && OthersKept(v0, cat0, v, cat, {d, id})
    ensures Moved(v0, cat0, v, cat, d, id, name)
  {
    hide Content, OthersKept, SameEntry, Renamed;
  }

  lemma MoveMadeIs(v0: Vol, cat0: Cat, t0: seq<Vol>, v: Vol, cat: Cat, t: seq<Vol>, g: Geometry, bm: BitmapLoc,
                   upcase: seq<u16>, d: nat, id: nat, name: Name, r: Result<()>)
    requires id in cat0.nodes && 0 < g.ClusterBytes() && d in cat0.chains
    requires r.Ok? <==> !BadName(name) && !(NoRun(v0, cat0.chains[d], g.Per(), SetSize(name)) && FreeSet(v0) == {})
    requires r.Err? ==> Consistent(v, cat, g, bm, upcase) && OnlySpares(v0, cat0, v, cat)
    requires r.Err? ==> CrashSafe(v0, t, |t0|, cat0, g.ClusterBytes(), {d, id})
    requires r.Ok? ==> (Consistent(v, cat, g, bm, upcase) <==> MoveSound(v0, cat0, g.Per(), d, id, name))
    requires r.Ok? && !MoveSound(v0, cat0, g.Per(), d, id, name) ==> Stale(v, cat, g.ClusterBytes(), upcase, id)
    requires r.Ok? ==> Moved(v0, cat0, v, cat, d, id, name)
    requires r.Ok? ==> CrashSafe(v0, t, |t0|, cat0, g.ClusterBytes(), {d, id})
    requires r.Ok? ==> id in cat.nodes && |t0| <= |t| - SetSize(name) - cat0.nodes[id].Count()
    requires r.Ok? ==> AlwaysPublished(t, |t| - SetSize(name) - cat0.nodes[id].Count(), cat.nodes[id], g.ClusterBytes())
    requires r.Ok? ==> PlacedWhere(v0, cat0, cat, g.Per(), d, cat.nodes[id])
    requires r.Ok? ==> Confined(v0, v, MovePrint(v0, cat0, d, cat.nodes[id], id)) && LeftUnused(v, cat0.nodes[id])
    ensures MoveMade(v0, cat0, t0, v, cat, t, g, bm, upcase, d, id, name, r)
  {
    hide Consistent, Moved, OnlySpares, CrashSafe, AlwaysPublished, BadName, SetSize, FreeSet, NoRun, PlacedWhere, Confined, MovePrint,
         LeftUnused, MoveSound, Stale, Node.Count, Geometry.ClusterBytes, Geometry.Per;
  }

  lemma MoveMadeConsistent(v0: Vol, cat0: Cat, t0: seq<Vol>, v: Vol, cat: Cat, t: seq<Vol>, g: Geometry, bm: BitmapLoc,
                           upcase: seq<u16>, d: nat, id: nat, name: Name, r: Result<()>)
    requires id in cat0.nodes && MoveMade(v0, cat0, t0, v, cat, t, g, bm, upcase, d, id, name, r)
    ensures d in cat0.chains && (Consistent(v, cat, g, bm, upcase) <==> r.Err? || MoveSound(v0, cat0, g.Per(), d, id, name))
  {
    hide Consistent, Moved, OnlySpares, CrashSafe, AlwaysPublished, FreeSet, Confined, MovePrint, LeftUnused, PlacedWhere, NoRun,
         MoveSound, Stale, Geometry.ClusterBytes, Geometry.Per;
  }
}
