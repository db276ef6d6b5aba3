/** Finding or making room in a directory, and placing an entry set there. */
module Placements {
  import opened Alloc
  import opened Bytes
  import opened Catalogues
  import opened Directories
  import opened EntrySets
  import opened Fats
  import opened FileData
  import opened FileWrites
  import opened Footprints
  import opened Geometries
  import opened Lookups
  import opened Outcomes
  import opened SlotWrites
  import opened Steps
  import opened Volumes

  // ---- Growing a directory ---------------------------------------------------------------

  /** The facts of a directory one cluster longer. */
  function Longer(f: Facts, cb: nat): Facts { f.(len := f.len + cb) }

  /** The catalogue after directory `d` has been given the cluster `c`. */
  function GrownDir(cat: Cat, d: nat, c: nat, cb: nat): Cat
    requires d in cat.chains
  {
    if d in cat.nodes then UpdatedCat(cat, d, cat.chains[d] + [c], Longer(cat.nodes[d].facts, cb))
    else cat.SetChain(d, cat.chains[d] + [c])
  }

  /** Every slot of cluster `c` ends the directory. */
  ghost predicate Blank(v: Vol, c: nat, per: nat)
  {
    forall s: nat {:trigger SlotAddr(c, s)} :: s < per ==> v.Slot(SlotAddr(c, s)) == Zeros(SLOT)
  }

  /** Links and contents of the growth: the cluster follows the chain, it was nobody's, and no directory slot
      changed. */
  lemma LinkedBlank(v0: Vol, v1: Vol, v2: Vol, cat: Cat, d: nat, c: nat)
    requires ChainsOwned(v0, cat) && d in cat.chains && cat.chains[d] != []
    requires Extended(v0, v1, cat.chains[d][|cat.chains[d]| - 1], [c]) && OnlyData(v1, v2, {c})
    ensures ChainStep(v0, v2, cat, d, cat.chains[d] + [c])
    ensures c !in cat.own && c !in cat.spare && c in FreeSet(v0) && DirSlotsSame(v0, v2, cat, {})
  {
    ExtendStep(v0, v1, cat, d, [c]);
    assert c in Elems([c]);
    FreeIsUnowned(v0, cat, c);
    hide ChainsOwned, IsChain, FreeSet;
    ChainStepSameLinks(v0, v1, v2, cat, d, cat.chains[d] + [c]);
    DataElsewhere(v0, v2, cat, {c});
  }

  lemma BlankIsNoFile(v: Vol, c: nat, per: nat)
    requires Blank(v, c, per)
    ensures forall a: SlotAddr :: a.cluster == c && a.index < per && |v.Slot(a)| == SLOT ==> v.Slot(a)[0] != ENTRY_FILE
  {
    forall a: SlotAddr | a.cluster == c && a.index < per && |v.Slot(a)| == SLOT
      ensures v.Slot(a)[0] != ENTRY_FILE
    {
      assert a == SlotAddr(c, a.index);
    }
  }

  lemma OwnChain(cat: Cat, d: nat)
    requires Placed(cat) && d in cat.chains
    ensures forall c :: c in cat.own && cat.own[c].id == d <==> c in cat.chains[d]
  {
    OwnedIsInChain(cat, d);
  }

  lemma RootGrown(v0: Vol, v2: Vol, cat: Cat, g: Geometry, bm: BitmapLoc, upcase: seq<u16>, c: nat)
    requires Consistent(v0, cat, g, bm, upcase) && ROOT in cat.chains && c !in cat.own
    requires ChainStep(v0, v2, cat, ROOT, cat.chains[ROOT] + [c]) && DirSlotsSame(v0, v2, cat, {})
    requires Blank(v2, c, g.Per())
    ensures ROOT !in cat.nodes && Consistent(v2, GrownDir(cat, ROOT, c, g.ClusterBytes()), g, bm, upcase)
  {
    hide *;
    OwnershipParts(v0, cat, g, bm, upcase);
    RootIsNoNode(cat, g, bm);
    OwnChain(cat, ROOT);
    BlankIsNoFile(v2, c, g.Per());
    GrownRootIs(cat, c, g.ClusterBytes());
    RootGrowthKeepsConsistent(v0, v2, cat, g, bm, upcase, cat.chains[ROOT] + [c]);
  }

  lemma RootIsNoNode(cat: Cat, g: Geometry, bm: BitmapLoc)
    requires 0 < g.ClusterBytes() && SystemOk(cat, g, bm)
    ensures ROOT !in cat.nodes && cat.chains.Keys == cat.nodes.Keys + {ROOT, BITMAP, UPCASE}
  {
  }

  lemma GrownRootIs(cat: Cat, c: nat, cb: nat)
    requires ROOT in cat.chains && ROOT !in cat.nodes
    ensures GrownDir(cat, ROOT, c, cb) == cat.SetChain(ROOT, cat.chains[ROOT] + [c])
  {
    hide Cat.SetChain;
  }

  lemma LongerSuits(ch: seq<nat>, f: Facts, c: nat, cb: nat)
    requires 0 < cb <= 0x200_0000 && f.isDir && f.Recordable() && ChainSuits(ch, f, cb) && |ch| < U32
    ensures Longer(f, cb).Recordable() && ChainSuits(ch + [c], Longer(f, cb), cb)
  {
    BlocksEnd(|ch|, 1, cb);
    MulMono(|ch|, 0xFFFF_FFFF, cb);
    assert 0xFFFF_FFFF * cb + cb <= 0x1_0000_0000 * 0x200_0000;
  }

  /** A grown subdirectory fits its record. */
  lemma GrownFits(v0: Vol, v: Vol, cat: Cat, g: Geometry, bm: BitmapLoc, upcase: seq<u16>, d: nat, c: nat)
    requires Consistent(v0, cat, g, bm, upcase) && d in cat.nodes && cat.nodes[d].facts.isDir && d in cat.chains
    requires c !in cat.own && Blank(v, c, g.Per()) && 0 < g.ClusterBytes() <= 0x200_0000 && |cat.chains[d]| < U32
    ensures var f, ch := Longer(cat.nodes[d].facts, g.ClusterBytes()), cat.chains[d] + [c];
      var n := cat.nodes[d].(facts := f);
      && d > UPCASE && Recordable(cat, d, n, ch) && NodeFits(cat, g.ClusterBytes(), n, ch)
      && NoStrayFile(v, cat, g.Per(), d, n, ch) && f.Recordable()
  {
    OwnershipParts(v0, cat, g, bm, upcase);
    NodeIds(cat, g, bm, d);
    NodeChain(v0, cat, g, bm, upcase, d);
    NodeFacts(v0, cat, g, bm, upcase, d);
    BlankIsNoFile(v, c, g.Per());
    LongerSuits(cat.chains[d], cat.nodes[d].facts, c, g.ClusterBytes());
    hide Consistent, ChainsOwned, SetOnDisk, ChainSuits, SystemOk, NodesOk, Blank, Geometry.ClusterBytes;
    GrownFitsCat(v0, v, cat, g.ClusterBytes(), g.Per(), d, c);
  }

  lemma GrownFitsCat(v0: Vol, v: Vol, cat: Cat, cb: nat, per: nat, d: nat, c: nat)
    requires 0 < cb && per == cb / SLOT && Placed(cat) && SlotsOwned(v0, cat, per) && d in cat.nodes && d in cat.chains && d != ROOT
    requires cat.nodes[d].facts.isDir && c !in cat.own
    requires Longer(cat.nodes[d].facts, cb).Recordable() && cat.nodes[d].facts.flags <= 1
    requires ChainSuits(cat.chains[d] + [c], Longer(cat.nodes[d].facts, cb), cb)
    requires cat.nodes[d].start + cat.nodes[d].Count() <= per
    requires cat.InDirectory(cat.nodes[d].cluster) && cat.own[cat.nodes[d].cluster].id == cat.nodes[d].parent
    requires forall a: SlotAddr :: a.cluster == c && a.index < per && |v.Slot(a)| == SLOT ==> v.Slot(a)[0] != ENTRY_FILE
    ensures var f, ch := Longer(cat.nodes[d].facts, cb), cat.chains[d] + [c];
      var n := cat.nodes[d].(facts := f);
      Recordable(cat, d, n, ch) && NodeFits(cat, cb, n, ch) && NoStrayFile(v, cat, per, d, n, ch)
  {
    OwnedIsInChain(cat, d);
    hide Placed, ChainSuits, Vol.Slot;
    var n := cat.nodes[d].(facts := Longer(cat.nodes[d].facts, cb));
    assert n.SetAddrs() == cat.nodes[d].SetAddrs();
    assert forall j :: 0 <= j < n.Count() ==> n.Addr(j) == cat.nodes[d].Addr(j);
  }

  lemma SubdirGrown(v0: Vol, v2: Vol, v3: Vol, cat: Cat, g: Geometry, bm: BitmapLoc, upcase: seq<u16>, d: nat, c: nat)
    requires Consistent(v0, cat, g, bm, upcase) && d in cat.nodes && cat.nodes[d].facts.isDir && d in cat.chains
    requires c !in cat.own && Blank(v3, c, g.Per()) && 0 < g.ClusterBytes() <= 0x200_0000 && |cat.chains[d]| < U32
    requires ChainStep(v0, v2, cat, d, cat.chains[d] + [c]) && DirSlotsSame(v0, v2, cat, {})
    requires cat.nodes[d].facts.Recordable()
    requires var f0 := cat.nodes[d].facts; var len := f0.len + g.ClusterBytes();
      SlotsWritten(v2, v3, cat.nodes[d].SetAddrs()[..2], Rewritten(Encode(f0, upcase), f0.flags, len, f0.first, len)[..2], 2)
    ensures Consistent(v3, GrownDir(cat, d, c, g.ClusterBytes()), g, bm, upcase)
  {
    hide *;
    var ch, f := cat.chains[d] + [c], Longer(cat.nodes[d].facts, g.ClusterBytes());
    GrownFits(v0, v3, cat, g, bm, upcase, d, c);
    SetStays(v0, v2, cat, g, bm, upcase, d);
    LongerIs(cat.nodes[d].facts, g.ClusterBytes());
    PublishedUpdate(v0, v2, v2, v3, cat, upcase, d, ch, f);
    GrownSubdirIs(cat, d, c, g.ClusterBytes());
    SubdirRecorded(v0, v3, cat, g, bm, upcase, d, ch, f);
  }

  lemma SubdirRecorded(v0: Vol, v3: Vol, cat: Cat, g: Geometry, bm: BitmapLoc, upcase: seq<u16>, d: nat, ch: seq<nat>, f: Facts)
    requires Consistent(v0, cat, g, bm, upcase) && d in cat.nodes && 0 < g.ClusterBytes() && d > UPCASE
    requires f.Recordable() && f.name == cat.nodes[d].facts.name && Updated(v0, v3, cat, upcase, d, ch, f)
    requires var n := cat.nodes[d].(facts := f);
      Recordable(cat, d, n, ch) && NodeFits(cat, g.ClusterBytes(), n, ch) && NoStrayFile(v3, cat, g.Per(), d, n, ch)
    ensures Consistent(v3, UpdatedCat(cat, d, ch, f), g, bm, upcase)
  {
    hide *;
    UpdatedParts(v0, v3, cat, upcase, d, ch, f);
    RecordKeepsConsistent(v0, v3, cat, g, bm, upcase, d, cat.nodes[d].(facts := f), ch);
  }

  lemma LongerIs(f: Facts, cb: nat)
    ensures var l := Longer(f, cb);
      l.name == f.name && l.isDir == f.isDir && l.flags == f.flags && l.first == f.first && l.len == f.len + cb
  {
  }

  lemma GrownSubdirIs(cat: Cat, d: nat, c: nat, cb: nat)
    requires d in cat.chains && d in cat.nodes
    ensures GrownDir(cat, d, c, cb) == UpdatedCat(cat, d, cat.chains[d] + [c], Longer(cat.nodes[d].facts, cb))
  {
    hide UpdatedCat;
  }

  /** The entry set of a node stays while no directory slot changes. */
  lemma SetStays(v0: Vol, v: Vol, cat: Cat, g: Geometry, bm: BitmapLoc, upcase: seq<u16>, k: nat)
    requires Consistent(v0, cat, g, bm, upcase) && k in cat.nodes && DirSlotsSame(v0, v, cat, {})
    ensures cat.nodes[k].facts.Recordable() && SetOnDisk(v, cat.nodes[k], upcase)
    ensures SlotsAt(v, cat.nodes[k].SetAddrs()) == Encode(cat.nodes[k].facts, upcase)
  {
    NodeFacts(v0, cat, g, bm, upcase, k);
    SetStaysAt(v0, v, cat, upcase, cat.nodes[k]);
    SetOnDiskSlots(v, cat.nodes[k], upcase);
    hide *;
  }

  lemma SetStaysAt(v0: Vol, v: Vol, cat: Cat, upcase: seq<u16>, n: Node)
    requires n.facts.Recordable() && SetOnDisk(v0, n, upcase) && cat.InDirectory(n.cluster) && DirSlotsSame(v0, v, cat, {})
    ensures SetOnDisk(v, n, upcase)
  {
    hide Encode, Vol.Slot;
    assert forall j :: 0 <= j < n.Count() ==> n.Addr(j).cluster == n.cluster;
  }

  /** Rewriting a set in a directory leaves a cluster outside it blank. */
  lemma BlankStays(v2: Vol, v3: Vol, c: nat, per: nat, addrs: seq<SlotAddr>, slots: seq<seq<byte>>, j: nat)
    requires Blank(v2, c, per) && j <= |addrs| == |slots| && SlotsWritten(v2, v3, addrs, slots, j)
    requires forall i :: 0 <= i < |addrs| ==> addrs[i].cluster != c
    ensures Blank(v3, c, per)
  {
    hide Vol.Slot;
  }

  // ---- The device writes of a growth -------------------------------------------------------

  /** What growing `d` may touch: free clusters and their contents, the link behind the directory's last
      cluster, and the directory's own entry set. */
  function DirGrowthPrint(v0: Vol, cat: Cat, d: nat): Footprint
    requires d in cat.chains
  {
    GrowthPrint(v0, cat.chains[d]).Join(ContentsOf(FreeSet(v0))).Join(SlotsOf(cat.SetOf(d)))
  }

  lemma DirGrowthPrintIs(v0: Vol, cat: Cat, d: nat)
    requires d in cat.chains
    ensures DirGrowthPrint(v0, cat, d)
         == GrowthPrint(v0, cat.chains[d]).Join(ContentsOf(FreeSet(v0))).Join(SlotsOf(cat.SetOf(d)))
  {
  }

  lemma FreeContentsAvoid(v0: Vol, cat: Cat, k: nat)
    requires ChainsOwned(v0, cat) && k in cat.nodes && k in cat.chains && cat.nodes[k].cluster in cat.own
    ensures Avoids(ContentsOf(FreeSet(v0)), cat, k)
  {
    OwnedIsInChain(cat, k);
    forall c | c in FreeSet(v0)
      ensures c !in cat.own
    {
      FreeIsUnowned(v0, cat, c);
    }
  }

  /** Growing one directory leaves every other node alone, at every step. */
  lemma DirGrowthAvoids(v0: Vol, cat: Cat, g: Geometry, bm: BitmapLoc, upcase: seq<u16>, d: nat, k: nat)
    requires Consistent(v0, cat, g, bm, upcase) && d in cat.chains && k in cat.nodes && k in cat.chains && k != d
    ensures Avoids(DirGrowthPrint(v0, cat, d), cat, k)
  {
    hide *;
    OwnershipParts(v0, cat, g, bm, upcase);
    NodeHome(v0, cat, g, bm, upcase, k);
    GrowthAvoids(v0, cat, d, k);
    FreeContentsAvoid(v0, cat, k);
    OwnSetAvoids(v0, cat, g, bm, upcase, d, k);
    DirGrowthPrintIs(v0, cat, d);
    AvoidsBoth(GrowthPrint(v0, cat.chains[d]), ContentsOf(FreeSet(v0)), cat, k);
    AvoidsBoth(GrowthPrint(v0, cat.chains[d]).Join(ContentsOf(FreeSet(v0))), SlotsOf(cat.SetOf(d)), cat, k);
  }

  lemma NodeHome(v0: Vol, cat: Cat, g: Geometry, bm: BitmapLoc, upcase: seq<u16>, k: nat)
    requires Consistent(v0, cat, g, bm, upcase) && k in cat.nodes
    ensures cat.nodes[k].cluster in cat.own && cat.InDirectory(cat.nodes[k].cluster)
    ensures cat.own[cat.nodes[k].cluster].id == cat.nodes[k].parent
  {
    NodeFacts(v0, cat, g, bm, upcase, k);
    hide Consistent, SetOnDisk;
  }

  lemma OwnSetAvoids(v0: Vol, cat: Cat, g: Geometry, bm: BitmapLoc, upcase: seq<u16>, d: nat, k: nat)
    requires Consistent(v0, cat, g, bm, upcase) && k in cat.nodes && k in cat.chains && k != d
    ensures Avoids(SlotsOf(cat.SetOf(d)), cat, k)
  {
    if d in cat.nodes {
      NodeIds(cat, g, bm, k);
      NodeHome(v0, cat, g, bm, upcase, d);
      OwnershipParts(v0, cat, g, bm, upcase);
      hide *;
      SetAvoids(v0, cat, g.Per(), d, k);
    }
  }

  lemma BlankTraced(v0: Vol, v1: Vol, v2: Vol, t1: seq<Vol>, t2: seq<Vol>, from: nat, grow: Footprint, c: nat)
    requires from <= |t1| && Through(v0, t1, from, grow) && Confined(v0, v1, grow)
    requires t2 == t1 + [v2] && OnlyData(v1, v2, {c}) && c in FreeSet(v0)
    ensures Through(v0, t2, from, grow.Join(ContentsOf(FreeSet(v0))))
    ensures Confined(v0, v2, grow.Join(ContentsOf(FreeSet(v0))))
  {
    var fill, both := ContentsOf({c}), grow.Join(ContentsOf(FreeSet(v0)));
    OnlyDataConfined(v1, v2, {c});
    hide Confined, OnlyData, FreeSet;
    assert fill.Within(both) && grow.Within(both);
    ConfinedWider(v0, v1, grow, both);
    ConfinedWider(v1, v2, fill, both);
    ConfinedChain(v0, v1, v2, both);
    assert t2[..|t1|] == t1;
    assert Through(v1, t2, |t1|, fill);
    ThroughChain(v0, t1, from, grow, v1, t2, fill, both);
  }

  /** Rewriting a set after a run that stayed inside `f`. */
  lemma RewriteConfinedTo(v0: Vol, v2: Vol, t2: seq<Vol>, t3: seq<Vol>, from: nat, f: Footprint, n: Node, next: seq<seq<byte>>,
                          all: set<SlotAddr>)
    requires |next| >= 2 && Elems(n.SetAddrs()) <= all
    requires from <= |t2| && t2 <= t3 && |t3| == |t2| + 2
    requires Through(v0, t2, from, f) && Confined(v0, v2, f)
    requires SlotsWritten(v2, t3[|t2|], n.SetAddrs()[..2], next[..2], 1)
    requires SlotsWritten(v2, t3[|t2| + 1], n.SetAddrs()[..2], next[..2], 2)
    ensures Through(v0, t3, from, f.Join(SlotsOf(all))) && Confined(v0, t3[|t2| + 1], f.Join(SlotsOf(all)))
  {
    hide Confined, SlotsWritten;
    var two, both := n.SetAddrs()[..2], f.Join(SlotsOf(all));
    var s := SlotsOf(Elems(two));
    SlotsWrittenConfined(v2, t3[|t2|], two, next[..2], 1);
    SlotsWrittenConfined(v2, t3[|t2| + 1], two, next[..2], 2);
    assert Through(v2, t3, |t2|, s);
    assert Elems(two) <= all;
    assert s.Within(both);
    ConfinedWider(v0, v2, f, both);
    ConfinedWider(v2, t3[|t2| + 1], s, both);
    ConfinedChain(v0, v2, t3[|t2| + 1], both);
    ThroughChain(v0, t2, from, f, v2, t3, s, both);
  }

  /** Up to the rewrite the growth spares the directory's entry. */
  lemma DirGrowthSpares(v0: Vol, cat: Cat, g: Geometry, bm: BitmapLoc, upcase: seq<u16>, d: nat)
    requires Consistent(v0, cat, g, bm, upcase) && d in cat.nodes && d in cat.chains
    ensures SparesEntry(GrowthPrint(v0, cat.chains[d]).Join(ContentsOf(FreeSet(v0))), cat, d)
  {
    NodeHome(v0, cat, g, bm, upcase, d);
    OwnershipParts(v0, cat, g, bm, upcase);
    NodeHeld(v0, cat, d);
    ChainLinked(v0, cat, d);
    ChainDistinct(v0.fat, cat.chains[d]);
    HomeNotFree(v0, cat, cat.nodes[d].cluster);
    hide Consistent, SlotsOwned, NodesOk, SystemOk, ChainsOwned, Placed, IsChain;
    var ch := cat.chains[d];
    assert forall i :: 0 <= i < |ch| ==> ch[i] !in FreeSet(v0);
  }

  lemma HomeNotFree(v0: Vol, cat: Cat, c: nat)
    requires ChainsOwned(v0, cat) && c in cat.own
    ensures c !in FreeSet(v0)
  {
    if c in FreeSet(v0) {
      FreeIsUnowned(v0, cat, c);
    }
  }

  /** The grown directory's entry is published at every step of the growth. */
  lemma DirGrowthPublished(v0: Vol, v1: Vol, v2: Vol, t2: seq<Vol>, t3: seq<Vol>, from: nat, cat: Cat, g: Geometry,
                           bm: BitmapLoc, upcase: seq<u16>, d: nat, c: nat)
    requires Consistent(v0, cat, g, bm, upcase) && d in cat.nodes && d in cat.chains && cat.nodes[d].facts.isDir
    requires 0 < g.ClusterBytes() <= 0x200_0000 && |cat.chains[d]| < U32 && cat.nodes[d].facts.Recordable()
    requires ChainStep(v0, v2, cat, d, cat.chains[d] + [c]) && DirSlotsSame(v0, v2, cat, {})
    requires from <= |t2| && t2 <= t3 && |t3| == |t2| + 2
    requires Through(v0, t2, from, GrowthPrint(v0, cat.chains[d]).Join(ContentsOf(FreeSet(v0))))
    requires var f0 := cat.nodes[d].facts; var len := f0.len + g.ClusterBytes();
      var next := Rewritten(Encode(f0, upcase), f0.flags, len, f0.first, len);
      && SlotsWritten(v2, t3[|t2|], cat.nodes[d].SetAddrs()[..2], next[..2], 1)
      && SlotsWritten(v2, t3[|t2| + 1], cat.nodes[d].SetAddrs()[..2], next[..2], 2)
    ensures AlwaysPublished(t3, from, cat.nodes[d], g.ClusterBytes())
  {
    hide *;
    var n, cb, ch, old_ := cat.nodes[d], g.ClusterBytes(), cat.chains[d] + [c], cat.chains[d];
    DirGrowthSpares(v0, cat, g, bm, upcase, d);
    SparedThroughout(v0, t2, from, cat, g, bm, upcase, d, GrowthPrint(v0, old_).Join(ContentsOf(FreeSet(v0))));
    SetStays(v0, v2, cat, g, bm, upcase, d);
    NodeChain(v0, cat, g, bm, upcase, d);
    SuitedLength(old_, n.facts, cb);
    DirChainNonempty(old_, n.facts, cb);
    LongerSuits(old_, n.facts, c, cb);
    LongerIs(n.facts, cb);
    SuitedLength(ch, Longer(n.facts, cb), cb);
    StepHeld(v0, v2, cat, d, ch, c);
    RewritePublished(v2, t3[|t2|], t3[|t2| + 1], n, Longer(n.facts, cb), upcase, cb, old_, ch);
    PublishedLonger(t2, t3, from, n, cb);
  }

  lemma DirChainNonempty(ch: seq<nat>, f: Facts, cb: nat)
    requires 0 < cb && f.isDir && ChainSuits(ch, f, cb)
    ensures ch != [] && f.first == ch[0]
  {
  }

  lemma StepHeld(v0: Vol, v2: Vol, cat: Cat, d: nat, ch: seq<nat>, c: nat)
    requires d in cat.chains && ChainsOwned(v0, cat) && ch == cat.chains[d] + [c] && ChainStep(v0, v2, cat, d, ch)
    ensures RunHeld(v2, ch) && RunHeld(v2, cat.chains[d])
    ensures ch[0] == if cat.chains[d] == [] then c else cat.chains[d][0]
  {
    assert forall i :: 0 <= i < |cat.chains[d]| ==> cat.chains[d][i] == ch[i];
    assert forall i :: 0 <= i < |ch| ==> ch[i] in ch;
  }

  // ---- Room for an entry set ---------------------------------------------------------------

  /** Give directory `d` one more cluster: link it, zero it and, unless `d` is the root, record the new length
      in the directory's own entry. It succeeds exactly when a cluster is free. */
  method GrowDirectory(v: Volume, upcase: seq<u16>, dir: DirHandle, chain: seq<nat>, ghost cat: Cat, ghost d: nat)
    returns (r: Result<nat>, ghost cat': Cat)
    requires v.Valid() && Consistent(v.vol, cat, v.geo, v.bm, upcase)
    requires HandleFor(cat, dir, d) && chain == cat.chains[d]
    modifies v, v.disk
    ensures v.Valid() && old(v.trace) <= v.trace && 0 < v.geo.ClusterBytes() && d in cat.chains
    ensures r.Ok? <==> FreeSet(old(v.vol)) != {}
    ensures Consistent(v.vol, cat', v.geo, v.bm, upcase)
    ensures r.Ok? ==> cat' == GrownDir(cat, d, r.value, v.geo.ClusterBytes()) && Blank(v.vol, r.value, v.geo.Per())
    ensures r.Ok? ==> r.value in FreeSet(old(v.vol)) && r.value !in cat.own
    ensures r.Ok? ==> Confined(old(v.vol), v.vol, DirGrowthPrint(old(v.vol), cat, d))
    ensures r.Err? ==> Marked(old(v.vol), v.vol, FreeSet(old(v.vol))) && cat' == cat.(spare := cat.spare + FreeSet(old(v.vol)))
    ensures Through(old(v.vol), v.trace, |old(v.trace)|, DirGrowthPrint(old(v.vol), cat, d))
    ensures d in cat.nodes ==> AlwaysPublished(v.trace, |old(v.trace)|, cat.nodes[d], v.geo.ClusterBytes())
  {
    hide *;
    ghost var v0, t0 := v.vol, |v.trace|;
    OwnershipParts(v.vol, cat, v.geo, v.bm, upcase);
    HandleParts(cat, dir, d);
    TailReady(v, cat, d);
    if d in cat.nodes {
      NodeSlotsReady(v, cat, upcase, d);
    }
    cat' := cat;
    var added := ExtendChain(v, chain[|chain| - 1], 1);
    ExtendingPrint(v0, cat, d);
    if added.Err? {
      OutOfSpace(v0, v.vol, cat, v.geo, v.bm, upcase);
      EmptyIsNone(FreeSet(v0));
      FailedGrowth(v0, v.trace, t0, cat, v.geo, v.bm, upcase, d);
      cat' := cat.(spare := cat.spare + FreeSet(v0));
      return Err(added.error), cat';
    }
    var c := added.value[0];
    ghost var v1, t1 := v.vol, v.trace;
    OneCluster(added.value, c);
    ExtendedConfined(v0, v1, chain[|chain| - 1], [c]);
    EmptyIsNone(FreeSet(v0));
    FreshReady(v, v0, cat, upcase, chain[|chain| - 1], c);
    ZeroCluster(v, c);
    ghost var v2, t2 := v.vol, v.trace;
    BlankIs(v2, c, v.geo.Per());
    LinkedBlank(v0, v1, v2, cat, d, c);
    BlankTraced(v0, v1, v2, t1, t2, t0, GrowthPrint(v0, chain), c);
    if dir.entry.Some? {
      RecordGrowth(v, upcase, dir.entry.value, v0, t0, cat, d, c);
    } else {
      RootGrown(v0, v2, cat, v.geo, v.bm, upcase, c);
      NoEntryGrowth(v0, v2, v.trace, t0, cat, d);
    }
    cat' := GrownDir(cat, d, c, v.geo.ClusterBytes());
    return Ok(c), cat';
  }

  /** The second half of growing a subdirectory: record the new length. */
  method RecordGrowth(v: Volume, upcase: seq<u16>, entry: EntryLoc, ghost v0: Vol, ghost t0: nat, ghost cat: Cat, ghost d: nat, ghost c: nat)
    requires v.Valid() && Consistent(v0, cat, v.geo, v.bm, upcase) && 0 < v.geo.ClusterBytes()
    requires d in cat.nodes && d in cat.chains && cat.nodes[d].facts.isDir && entry == LocOfNode(cat.nodes[d])
    requires DirAddrs(v, cat.nodes[d].SetAddrs()) && Distinct(cat.nodes[d].SetAddrs())
    requires |cat.chains[d]| < U32 && c !in cat.own && Blank(v.vol, c, v.geo.Per())
    requires ChainStep(v0, v.vol, cat, d, cat.chains[d] + [c]) && DirSlotsSame(v0, v.vol, cat, {})
    requires t0 <= |v.trace|
    requires Through(v0, v.trace, t0, GrowthPrint(v0, cat.chains[d]).Join(ContentsOf(FreeSet(v0))))
    requires Confined(v0, v.vol, GrowthPrint(v0, cat.chains[d]).Join(ContentsOf(FreeSet(v0))))
    modifies v, v.disk
    ensures v.Valid() && old(v.trace) <= v.trace
    ensures Consistent(v.vol, GrownDir(cat, d, c, v.geo.ClusterBytes()), v.geo, v.bm, upcase)
    ensures Blank(v.vol, c, v.geo.Per())
    ensures Confined(v0, v.vol, DirGrowthPrint(v0, cat, d)) && Through(v0, v.trace, t0, DirGrowthPrint(v0, cat, d))
    ensures AlwaysPublished(v.trace, t0, cat.nodes[d], v.geo.ClusterBytes())
  {
    hide *;
    ghost var v2, t2, n, f := v.vol, v.trace, cat.nodes[d], GrowthPrint(v0, cat.chains[d]).Join(ContentsOf(FreeSet(v0)));
    v.Sizes();
    ClusterBound(v);
    SetStays(v0, v2, cat, v.geo, v.bm, upcase, d);
    EntryOfNode(n, entry);
    var newLen := entry.dataLen + v.geo.ClusterBytes();
    RewriteStream(v, entry, entry.firstCluster, newLen, newLen, entry.flags);
    ghost var next := Rewritten(Encode(n.facts, upcase), n.facts.flags, newLen, n.facts.first, newLen);
    NodeHome(v0, cat, v.geo, v.bm, upcase, d);
    FirstTwoHome(n, c);
    BlankStays(v2, v.vol, c, v.geo.Per(), n.SetAddrs()[..2], next[..2], 2);
    SubdirGrown(v0, v2, v.vol, cat, v.geo, v.bm, upcase, d, c);
    SetOfIs(cat, d);
    RewriteConfinedTo(v0, v2, t2, v.trace, t0, f, n, next, cat.SetOf(d));
    DirGrowthPrintIs(v0, cat, d);
    DirGrowthPublished(v0, v2, v2, t2, v.trace, t0, cat, v.geo, v.bm, upcase, d, c);
  }

  lemma HandleParts(cat: Cat, dir: DirHandle, d: nat)
    requires HandleFor(cat, dir, d)
    ensures cat.IsDir(d) && d in cat.chains && cat.chains[d] != [] && dir.firstCluster == cat.chains[d][0]
    ensures dir.entry.None? <==> d == ROOT
    ensures d != ROOT ==> d in cat.nodes && cat.nodes[d].facts.isDir && dir.entry == Some(LocOfNode(cat.nodes[d]))
  {
  }

  /** What the growth relies on of the chain's last cluster, and of its length. */
  lemma TailReady(v: Volume, cat: Cat, d: nat)
    requires v.Valid() && ChainsOwned(v.vol, cat) && d in cat.chains && cat.chains[d] != []
    ensures var t := cat.chains[d][|cat.chains[d]| - 1]; v.geo.InRange(t) && t < |v.vol.bits| && v.vol.bits[t]
    ensures |cat.chains[d]| < U32
  {
    v.Sizes();
    TailOwned(v.vol, cat, d);
    ChainLinked(v.vol, cat, d);
    ChainDistinct(v.vol.fat, cat.chains[d]);
    hide Volume.Valid, ChainsOwned, Geometry.ClusterBytes;
  }

  /** The footprint of an extension is that of a growth. */
  lemma ExtendingPrint(v0: Vol, cat: Cat, d: nat)
    requires d in cat.chains && cat.chains[d] != []
    ensures GrowthPrint(v0, cat.chains[d])
         == Footprint(FreeSet(v0) + {cat.chains[d][|cat.chains[d]| - 1]}, FreeSet(v0), {}, {})
  {
  }

  lemma EmptyIsNone(s: set<nat>)
    ensures 1 <= |s| <==> s != {}
  {
    if s != {} {
      var x :| x in s;
      assert {x} <= s;
      CardinalityMono({x}, s);
    }
  }

  lemma OneCluster(added: seq<nat>, c: nat)
    requires |added| == 1 && c == added[0]
    ensures added == [c]
  {
  }

  /** A freshly linked cluster may be zeroed as a directory's. */
  lemma FreshReady(v: Volume, v0: Vol, cat: Cat, upcase: seq<u16>, tail: nat, c: nat)
    requires v.Valid() && Consistent(v0, cat, v.geo, v.bm, upcase)
    requires Extended(v0, v.vol, tail, [c])
    ensures 0 < v.geo.ClusterBytes() && v.geo.InRange(c) && !v.geo.InBitmapRun(v.bm, c) && c in FreeSet(v0)
  {
    v.Sizes();
    OwnershipParts(v0, cat, v.geo, v.bm, upcase);
    assert c in Elems([c]);
    FreeIsUnowned(v0, cat, c);
    BitmapOwned(cat, v.geo, v.bm, c);
    hide Volume.Valid, Consistent, ChainsOwned, Geometry.ClusterBytes, Geometry.InBitmapRun;
  }

  lemma BlankIs(v: Vol, c: nat, per: nat)
    requires forall s :: 0 <= s < per ==> v.Slot(SlotAddr(c, s)) == Zeros(SLOT)
    ensures Blank(v, c, per)
  {
    hide Vol.Slot;
  }

  lemma ClusterBound(v: Volume)
    requires v.Valid()
    ensures v.geo.ClusterBytes() <= 0x200_0000
  {
  }

  lemma EntryOfNode(n: Node, entry: EntryLoc)
    requires entry == LocOfNode(n)
    ensures entry.offsets == n.SetAddrs() && 2 <= |entry.offsets| && entry.firstCluster == n.facts.first
    ensures entry.dataLen == n.facts.len && entry.isDir == n.facts.isDir && entry.flags == n.facts.flags
  {
  }

  lemma FirstTwoHome(n: Node, c: nat)
    requires n.cluster != c
    ensures 2 <= |n.SetAddrs()| && forall i :: 0 <= i < 2 ==> n.SetAddrs()[..2][i].cluster != c
  {
  }

  lemma SetOfIs(cat: Cat, d: nat)
    requires d in cat.nodes
    ensures cat.SetOf(d) == Elems(cat.nodes[d].SetAddrs())
  {
  }

  lemma NoEntryGrowth(v0: Vol, v2: Vol, t: seq<Vol>, from: nat, cat: Cat, d: nat)
    requires d in cat.chains
    requires Through(v0, t, from, GrowthPrint(v0, cat.chains[d]).Join(ContentsOf(FreeSet(v0))))
    requires Confined(v0, v2, GrowthPrint(v0, cat.chains[d]).Join(ContentsOf(FreeSet(v0))))
    ensures Through(v0, t, from, DirGrowthPrint(v0, cat, d)) && Confined(v0, v2, DirGrowthPrint(v0, cat, d))
  {
    hide *;
    var f := GrowthPrint(v0, cat.chains[d]).Join(ContentsOf(FreeSet(v0)));
    DirGrowthPrintIs(v0, cat, d);
    JoinContains(f, SlotsOf(cat.SetOf(d)));
    ThroughWider(v0, t, from, f, DirGrowthPrint(v0, cat, d));
    ConfinedWider(v0, v2, f, DirGrowthPrint(v0, cat, d));
  }

  /** A growth that found no cluster touched no more than a growth, and left the entry alone. */
  lemma FailedGrowth(v0: Vol, t: seq<Vol>, from: nat, cat: Cat, g: Geometry, bm: BitmapLoc, upcase: seq<u16>, d: nat)
    requires Consistent(v0, cat, g, bm, upcase) && d in cat.chains && 0 < g.ClusterBytes()
    requires Through(v0, t, from, GrowthPrint(v0, cat.chains[d]))
    ensures Through(v0, t, from, DirGrowthPrint(v0, cat, d))
    ensures d in cat.nodes ==> AlwaysPublished(t, from, cat.nodes[d], g.ClusterBytes())
  {
    hide *;
    var grow := GrowthPrint(v0, cat.chains[d]);
    var f := grow.Join(ContentsOf(FreeSet(v0)));
    JoinContains(grow, ContentsOf(FreeSet(v0)));
    ThroughWider(v0, t, from, grow, f);
    DirGrowthPrintIs(v0, cat, d);
    JoinContains(f, SlotsOf(cat.SetOf(d)));
    ThroughWider(v0, t, from, f, DirGrowthPrint(v0, cat, d));
    if d in cat.nodes {
      DirGrowthSpares(v0, cat, g, bm, upcase, d);
      SparedThroughout(v0, t, from, cat, g, bm, upcase, d, f);
    }
  }

  /** `k` consecutive usable slots of directory `d`, inside one of its clusters. */
  ghost predicate Room(v: Vol, cat: Cat, per: nat, d: nat, k: nat, c: nat, s: nat)
  {
    c in cat.own && cat.own[c].id == d && RunAt(v, c, per, k, s)
  }

  /** Where the room came from: the first run of the directory as it was, or, when it had none, the head of a
      new cluster. */
  ghost predicate RoomChosen(v0: Vol, cat0: Cat, v: Vol, cat: Cat, per: nat, cb: nat, d: nat, k: nat, c: nat, s: nat)
    requires d in cat0.chains
  {
    || (v == v0 && cat == cat0 && exists i: nat :: FirstRun(v0, cat0.chains[d], per, k, i, s) && c == cat0.chains[d][i])
    || (NoRun(v0, cat0.chains[d], per, k) && cat == GrownDir(cat0, d, c, cb) && s == 0)
  }

  /** Find room for `k` slots inside one cluster of directory `d`, or make it by growing the directory. */
  method FindOrMakeSlotRun(v: Volume, upcase: seq<u16>, dir: DirHandle, k: nat, ghost cat: Cat, ghost d: nat)
    returns (r: Result<seq<SlotAddr>>, ghost cat': Cat, ghost c: nat, ghost s: nat)
    requires v.Valid() && Consistent(v.vol, cat, v.geo, v.bm, upcase) && HandleFor(cat, dir, d)
    requires 0 < k <= v.geo.Per()
    modifies v, v.disk
    ensures v.Valid() && old(v.trace) <= v.trace && 0 < v.geo.ClusterBytes() && d in cat.chains
    ensures Consistent(v.vol, cat', v.geo, v.bm, upcase)
    ensures r.Ok? ==> r.value == SlotRun(c, s, k) && Room(v.vol, cat', v.geo.Per(), d, k, c, s)
    ensures r.Ok? ==> RoomChosen(old(v.vol), cat, v.vol, cat', v.geo.Per(), v.geo.ClusterBytes(), d, k, c, s)
    ensures r.Err? <==> NoRun(old(v.vol), cat.chains[d], v.geo.Per(), k) && FreeSet(old(v.vol)) == {}
    ensures r.Err? ==> Marked(old(v.vol), v.vol, FreeSet(old(v.vol))) && cat' == cat.(spare := cat.spare + FreeSet(old(v.vol)))
    ensures Confined(old(v.vol), v.vol, DirGrowthPrint(old(v.vol), cat, d))
    ensures Through(old(v.vol), v.trace, |old(v.trace)|, DirGrowthPrint(old(v.vol), cat, d))
    ensures d in cat.nodes ==> AlwaysPublished(v.trace, |old(v.trace)|, cat.nodes[d], v.geo.ClusterBytes())
  {
    hide *;
    cat', c, s := cat, 0, 0;
    ghost var v0 := v.vol;
    HandleParts(cat, dir, d);
    OwnershipParts(v.vol, cat, v.geo, v.bm, upcase);
    DirReady(v, cat, upcase, d);
    OwnerClustersOfDir(v, cat, upcase, d);
    ConfinedNothing(v0, DirGrowthPrint(v0, cat, d));
    ThroughNothing(v0, v.trace, DirGrowthPrint(v0, cat, d));
    NothingPublished(v.trace, cat, d, v.geo.ClusterBytes());
    var slots := DirSlots(v, dir.firstCluster);
    var chain := slots.value.0;
    var run := FindSlotRun(v, chain, k);
    if run.value.Some? {
      RunInChain(v0, chain, v.geo.Per(), k, run.value.value.0, run.value.value.1);
      c, s := chain[run.value.value.0], run.value.value.1;
      FoundRoom(v0, cat, v.geo.Per(), v.geo.ClusterBytes(), d, k, run.value.value.0, s);
      return Ok(SlotRun(chain[run.value.value.0], run.value.value.1, k)), cat', c, s;
    }
    var grown;
    grown, cat' := GrowDirectory(v, upcase, dir, chain, cat, d);
    if grown.Err? {
      MarkedPrint(v0, v.vol, cat, d);
      return Err(grown.error), cat', c, s;
    }
    c := grown.value;
    MadeRoom(v0, v.vol, cat, v.geo.Per(), v.geo.ClusterBytes(), d, k, c);
    return Ok(SlotRun(grown.value, 0, k)), cat', c, s;
  }

  lemma OwnerClustersOfDir(v: Volume, cat: Cat, upcase: seq<u16>, d: nat)
    requires v.Valid() && Consistent(v.vol, cat, v.geo, v.bm, upcase) && cat.IsDir(d)
    ensures 0 < v.geo.ClusterBytes() && d in cat.chains && DirClusters(v, cat.chains[d])
    ensures forall i :: 0 <= i < |cat.chains[d]| ==> cat.chains[d][i] in cat.own && cat.own[cat.chains[d][i]].id == d
  {
    DirChainKnown(v, cat, upcase, d);
    OwnershipParts(v.vol, cat, v.geo, v.bm, upcase);
    OwnedIsInChain(cat, d);
    hide Volume.Valid, Consistent, Placed, DirClusters;
    OwnerClusters(v, cat, upcase, d);
  }

  lemma NothingPublished(t: seq<Vol>, cat: Cat, d: nat, cb: nat)
    requires 0 < cb
    ensures d in cat.nodes ==> AlwaysPublished(t, |t|, cat.nodes[d], cb)
  {
  }

  lemma RunInChain(v: Vol, ch: seq<nat>, per: nat, k: nat, i: nat, s: nat)
    requires FirstRun(v, ch, per, k, i, s)
    ensures i < |ch| && !NoRun(v, ch, per, k)
  {
    hide RunAt;
  }

  lemma FoundRoom(v: Vol, cat: Cat, per: nat, cb: nat, d: nat, k: nat, i: nat, s: nat)
    requires d in cat.chains && FirstRun(v, cat.chains[d], per, k, i, s)
    requires forall i :: 0 <= i < |cat.chains[d]| ==> cat.chains[d][i] in cat.own && cat.own[cat.chains[d][i]].id == d
    ensures Room(v, cat, per, d, k, cat.chains[d][i], s)
    ensures RoomChosen(v, cat, v, cat, per, cb, d, k, cat.chains[d][i], s)
  {
    hide RunAt, NoRun;
  }

  lemma GrownDirOwns(cat: Cat, d: nat, c: nat, cb: nat)
    requires d in cat.chains
    ensures c in GrownDir(cat, d, c, cb).own && GrownDir(cat, d, c, cb).own[c].id == d
  {
    hide IndexOf;
    assert c in cat.chains[d] + [c];
    assert c in Elems(cat.chains[d] + [c]);
  }

  lemma MadeRoom(v0: Vol, v: Vol, cat: Cat, per: nat, cb: nat, d: nat, k: nat, c: nat)
    requires d in cat.chains && Blank(v, c, per) && k <= per && NoRun(v0, cat.chains[d], per, k)
    ensures Room(v, GrownDir(cat, d, c, cb), per, d, k, c, 0)
    ensures RoomChosen(v0, cat, v, GrownDir(cat, d, c, cb), per, cb, d, k, c, 0)
  {
    hide GrownDir, NoRun, Vol.Slot;
    GrownDirOwns(cat, d, c, cb);
    assert RunAt(v, c, per, k, 0);
  }

  lemma MarkedPrint(v0: Vol, v: Vol, cat: Cat, d: nat)
    requires d in cat.chains && Marked(v0, v, FreeSet(v0))
    ensures Confined(v0, v, DirGrowthPrint(v0, cat, d))
  {
    var f := ClustersOf(FreeSet(v0));
    assert Confined(v0, v, f);
    hide Confined, FreeSet;
    ConfinedWider(v0, v, f, DirGrowthPrint(v0, cat, d));
  }

  // ---- Placing a set -----------------------------------------------------------------------

  predicate BadName(name: Name) { name == [] || |name| > 255 }

  /** The entry set of `n` has been written, slot by slot, into room found in `mid`; `m` is the trace up to
      there. */
  ghost predicate SetPlaced(mid: Vol, v: Vol, m: seq<Vol>, t: seq<Vol>, upcase: seq<u16>, n: Node)
  {
    && n.facts.Recordable() && m <= t && |t| == |m| + n.Count()
    && SlotsWritten(mid, v, n.SetAddrs(), Encode(n.facts, upcase), n.Count())
    && SlotTrace(mid, t, |m|, n.SetAddrs(), Encode(n.facts, upcase))
  }

  /** Write the entry set of `f` into directory `d`. No cluster is allocated for what the set points at. `mid`,
      `cat'` and `m` are the volume, the catalogue and the trace once there is room, before the set is written. */
  method PlaceEntrySet(v: Volume, upcase: seq<u16>, dir: DirHandle, f: Facts, ghost cat: Cat, ghost d: nat)
    returns (r: Result<()>, ghost cat': Cat, ghost n: Node, ghost mid: Vol, ghost m: seq<Vol>)
    requires v.Valid() && Consistent(v.vol, cat, v.geo, v.bm, upcase) && HandleFor(cat, dir, d)
    requires f.first < 0x1_0000_0000 && f.len < 0x1_0000_0000_0000_0000 && 19 <= v.geo.Per()
    modifies v, v.disk
    ensures v.Valid() && old(v.trace) <= m <= v.trace && 0 < v.geo.ClusterBytes() && d in cat.chains
    ensures Consistent(mid, cat', v.geo, v.bm, upcase)
    ensures r.Err? ==> mid == v.vol && m == v.trace
    ensures BadName(f.name) ==>
      r == Err(Invalid("bad name length")) && v.vol == old(v.vol) && cat' == cat && v.trace == old(v.trace)
    ensures r.Err? <==>
      (BadName(f.name) || (NoRun(old(v.vol), cat.chains[d], v.geo.Per(), SetSize(f.name)) && FreeSet(old(v.vol)) == {}))
    ensures !BadName(f.name) && r.Err? ==>
      && Marked(old(v.vol), v.vol, FreeSet(old(v.vol))) && cat' == cat.(spare := cat.spare + FreeSet(old(v.vol)))
    ensures r.Ok? ==> n.facts == f && n.parent == d && Room(mid, cat', v.geo.Per(), d, n.Count(), n.cluster, n.start)
    ensures r.Ok? ==> RoomChosen(old(v.vol), cat, mid, cat', v.geo.Per(), v.geo.ClusterBytes(), d, n.Count(), n.cluster, n.start)
    ensures r.Ok? ==> SetPlaced(mid, v.vol, m, v.trace, upcase, n)
    ensures Confined(old(v.vol), mid, DirGrowthPrint(old(v.vol), cat, d))
    ensures Through(old(v.vol), m, |old(v.trace)|, DirGrowthPrint(old(v.vol), cat, d))
    ensures d in cat.nodes ==> AlwaysPublished(m, |old(v.trace)|, cat.nodes[d], v.geo.ClusterBytes())
  {
    hide *;
    ghost var v0 := v.vol;
    cat', mid, m, n := cat, v.vol, v.trace, Node(d, 0, 0, f);
    HandleParts(cat, dir, d);
    OwnershipParts(v.vol, cat, v.geo, v.bm, upcase);
    NameIs(f);
    if f.name == [] || |f.name| > 255 {
      ConfinedNothing(v0, DirGrowthPrint(v0, cat, d));
      ThroughNothing(v0, v.trace, DirGrowthPrint(v0, cat, d));
      NothingPublished(v.trace, cat, d, v.geo.ClusterBytes());
      return Err(Invalid("bad name length")), cat', n, mid, m;
    }
    SecondaryFits(f.name);
    var total := SetSize(f.name);
    var run;
    ghost var c, s;
    run, cat', c, s := FindOrMakeSlotRun(v, upcase, dir, total, cat, d);
    mid, m, n := v.vol, v.trace, Node(d, c, s, f);
    if run.Err? {
      return Err(run.error), cat', n, mid, m;
    }
    var entries := BuildSet(f, upcase);
    NodeAddrs(n);
    RoomKeepsNodes(v0, cat, mid, cat', v.geo.Per(), v.geo.ClusterBytes(), d, total, c, s);
    RoomReady(v, cat', upcase, d, n);
    EncodeSlots(f, upcase);
    WriteSlots(v, run.value, entries);
    SetPlacedIs(mid, v.vol, m, v.trace, upcase, n);
    return Ok(()), cat', n, mid, m;
  }

  lemma NameIs(f: Facts)
    requires f.first < 0x1_0000_0000 && f.len < 0x1_0000_0000_0000_0000
    ensures BadName(f.name) <==> f.name == [] || |f.name| > 255
    ensures !BadName(f.name) ==> f.Recordable()
  {
  }

  lemma NodeAddrs(n: Node)
    ensures n.SetAddrs() == SlotRun(n.cluster, n.start, n.Count()) && n.Count() == SetSize(n.facts.name)
  {
  }

  lemma EncodeSlots(f: Facts, upcase: seq<u16>)
    requires f.Recordable()
    ensures Slots(Encode(f, upcase)) && |Encode(f, upcase)| == SetSize(f.name)
  {
    hide Encode;
  }

  lemma RoomParts(v: Vol, cat: Cat, per: nat, d: nat, k: nat, c: nat, s: nat)
    requires Room(v, cat, per, d, k, c, s)
    ensures c in cat.own && cat.own[c].id == d && s + k <= per
    ensures forall j: nat :: s <= j < s + k ==> |v.Slot(SlotAddr(c, j))| == SLOT && Usable(v.Slot(SlotAddr(c, j)))
  {
  }

  /** Room in a directory may be written. */
  lemma RoomReady(v: Volume, cat: Cat, upcase: seq<u16>, d: nat, n: Node)
    requires v.Valid() && Consistent(v.vol, cat, v.geo, v.bm, upcase)
    requires Room(v.vol, cat, v.geo.Per(), d, n.Count(), n.cluster, n.start) && cat.IsDir(d)
    ensures 0 < v.geo.ClusterBytes() && DirAddrs(v, n.SetAddrs()) && Distinct(n.SetAddrs())
  {
    hide *;
    OwnershipParts(v.vol, cat, v.geo, v.bm, upcase);
    RoomParts(v.vol, cat, v.geo.Per(), d, n.Count(), n.cluster, n.start);
    InDirectoryIs(cat, n.cluster, d);
    DirClusterReady(v, cat, upcase, n.cluster);
    SetAddrsReady(v, n);
  }

  lemma InDirectoryIs(cat: Cat, c: nat, d: nat)
    requires c in cat.own && cat.own[c].id == d
    ensures cat.InDirectory(c) <==> cat.IsDir(d)
  {
  }

  lemma SetPlacedIs(mid: Vol, v: Vol, m: seq<Vol>, t: seq<Vol>, upcase: seq<u16>, n: Node)
    requires n.facts.Recordable() && m <= t && |t| == |m| + |n.SetAddrs()|
    requires SlotsWritten(mid, v, n.SetAddrs(), Encode(n.facts, upcase), |n.SetAddrs()|)
    requires SlotTrace(mid, t, |m|, n.SetAddrs(), Encode(n.facts, upcase))
    ensures SetPlaced(mid, v, m, t, upcase, n)
  {
    hide SlotsWritten, SlotTrace, Encode;
  }

  /** Making room changes nothing of the catalogue but the directory's chain and length. */
  lemma RoomKeepsNodes(v0: Vol, cat0: Cat, v: Vol, cat: Cat, per: nat, cb: nat, d: nat, k: nat, c: nat, s: nat)
    requires d in cat0.chains && RoomChosen(v0, cat0, v, cat, per, cb, d, k, c, s)
    ensures cat.nodes.Keys == cat0.nodes.Keys && cat.chains.Keys == cat0.chains.Keys && cat.spare == cat0.spare
    ensures forall k :: cat.IsDir(k) <==> cat0.IsDir(k)
    ensures forall k :: k in cat0.nodes && k != d ==> cat.nodes[k] == cat0.nodes[k]
    ensures forall k :: k in cat0.chains && k != d ==> cat.chains[k] == cat0.chains[k]
    ensures d in cat0.nodes ==> SameEntry(cat0.nodes[d], cat.nodes[d])
    ensures cat0.chains[d] <= cat.chains[d]
  {
    hide NoRun, FirstRun, IndexOf;
  }
}
