/** Creating files and directories. */
module Creations {
  import opened Alloc
  import opened Bytes
  import opened Catalogues
  import opened EntrySets
  import opened FileData
  import opened FileWrites
  import opened Footprints
  import opened Geometries
  import opened Lookups
  import opened Outcomes
  import opened Placements
  import opened Records
  import opened SlotLists
  import opened SlotWrites
  import opened Steps
  import opened Volumes

  // ---- The device writes of placing a set ------------------------------------------------

  /** A new set meets nobody's slots and no file's clusters. */
  lemma NewSetAvoids(mid: Vol, cat: Cat, g: Geometry, bm: BitmapLoc, upcase: seq<u16>, n: Node, k: nat)
    requires Consistent(mid, cat, g, bm, upcase) && cat.IsDir(n.parent)
    requires Room(mid, cat, g.Per(), n.parent, n.Count(), n.cluster, n.start)
    requires k in cat.nodes && k in cat.chains
    ensures Avoids(SlotsOf(Elems(n.SetAddrs())), cat, k)
  {
    RoomIsFree(mid, cat, g, bm, upcase, n.parent, n);
    OwnershipParts(mid, cat, g, bm, upcase);
    RootIsNoNode(cat, g, bm);
    hide Consistent, ChainsOwned, NodesOk, SystemOk, Room, Geometry.ClusterBytes, Geometry.Per;
    NewSetAvoidsIn(mid, cat, g.Per(), n, k);
  }

  lemma NewSetAvoidsIn(mid: Vol, cat: Cat, per: nat, n: Node, k: nat)
    requires Placed(cat) && SlotsOwned(mid, cat, per) && cat.IsDir(n.parent) && ROOT !in cat.nodes
    requires forall j :: 0 <= j < n.Count() ==> n.Addr(j) !in cat.slotOwn
    requires n.cluster in cat.own && cat.own[n.cluster].id == n.parent
    requires k in cat.nodes && k in cat.chains
    ensures Avoids(SlotsOf(Elems(n.SetAddrs())), cat, k)
  {
    OwnedIsInChain(cat, k);
    hide Placed, Vol.Slot;
    forall j | 0 <= j < cat.nodes[k].Count()
      ensures cat.nodes[k].Addr(j) !in Elems(n.SetAddrs())
    {
      assert cat.nodes[k].Addr(j) in cat.slotOwn;
    }
    forall c | c in Homes(Elems(n.SetAddrs()))
      ensures c == n.cluster
    {
      var a :| a in Elems(n.SetAddrs()) && a.cluster == c;
    }
  }

  lemma PlacedTraced(mid: Vol, v: Vol, m: seq<Vol>, t: seq<Vol>, upcase: seq<u16>, n: Node)
    requires SetPlaced(mid, v, m, t, upcase, n)
    ensures m <= t && Through(mid, t, |m|, SlotsOf(Elems(n.SetAddrs()))) && Confined(mid, v, SlotsOf(Elems(n.SetAddrs())))
  {
    hide Confined, SlotsWritten, Encode;
    var addrs, e := n.SetAddrs(), Encode(n.facts, upcase);
    forall k | |m| <= k < |t|
      ensures Confined(mid, t[k], SlotsOf(Elems(addrs)))
    {
      SlotsWrittenConfined(mid, t[k], addrs, e, k - |m| + 1);
    }
    SlotsWrittenConfined(mid, v, addrs, e, n.Count());
  }

  /** While its own slots are being written the new entry never points at clusters it does not head. */
  lemma NewSetPublished(mid: Vol, v: Vol, m: seq<Vol>, t: seq<Vol>, upcase: seq<u16>, n: Node, cat: Cat, per: nat, ch: seq<nat>, cb: nat)
    requires SetPlaced(mid, v, m, t, upcase, n) && 0 < cb
    requires Room(mid, cat, per, n.parent, n.Count(), n.cluster, n.start)
    requires RunHeld(mid, ch) && DivCeil(n.facts.len, cb) <= |ch| && (ch != [] ==> n.facts.first == ch[0])
    ensures AlwaysPublished(t, |m|, n, cb)
  {
    hide SlotsWritten, Encode, Room, RunHeld, Published, DivCeil;
    forall k | |m| <= k < |t|
      ensures Published(t[k], n, cb)
    {
      NewSetPublishedAt(mid, t[k], upcase, n, cat, per, ch, cb, k - |m| + 1);
    }
  }

  lemma NewSetPublishedAt(mid: Vol, v: Vol, upcase: seq<u16>, n: Node, cat: Cat, per: nat, ch: seq<nat>, cb: nat, j: nat)
    requires n.facts.Recordable() && 1 <= j <= n.Count() && 0 < cb
    requires SlotsWritten(mid, v, n.SetAddrs(), Encode(n.facts, upcase), j)
    requires Room(mid, cat, per, n.parent, n.Count(), n.cluster, n.start)
    requires RunHeld(mid, ch) && DivCeil(n.facts.len, cb) <= |ch| && (ch != [] ==> n.facts.first == ch[0])
    ensures Published(v, n, cb)
  {
    SetHead(n.facts, upcase);
    RoomParts(mid, cat, per, n.parent, n.Count(), n.cluster, n.start);
    hide Encode, Vol.Slot, Room, DivCeil, Checksum, HeadsRun;
    var addrs := n.SetAddrs();
    assert RunHeld(v, ch);
    if j == 1 {
      assert n.Addr(1) == addrs[1] && addrs[1] !in addrs[..1];
      assert v.Slot(n.Addr(1)) == mid.Slot(n.Addr(1));
    } else {
      assert v.Slot(addrs[1]) == Encode(n.facts, upcase)[1];
      FactsPublished(v, n, n.facts, upcase, ch, cb);
    }
  }

  /** While a set is being written every node of the volume stays as it is, and published. */
  lemma PlacingKeepsNodes(mid: Vol, v: Vol, m: seq<Vol>, t: seq<Vol>, upcase: seq<u16>, n: Node, cat: Cat, g: Geometry, bm: BitmapLoc, k: nat)
    requires Consistent(mid, cat, g, bm, upcase) && cat.IsDir(n.parent) && 0 < g.ClusterBytes()
    requires Room(mid, cat, g.Per(), n.parent, n.Count(), n.cluster, n.start)
    requires SetPlaced(mid, v, m, t, upcase, n) && k in cat.nodes && k in cat.chains
    ensures AlwaysPublished(t, |m|, cat.nodes[k], g.ClusterBytes())
    ensures NodeKept(mid, v, cat, k)
  {
    hide *;
    var f := SlotsOf(Elems(n.SetAddrs()));
    PlacedTraced(mid, v, m, t, upcase, n);
    NewSetAvoids(mid, cat, g, bm, upcase, n, k);
    AvoidedIsKept(mid, v, cat, k, f);
    KeptThroughout(mid, t, |m|, cat, g, bm, upcase, k, f);
  }

  lemma KeptThroughout(v0: Vol, t: seq<Vol>, from: nat, cat: Cat, g: Geometry, bm: BitmapLoc, upcase: seq<u16>, k: nat, f: Footprint)
    requires Consistent(v0, cat, g, bm, upcase) && 0 < g.ClusterBytes() && k in cat.nodes && k in cat.chains
    requires Through(v0, t, from, f) && Avoids(f, cat, k)
    ensures AlwaysPublished(t, from, cat.nodes[k], g.ClusterBytes())
  {
    hide ChainsOwned, NodeOk, SlotsOwned, SystemOk, NodeKept, Published, Avoids, Confined, Geometry.ClusterBytes;
    assert NodeOk(v0, cat, g.ClusterBytes(), upcase, k);
    forall i | from <= i < |t|
      ensures Published(t[i], cat.nodes[k], g.ClusterBytes())
    {
      AvoidedIsKept(v0, t[i], cat, k, f);
      KeptIsPublished(v0, t[i], cat, g.ClusterBytes(), upcase, k);
    }
  }

  lemma PublishedInPieces(t1: seq<Vol>, t2: seq<Vol>, from: nat, n: Node, n': Node, cb: nat)
    requires 0 < cb && from <= |t1| && t1 <= t2 && n'.cluster == n.cluster && n'.start == n.start
    requires AlwaysPublished(t1, from, n, cb) && AlwaysPublished(t2, |t1|, n', cb)
    ensures AlwaysPublished(t2, from, n, cb)
  {
    hide HeadsRun, Vol.Slot;
    forall i | from <= i < |t2|
      ensures Published(t2[i], n, cb)
    {
      if i < |t1| {
        assert t2[i] == t1[i];
      } else {
        assert Published(t2[i], n', cb);
        assert n.Addr(0) == n'.Addr(0) && n.Addr(1) == n'.Addr(1);
      }
    }
  }

  // ---- A placement as a whole --------------------------------------------------------------

  /** The two catalogues differ at most in directory `d`, which may have grown, and in the spare clusters. */
  ghost predicate SameButDir(cat0: Cat, cat: Cat, d: nat)
  {
    && cat.nodes.Keys == cat0.nodes.Keys && cat.chains.Keys == cat0.chains.Keys
    && (forall k :: cat.IsDir(k) <==> cat0.IsDir(k))
    && (forall k :: k in cat0.nodes && k != d ==> cat.nodes[k] == cat0.nodes[k])
    && (forall k :: k in cat0.chains && k != d ==> cat.chains[k] == cat0.chains[k])
    && (d in cat0.nodes ==> SameEntry(cat0.nodes[d], cat.nodes[d]))
  }

  /** What placing a set may touch. */
  function PlacePrint(v0: Vol, cat: Cat, d: nat, n: Node): Footprint
    requires d in cat.chains
  {
    DirGrowthPrint(v0, cat, d).Join(SlotsOf(Elems(n.SetAddrs())))
  }

  lemma PlacePrintIs(v0: Vol, cat: Cat, d: nat, n: Node)
    requires d in cat.chains
    ensures PlacePrint(v0, cat, d, n) == DirGrowthPrint(v0, cat, d).Join(SlotsOf(Elems(n.SetAddrs())))
  {
  }

  /** A set of a new or moved node has been placed: from `v0` to `mid`, at the end of trace `m`, room was made in
      directory `d`; from there to `v`, at the end of trace `t`, the set was written. */
  ghost predicate Placing(v0: Vol, cat0: Cat, mid: Vol, cat: Cat, v: Vol, from: nat, m: seq<Vol>, t: seq<Vol>,
                          g: Geometry, bm: BitmapLoc, upcase: seq<u16>, d: nat, n: Node)
  {
    && 0 < g.ClusterBytes() && Consistent(v0, cat0, g, bm, upcase) && Consistent(mid, cat, g, bm, upcase)
    && d in cat0.chains && cat.IsDir(d) && n.parent == d && SameButDir(cat0, cat, d)
    && Room(mid, cat, g.Per(), d, n.Count(), n.cluster, n.start)
    && SetPlaced(mid, v, m, t, upcase, n)
    && from <= |m| && Through(v0, m, from, DirGrowthPrint(v0, cat0, d)) && Confined(v0, mid, DirGrowthPrint(v0, cat0, d))
    && (d in cat0.nodes ==> AlwaysPublished(m, from, cat0.nodes[d], g.ClusterBytes()))
  }

  lemma PlacingParts(v0: Vol, cat0: Cat, mid: Vol, cat: Cat, v: Vol, from: nat, m: seq<Vol>, t: seq<Vol>,
                     g: Geometry, bm: BitmapLoc, upcase: seq<u16>, d: nat, n: Node)
    requires Placing(v0, cat0, mid, cat, v, from, m, t, g, bm, upcase, d, n)
    ensures 0 < g.ClusterBytes() && Consistent(v0, cat0, g, bm, upcase) && Consistent(mid, cat, g, bm, upcase)
    ensures d in cat0.chains && cat.IsDir(d) && n.parent == d && SameButDir(cat0, cat, d)
    ensures Room(mid, cat, g.Per(), d, n.Count(), n.cluster, n.start) && SetPlaced(mid, v, m, t, upcase, n)
    ensures from <= |m| && Through(v0, m, from, DirGrowthPrint(v0, cat0, d)) && Confined(v0, mid, DirGrowthPrint(v0, cat0, d))
    ensures d in cat0.nodes ==> AlwaysPublished(m, from, cat0.nodes[d], g.ClusterBytes())
  {
    hide Consistent, SameButDir, Room, SetPlaced, Through, Confined, DirGrowthPrint, AlwaysPublished, Geometry.ClusterBytes;
  }

  lemma ButDirParts(cat0: Cat, cat: Cat, d: nat)
    requires SameButDir(cat0, cat, d)
    ensures cat.nodes.Keys == cat0.nodes.Keys && cat.chains.Keys == cat0.chains.Keys
    ensures forall k :: k in cat0.nodes && k != d ==> k in cat.nodes && cat.nodes[k] == cat0.nodes[k]
    ensures forall k :: k in cat0.chains && k != d ==> k in cat.chains && cat.chains[k] == cat0.chains[k]
    ensures d in cat0.nodes ==> d in cat.nodes && SameEntry(cat0.nodes[d], cat.nodes[d])
  {
  }

  lemma EntryPlace(n0: Node, n: Node)
    requires SameEntry(n0, n)
    ensures n.cluster == n0.cluster && n.start == n0.start && n.parent == n0.parent
  {
  }

  lemma PlacingTraced(v0: Vol, cat0: Cat, mid: Vol, cat: Cat, v: Vol, from: nat, m: seq<Vol>, t: seq<Vol>,
                      g: Geometry, bm: BitmapLoc, upcase: seq<u16>, d: nat, n: Node)
    requires Placing(v0, cat0, mid, cat, v, from, m, t, g, bm, upcase, d, n)
    ensures d in cat0.chains && Through(v0, t, from, PlacePrint(v0, cat0, d, n)) && Confined(v0, v, PlacePrint(v0, cat0, d, n))
    ensures from <= |m| && m <= t
  {
    hide *;
    PlacingParts(v0, cat0, mid, cat, v, from, m, t, g, bm, upcase, d, n);
    PlacedTraced(mid, v, m, t, upcase, n);
    var a, b := DirGrowthPrint(v0, cat0, d), SlotsOf(Elems(n.SetAddrs()));
    PlacePrintIs(v0, cat0, d, n);
    JoinContains(a, b);
    assert t[..|m|] == m;
    ThroughChain(v0, m, from, a, mid, t, b, PlacePrint(v0, cat0, d, n));
    ConfinedWider(v0, mid, a, PlacePrint(v0, cat0, d, n));
    ConfinedWider(mid, v, b, PlacePrint(v0, cat0, d, n));
    ConfinedChain(v0, mid, v, PlacePrint(v0, cat0, d, n));
  }

  lemma AvoidsSame(f: Footprint, cat0: Cat, cat: Cat, k: nat)
    requires k in cat0.nodes && k in cat0.chains && k in cat.nodes && k in cat.chains
    requires cat.nodes[k] == cat0.nodes[k] && cat.chains[k] == cat0.chains[k] && Avoids(f, cat, k)
    ensures Avoids(f, cat0, k)
  {
  }

  lemma PlacingAvoids(v0: Vol, cat0: Cat, mid: Vol, cat: Cat, v: Vol, from: nat, m: seq<Vol>, t: seq<Vol>,
                      g: Geometry, bm: BitmapLoc, upcase: seq<u16>, d: nat, n: Node, k: nat)
    requires Placing(v0, cat0, mid, cat, v, from, m, t, g, bm, upcase, d, n)
    requires k in cat0.nodes && k in cat0.chains && k != d && d in cat0.chains
    ensures Avoids(PlacePrint(v0, cat0, d, n), cat0, k)
  {
    hide *;
    PlacingParts(v0, cat0, mid, cat, v, from, m, t, g, bm, upcase, d, n);
    ButDirParts(cat0, cat, d);
    DirGrowthAvoids(v0, cat0, g, bm, upcase, d, k);
    NewSetAvoids(mid, cat, g, bm, upcase, n, k);
    AvoidsSame(SlotsOf(Elems(n.SetAddrs())), cat0, cat, k);
    AvoidsBoth(DirGrowthPrint(v0, cat0, d), SlotsOf(Elems(n.SetAddrs())), cat0, k);
    PlacePrintIs(v0, cat0, d, n);
  }

  lemma PlacingDirPublished(v0: Vol, cat0: Cat, mid: Vol, cat: Cat, v: Vol, from: nat, m: seq<Vol>, t: seq<Vol>,
                            g: Geometry, bm: BitmapLoc, upcase: seq<u16>, d: nat, n: Node)
    requires Placing(v0, cat0, mid, cat, v, from, m, t, g, bm, upcase, d, n) && d in cat0.nodes && 0 < g.ClusterBytes()
    ensures AlwaysPublished(t, from, cat0.nodes[d], g.ClusterBytes())
  {
    hide *;
    PlacingParts(v0, cat0, mid, cat, v, from, m, t, g, bm, upcase, d, n);
    ButDirParts(cat0, cat, d);
    PlacingTraced(v0, cat0, mid, cat, v, from, m, t, g, bm, upcase, d, n);
    PlacingKeepsNodes(mid, v, m, t, upcase, n, cat, g, bm, d);
    EntryPlace(cat0.nodes[d], cat.nodes[d]);
    PublishedInPieces(m, t, from, cat0.nodes[d], cat.nodes[d], g.ClusterBytes());
  }

  /** Placing a set is safe for everybody but the directory it goes into, and that one stays published. */
  lemma PlacingSafe(v0: Vol, cat0: Cat, mid: Vol, cat: Cat, v: Vol, from: nat, m: seq<Vol>, t: seq<Vol>,
                    g: Geometry, bm: BitmapLoc, upcase: seq<u16>, d: nat, n: Node)
    requires Placing(v0, cat0, mid, cat, v, from, m, t, g, bm, upcase, d, n)
    ensures CrashSafe(v0, t, from, cat0, g.ClusterBytes(), {d})
  {
    hide *;
    PlacingParts(v0, cat0, mid, cat, v, from, m, t, g, bm, upcase, d, n);
    NodesHaveChains(v0, cat0, g, bm, upcase);
    PlacingTraced(v0, cat0, mid, cat, v, from, m, t, g, bm, upcase, d, n);
    forall k | k in cat0.nodes && k !in {d}
      ensures Avoids(PlacePrint(v0, cat0, d, n), cat0, k)
    {
      PlacingAvoids(v0, cat0, mid, cat, v, from, m, t, g, bm, upcase, d, n, k);
    }
    if d in cat0.nodes {
      PlacingDirPublished(v0, cat0, mid, cat, v, from, m, t, g, bm, upcase, d, n);
    }
    SafeRun(v0, t, from, cat0, g, bm, upcase, {d}, PlacePrint(v0, cat0, d, n));
  }

  /** Room being made, or not found, without a set: safe in the same way. */
  lemma GrowthSafe(v0: Vol, t: seq<Vol>, from: nat, cat: Cat, g: Geometry, bm: BitmapLoc, upcase: seq<u16>, d: nat)
    requires Consistent(v0, cat, g, bm, upcase) && 0 < g.ClusterBytes() && d in cat.chains
    requires Through(v0, t, from, DirGrowthPrint(v0, cat, d))
    requires d in cat.nodes ==> AlwaysPublished(t, from, cat.nodes[d], g.ClusterBytes())
    ensures CrashSafe(v0, t, from, cat, g.ClusterBytes(), {d})
  {
    hide *;
    NodesHaveChains(v0, cat, g, bm, upcase);
    forall k | k in cat.nodes && k !in {d}
      ensures Avoids(DirGrowthPrint(v0, cat, d), cat, k)
    {
      DirGrowthAvoids(v0, cat, g, bm, upcase, d, k);
    }
    SafeRun(v0, t, from, cat, g, bm, upcase, {d}, DirGrowthPrint(v0, cat, d));
  }

  // ---- The first cluster of a directory ----------------------------------------------------

  /** What allocating and blanking a cluster may touch. */
  function FreshPrint(v0: Vol): Footprint { ClustersOf(FreeSet(v0)).Join(ContentsOf(FreeSet(v0))) }

  lemma FreshPrintIs(v0: Vol)
    ensures FreshPrint(v0) == ClustersOf(FreeSet(v0)).Join(ContentsOf(FreeSet(v0)))
  {
  }

  /** A cluster taken from the free ones, blanked, and not yet anybody's. */
  ghost predicate FreshTaken(v0: Vol, v: Vol, c: nat, per: nat)
  {
    && |v.fat| == |v0.fat| && |v.bits| == |v0.bits| && |v.data| == |v0.data|
    && c in FreeSet(v0) && 2 <= c < |v.fat| && v.fat[c] == END_OF_CHAIN && Blank(v, c, per)
    && (forall x :: 0 <= x < |v.bits| ==> v.bits[x] == (v0.bits[x] || x == c))
    && (forall x :: 0 <= x < |v.fat| && x != c ==> v.fat[x] == v0.fat[x])
    && (forall x :: 0 <= x < |v.data| && x != c ==> v.data[x] == v0.data[x])
  }

  lemma FreshFrom(v0: Vol, v1: Vol, v2: Vol, c: nat, per: nat)
    requires Allocated(v0, v1, [c]) && OnlyData(v1, v2, {c}) && Blank(v2, c, per)
    ensures FreshTaken(v0, v2, c, per) && FreeSet(v2) == FreeSet(v0) - {c}
  {
    assert c in Elems([c]);
  }

  /** The cluster is marked but nobody's: the catalogue counts it spare. */
  lemma FreshIsSpare(v0: Vol, v: Vol, cat: Cat, g: Geometry, bm: BitmapLoc, upcase: seq<u16>, c: nat)
    requires Consistent(v0, cat, g, bm, upcase) && FreshTaken(v0, v, c, g.Per())
    ensures c !in cat.own && c !in cat.spare
    ensures Consistent(v, cat.(spare := cat.spare + {c}), g, bm, upcase)
  {
    OwnershipParts(v0, cat, g, bm, upcase);
    FreeIsUnowned(v0, cat, c);
    FreshBits(v0, v, cat, c, g.Per());
    hide Consistent, ChainsOwned, SlotsOwned, NodesOk, SystemOk, FreshTaken, FreeSet, Geometry.ClusterBytes, Geometry.Per;
    SparesMayDiffer(v0, v, cat, g, bm, upcase, cat.spare + {c});
  }

  lemma FreshBits(v0: Vol, v: Vol, cat: Cat, c: nat, per: nat)
    requires ChainsOwned(v0, cat) && FreshTaken(v0, v, c, per) && c !in cat.own
    ensures |v.fat| == |v0.fat| && |v.bits| == |v0.bits|
    ensures forall x :: 0 <= x < |v.fat| && x in cat.own ==> v.fat[x] == v0.fat[x]
    ensures DirSlotsSame(v0, v, cat, {}) && cat.spare + {c} !! cat.own.Keys
    ensures forall x :: 2 <= x < |v.bits| ==> (v.bits[x] <==> x in cat.own || x in cat.spare + {c})
  {
    DataElsewhere(v0, v, cat, {c});
    hide Blank;
  }

  /** Allocate one cluster and zero it. */
  method FirstDirCluster(v: Volume, upcase: seq<u16>, ghost cat: Cat) returns (r: Result<nat>, ghost cat': Cat)
    requires v.Valid() && Consistent(v.vol, cat, v.geo, v.bm, upcase)
    modifies v, v.disk
    ensures v.Valid() && old(v.trace) <= v.trace && Consistent(v.vol, cat', v.geo, v.bm, upcase)
    ensures r.Ok? <==> FreeSet(old(v.vol)) != {}
    ensures r.Ok? ==> FreshTaken(old(v.vol), v.vol, r.value, v.geo.Per()) && cat' == cat.(spare := cat.spare + {r.value})
    ensures r.Ok? ==> FreeSet(v.vol) == FreeSet(old(v.vol)) - {r.value} && r.value !in cat.own && r.value !in cat.spare
    ensures r.Err? ==> Marked(old(v.vol), v.vol, FreeSet(old(v.vol))) && cat' == cat.(spare := cat.spare + FreeSet(old(v.vol)))
    ensures Confined(old(v.vol), v.vol, FreshPrint(old(v.vol)))
    ensures Through(old(v.vol), v.trace, |old(v.trace)|, FreshPrint(old(v.vol)))
  {
    hide *;
    ghost var v0, t0 := v.vol, |v.trace|;
    FreshPrintIs(v0);
    JoinContains(ClustersOf(FreeSet(v0)), ContentsOf(FreeSet(v0)));
    EmptyIsNone(FreeSet(v0));
    var chain := AllocChain(v, 1);
    if chain.Err? {
      ThroughWider(v0, v.trace, t0, ClustersOf(FreeSet(v0)), FreshPrint(v0));
      MarkedConfined(v0, v.vol);
      OutOfSpace(v0, v.vol, cat, v.geo, v.bm, upcase);
      return Err(chain.error), cat.(spare := cat.spare + FreeSet(v0));
    }
    var c := chain.value[0];
    ghost var v1, t1 := v.vol, v.trace;
    OneCluster(chain.value, c);
    AllocatedConfined(v0, v1, [c]);
    TakenReady(v, v0, cat, upcase, c);
    ZeroCluster(v, c);
    BlankIs(v.vol, c, v.geo.Per());
    FreshFrom(v0, v1, v.vol, c, v.geo.Per());
    FreshIsSpare(v0, v.vol, cat, v.geo, v.bm, upcase, c);
    BlankTraced(v0, v1, v.vol, t1, v.trace, t0, ClustersOf(FreeSet(v0)), c);
    return Ok(c), cat.(spare := cat.spare + {c});
  }

  lemma MarkedConfined(v0: Vol, v: Vol)
    requires Marked(v0, v, FreeSet(v0))
    ensures Confined(v0, v, FreshPrint(v0))
  {
    hide FreeSet;
  }

  /** A freshly allocated cluster may be zeroed. */
  lemma TakenReady(v: Volume, v0: Vol, cat: Cat, upcase: seq<u16>, c: nat)
    requires v.Valid() && Consistent(v0, cat, v.geo, v.bm, upcase) && Allocated(v0, v.vol, [c])
    ensures 0 < v.geo.ClusterBytes() && v.geo.InRange(c) && !v.geo.InBitmapRun(v.bm, c) && c in FreeSet(v0)
  {
    v.Sizes();
    OwnershipParts(v0, cat, v.geo, v.bm, upcase);
    assert c in Elems([c]);
    FreeIsUnowned(v0, cat, c);
    BitmapOwned(cat, v.geo, v.bm, c);
    hide Volume.Valid, Consistent, ChainsOwned, Geometry.ClusterBytes, Geometry.InBitmapRun;
  }

  // ---- The new node ------------------------------------------------------------------------

  ghost function Above(s: set<nat>): (m: nat)
    ensures m > UPCASE && forall x :: x in s ==> x < m
  {
    if s == {} then UPCASE + 1
    else
      var x :| x in s;
      assert forall y :: y in s ==> y == x || y in s - {x};
      Max(x + 1, Above(s - {x}))
  }

  /** An identifier nothing has yet. */
  ghost function FreshId(cat: Cat): (id: nat)
    ensures id > UPCASE && id !in cat.chains && id !in cat.nodes
  {
    Above(cat.chains.Keys + cat.nodes.Keys)
  }

  function WithNode(cat: Cat, id: nat, ch: seq<nat>, n: Node): Cat { cat.SetChain(id, ch).PutNode(id, n) }

  lemma WithNodeParts(cat: Cat, id: nat, ch: seq<nat>, n: Node)
    ensures var cat' := WithNode(cat, id, ch, n);
      && cat'.nodes == cat.nodes[id := n] && cat'.chains == cat.chains[id := ch] && cat'.spare == cat.spare
      && cat' == cat.SetChain(id, ch).PutNode(id, n)
  {
    hide IndexOf;
    assert cat.SetChain(id, ch).nodes == cat.nodes;
  }

  /** A new node in directory `d`: an empty file, or a directory of one blank cluster. Nobody else changed but
      `d`, which may have grown. */
  ghost predicate Created(v0: Vol, cat0: Cat, v: Vol, cat: Cat, g: Geometry, d: nat, id: nat, name: Name, isDir: bool)
  {
    && id !in cat0.nodes && id > UPCASE && cat.nodes.Keys == cat0.nodes.Keys + {id} && id in cat.chains
    && cat.nodes[id].parent == d && cat.nodes[id].facts.name == name && cat.nodes[id].facts.isDir == isDir
    && (if isDir then |cat.chains[id]| == 1 && Blank(v, cat.chains[id][0], g.Per()) && cat.nodes[id].facts.len == g.ClusterBytes()
        else cat.chains[id] == [] && cat.nodes[id].facts.len == 0)
    && (d in cat0.nodes ==> SameEntry(cat0.nodes[d], cat.nodes[d]))
    && cat.spare == cat0.spare
    && OthersKept(v0, cat0, v, cat, {d})
  }

  /** Nothing but the spare clusters differs, and every file has its bytes. */
  ghost predicate OnlySpares(v0: Vol, cat0: Cat, v: Vol, cat: Cat)
  {
    cat == cat0.(spare := cat.spare) && cat0.spare <= cat.spare && OthersKept(v0, cat0, v, cat, {})
  }

  lemma PlacingIs(v0: Vol, cat0: Cat, mid: Vol, cat: Cat, v: Vol, from: nat, m: seq<Vol>, t: seq<Vol>,
                  g: Geometry, bm: BitmapLoc, upcase: seq<u16>, d: nat, n: Node)
    requires 0 < g.ClusterBytes() && Consistent(v0, cat0, g, bm, upcase) && Consistent(mid, cat, g, bm, upcase)
    requires d in cat0.chains && cat.IsDir(d) && n.parent == d && SameButDir(cat0, cat, d)
    requires Room(mid, cat, g.Per(), d, n.Count(), n.cluster, n.start)
    requires SetPlaced(mid, v, m, t, upcase, n)
    requires from <= |m| && Through(v0, m, from, DirGrowthPrint(v0, cat0, d)) && Confined(v0, mid, DirGrowthPrint(v0, cat0, d))
    requires d in cat0.nodes ==> AlwaysPublished(m, from, cat0.nodes[d], g.ClusterBytes())
    ensures Placing(v0, cat0, mid, cat, v, from, m, t, g, bm, upcase, d, n)
  {
    hide Consistent, SameButDir, Room, SetPlaced, Through, Confined, DirGrowthPrint, AlwaysPublished, Geometry.ClusterBytes;
  }

  lemma RoomSameButDir(v0: Vol, cat0: Cat, v: Vol, cat: Cat, per: nat, cb: nat, d: nat, k: nat, c: nat, s: nat)
    requires d in cat0.chains && RoomChosen(v0, cat0, v, cat, per, cb, d, k, c, s)
    ensures SameButDir(cat0, cat, d) && cat.spare == cat0.spare
  {
    RoomKeepsNodes(v0, cat0, v, cat, per, cb, d, k, c, s);
    hide RoomChosen;
  }

  /** The outcome of a placement that recorded a new node. */
  lemma CreatedIs(v: Volume, v0: Vol, t0: seq<Vol>, cat0: Cat, mid: Vol, cat: Cat, m: seq<Vol>,
                  upcase: seq<u16>, d: nat, n: Node, id: nat, ch: seq<nat>, last: Cat)
    requires v.Valid() && t0 != [] && t0[|t0| - 1] == v0 && t0 <= v.trace
    requires Placing(v0, cat0, mid, cat, v.vol, |t0|, m, v.trace, v.geo, v.bm, upcase, d, n)
    requires id > UPCASE && id !in cat0.chains && id !in cat0.nodes && last == cat.(spare := cat0.spare)
    requires if n.facts.isDir then |ch| == 1 && Blank(v.vol, ch[0], v.geo.Per()) && n.facts.len == v.geo.ClusterBytes()
             else ch == [] && n.facts.len == 0
    ensures Created(v0, cat0, v.vol, WithNode(last, id, ch, n), v.geo, d, id, n.facts.name, n.facts.isDir)
  {
    hide *;
    PlacingParts(v0, cat0, mid, cat, v.vol, |t0|, m, v.trace, v.geo, v.bm, upcase, d, n);
    PlacingSafe(v0, cat0, mid, cat, v.vol, |t0|, m, v.trace, v.geo, v.bm, upcase, d, n);
    CrashSafeParts(v0, v.trace, |t0|, cat0, v.geo.ClusterBytes(), {d});
    FinalKept(v, v0, t0, cat0, {d});
    ButDirParts(cat0, cat, d);
    WithNodeParts(last, id, ch, n);
    SafeKeepsOthers(v0, v.vol, cat0, WithNode(last, id, ch, n), {d});
    CreatedParts(v0, cat0, v.vol, WithNode(last, id, ch, n), v.geo, d, id, n, ch);
  }

  lemma CreatedParts(v0: Vol, cat0: Cat, v: Vol, cat: Cat, g: Geometry, d: nat, id: nat, n: Node, ch: seq<nat>)
    requires id !in cat0.nodes && id > UPCASE && cat.nodes.Keys == cat0.nodes.Keys + {id}
    requires id in cat.chains && cat.chains[id] == ch && cat.nodes[id] == n && n.parent == d && cat.spare == cat0.spare
    requires if n.facts.isDir then |ch| == 1 && Blank(v, ch[0], g.Per()) && n.facts.len == g.ClusterBytes()
             else ch == [] && n.facts.len == 0
    requires d in cat0.nodes ==> SameEntry(cat0.nodes[d], cat.nodes[d])
    requires OthersKept(v0, cat0, v, cat, {d})
    ensures Created(v0, cat0, v, cat, g, d, id, n.facts.name, n.facts.isDir)
  {
    hide OthersKept, Blank, SameEntry, Geometry.ClusterBytes, Geometry.Per;
  }

  /** The clusters an entry needs: one for a new directory, one more if its directory has no room. */
  ghost function EntryClusters(v: Vol, cat: Cat, per: nat, d: nat, name: Name, isDir: bool): nat
    requires d in cat.chains
  {
    (if isDir then 1 else 0) + (if NoRun(v, cat.chains[d], per, SetSize(name)) then 1 else 0)
  }

  /** Where the set of `n` went: into the first run of usable slots the directory had, or, when it had none, to
      the head of a new last cluster. */
  ghost predicate PlacedWhere(v0: Vol, cat0: Cat, cat: Cat, per: nat, d: nat, n: Node)
  {
    && d in cat0.chains && d in cat.chains && cat0.chains[d] <= cat.chains[d]
    && (if NoRun(v0, cat0.chains[d], per, n.Count())
        then n.start == 0 && cat.chains[d] == cat0.chains[d] + [n.cluster]
        else exists i: nat :: FirstRun(v0, cat0.chains[d], per, n.Count(), i, n.start) && n.cluster == cat0.chains[d][i])
  }

  /** What making an entry promises, whether it succeeds or not. */
  ghost predicate EntryMade(v0: Vol, cat0: Cat, t0: seq<Vol>, v: Vol, cat: Cat, t: seq<Vol>, g: Geometry, bm: BitmapLoc,
                            upcase: seq<u16>, d: nat, id: nat, name: Name, isDir: bool, r: Result<()>)
  {
    && Consistent(v, cat, g, bm, upcase) && 0 < g.ClusterBytes() && d in cat0.chains
    && (r.Ok? <==> !BadName(name) && EntryClusters(v0, cat0, g.Per(), d, name, isDir) <= |FreeSet(v0)|)
    && (r.Ok? ==> Created(v0, cat0, v, cat, g, d, id, name, isDir))
    && (r.Err? ==> OnlySpares(v0, cat0, v, cat))
    && CrashSafe(v0, t, |t0|, cat0, g.ClusterBytes(), {d})
    && (r.Ok? ==> |t0| <= |t| - SetSize(name) && id in cat.nodes
                  && AlwaysPublished(t, |t| - SetSize(name), cat.nodes[id], g.ClusterBytes())
                  && PlacedWhere(v0, cat0, cat, g.Per(), d, cat.nodes[id])
                  && Confined(v0, v, PlacePrint(v0, cat0, d, cat.nodes[id])))
  }

  lemma EntryMadeIs(v0: Vol, cat0: Cat, t0: seq<Vol>, v: Vol, cat: Cat, t: seq<Vol>, g: Geometry, bm: BitmapLoc,
                    upcase: seq<u16>, d: nat, id: nat, name: Name, isDir: bool, r: Result<()>)
    requires Consistent(v, cat, g, bm, upcase) && 0 < g.ClusterBytes() && d in cat0.chains
    requires r.Ok? <==> !BadName(name) && EntryClusters(v0, cat0, g.Per(), d, name, isDir) <= |FreeSet(v0)|
    requires r.Ok? ==> Created(v0, cat0, v, cat, g, d, id, name, isDir)
    requires r.Err? ==> OnlySpares(v0, cat0, v, cat)
    requires CrashSafe(v0, t, |t0|, cat0, g.ClusterBytes(), {d})
    requires r.Ok? ==> |t0| <= |t| - SetSize(name) && id in cat.nodes
    requires r.Ok? ==> AlwaysPublished(t, |t| - SetSize(name), cat.nodes[id], g.ClusterBytes())
    requires r.Ok? ==> PlacedWhere(v0, cat0, cat, g.Per(), d, cat.nodes[id])
    requires r.Ok? ==> Confined(v0, v, PlacePrint(v0, cat0, d, cat.nodes[id]))
    ensures EntryMade(v0, cat0, t0, v, cat, t, g, bm, upcase, d, id, name, isDir, r)
  {
    hide Consistent, Created, OnlySpares, CrashSafe, AlwaysPublished, EntryClusters, BadName, SetSize, FreeSet, PlacedWhere, Confined,
         Geometry.ClusterBytes, Geometry.Per;
  }

  lemma EntryMadeConsistent(v0: Vol, cat0: Cat, t0: seq<Vol>, v: Vol, cat: Cat, t: seq<Vol>, g: Geometry, bm: BitmapLoc,
                            upcase: seq<u16>, d: nat, id: nat, name: Name, isDir: bool, r: Result<()>)
    requires EntryMade(v0, cat0, t0, v, cat, t, g, bm, upcase, d, id, name, isDir, r)
    ensures Consistent(v, cat, g, bm, upcase)
  {
    hide Consistent, Created, OnlySpares, CrashSafe, AlwaysPublished, EntryClusters, FreeSet, Geometry.ClusterBytes, Geometry.Per;
  }

  lemma ChosenWhere(v0: Vol, cat0: Cat, v: Vol, cat: Cat, per: nat, cb: nat, d: nat, n: Node, last: Cat)
    requires d in cat0.chains && RoomChosen(v0, cat0, v, cat, per, cb, d, n.Count(), n.cluster, n.start)
    requires d in last.chains && last.chains[d] == cat.chains[d]
    ensures PlacedWhere(v0, cat0, last, per, d, n)
  {
    hide RunAt, IndexOf;
    if i: nat :| FirstRun(v0, cat0.chains[d], per, n.Count(), i, n.start) && n.cluster == cat0.chains[d][i] && v == v0 && cat == cat0 {
      RunInChain(v0, cat0.chains[d], per, n.Count(), i, n.start);
    }
  }

  lemma NothingSpared(v: Vol, cat: Cat)
    ensures OnlySpares(v, cat, v, cat)
    requires cat.nodes.Keys <= cat.chains.Keys
  {
  }

  lemma RanOutSpared(v0: Vol, cat0: Cat, v: Vol, cat: Cat)
    requires SpaceRanOut(v0, cat0, v, cat)
    ensures OnlySpares(v0, cat0, v, cat)
  {
    hide OthersKept, FreeSet;
  }

  lemma NamesSize(n: Node)
    ensures n.Count() == SetSize(n.facts.name)
  {
  }

  lemma FileClustersNeeded(v: Vol, cat: Cat, per: nat, d: nat, name: Name)
    requires d in cat.chains
    ensures EntryClusters(v, cat, per, d, name, false) <= |FreeSet(v)|
        <==> !(NoRun(v, cat.chains[d], per, SetSize(name)) && FreeSet(v) == {})
  {
    hide NoRun, FreeSet, SetSize;
    EmptyIsNone(FreeSet(v));
  }

  /** Make the entry of an empty file. */
  method MakeFileEntry(v: Volume, upcase: seq<u16>, dir: DirHandle, name: Name, ghost cat: Cat, ghost d: nat)
    returns (r: Result<()>, ghost cat': Cat, ghost id: nat)
    requires v.Valid() && Consistent(v.vol, cat, v.geo, v.bm, upcase) && HandleFor(cat, dir, d) && 19 <= v.geo.Per()
    modifies v, v.disk
    ensures v.Valid() && old(v.trace) <= v.trace
    ensures EntryMade(old(v.vol), cat, old(v.trace), v.vol, cat', v.trace, v.geo, v.bm, upcase, d, id, name, false, r)
  {
    hide *;
    ghost var v0, t0 := v.vol, v.trace;
    var f := Facts(name, false, 0, 0, 0);
    TraceParts(v);
    NodesHaveChains(v0, cat, v.geo, v.bm, upcase);
    ghost var n, mid, m, cat1;
    r, cat1, n, mid, m := PlaceEntrySet(v, upcase, dir, f, cat, d);
    cat', id := cat1, FreshId(cat);
    FileClustersNeeded(v0, cat, v.geo.Per(), d, name);
    if r.Err? {
      GrowthSafe(v0, v.trace, |t0|, cat, v.geo, v.bm, upcase, d);
      if BadName(name) {
        NothingSpared(v0, cat);
      } else {
        OutOfSpace(v0, v.vol, cat, v.geo, v.bm, upcase);
        RanOutSpared(v0, cat, v.vol, cat1);
      }
    } else {
      cat' := WithNode(cat1, id, [], n);
      RoomSameButDir(v0, cat, mid, cat1, v.geo.Per(), v.geo.ClusterBytes(), d, n.Count(), n.cluster, n.start);
      DirsSame(cat, dir, cat1, d);
      ButDirParts(cat, cat1, d);
      PlacingIs(v0, cat, mid, cat1, v.vol, |t0|, m, v.trace, v.geo, v.bm, upcase, d, n);
      FileRecorded(mid, v.vol, m, v.trace, cat1, v.geo, v.bm, upcase, id, n);
      CreatedIs(v, v0, t0, cat, mid, cat1, m, upcase, d, n, id, [], cat1);
      PlacingSafe(v0, cat, mid, cat1, v.vol, |t0|, m, v.trace, v.geo, v.bm, upcase, d, n);
      WithNodeParts(cat1, id, [], n);
      NamesSize(n);
      PlacingTraced(v0, cat, mid, cat1, v.vol, |t0|, m, v.trace, v.geo, v.bm, upcase, d, n);
      ChosenWhere(v0, cat, mid, cat1, v.geo.Per(), v.geo.ClusterBytes(), d, n, WithNode(cat1, id, [], n));
    }
    EntryMadeIs(v0, cat, t0, v.vol, cat', v.trace, v.geo, v.bm, upcase, d, id, name, false, r);
  }

  lemma TraceParts(v: Volume)
    requires v.Valid()
    ensures v.trace != [] && v.trace[|v.trace| - 1] == v.vol
  {
  }

  lemma DirsSame(cat0: Cat, dir: DirHandle, cat: Cat, d: nat)
    requires HandleFor(cat0, dir, d) && SameButDir(cat0, cat, d)
    ensures cat.IsDir(d)
  {
  }

  /** An empty file, recorded; while its set was written it pointed at nothing. */
  lemma FileRecorded(mid: Vol, v: Vol, m: seq<Vol>, t: seq<Vol>, cat: Cat, g: Geometry, bm: BitmapLoc, upcase: seq<u16>, id: nat, n: Node)
    requires Consistent(mid, cat, g, bm, upcase) && 0 < g.ClusterBytes() && cat.IsDir(n.parent)
    requires Room(mid, cat, g.Per(), n.parent, n.Count(), n.cluster, n.start) && SetPlaced(mid, v, m, t, upcase, n)
    requires id > UPCASE && id !in cat.chains && id !in cat.nodes
    requires n.facts == Facts(n.facts.name, false, 0, 0, 0)
    ensures Consistent(v, WithNode(cat, id, [], n), g, bm, upcase)
    ensures |m| == |t| - n.Count() && AlwaysPublished(t, |m|, n, g.ClusterBytes())
  {
    hide *;
    PlacedOnDisk(mid, v, m, t, upcase, n);
    OwnershipParts(mid, cat, g, bm, upcase);
    NoClusters(mid, v, cat, id);
    EmptySuits(n.facts, g.ClusterBytes());
    NewNodeRecorded(mid, mid, v, m, t, cat, g, bm, upcase, id, n, []);
    WithNodeParts(cat, id, [], n);
    SuitedLength([], n.facts, g.ClusterBytes());
    NothingHeld(mid);
    NewSetPublished(mid, v, m, t, upcase, n, cat, g.Per(), [], g.ClusterBytes());
    PlacedLength(mid, v, m, t, upcase, n);
  }

  lemma NothingHeld(v: Vol)
    requires |v.bits| == |v.fat|
    ensures RunHeld(v, [])
  {
  }

  lemma PlacedLength(mid: Vol, v: Vol, m: seq<Vol>, t: seq<Vol>, upcase: seq<u16>, n: Node)
    requires SetPlaced(mid, v, m, t, upcase, n)
    ensures |t| == |m| + n.Count() && m <= t
  {
  }

  // ---- A new directory ---------------------------------------------------------------------

  /** What is known of the fresh cluster once the set that will own it has been placed. */
  lemma FreshStays(v0: Vol, v2: Vol, mid: Vol, v: Vol, m: seq<Vol>, t: seq<Vol>, cat1: Cat, cat: Cat, g: Geometry, bm: BitmapLoc,
                   upcase: seq<u16>, d: nat, n: Node, c: nat)
    requires Consistent(v2, cat1, g, bm, upcase) && Consistent(mid, cat, g, bm, upcase)
    requires d in cat1.chains && cat1.chains[d] != [] && c in cat1.spare && c !in cat1.own && cat.spare == cat1.spare
    requires FreshTaken(v0, v2, c, g.Per()) && FreeSet(v2) == FreeSet(v0) - {c}
    requires Confined(v2, mid, DirGrowthPrint(v2, cat1, d))
    requires SetPlaced(mid, v, m, t, upcase, n) && Room(mid, cat, g.Per(), n.parent, n.Count(), n.cluster, n.start)
    ensures 2 <= c < |mid.fat| && mid.fat[c] == END_OF_CHAIN && c < |mid.bits| && mid.bits[c]
    ensures Blank(v, c, g.Per()) && c in cat.spare
  {
    OwnershipParts(v2, cat1, g, bm, upcase);
    OwnershipParts(mid, cat, g, bm, upcase);
    RoomParts(mid, cat, g.Per(), n.parent, n.Count(), n.cluster, n.start);
    PlacedOnDisk(mid, v, m, t, upcase, n);
    SpareIsNotHome(cat, c);
    FreshOutside(v2, cat1, g, bm, upcase, d, c);
    hide Consistent, ChainsOwned, SlotsOwned, NodesOk, SystemOk, Room, SetPlaced, DirGrowthPrint, FreeSet, Geometry.Per, Placed, Vol.Slot;
    FreshKept(v0, v2, mid, v, DirGrowthPrint(v2, cat1, d), c, g.Per(), n);
  }

  lemma SpareIsNotHome(cat: Cat, c: nat)
    requires Placed(cat) && c in cat.spare
    ensures c !in cat.own
  {
  }

  lemma FreshOutside(v2: Vol, cat: Cat, g: Geometry, bm: BitmapLoc, upcase: seq<u16>, d: nat, c: nat)
    requires Consistent(v2, cat, g, bm, upcase) && d in cat.chains && cat.chains[d] != [] && c in cat.spare && c !in FreeSet(v2)
    ensures var f := DirGrowthPrint(v2, cat, d); c !in f.links && c !in f.marks && c !in f.data && c !in Homes(f.slots)
  {
    OwnershipParts(v2, cat, g, bm, upcase);
    OwnedIsInChain(cat, d);
    SpareIsNotHome(cat, c);
    if d in cat.nodes {
      NodeHome(v2, cat, g, bm, upcase, d);
    }
    hide Consistent, ChainsOwned, SlotsOwned, NodesOk, SystemOk, Placed, FreeSet;
    var f := DirGrowthPrint(v2, cat, d);
    forall x | x in Homes(f.slots)
      ensures x in cat.own
    {
      var a :| a in f.slots && a.cluster == x;
      assert a in cat.SetOf(d);
    }
  }

  lemma FreshKept(v0: Vol, v2: Vol, mid: Vol, v: Vol, f: Footprint, c: nat, per: nat, n: Node)
    requires FreshTaken(v0, v2, c, per) && Confined(v2, mid, f) && |v2.fat| == |v2.bits|
    requires c !in f.links && c !in f.marks && c !in f.data && c !in Homes(f.slots)
    requires n.cluster != c && forall a :: a !in n.SetAddrs() ==> v.Slot(a) == mid.Slot(a)
    ensures 2 <= c < |mid.fat| && mid.fat[c] == END_OF_CHAIN && c < |mid.bits| && mid.bits[c]
    ensures Blank(v, c, per)
  {
    hide Vol.Slot;
    forall s: nat | s < per
      ensures v.Slot(SlotAddr(c, s)) == Zeros(SLOT)
    {
      var a := SlotAddr(c, s);
      assert a in f.slots ==> a.cluster in Homes(f.slots);
      assert a !in n.SetAddrs();
      assert v2.Slot(a) == Zeros(SLOT);
    }
  }

  /** A new directory, recorded; while its set was written it headed its one cluster. */
  lemma DirRecorded(mid: Vol, v: Vol, m: seq<Vol>, t: seq<Vol>, cat: Cat, g: Geometry, bm: BitmapLoc, upcase: seq<u16>, id: nat, n: Node, c: nat)
    requires Consistent(mid, cat, g, bm, upcase) && 0 < g.ClusterBytes() && cat.IsDir(n.parent)
    requires Room(mid, cat, g.Per(), n.parent, n.Count(), n.cluster, n.start) && SetPlaced(mid, v, m, t, upcase, n)
    requires id > UPCASE && id !in cat.chains && id !in cat.nodes
    requires n.facts == Facts(n.facts.name, true, c, g.ClusterBytes(), 1)
    requires 2 <= c < |mid.fat| && mid.fat[c] == END_OF_CHAIN && c < |mid.bits| && mid.bits[c]
    requires Blank(v, c, g.Per()) && c in cat.spare
    ensures Consistent(v, WithNode(cat.(spare := cat.spare - {c}), id, [c], n), g, bm, upcase)
    ensures |m| == |t| - n.Count() && AlwaysPublished(t, |m|, n, g.ClusterBytes())
  {
    hide *;
    var cat' := cat.(spare := cat.spare - {c});
    PlacedOnDisk(mid, v, m, t, upcase, n);
    OwnershipParts(mid, cat, g, bm, upcase);
    SpareAside(mid, cat, g, bm, upcase, c);
    SpareBits(mid, cat, c);
    AdoptStep(mid, v, cat, id, c);
    OneClusterSuits(n.facts, c, g.ClusterBytes());
    SpareRoom(mid, cat, cat', g.Per(), n);
    NewNodeRecorded(mid.WithBit(c, false), mid, v, m, t, cat', g, bm, upcase, id, n, [c]);
    WithNodeParts(cat', id, [c], n);
    SuitedLength([c], n.facts, g.ClusterBytes());
    OneHeld(mid, c);
    NewSetPublished(mid, v, m, t, upcase, n, cat, g.Per(), [c], g.ClusterBytes());
    PlacedLength(mid, v, m, t, upcase, n);
  }

  lemma SpareRoom(v: Vol, cat: Cat, cat': Cat, per: nat, n: Node)
    requires Room(v, cat, per, n.parent, n.Count(), n.cluster, n.start) && cat' == cat.(spare := cat'.spare)
    requires cat.IsDir(n.parent)
    ensures Room(v, cat', per, n.parent, n.Count(), n.cluster, n.start) && cat'.IsDir(n.parent)
    ensures cat'.nodes == cat.nodes && cat'.chains == cat.chains && cat'.own == cat.own
  {
  }

  lemma OneHeld(v: Vol, c: nat)
    requires 2 <= c < |v.fat| && |v.bits| == |v.fat| && v.bits[c]
    ensures RunHeld(v, [c])
  {
  }

  /** Taking the first cluster stays inside what growing any directory may touch. */
  lemma FreshTraced(v0: Vol, v: Vol, t: seq<Vol>, from: nat, cat: Cat, g: Geometry, bm: BitmapLoc, upcase: seq<u16>, d: nat)
    requires Consistent(v0, cat, g, bm, upcase) && d in cat.chains && 0 < g.ClusterBytes()
    requires Through(v0, t, from, FreshPrint(v0)) && Confined(v0, v, FreshPrint(v0))
    ensures Through(v0, t, from, DirGrowthPrint(v0, cat, d)) && Confined(v0, v, DirGrowthPrint(v0, cat, d))
    ensures d in cat.nodes ==> AlwaysPublished(t, from, cat.nodes[d], g.ClusterBytes())
  {
    hide *;
    FreshWithin(v0, cat, d);
    var f := GrowthPrint(v0, cat.chains[d]).Join(ContentsOf(FreeSet(v0)));
    ThroughWider(v0, t, from, FreshPrint(v0), f);
    ThroughWider(v0, t, from, FreshPrint(v0), DirGrowthPrint(v0, cat, d));
    ConfinedWider(v0, v, FreshPrint(v0), DirGrowthPrint(v0, cat, d));
    if d in cat.nodes {
      DirGrowthSpares(v0, cat, g, bm, upcase, d);
      SparedThroughout(v0, t, from, cat, g, bm, upcase, d, f);
    }
  }

  lemma FreshWithin(v0: Vol, cat: Cat, d: nat)
    requires d in cat.chains
    ensures FreshPrint(v0).Within(GrowthPrint(v0, cat.chains[d]).Join(ContentsOf(FreeSet(v0))))
    ensures FreshPrint(v0).Within(DirGrowthPrint(v0, cat, d))
  {
    hide FreeSet, Cat.SetOf;
  }

  /** With fewer free clusters a growth may touch less. */
  lemma PrintShrinks(v0: Vol, v2: Vol, cat: Cat, cat1: Cat, d: nat)
    requires d in cat.chains && FreeSet(v2) <= FreeSet(v0) && cat1 == cat.(spare := cat1.spare)
    ensures DirGrowthPrint(v2, cat1, d).Within(DirGrowthPrint(v0, cat, d))
  {
    hide FreeSet;
  }

  lemma SpareHandle(cat: Cat, cat1: Cat, dir: DirHandle, d: nat)
    requires HandleFor(cat, dir, d) && cat1 == cat.(spare := cat1.spare)
    ensures HandleFor(cat1, dir, d)
  {
  }

  lemma SpareButDir(cat0: Cat, cat1: Cat, cat: Cat, d: nat)
    requires cat1 == cat0.(spare := cat1.spare) && SameButDir(cat1, cat, d)
    ensures SameButDir(cat0, cat, d)
  {
    assert forall k :: cat1.IsDir(k) <==> cat0.IsDir(k);
  }

  /** Two runs that stay inside a growth's footprint, one after the other. */
  lemma TwoPhases(v0: Vol, v2: Vol, mid: Vol, t2: seq<Vol>, m: seq<Vol>, from: nat, cat: Cat, cat1: Cat, d: nat, cb: nat)
    requires d in cat.chains && cat1 == cat.(spare := cat1.spare) && FreeSet(v2) <= FreeSet(v0) && 0 < cb
    requires from <= |t2| && t2 <= m
    requires Through(v0, t2, from, DirGrowthPrint(v0, cat, d)) && Confined(v0, v2, DirGrowthPrint(v0, cat, d))
    requires Through(v2, m, |t2|, DirGrowthPrint(v2, cat1, d)) && Confined(v2, mid, DirGrowthPrint(v2, cat1, d))
    requires d in cat.nodes ==> AlwaysPublished(t2, from, cat.nodes[d], cb) && AlwaysPublished(m, |t2|, cat1.nodes[d], cb)
    ensures Through(v0, m, from, DirGrowthPrint(v0, cat, d)) && Confined(v0, mid, DirGrowthPrint(v0, cat, d))
    ensures d in cat.nodes ==> AlwaysPublished(m, from, cat.nodes[d], cb)
  {
    hide *;
    var f, f2 := DirGrowthPrint(v0, cat, d), DirGrowthPrint(v2, cat1, d);
    PrintShrinks(v0, v2, cat, cat1, d);
    WithinSelf(f);
    assert m[..|t2|] == t2;
    ThroughChain(v0, t2, from, f, v2, m, f2, f);
    ConfinedWider(v2, mid, f2, f);
    ConfinedChain(v0, v2, mid, f);
    if d in cat.nodes {
      PublishedInPieces(t2, m, from, cat.nodes[d], cat1.nodes[d], cb);
    }
  }

  lemma WithinSelf(f: Footprint)
    ensures f.Within(f)
  {
  }

  /** A failed placement leaves all nodes as they were. */
  lemma FailedPlacement(v: Volume, v0: Vol, t0: seq<Vol>, cat0: Cat, cat: Cat, dir: DirHandle, d: nat)
    requires v.Valid() && t0 != [] && t0[|t0| - 1] == v0 && t0 <= v.trace && 0 < v.geo.ClusterBytes()
    requires CrashSafe(v0, v.trace, |t0|, cat0, v.geo.ClusterBytes(), {d}) && HandleFor(cat0, dir, d) && ROOT !in cat0.nodes
    requires cat == cat0.(spare := cat.spare) && cat0.spare <= cat.spare
    ensures OnlySpares(v0, cat0, v.vol, cat)
  {
    hide *;
    CrashSafeParts(v0, v.trace, |t0|, cat0, v.geo.ClusterBytes(), {d});
    FinalKept(v, v0, t0, cat0, {d});
    SafeKeepsOthers(v0, v.vol, cat0, cat, {d});
    OnlySparesIs(v0, cat0, v.vol, cat, dir, d);
  }

  lemma OnlySparesIs(v0: Vol, cat0: Cat, v: Vol, cat: Cat, dir: DirHandle, d: nat)
    requires OthersKept(v0, cat0, v, cat, {d}) && HandleFor(cat0, dir, d) && ROOT !in cat0.nodes
    requires cat == cat0.(spare := cat.spare) && cat0.spare <= cat.spare && cat0.nodes.Keys <= cat0.chains.Keys
    ensures OnlySpares(v0, cat0, v, cat)
  {
    hide FileContent;
  }

  lemma DirClustersNeeded(v0: Vol, v2: Vol, cat: Cat, cat1: Cat, per: nat, d: nat, name: Name, c: nat)
    requires d in cat.chains && cat1 == cat.(spare := cat1.spare) && c in FreeSet(v0) && FreeSet(v2) == FreeSet(v0) - {c}
    requires NoRun(v2, cat1.chains[d], per, SetSize(name)) <==> NoRun(v0, cat.chains[d], per, SetSize(name))
    ensures EntryClusters(v0, cat, per, d, name, true) <= |FreeSet(v0)|
        <==> !(NoRun(v2, cat1.chains[d], per, SetSize(name)) && FreeSet(v2) == {})
  {
    hide NoRun, FreeSet, SetSize;
    EmptyIsNone(FreeSet(v2));
  }

  lemma NoClusterForDir(v: Vol, cat: Cat, per: nat, d: nat, name: Name)
    requires d in cat.chains && FreeSet(v) == {}
    ensures EntryClusters(v, cat, per, d, name, true) > |FreeSet(v)|
  {
    hide NoRun, FreeSet, SetSize;
  }

  /** Room in a directory is a matter of its slots. */
  lemma SameRuns(v0: Vol, v: Vol, cat: Cat, d: nat, per: nat, k: nat, c: nat)
    requires d in cat.chains && FreshTaken(v0, v, c, per) && c !in cat.own && Placed(cat)
    ensures NoRun(v, cat.chains[d], per, k) <==> NoRun(v0, cat.chains[d], per, k)
  {
    hide Blank, FreeSet;
    var ch := cat.chains[d];
    OwnedIsInChain(cat, d);
    forall i, s: nat | 0 <= i < |ch|
      ensures RunAt(v, ch[i], per, k, s) <==> RunAt(v0, ch[i], per, k, s)
    {
      assert ch[i] in ch && ch[i] != c;
      assert forall j: nat :: v.Slot(SlotAddr(ch[i], j)) == v0.Slot(SlotAddr(ch[i], j));
    }
  }

  /** Make the entry of a new directory: one blank cluster first, then the set that points at it. */
  method MakeDirEntry(v: Volume, upcase: seq<u16>, dir: DirHandle, name: Name, ghost cat: Cat, ghost d: nat)
    returns (r: Result<()>, ghost cat': Cat, ghost id: nat)
    requires v.Valid() && Consistent(v.vol, cat, v.geo, v.bm, upcase) && HandleFor(cat, dir, d) && 19 <= v.geo.Per()
    modifies v, v.disk
    ensures v.Valid() && old(v.trace) <= v.trace
    ensures EntryMade(old(v.vol), cat, old(v.trace), v.vol, cat', v.trace, v.geo, v.bm, upcase, d, id, name, true, r)
  {
    hide *;
    ghost var v0, t0, cb := v.vol, v.trace, v.geo.ClusterBytes();
    TraceParts(v);
    OwnershipParts(v0, cat, v.geo, v.bm, upcase);
    HandleParts(cat, dir, d);
    id := FreshId(cat);
    var first;
    first, cat' := FirstDirCluster(v, upcase, cat);
    ghost var v2, t2, cat1 := v.vol, v.trace, cat';
    FreshTraced(v0, v2, t2, |t0|, cat, v.geo, v.bm, upcase, d);
    if first.Err? {
      GrowthSafe(v0, t2, |t0|, cat, v.geo, v.bm, upcase, d);
      OutOfSpace(v0, v.vol, cat, v.geo, v.bm, upcase);
      RanOutSpared(v0, cat, v.vol, cat');
      NoClusterForDir(v0, cat, v.geo.Per(), d, name);
      r := Err(first.error);
      EntryMadeIs(v0, cat, t0, v.vol, cat', v.trace, v.geo, v.bm, upcase, d, id, name, true, r);
      return;
    }
    var c := first.value;
    var f := Facts(name, true, c, v.geo.ClusterBytes(), 1);
    SpareHandle(cat, cat1, dir, d);
    FreshFits(v, v0, c);
    SameRuns(v0, v2, cat, d, v.geo.Per(), SetSize(name), c);
    ghost var n, mid, m, cat2;
    r, cat2, n, mid, m := PlaceEntrySet(v, upcase, dir, f, cat1, d);
    DirClustersNeeded(v0, v2, cat, cat1, v.geo.Per(), d, name, c);
    TwoPhases(v0, v2, mid, t2, m, |t0|, cat, cat1, d, cb);
    cat' := cat2;
    if r.Err? {
      GrowthSafe(v0, v.trace, |t0|, cat, v.geo, v.bm, upcase, d);
      RootIsNoNode(cat, v.geo, v.bm);
      FailedPlacement(v, v0, t0, cat, cat2, dir, d);
    } else {
      cat' := DirMade(v, v0, v2, mid, t0, m, cat, cat1, cat2, upcase, dir, d, n, id, c);
    }
    EntryMadeIs(v0, cat, t0, v.vol, cat', v.trace, v.geo, v.bm, upcase, d, id, name, true, r);
  }

  lemma FreshFits(v: Volume, v0: Vol, c: nat)
    requires v.Valid() && FreshTaken(v0, v.vol, c, v.geo.Per())
    ensures c < 0x1_0000_0000 && v.geo.ClusterBytes() < 0x1_0000_0000_0000_0000 && c in FreeSet(v0)
  {
    v.Sizes();
    ClusterBound(v);
    hide Volume.Valid, Blank, Geometry.ClusterBytes;
  }

  /** The bookkeeping of a directory whose set has been placed. */
  lemma DirMade(v: Volume, v0: Vol, v2: Vol, mid: Vol, t0: seq<Vol>, m: seq<Vol>, cat: Cat, cat1: Cat, cat2: Cat,
                upcase: seq<u16>, dir: DirHandle, d: nat, n: Node, id: nat, c: nat) returns (cat': Cat)
    requires v.Valid() && t0 != [] && t0[|t0| - 1] == v0 && t0 <= m && 0 < v.geo.ClusterBytes()
    requires Consistent(v0, cat, v.geo, v.bm, upcase) && HandleFor(cat, dir, d) && d in cat.chains && cat.chains[d] != []
    requires Consistent(v2, cat1, v.geo, v.bm, upcase) && Consistent(mid, cat2, v.geo, v.bm, upcase)
    requires cat1 == cat.(spare := cat.spare + {c}) && c !in cat.own && c !in cat.spare
    requires FreshTaken(v0, v2, c, v.geo.Per()) && FreeSet(v2) == FreeSet(v0) - {c}
    requires Confined(v2, mid, DirGrowthPrint(v2, cat1, d))
    requires Through(v0, m, |t0|, DirGrowthPrint(v0, cat, d)) && Confined(v0, mid, DirGrowthPrint(v0, cat, d))
    requires d in cat.nodes ==> AlwaysPublished(m, |t0|, cat.nodes[d], v.geo.ClusterBytes())
    requires SetPlaced(mid, v.vol, m, v.trace, upcase, n) && n.parent == d
    requires n.facts == Facts(n.facts.name, true, c, v.geo.ClusterBytes(), 1)
    requires Room(mid, cat2, v.geo.Per(), d, n.Count(), n.cluster, n.start)
    requires RoomChosen(v2, cat1, mid, cat2, v.geo.Per(), v.geo.ClusterBytes(), d, n.Count(), n.cluster, n.start)
    requires id > UPCASE && id !in cat.chains && id !in cat.nodes
    ensures Consistent(v.vol, cat', v.geo, v.bm, upcase)
    ensures Created(v0, cat, v.vol, cat', v.geo, d, id, n.facts.name, true)
    ensures CrashSafe(v0, v.trace, |t0|, cat, v.geo.ClusterBytes(), {d})
    ensures |t0| <= |v.trace| - SetSize(n.facts.name) && id in cat'.nodes
    ensures AlwaysPublished(v.trace, |v.trace| - SetSize(n.facts.name), cat'.nodes[id], v.geo.ClusterBytes())
    ensures PlacedWhere(v0, cat, cat', v.geo.Per(), d, cat'.nodes[id])
    ensures Confined(v0, v.vol, PlacePrint(v0, cat, d, cat'.nodes[id]))
  {
    hide *;
    RoomSameButDir(v2, cat1, mid, cat2, v.geo.Per(), v.geo.ClusterBytes(), d, n.Count(), n.cluster, n.start);
    SpareButDir(cat, cat1, cat2, d);
    DirsSame(cat, dir, cat2, d);
    ButDirParts(cat, cat2, d);
    PlacingIs(v0, cat, mid, cat2, v.vol, |t0|, m, v.trace, v.geo, v.bm, upcase, d, n);
    FreshStays(v0, v2, mid, v.vol, m, v.trace, cat1, cat2, v.geo, v.bm, upcase, d, n, c);
    DirRecorded(mid, v.vol, m, v.trace, cat2, v.geo, v.bm, upcase, id, n, c);
    var last := cat2.(spare := cat2.spare - {c});
    assert last.spare == cat.spare;
    cat' := WithNode(last, id, [c], n);
    PlacedLength(mid, v.vol, m, v.trace, upcase, n);
    CreatedIs(v, v0, t0, cat, mid, cat2, m, upcase, d, n, id, [c], last);
    PlacingSafe(v0, cat, mid, cat2, v.vol, |t0|, m, v.trace, v.geo, v.bm, upcase, d, n);
    WithNodeParts(last, id, [c], n);
    NamesSize(n);
    PlacingTraced(v0, cat, mid, cat2, v.vol, |t0|, m, v.trace, v.geo, v.bm, upcase, d, n);
    ChosenWhere(v2, cat1, mid, cat2, v.geo.Per(), v.geo.ClusterBytes(), d, n, cat');
    OwnershipParts(v0, cat, v.geo, v.bm, upcase);
    WhereBefore(v0, v2, cat, cat1, cat', d, v.geo.Per(), n, c);
  }

  /** Taking a free cluster moves no run of usable slots. */
  lemma WhereBefore(v0: Vol, v2: Vol, cat: Cat, cat1: Cat, last: Cat, d: nat, per: nat, n: Node, c: nat)
    requires d in cat.chains && FreshTaken(v0, v2, c, per) && c !in cat.own && Placed(cat) && cat1 == cat.(spare := cat1.spare)
    requires PlacedWhere(v2, cat1, last, per, d, n)
    ensures PlacedWhere(v0, cat, last, per, d, n)
  {
    var ch, k := cat.chains[d], n.Count();
    SameRuns(v0, v2, cat, d, per, k, c);
    SameRunAt(v0, v2, cat, d, per, k, c);
    hide RunAt, FreshTaken, Placed;
    if !NoRun(v2, ch, per, k) {
      var i: nat :| FirstRun(v2, ch, per, k, i, n.start) && n.cluster == ch[i];
      assert FirstRun(v0, ch, per, k, i, n.start) by {
        assert forall j :: 0 <= j < i ==> ch[..i][j] == ch[j];
      }
    }
  }

  lemma SameRunAt(v0: Vol, v: Vol, cat: Cat, d: nat, per: nat, k: nat, c: nat)
    requires d in cat.chains && FreshTaken(v0, v, c, per) && c !in cat.own && Placed(cat)
    ensures forall i, s: nat {:trigger RunAt(v, cat.chains[d][i], per, k, s)} {:trigger RunAt(v0, cat.chains[d][i], per, k, s)} ::
      0 <= i < |cat.chains[d]| ==> (RunAt(v, cat.chains[d][i], per, k, s) <==> RunAt(v0, cat.chains[d][i], per, k, s))
  {
    hide Blank, FreeSet;
    var ch := cat.chains[d];
    OwnedIsInChain(cat, d);
    forall i, s: nat | 0 <= i < |ch|
      ensures RunAt(v, ch[i], per, k, s) <==> RunAt(v0, ch[i], per, k, s)
    {
      assert ch[i] in ch && ch[i] != c;
      assert forall j: nat :: v.Slot(SlotAddr(ch[i], j)) == v0.Slot(SlotAddr(ch[i], j));
    }
  }
}
