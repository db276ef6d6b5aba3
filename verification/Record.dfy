/** Recording a node whose entry set has just been placed. */
module Records {
  import opened Bytes
  import opened Catalogues
  import opened EntrySets
  import opened FileWrites
  import opened Geometries
  import opened Outcomes
  import opened Placements
  import opened SlotLists
  import opened SlotWrites
  import opened Steps
  import opened Volumes

  // ---- Room is nobody's ------------------------------------------------------------------

  /** A slot that belongs to a set is in use. */
  lemma OwnedSlotInUse(v: Vol, cat: Cat, g: Geometry, bm: BitmapLoc, upcase: seq<u16>, a: SlotAddr)
    requires Consistent(v, cat, g, bm, upcase) && a in cat.slotOwn
    ensures |v.Slot(a)| == SLOT && !Usable(v.Slot(a))
  {
    OwnershipParts(v, cat, g, bm, upcase);
    var id := cat.slotOwn[a];
    OwnedSlotInSet(v, cat, g.Per(), a);
    NodeFacts(v, cat, g, bm, upcase, id);
    hide Consistent, SlotsOwned, NodesOk, SystemOk, ChainsOwned, Encode, Vol.Slot, Geometry.ClusterBytes, Geometry.Per;
    var n := cat.nodes[id];
    var j :| 0 <= j < n.Count() && n.SetAddrs()[j] == a;
    SetHead(n.facts, upcase);
    assert v.Slot(n.Addr(j)) == Encode(n.facts, upcase)[j];
  }

  lemma RoomIsFree(v: Vol, cat: Cat, g: Geometry, bm: BitmapLoc, upcase: seq<u16>, d: nat, n: Node)
    requires Consistent(v, cat, g, bm, upcase) && Room(v, cat, g.Per(), d, n.Count(), n.cluster, n.start)
    ensures forall j :: 0 <= j < n.Count() ==> n.Addr(j) !in cat.slotOwn
    ensures n.cluster in cat.own && cat.own[n.cluster].id == d && n.start + n.Count() <= g.Per()
  {
    RoomParts(v, cat, g.Per(), d, n.Count(), n.cluster, n.start);
    hide Consistent, Room, Vol.Slot, Geometry.Per;
    forall j | 0 <= j < n.Count()
      ensures n.Addr(j) !in cat.slotOwn
    {
      if n.Addr(j) in cat.slotOwn {
        OwnedSlotInUse(v, cat, g, bm, upcase, n.Addr(j));
      }
    }
  }

  // ---- The record ------------------------------------------------------------------------

  lemma PlacedOnDisk(mid: Vol, v: Vol, m: seq<Vol>, t: seq<Vol>, upcase: seq<u16>, n: Node)
    requires SetPlaced(mid, v, m, t, upcase, n)
    ensures n.facts.Recordable() && SetOnDisk(v, n, upcase)
    ensures forall a :: a !in n.SetAddrs() ==> v.Slot(a) == mid.Slot(a)
    ensures v.fat == mid.fat && v.bits == mid.bits && |v.data| == |mid.data|
    ensures forall c :: 0 <= c < |v.data| && c != n.cluster ==> v.data[c] == mid.data[c]
  {
    hide Encode, Vol.Slot, SlotTrace;
    var addrs := n.SetAddrs();
    assert addrs[..n.Count()] == addrs;
    forall j | 0 <= j < n.Count()
      ensures v.Slot(n.Addr(j)) == Encode(n.facts, upcase)[j]
    {
      assert v.Slot(addrs[j]) == Encode(n.facts, upcase)[j];
    }
  }

  /** A set placed in free slots, and a chain of unowned clusters, make a new node of the volume. `mid0` is the
      volume the set was placed in, up to links and bits. */
  lemma NewNodeRecorded(mid0: Vol, mid: Vol, v: Vol, m: seq<Vol>, t: seq<Vol>, cat: Cat, g: Geometry, bm: BitmapLoc,
                        upcase: seq<u16>, id: nat, n: Node, ch: seq<nat>)
    requires Consistent(mid0, cat, g, bm, upcase) && mid0.data == mid.data && 0 < g.ClusterBytes()
    requires Room(mid, cat, g.Per(), n.parent, n.Count(), n.cluster, n.start) && cat.IsDir(n.parent)
    requires SetPlaced(mid, v, m, t, upcase, n)
    requires id > UPCASE && id !in cat.chains && id !in cat.nodes
    requires ChainStep(mid0, v, cat, id, ch) && ChainSuits(ch, n.facts, g.ClusterBytes()) && n.facts.flags <= 1
    requires forall c :: c in ch ==> c !in cat.own
    requires n.facts.isDir ==> forall c :: c in ch ==> Blank(v, c, g.Per())
    ensures Consistent(v, cat.SetChain(id, ch).PutNode(id, n), g, bm, upcase)
  {
    PlacedOnDisk(mid, v, m, t, upcase, n);
    SameDataSameSlots(mid0, mid);
    SameRoom(mid0, mid, cat, g.Per(), n);
    RoomIsFree(mid0, cat, g, bm, upcase, n.parent, n);
    NewNodeFits(v, cat, g, id, n, ch);
    PlacedSlots(mid0, mid, v, cat, id, n);
    hide *;
    RecordKeepsConsistent(mid0, v, cat, g, bm, upcase, id, n, ch);
  }

  lemma SameDataSameSlots(a: Vol, b: Vol)
    requires a.data == b.data
    ensures forall x: SlotAddr :: a.Slot(x) == b.Slot(x)
  {
  }

  lemma SameRoom(mid0: Vol, mid: Vol, cat: Cat, per: nat, n: Node)
    requires Room(mid, cat, per, n.parent, n.Count(), n.cluster, n.start) && forall x: SlotAddr :: mid0.Slot(x) == mid.Slot(x)
    ensures Room(mid0, cat, per, n.parent, n.Count(), n.cluster, n.start)
  {
    hide Vol.Slot;
  }

  lemma PlacedSlots(mid0: Vol, mid: Vol, v: Vol, cat: Cat, id: nat, n: Node)
    requires forall x: SlotAddr :: mid0.Slot(x) == mid.Slot(x)
    requires forall a :: a !in n.SetAddrs() ==> v.Slot(a) == mid.Slot(a)
    ensures DirSlotsSame(mid0, v, cat, cat.SetOf(id) + Elems(n.SetAddrs()))
  {
    hide Vol.Slot;
  }

  lemma NewNodeFits(v: Vol, cat: Cat, g: Geometry, id: nat, n: Node, ch: seq<nat>)
    requires 0 < g.ClusterBytes() && n.facts.Recordable() && n.facts.flags <= 1 && cat.IsDir(n.parent)
    requires forall j :: 0 <= j < n.Count() ==> n.Addr(j) !in cat.slotOwn
    requires n.cluster in cat.own && cat.own[n.cluster].id == n.parent && n.start + n.Count() <= g.Per()
    requires id > UPCASE && id !in cat.chains && id !in cat.nodes
    requires forall c :: c in ch ==> c !in cat.own
    requires ChainSuits(ch, n.facts, g.ClusterBytes())
    requires n.facts.isDir ==> forall c :: c in ch ==> Blank(v, c, g.Per())
    ensures Recordable(cat, id, n, ch) && NodeFits(cat, g.ClusterBytes(), n, ch) && NoStrayFile(v, cat, g.Per(), id, n, ch)
  {
    hide ChainSuits, Blank, Vol.Slot, Geometry.ClusterBytes;
    if n.facts.isDir {
      forall a: SlotAddr | a.cluster in ch && a.index < g.Per() && |v.Slot(a)| == SLOT
        ensures v.Slot(a)[0] != ENTRY_FILE
      {
        BlankIsNoFile(v, a.cluster, g.Per());
      }
    }
  }

  // ---- A step without clusters -----------------------------------------------------------

  /** A node without clusters takes no step. */
  lemma NoClusters(mid: Vol, v: Vol, cat: Cat, id: nat)
    requires ChainsOwned(mid, cat) && id !in cat.chains && v.fat == mid.fat && v.bits == mid.bits
    ensures ChainStep(mid, v, cat, id, [])
  {
    NothingOwned(cat, id);
  }

  lemma EmptySuits(f: Facts, cb: nat)
    requires 0 < cb && !f.isDir && f.first == 0 && f.len == 0
    ensures ChainSuits([], f, cb)
  {
    DivCeilBounds(0, cb);
  }

  // ---- Adopting a spare cluster ----------------------------------------------------------

  /** A spare cluster set aside: as if it were free again. */
  lemma SpareAside(v: Vol, cat: Cat, g: Geometry, bm: BitmapLoc, upcase: seq<u16>, c: nat)
    requires Consistent(v, cat, g, bm, upcase) && c in cat.spare
    ensures c !in cat.own
    ensures Consistent(v.WithBit(c, false), cat.(spare := cat.spare - {c}), g, bm, upcase)
  {
    OwnershipParts(v, cat, g, bm, upcase);
    SpareBits(v, cat, c);
    hide Consistent, ChainsOwned, SlotsOwned, NodesOk, SystemOk, Geometry.ClusterBytes, Geometry.Per;
    SparesMayDiffer(v, v.WithBit(c, false), cat, g, bm, upcase, cat.spare - {c});
  }

  lemma SpareBits(v: Vol, cat: Cat, c: nat)
    requires ChainsOwned(v, cat) && c in cat.spare
    ensures c !in cat.own && cat.spare - {c} !! cat.own.Keys
    ensures var w := v.WithBit(c, false); |w.fat| == |v.fat| && |w.bits| == |v.bits| && w.data == v.data && w.fat == v.fat
    ensures var w := v.WithBit(c, false);
      forall x :: 2 <= x < |w.bits| ==> (w.bits[x] <==> x in cat.own || x in cat.spare - {c})
    ensures DirSlotsSame(v, v.WithBit(c, false), cat, {})
  {
    SameDataSameSlots(v, v.WithBit(c, false));
    hide Vol.Slot;
  }

  /** The adopted cluster becomes the chain of the new node. */
  lemma AdoptStep(mid: Vol, v: Vol, cat: Cat, id: nat, c: nat)
    requires ChainsOwned(mid, cat) && c in cat.spare && id !in cat.chains
    requires v.fat == mid.fat && v.bits == mid.bits
    requires 2 <= c < |mid.fat| && mid.fat[c] == END_OF_CHAIN
    ensures ChainStep(mid.WithBit(c, false), v, cat.(spare := cat.spare - {c}), id, [c])
  {
    NothingOwned(cat, id);
    assert mid.bits[c];
  }

  lemma OneClusterSuits(f: Facts, c: nat, cb: nat)
    requires 0 < cb && f.isDir && f.first == c && f.len == cb
    ensures ChainSuits([c], f, cb)
  {
  }
}
