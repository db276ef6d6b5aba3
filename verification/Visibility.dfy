/** When a freshly placed entry can be found again: both the search and the reader stop at the first
    end-of-directory slot, and a directory can grow past one. */
module Visibilities {
  import opened Alloc
  import opened Bytes
  import opened Catalogues
  import opened Creations
  import opened Directories
  import opened EntrySets
  import opened FileWrites
  import opened Footprints
  import opened Geometries
  import opened Listings
  import opened Lookups
  import opened Outcomes
  import opened Placements
  import opened Removals
  import opened Renames
  import opened SlotLists
  import opened SlotWrites
  import opened Volumes

  /** Slot `e` of the `i`-th cluster ends the directory, and no run of `k` usable slots starts at it or before. */
  ghost predicate HoleAt(v: Vol, ch: seq<nat>, per: nat, k: nat, i: nat, e: nat)
  {
    && i < |ch| && e < per && |v.Slot(SlotAddr(ch[i], e))| == SLOT && v.Slot(SlotAddr(ch[i], e))[0] == ENTRY_END
    && forall i': nat, s: nat {:trigger RunAt(v, ch[i'], per, k, s)} ::
         i' <= i && RunAt(v, ch[i'], per, k, s) ==> i' == i && e < s
  }

  /** The directory has an end-of-directory slot ahead of the first room for `k` slots. */
  ghost predicate HoleAhead(v: Vol, ch: seq<nat>, per: nat, k: nat)
  {
    exists i: nat, e: nat :: HoleAt(v, ch, per, k, i, e)
  }

  lemma EndAt(v: Vol, ch: seq<nat>, per: nat, x: nat)
    requires 0 < per && x < |Addrs(ch, per)|
    ensures var i, e := x / per, x % per;
      && i < |ch| && e < per && x == i * per + e && SlotsAt(v, Addrs(ch, per))[x] == v.Slot(SlotAddr(ch[i], e))
  {
    AddrsIndex(ch, per, x);
    hide Addrs, Vol.Slot;
  }

  lemma AtPosition(v: Vol, ch: seq<nat>, per: nat, i: nat, e: nat)
    requires i < |ch| && e < per
    ensures i * per + e < |Addrs(ch, per)| && SlotsAt(v, Addrs(ch, per))[i * per + e] == v.Slot(SlotAddr(ch[i], e))
  {
    AddrsAt(ch, per, i, e);
    hide Addrs, Vol.Slot;
  }

  lemma Earlier(per: nat, i: nat, e: nat, i0: nat, s0: nat)
    requires e < per && s0 < per
    ensures i * per + e < i0 * per + s0 <==> i < i0 || (i == i0 && e < s0)
  {
    if i < i0 {
      MulMono(i, i0, per);
    } else if i0 < i {
      MulMono(i0, i, per);
    }
  }

  lemma HoleIsBefore(v: Vol, ch: seq<nat>, per: nat, k: nat, i0: nat, s0: nat, i: nat, e: nat)
    requires i0 < |ch| && s0 < per && RunAt(v, ch[i0], per, k, s0) && HoleAt(v, ch, per, k, i, e)
    requires Slots(SlotsAt(v, Addrs(ch, per)))
    ensures !Open(SlotsAt(v, Addrs(ch, per)), 0, i0 * per + s0)
  {
    hide Addrs, Vol.Slot, RunAt;
    Earlier(per, i, e, i0, s0);
    AtPosition(v, ch, per, i, e);
    assert SlotsAt(v, Addrs(ch, per))[i * per + e][0] == ENTRY_END;
  }

  lemma EndIsHole(v: Vol, ch: seq<nat>, per: nat, k: nat, i0: nat, s0: nat, i: nat, e: nat)
    requires FirstRun(v, ch, per, k, i0, s0) && i < |ch| && e < per && (i < i0 || (i == i0 && e < s0))
    requires |v.Slot(SlotAddr(ch[i], e))| == SLOT && v.Slot(SlotAddr(ch[i], e))[0] == ENTRY_END
    ensures HoleAhead(v, ch, per, k)
  {
    hide Vol.Slot, RunAt;
    forall i': nat, s: nat | i' <= i && RunAt(v, ch[i'], per, k, s)
      ensures i' == i && e < s
    {
      if i' < i0 {
        NotBefore(v, ch, per, k, i0, i', s);
      }
    }
    assert HoleAt(v, ch, per, k, i, e);
  }

  lemma NotBefore(v: Vol, ch: seq<nat>, per: nat, k: nat, i0: nat, i: nat, s: nat)
    requires i < i0 <= |ch| && NoRun(v, ch[..i0], per, k)
    ensures !RunAt(v, ch[i], per, k, s)
  {
    hide RunAt;
    assert ch[..i0][i] == ch[i];
  }

  /** With a first run at slot `s0` of the `i0`-th cluster there is a hole exactly when a slot before it ends the
      directory. */
  lemma HoleBeforeRun(v: Vol, ch: seq<nat>, per: nat, k: nat, i0: nat, s0: nat)
    requires 0 < per && 0 < k && FirstRun(v, ch, per, k, i0, s0) && Slots(SlotsAt(v, Addrs(ch, per)))
    ensures s0 < per && (HoleAhead(v, ch, per, k) <==> !Open(SlotsAt(v, Addrs(ch, per)), 0, i0 * per + s0))
  {
    RunFits(v, ch, per, k, i0, s0);
    hide *;
    if HoleAhead(v, ch, per, k) {
      var i, e := SomeHole(v, ch, per, k);
      HoleIsBefore(v, ch, per, k, i0, s0, i, e);
    }
    if !Open(SlotsAt(v, Addrs(ch, per)), 0, i0 * per + s0) {
      var x := SomeEnd(SlotsAt(v, Addrs(ch, per)), i0 * per + s0);
      EndBeforeRun(v, ch, per, k, i0, s0, x);
    }
  }

  lemma SomeHole(v: Vol, ch: seq<nat>, per: nat, k: nat) returns (i: nat, e: nat)
    requires HoleAhead(v, ch, per, k)
    ensures HoleAt(v, ch, per, k, i, e)
  {
    hide HoleAt;
    i, e :| HoleAt(v, ch, per, k, i, e);
  }

  lemma SomeEnd(slots: seq<seq<byte>>, j: nat) returns (x: nat)
    requires Slots(slots) && !Open(slots, 0, j)
    ensures x < j && x < |slots| && |slots[x]| == SLOT && slots[x][0] == ENTRY_END
  {
    x :| x < j && x < |slots| && slots[x][0] == ENTRY_END;
  }

  lemma EndBeforeRun(v: Vol, ch: seq<nat>, per: nat, k: nat, i0: nat, s0: nat, x: nat)
    requires 0 < per && FirstRun(v, ch, per, k, i0, s0) && s0 < per && x < i0 * per + s0 && x < |Addrs(ch, per)|
    requires |SlotsAt(v, Addrs(ch, per))[x]| == SLOT && SlotsAt(v, Addrs(ch, per))[x][0] == ENTRY_END
    ensures HoleAhead(v, ch, per, k)
  {
    hide Addrs, Vol.Slot, RunAt, FirstRun, HoleAt, HoleAhead;
    EndAt(v, ch, per, x);
    Earlier(per, x / per, x % per, i0, s0);
    EndIsHole(v, ch, per, k, i0, s0, x / per, x % per);
  }

  lemma RunFits(v: Vol, ch: seq<nat>, per: nat, k: nat, i0: nat, s0: nat)
    requires FirstRun(v, ch, per, k, i0, s0) && 0 < k
    ensures i0 < |ch| && RunAt(v, ch[i0], per, k, s0) && s0 < per
  {
  }

  /** Without any run there is a hole exactly when some slot ends the directory. */
  lemma HoleWithoutRun(v: Vol, ch: seq<nat>, per: nat, k: nat)
    requires 0 < per && NoRun(v, ch, per, k) && Slots(SlotsAt(v, Addrs(ch, per)))
    ensures HoleAhead(v, ch, per, k) <==> !Open(SlotsAt(v, Addrs(ch, per)), 0, |Addrs(ch, per)|)
  {
    hide Addrs, Vol.Slot, RunAt;
    var slots := SlotsAt(v, Addrs(ch, per));
    if HoleAhead(v, ch, per, k) {
      var i: nat, e: nat :| HoleAt(v, ch, per, k, i, e);
      AtPosition(v, ch, per, i, e);
      assert slots[i * per + e][0] == ENTRY_END;
    }
    if !Open(slots, 0, |Addrs(ch, per)|) {
      var x: nat :| x < |slots| && slots[x][0] == ENTRY_END;
      EndAt(v, ch, per, x);
      assert HoleAt(v, ch, per, k, x / per, x % per);
    }
  }

  // ---- What placing a set does to the slots before it ------------------------------------------

  /** Two slots that both end a directory or both do not. */
  ghost predicate EndsAlike(a: seq<byte>, b: seq<byte>)
  {
    |a| == SLOT && |b| == SLOT && (a[0] == ENTRY_END <==> b[0] == ENTRY_END)
  }

  /** The directory slots that were there before, other than those of `n`, end a directory now if and only if they
      ended it before. */
  ghost predicate EndsAsBefore(v0: Vol, v: Vol, cat0: Cat, n: Node)
  {
    forall a: SlotAddr {:trigger v.Slot(a)} ::
      a.cluster in cat0.own && a !in n.SetAddrs() && |v0.Slot(a)| == SLOT && |v.Slot(a)| == SLOT ==>
        EndsAlike(v0.Slot(a), v.Slot(a))
  }

  /** The slots of directory `d` that were there before, other than those of `n`, end it now if and only if they
      ended it before. */
  lemma EndsKept(v0: Vol, v: Vol, cat0: Cat, cat: Cat, g: Geometry, bm: BitmapLoc, upcase: seq<u16>, d: nat, n: Node, a: SlotAddr)
    requires Consistent(v0, cat0, g, bm, upcase) && Consistent(v, cat, g, bm, upcase)
    requires d in cat0.chains && Confined(v0, v, PlacePrint(v0, cat0, d, n))
    requires d in cat0.nodes ==> d in cat.nodes && SameEntry(cat0.nodes[d], cat.nodes[d])
    requires a.cluster in cat0.own && a !in n.SetAddrs()
    requires |v0.Slot(a)| == SLOT && |v.Slot(a)| == SLOT
    ensures EndsAlike(v0.Slot(a), v.Slot(a))
  {
    hide *;
    OwnershipParts(v0, cat0, g, bm, upcase);
    HomeNotFree(v0, cat0, a.cluster);
    if a in cat0.SetOf(d) {
      InSetIsNode(cat0, d, a);
      SetSlotStays(v0, v, cat0, cat, g, bm, upcase, d, a);
    } else {
      SlotOutsidePrint(v0, v, cat0, d, n, a);
    }
    AlikeIs(v0.Slot(a), v.Slot(a));
  }

  lemma InSetIsNode(cat: Cat, d: nat, a: SlotAddr)
    requires a in cat.SetOf(d)
    ensures d in cat.nodes
  {
  }

  lemma SlotOutsidePrint(v0: Vol, v: Vol, cat0: Cat, d: nat, n: Node, a: SlotAddr)
    requires d in cat0.chains && Confined(v0, v, PlacePrint(v0, cat0, d, n))
    requires a !in n.SetAddrs() && a !in cat0.SetOf(d) && a.cluster !in FreeSet(v0)
    ensures v.Slot(a) == v0.Slot(a)
  {
    hide Vol.Slot, FreeSet;
  }

  lemma SetSlotStays(v0: Vol, v: Vol, cat0: Cat, cat: Cat, g: Geometry, bm: BitmapLoc, upcase: seq<u16>, d: nat, a: SlotAddr)
    requires Consistent(v0, cat0, g, bm, upcase) && Consistent(v, cat, g, bm, upcase)
    requires a in cat0.SetOf(d) && d in cat.nodes && d in cat0.nodes && SameEntry(cat0.nodes[d], cat.nodes[d])
    requires |v0.Slot(a)| == SLOT == |v.Slot(a)|
    ensures v.Slot(a)[0] != ENTRY_END && v0.Slot(a)[0] != ENTRY_END
  {
    NodeFacts(v0, cat0, g, bm, upcase, d);
    NodeFacts(v, cat, g, bm, upcase, d);
    hide Consistent, Vol.Slot, Geometry.ClusterBytes, Geometry.Per, Cat.InDirectory;
    SetMember(cat0.nodes[d], cat0, d, a);
    SetSlotOpen(v0, cat0.nodes[d], upcase, a);
    assert cat.nodes[d].SetAddrs() == cat0.nodes[d].SetAddrs();
    SetSlotOpen(v, cat.nodes[d], upcase, a);
  }

  lemma SetMember(n: Node, cat: Cat, d: nat, a: SlotAddr)
    requires d in cat.nodes && n == cat.nodes[d] && a in cat.SetOf(d)
    ensures a in n.SetAddrs()
  {
  }

  lemma SetSlotOpen(v: Vol, n: Node, upcase: seq<u16>, a: SlotAddr)
    requires n.facts.Recordable() && SetOnDisk(v, n, upcase) && a in n.SetAddrs() && |v.Slot(a)| == SLOT
    ensures v.Slot(a)[0] != ENTRY_END
  {
    SetHead(n.facts, upcase);
    hide Encode, Vol.Slot;
    var j :| 0 <= j < n.Count() && n.SetAddrs()[j] == a;
    assert v.Slot(n.Addr(j)) == Encode(n.facts, upcase)[j];
  }

  lemma AlikeIs(a: seq<byte>, b: seq<byte>)
    requires |a| == SLOT && |b| == SLOT && (a[0] == ENTRY_END <==> b[0] == ENTRY_END)
    ensures EndsAlike(a, b)
  {
  }

  /** Positions before the new set are as they were. */
  lemma BeforeTheSet(v0: Vol, v: Vol, cat0: Cat, cat: Cat, g: Geometry, bm: BitmapLoc, upcase: seq<u16>, d: nat, id: nat, x: nat)
    requires Consistent(v0, cat0, g, bm, upcase) && Consistent(v, cat, g, bm, upcase)
    requires Walkable(v0, cat0, g.ClusterBytes(), g.Per(), upcase, d) && Walkable(v, cat, g.ClusterBytes(), g.Per(), upcase, d)
    requires d in cat0.chains && d in cat.chains && cat0.chains[d] <= cat.chains[d] && id in cat.nodes && cat.nodes[id].parent == d
    requires EndsAsBefore(v0, v, cat0, cat.nodes[id])
    requires x < |Addrs(cat0.chains[d], g.Per())| && (x < Position(cat, g.Per(), id) || x >= Position(cat, g.Per(), id) + cat.nodes[id].Count())
    ensures x < |Addrs(cat.chains[d], g.Per())| && Addrs(cat.chains[d], g.Per())[x] == Addrs(cat0.chains[d], g.Per())[x]
    ensures EndsAlike(SlotsAt(v0, Addrs(cat0.chains[d], g.Per()))[x], SlotsAt(v, Addrs(cat.chains[d], g.Per()))[x])
  {
    hide *;
    var per, n := g.Per(), cat.nodes[id];
    var addrs0, addrs := Addrs(cat0.chains[d], per), Addrs(cat.chains[d], per);
    AddrsPrefix(cat0.chains[d], cat.chains[d], per);
    WalkableSlots(v0, cat0, g.ClusterBytes(), per, upcase, d);
    WalkableSlots(v, cat, g.ClusterBytes(), per, upcase, d);
    WholeSlot(SlotsAt(v0, addrs0), x);
    WholeSlot(SlotsAt(v, addrs), x);
    NodeAtPosition(v, cat, g.ClusterBytes(), per, upcase, d, id);
    WalkOwned(v0, cat0, g.ClusterBytes(), per, upcase, d, x);
    if addrs[x] in n.SetAddrs() {
      AddrsDistinct(v, cat, g.ClusterBytes(), per, upcase, d, x, Position(cat, per, id), n);
    }
    EndsAt(v0, v, cat0, n, addrs0[x]);
  }

  lemma EndsAt(v0: Vol, v: Vol, cat0: Cat, n: Node, a: SlotAddr)
    requires EndsAsBefore(v0, v, cat0, n) && a.cluster in cat0.own && a !in n.SetAddrs()
    requires |v0.Slot(a)| == SLOT && |v.Slot(a)| == SLOT
    ensures EndsAlike(v0.Slot(a), v.Slot(a))
  {
    hide Vol.Slot, EndsAlike;
  }

  /** After a creation. */
  lemma CreationEnds(v0: Vol, v: Vol, cat0: Cat, cat: Cat, g: Geometry, bm: BitmapLoc, upcase: seq<u16>, d: nat, n: Node)
    requires Consistent(v0, cat0, g, bm, upcase) && Consistent(v, cat, g, bm, upcase)
    requires d in cat0.chains && Confined(v0, v, PlacePrint(v0, cat0, d, n))
    requires d in cat0.nodes ==> d in cat.nodes && SameEntry(cat0.nodes[d], cat.nodes[d])
    ensures EndsAsBefore(v0, v, cat0, n)
  {
    hide Consistent, Confined, PlacePrint, SameEntry, Vol.Slot;
    forall a: SlotAddr | a.cluster in cat0.own && a !in n.SetAddrs() && |v0.Slot(a)| == SLOT && |v.Slot(a)| == SLOT
      ensures EndsAlike(v0.Slot(a), v.Slot(a))
    {
      EndsKept(v0, v, cat0, cat, g, bm, upcase, d, n, a);
    }
  }

  /** After a move. */
  lemma MoveEnds(v0: Vol, v: Vol, cat0: Cat, cat: Cat, g: Geometry, bm: BitmapLoc, upcase: seq<u16>, d: nat, n: Node, id: nat)
    requires Consistent(v0, cat0, g, bm, upcase) && Consistent(v, cat, g, bm, upcase) && id in cat0.nodes
    requires d in cat0.chains && Confined(v0, v, MovePrint(v0, cat0, d, n, id)) && LeftUnused(v, cat0.nodes[id])
    requires d in cat0.nodes && d != id ==> d in cat.nodes && SameEntry(cat0.nodes[d], cat.nodes[d])
    ensures EndsAsBefore(v0, v, cat0, n)
  {
    hide Consistent, Confined, MovePrint, SameEntry, Vol.Slot, LeftUnused;
    forall a: SlotAddr | a.cluster in cat0.own && a !in n.SetAddrs() && |v0.Slot(a)| == SLOT && |v.Slot(a)| == SLOT
      ensures EndsAlike(v0.Slot(a), v.Slot(a))
    {
      MoveEndsKept(v0, v, cat0, cat, g, bm, upcase, d, n, id, a);
    }
  }

  lemma MoveEndsKept(v0: Vol, v: Vol, cat0: Cat, cat: Cat, g: Geometry, bm: BitmapLoc, upcase: seq<u16>, d: nat, n: Node, id: nat, a: SlotAddr)
    requires Consistent(v0, cat0, g, bm, upcase) && Consistent(v, cat, g, bm, upcase) && id in cat0.nodes
    requires d in cat0.chains && Confined(v0, v, MovePrint(v0, cat0, d, n, id)) && LeftUnused(v, cat0.nodes[id])
    requires d in cat0.nodes && d != id ==> d in cat.nodes && SameEntry(cat0.nodes[d], cat.nodes[d])
    requires a.cluster in cat0.own && a !in n.SetAddrs() && |v0.Slot(a)| == SLOT && |v.Slot(a)| == SLOT
    ensures EndsAlike(v0.Slot(a), v.Slot(a))
  {
    hide *;
    OwnershipParts(v0, cat0, g, bm, upcase);
    HomeNotFree(v0, cat0, a.cluster);
    if a in cat0.SetOf(id) {
      SetMember(cat0.nodes[id], cat0, id, a);
      NodeFacts(v0, cat0, g, bm, upcase, id);
      SetSlotOpen(v0, cat0.nodes[id], upcase, a);
      UnusedOpen(v, cat0.nodes[id], a);
      AlikeIs(v0.Slot(a), v.Slot(a));
    } else if a in cat0.SetOf(d) {
      InSetIsNode(cat0, d, a);
      SetSlotStays(v0, v, cat0, cat, g, bm, upcase, d, a);
      AlikeIs(v0.Slot(a), v.Slot(a));
    } else {
      SlotOutsideMove(v0, v, cat0, d, n, id, a);
      AlikeIs(v0.Slot(a), v.Slot(a));
    }
  }

  lemma UnusedOpen(v: Vol, n: Node, a: SlotAddr)
    requires LeftUnused(v, n) && a in n.SetAddrs() && |v.Slot(a)| == SLOT
    ensures v.Slot(a)[0] != ENTRY_END
  {
    hide Vol.Slot;
  }

  lemma SlotOutsideMove(v0: Vol, v: Vol, cat0: Cat, d: nat, n: Node, id: nat, a: SlotAddr)
    requires d in cat0.chains && Confined(v0, v, MovePrint(v0, cat0, d, n, id))
    requires a !in n.SetAddrs() && a !in cat0.SetOf(d) && a !in cat0.SetOf(id) && a.cluster !in FreeSet(v0)
    ensures v.Slot(a) == v0.Slot(a)
  {
    hide Vol.Slot, FreeSet, Cat.SetOf;
  }

  lemma AddrsPrefix(a: seq<nat>, b: seq<nat>, per: nat)
    requires a <= b
    ensures Addrs(a, per) <= Addrs(b, per)
  {
    assert b == a + b[|a|..];
    AddrsAppend(a, b[|a|..], per);
  }

  lemma WalkOwned(v: Vol, cat: Cat, cb: nat, per: nat, upcase: seq<u16>, d: nat, x: nat)
    requires Walkable(v, cat, cb, per, upcase, d) && d in cat.chains && x < |Addrs(cat.chains[d], per)|
    ensures Addrs(cat.chains[d], per)[x].cluster in cat.own
  {
    hide NodesOk, SlotsOwned, Addrs, Slots;
    DirSlotAddr(cat, d, per, x);
  }

  /** An address occurs once in the walk of a directory. */
  lemma AddrsDistinct(v: Vol, cat: Cat, cb: nat, per: nat, upcase: seq<u16>, d: nat, x: nat, p: nat, n: Node)
    requires Walkable(v, cat, cb, per, upcase, d) && d in cat.chains && x < |Addrs(cat.chains[d], per)|
    requires p + n.Count() <= |Addrs(cat.chains[d], per)| && Addrs(cat.chains[d], per)[p..p + n.Count()] == n.SetAddrs()
    requires Addrs(cat.chains[d], per)[x] in n.SetAddrs()
    ensures p <= x < p + n.Count()
  {
    hide NodesOk, SlotsOwned, Addrs, Slots, SetSize, Placed;
    var addrs := Addrs(cat.chains[d], per);
    var j :| 0 <= j < n.Count() && n.SetAddrs()[j] == addrs[x];
    assert addrs[p..p + n.Count()][j] == addrs[p + j];
    SameAddr(v, cat, cb, per, upcase, d, x, p + j);
  }

  lemma SameAddr(v: Vol, cat: Cat, cb: nat, per: nat, upcase: seq<u16>, d: nat, x: nat, y: nat)
    requires Walkable(v, cat, cb, per, upcase, d) && d in cat.chains
    requires x < |Addrs(cat.chains[d], per)| && y < |Addrs(cat.chains[d], per)|
    requires Addrs(cat.chains[d], per)[x] == Addrs(cat.chains[d], per)[y]
    ensures x == y
  {
    hide NodesOk, SlotsOwned, Addrs, Slots;
    DirSlotAddr(cat, d, per, x);
    DirSlotAddr(cat, d, per, y);
    DivMod(x, per);
    DivMod(y, per);
    assert x / per == y / per && x % per == y % per;
  }

  // ---- Created and found -----------------------------------------------------------------------

  /** The position of a placed set, and the slots that have to be open for it to be found. */
  lemma PlacedPosition(v0: Vol, cat0: Cat, cat: Cat, per: nat, d: nat, id: nat, v: Vol, cb: nat, upcase: seq<u16>)
    requires id in cat.nodes && cat.nodes[id].parent == d && PlacedWhere(v0, cat0, cat, per, d, cat.nodes[id])
    requires d in cat0.chains && Walkable(v0, cat0, cb, per, upcase, d) && Walkable(v, cat, cb, per, upcase, d)
    requires 0 < cat.nodes[id].Count() && Slots(SlotsAt(v0, Addrs(cat0.chains[d], per)))
    ensures Position(cat, per, id) <= |Addrs(cat0.chains[d], per)|
    ensures HoleAhead(v0, cat0.chains[d], per, cat.nodes[id].Count())
       <==> !Open(SlotsAt(v0, Addrs(cat0.chains[d], per)), 0, Position(cat, per, id))
  {
    hide NodesOk, SlotsOwned, Addrs, Slots, HoleAhead, Open, SetSize, FirstRun, NoRun;
    var n, ch := cat.nodes[id], cat0.chains[d];
    AddrsSize(ch, per);
    if NoRun(v0, ch, per, n.Count()) {
      LastPlace(cat, d, ch, n.cluster);
      HoleWithoutRun(v0, ch, per, n.Count());
    } else {
      var i := ChosenRun(v0, cat0, cat, per, d, n);
      RunFits(v0, ch, per, n.Count(), i, n.start);
      PlaceInPrefix(cat, d, ch, i);
      HoleBeforeRun(v0, ch, per, n.Count(), i, n.start);
      AtPosition(v0, ch, per, i, n.start);
    }
  }

  lemma ChosenRun(v0: Vol, cat0: Cat, cat: Cat, per: nat, d: nat, n: Node) returns (i: nat)
    requires PlacedWhere(v0, cat0, cat, per, d, n) && !NoRun(v0, cat0.chains[d], per, n.Count())
    ensures FirstRun(v0, cat0.chains[d], per, n.Count(), i, n.start) && i < |cat0.chains[d]| && n.cluster == cat0.chains[d][i]
  {
    hide RunAt, NoRun;
    i :| FirstRun(v0, cat0.chains[d], per, n.Count(), i, n.start) && n.cluster == cat0.chains[d][i];
  }

  lemma LastPlace(cat: Cat, d: nat, ch: seq<nat>, c: nat)
    requires Placed(cat) && d in cat.chains && cat.chains[d] == ch + [c]
    ensures c in cat.own && cat.own[c].at == |ch|
  {
    assert cat.chains[d][|ch|] == c;
  }

  lemma PlaceInPrefix(cat: Cat, d: nat, ch: seq<nat>, i: nat)
    requires Placed(cat) && d in cat.chains && ch <= cat.chains[d] && i < |ch|
    ensures ch[i] in cat.own && cat.own[ch[i]].at == i
  {
    assert cat.chains[d][i] == ch[i];
  }

  /** What is known of a directory before and after an entry was placed in it. */
  ghost predicate SetAdded(v0: Vol, cat0: Cat, v: Vol, cat: Cat, g: Geometry, bm: BitmapLoc, upcase: seq<u16>, d: nat, id: nat)
  {
    && Consistent(v0, cat0, g, bm, upcase) && Consistent(v, cat, g, bm, upcase)
    && Walkable(v0, cat0, g.ClusterBytes(), g.Per(), upcase, d) && Walkable(v, cat, g.ClusterBytes(), g.Per(), upcase, d)
    && d in cat0.chains && d in cat.chains && id in cat.nodes && cat.nodes[id].parent == d
    && PlacedWhere(v0, cat0, cat, g.Per(), d, cat.nodes[id])
    && EndsAsBefore(v0, v, cat0, cat.nodes[id])
  }

  lemma AddedParts(v0: Vol, cat0: Cat, v: Vol, cat: Cat, g: Geometry, bm: BitmapLoc, upcase: seq<u16>, d: nat, id: nat)
    requires SetAdded(v0, cat0, v, cat, g, bm, upcase, d, id)
    ensures Consistent(v0, cat0, g, bm, upcase) && Consistent(v, cat, g, bm, upcase)
    ensures Walkable(v0, cat0, g.ClusterBytes(), g.Per(), upcase, d) && Walkable(v, cat, g.ClusterBytes(), g.Per(), upcase, d)
    ensures d in cat0.chains && d in cat.chains && id in cat.nodes && cat.nodes[id].parent == d
    ensures PlacedWhere(v0, cat0, cat, g.Per(), d, cat.nodes[id]) && cat0.chains[d] <= cat.chains[d]
    ensures EndsAsBefore(v0, v, cat0, cat.nodes[id])
    ensures Slots(SlotsAt(v0, Addrs(cat0.chains[d], g.Per()))) && Slots(SlotsAt(v, Addrs(cat.chains[d], g.Per())))
  {
    WalkableSlots(v0, cat0, g.ClusterBytes(), g.Per(), upcase, d);
    WalkableSlots(v, cat, g.ClusterBytes(), g.Per(), upcase, d);
    hide Consistent, Walkable, EndsAsBefore, Slots, Addrs, FirstRun, NoRun, Geometry.ClusterBytes, Geometry.Per;
  }

  /** The slots up to a position before the new set are open now if and only if they were. */
  lemma OpenBefore(v0: Vol, cat0: Cat, v: Vol, cat: Cat, g: Geometry, bm: BitmapLoc, upcase: seq<u16>, d: nat, id: nat, p: nat)
    requires SetAdded(v0, cat0, v, cat, g, bm, upcase, d, id)
    requires d in cat0.chains && d in cat.chains && id in cat.nodes
    requires Slots(SlotsAt(v0, Addrs(cat0.chains[d], g.Per()))) && Slots(SlotsAt(v, Addrs(cat.chains[d], g.Per())))
    requires p <= Position(cat, g.Per(), id) && p <= |Addrs(cat0.chains[d], g.Per())|
    ensures Open(SlotsAt(v, Addrs(cat.chains[d], g.Per())), 0, p) <==> Open(SlotsAt(v0, Addrs(cat0.chains[d], g.Per())), 0, p)
  {
    hide *;
    AddedParts(v0, cat0, v, cat, g, bm, upcase, d, id);
    var s0, s := SlotsAt(v0, Addrs(cat0.chains[d], g.Per())), SlotsAt(v, Addrs(cat.chains[d], g.Per()));
    AddrsPrefix(cat0.chains[d], cat.chains[d], g.Per());
    forall x: nat | x < p
      ensures EndsAlike(s0[x], s[x])
    {
      BeforeTheSet(v0, v, cat0, cat, g, bm, upcase, d, id, x);
    }
    OpenSame(s0, s, p);
  }

  lemma OpenSame(s0: seq<seq<byte>>, s: seq<seq<byte>>, p: nat)
    requires Slots(s0) && Slots(s)
    requires p <= |s0| && p <= |s| && forall x: nat :: x < p ==> EndsAlike(s0[x], s[x])
    ensures Open(s, 0, p) <==> Open(s0, 0, p)
  {
  }

  lemma FirstNamedIn(cat: Cat, upcase: seq<u16>, ks: seq<nat>, want: Name)
    ensures var r := FirstNamed(cat, upcase, ks, want);
      && (r.Some? ==> r.value in ks && r.value in cat.nodes && UpName(upcase, cat.nodes[r.value].facts.name) == want)
      && (r.None? ==> forall k :: k in ks && k in cat.nodes ==> UpName(upcase, cat.nodes[k].facts.name) != want)
  {
    hide UpName;
  }

  /** A search finds a node exactly when some visible node of the directory has the name, and what it finds is
      visible and has it. */
  lemma FindMeans(v: Vol, cat: Cat, cb: nat, per: nat, upcase: seq<u16>, d: nat, name: Name)
    requires Walkable(v, cat, cb, per, upcase, d) && d in cat.chains
    ensures var r := Find(v, cat, per, upcase, d, name);
      && (r.Some? ==> r.value in cat.nodes && cat.nodes[r.value].parent == d && Visible(v, cat, per, r.value)
                      && UpName(upcase, cat.nodes[r.value].facts.name) == UpName(upcase, name))
      && (r.None? ==> forall k :: k in cat.nodes && cat.nodes[k].parent == d && Visible(v, cat, per, k) ==>
                      UpName(upcase, cat.nodes[k].facts.name) != UpName(upcase, name))
  {
    hide *;
    WalkableSlots(v, cat, cb, per, upcase, d);
    var ks := NodesFrom(v, cat, per, d, 0);
    FindIsFirstListed(v, cat, cb, per, upcase, d, name);
    FirstNamedIn(cat, upcase, ks, UpName(upcase, name));
    forall k | k in cat.nodes && cat.nodes[k].parent == d
      ensures k in ks <==> Visible(v, cat, per, k)
    {
      VisibleIsListed(v, cat, cb, per, upcase, d, k);
    }
    var r := Find(v, cat, per, upcase, d, name);
    if r.Some? {
      ListedVisible(v, cat, cb, per, upcase, d, 0, r.value);
    }
  }

  lemma VisibleIsListed(v: Vol, cat: Cat, cb: nat, per: nat, upcase: seq<u16>, d: nat, k: nat)
    requires Walkable(v, cat, cb, per, upcase, d) && d in cat.chains && k in cat.nodes && cat.nodes[k].parent == d
    ensures k in NodesFrom(v, cat, per, d, 0) <==> Visible(v, cat, per, k)
  {
    WalkableSlots(v, cat, cb, per, upcase, d);
    hide Walkable, NodesFrom, Open, Addrs, Slots, Position;
    if k in NodesFrom(v, cat, per, d, 0) {
      ListedVisible(v, cat, cb, per, upcase, d, 0, k);
    }
    if Visible(v, cat, per, k) {
      VisibleListed(v, cat, cb, per, upcase, d, 0, k);
    }
  }

  /** The first listed node with a name has the least position. */
  lemma {:induction false} FirstIsLeast(v: Vol, cat: Cat, cb: nat, per: nat, upcase: seq<u16>, d: nat, want: Name, i: nat, k: nat)
    requires Walkable(v, cat, cb, per, upcase, d) && d in cat.chains && i <= |Addrs(cat.chains[d], per)|
    requires k in NodesFrom(v, cat, per, d, i) && k in cat.nodes && UpName(upcase, cat.nodes[k].facts.name) == want
    ensures var r := FirstNamed(cat, upcase, NodesFrom(v, cat, per, d, i), want);
      r.Some? && r.value in cat.nodes && Position(cat, per, r.value) <= Position(cat, per, k)
    decreases |Addrs(cat.chains[d], per)| - i
  {
    hide *;
    var addrs := Addrs(cat.chains[d], per);
    var slots := SlotsAt(v, addrs);
    WalkableSlots(v, cat, cb, per, upcase, d);
    if i == |addrs| {
      NodesAtEnd(v, cat, per, d, i);
      return;
    }
    WholeSlot(slots, i);
    if slots[i][0] == ENTRY_FILE {
      FirstAtSet(v, cat, cb, per, upcase, d, want, i, k);
    } else if slots[i][0] == ENTRY_END {
      NodesAtEnd(v, cat, per, d, i);
    } else {
      NodesAtOther(v, cat, per, d, i);
      FirstIsLeast(v, cat, cb, per, upcase, d, want, i + 1, k);
    }
  }

  lemma {:induction false} FirstAtSet(v: Vol, cat: Cat, cb: nat, per: nat, upcase: seq<u16>, d: nat, want: Name, i: nat, k: nat)
    requires Walkable(v, cat, cb, per, upcase, d) && d in cat.chains && Slots(SlotsAt(v, Addrs(cat.chains[d], per)))
    requires i < |Addrs(cat.chains[d], per)| && k in NodesFrom(v, cat, per, d, i)
    requires |SlotsAt(v, Addrs(cat.chains[d], per))[i]| > 0 && SlotsAt(v, Addrs(cat.chains[d], per))[i][0] == ENTRY_FILE
    requires k in cat.nodes && UpName(upcase, cat.nodes[k].facts.name) == want
    ensures var r := FirstNamed(cat, upcase, NodesFrom(v, cat, per, d, i), want);
      r.Some? && r.value in cat.nodes && Position(cat, per, r.value) <= Position(cat, per, k)
    decreases |Addrs(cat.chains[d], per)| - i, 0
  {
    hide *;
    StartIsNode(v, cat, cb, per, upcase, d, i);
    NodesAtSet(v, cat, per, d, i);
    StartOwned(v, cat, per, d, i);
    StartPosition(v, cat, cb, per, upcase, d, i);
    ListedVisible(v, cat, cb, per, upcase, d, i, k);
    var k0 := cat.slotOwn[Addrs(cat.chains[d], per)[i]];
    var rest := NodesFrom(v, cat, per, d, i + cat.nodes[k0].Count());
    FirstOfMore(cat, upcase, k0, rest, want);
    if UpName(upcase, cat.nodes[k0].facts.name) != want {
      assert k in rest;
      FirstIsLeast(v, cat, cb, per, upcase, d, want, i + cat.nodes[k0].Count(), k);
    }
  }

  /** The new node is visible exactly when there was no hole ahead of its room. */
  lemma AddedIsVisible(v0: Vol, cat0: Cat, v: Vol, cat: Cat, g: Geometry, bm: BitmapLoc, upcase: seq<u16>, d: nat, id: nat)
    requires SetAdded(v0, cat0, v, cat, g, bm, upcase, d, id) && d in cat0.chains && id in cat.nodes
    ensures Visible(v, cat, g.Per(), id) <==> !HoleAhead(v0, cat0.chains[d], g.Per(), cat.nodes[id].Count())
  {
    hide *;
    AddedParts(v0, cat0, v, cat, g, bm, upcase, d, id);
    NodeAtPosition(v, cat, g.ClusterBytes(), g.Per(), upcase, d, id);
    PlacedPosition(v0, cat0, cat, g.Per(), d, id, v, g.ClusterBytes(), upcase);
    OpenBefore(v0, cat0, v, cat, g, bm, upcase, d, id, Position(cat, g.Per(), id));
    VisibleIs(v, cat, g.Per(), d, id);
  }

  lemma VisibleIs(v: Vol, cat: Cat, per: nat, d: nat, k: nat)
    requires k in cat.nodes && cat.nodes[k].parent == d && d in cat.chains && Slots(SlotsAt(v, Addrs(cat.chains[d], per)))
    ensures Visible(v, cat, per, k) <==> Open(SlotsAt(v, Addrs(cat.chains[d], per)), 0, Position(cat, per, k))
  {
  }

  /** The nodes of a directory but one are recorded where they were. */
  ghost predicate SameSiblings(cat0: Cat, cat: Cat, d: nat, id: nat)
  {
    forall k :: k in cat.nodes && k != id && cat.nodes[k].parent == d ==> k in cat0.nodes && SameEntry(cat0.nodes[k], cat.nodes[k])
  }

  /** A sibling recorded where it was has the position it had. */
  lemma SiblingPosition(v0: Vol, cat0: Cat, v: Vol, cat: Cat, cb: nat, per: nat, upcase: seq<u16>, d: nat, k: nat)
    requires Walkable(v0, cat0, cb, per, upcase, d) && Walkable(v, cat, cb, per, upcase, d)
    requires d in cat0.chains && d in cat.chains && cat0.chains[d] <= cat.chains[d]
    requires k in cat0.nodes && k in cat.nodes && SameEntry(cat0.nodes[k], cat.nodes[k]) && cat.nodes[k].parent == d
    ensures cat0.nodes[k].parent == d && Position(cat, per, k) == Position(cat0, per, k)
    ensures cat.nodes[k].facts.name == cat0.nodes[k].facts.name
  {
    hide Addrs, Slots, SlotsOwned, SetOnDisk, ChainSuits;
    assert NodeOk(v0, cat0, cb, upcase, k);
    var c := cat0.nodes[k].cluster;
    var i := cat0.own[c].at;
    assert cat0.chains[d][i] == c && cat.chains[d][i] == c;
  }

  /** A name that was not in the directory is found after its entry was placed if and only if there was no hole
      ahead of the room it got. */
  lemma AddedIsFound(v0: Vol, cat0: Cat, v: Vol, cat: Cat, g: Geometry, bm: BitmapLoc, upcase: seq<u16>, d: nat, id: nat, name: Name)
    requires SetAdded(v0, cat0, v, cat, g, bm, upcase, d, id) && d in cat0.chains && id in cat.nodes
    requires cat.nodes[id].facts.name == name && SameSiblings(cat0, cat, d, id)
    requires Find(v0, cat0, g.Per(), upcase, d, name).None?
    ensures Find(v, cat, g.Per(), upcase, d, name) == Some(id)
       <==> !HoleAhead(v0, cat0.chains[d], g.Per(), cat.nodes[id].Count())
  {
    hide *;
    var per, cb := g.Per(), g.ClusterBytes();
    AddedParts(v0, cat0, v, cat, g, bm, upcase, d, id);
    AddedIsVisible(v0, cat0, v, cat, g, bm, upcase, d, id);
    FindMeans(v, cat, cb, per, upcase, d, name);
    var r := Find(v, cat, per, upcase, d, name);
    if Visible(v, cat, per, id) && r != Some(id) {
      FoundEarlier(v0, cat0, v, cat, g, bm, upcase, d, id, name, r.value);
    }
  }

  lemma FoundEarlier(v0: Vol, cat0: Cat, v: Vol, cat: Cat, g: Geometry, bm: BitmapLoc, upcase: seq<u16>, d: nat, id: nat, name: Name, k: nat)
    requires SetAdded(v0, cat0, v, cat, g, bm, upcase, d, id) && d in cat0.chains && id in cat.nodes
    requires cat.nodes[id].facts.name == name && SameSiblings(cat0, cat, d, id) && Visible(v, cat, g.Per(), id)
    requires k in cat.nodes && k != id && Find(v, cat, g.Per(), upcase, d, name) == Some(k)
    ensures Find(v0, cat0, g.Per(), upcase, d, name).Some?
  {
    hide *;
    var per, cb := g.Per(), g.ClusterBytes();
    AddedParts(v0, cat0, v, cat, g, bm, upcase, d, id);
    FindMeans(v, cat, cb, per, upcase, d, name);
    SiblingsIs(cat0, cat, d, id, k);
    SiblingPosition(v0, cat0, v, cat, cb, per, upcase, d, k);
    VisibleIsListed(v, cat, cb, per, upcase, d, id);
    FindIsFirstListed(v, cat, cb, per, upcase, d, name);
    FirstIsLeast(v, cat, cb, per, upcase, d, UpName(upcase, name), 0, id);
    NodeAtPosition(v, cat, cb, per, upcase, d, id);
    NodeAtPosition(v, cat, cb, per, upcase, d, k);
    NodeAtPosition(v0, cat0, cb, per, upcase, d, k);
    OpenBefore(v0, cat0, v, cat, g, bm, upcase, d, id, Position(cat, per, k));
    VisibleIs(v, cat, per, d, k);
    VisibleIs(v0, cat0, per, d, k);
    FindMeans(v0, cat0, cb, per, upcase, d, name);
  }

  lemma SiblingsIs(cat0: Cat, cat: Cat, d: nat, id: nat, k: nat)
    requires SameSiblings(cat0, cat, d, id) && k in cat.nodes && k != id && cat.nodes[k].parent == d
    ensures k in cat0.nodes && SameEntry(cat0.nodes[k], cat.nodes[k])
  {
    hide SameEntry;
  }

  lemma CreatedSiblings(v0: Vol, cat0: Cat, v: Vol, cat: Cat, g: Geometry, d: nat, id: nat, name: Name, isDir: bool)
    requires Created(v0, cat0, v, cat, g, d, id, name, isDir)
    ensures SameSiblings(cat0, cat, d, id) && id in cat.nodes && cat.nodes[id].parent == d && cat.nodes[id].facts.name == name
    ensures d in cat0.nodes ==> d in cat.nodes && SameEntry(cat0.nodes[d], cat.nodes[d])
  {
    hide FileContent, Blank, Geometry.ClusterBytes, Geometry.Per;
  }

  lemma CreatedDirs(v0: Vol, cat0: Cat, v: Vol, cat: Cat, g: Geometry, d: nat, id: nat, name: Name, isDir: bool)
    requires Created(v0, cat0, v, cat, g, d, id, name, isDir) && cat0.IsDir(d)
    ensures cat.IsDir(d)
  {
    hide FileContent, Blank, Geometry.ClusterBytes, Geometry.Per;
  }

  lemma MadeParts(v0: Vol, cat0: Cat, t0: seq<Vol>, v: Vol, cat: Cat, t: seq<Vol>, g: Geometry, bm: BitmapLoc,
                  upcase: seq<u16>, d: nat, id: nat, name: Name, isDir: bool, r: Result<()>)
    requires EntryMade(v0, cat0, t0, v, cat, t, g, bm, upcase, d, id, name, isDir, r) && r.Ok?
    ensures Consistent(v, cat, g, bm, upcase) && d in cat0.chains && Created(v0, cat0, v, cat, g, d, id, name, isDir)
    ensures id in cat.nodes && PlacedWhere(v0, cat0, cat, g.Per(), d, cat.nodes[id])
    ensures d in cat.chains && cat0.chains[d] <= cat.chains[d]
    ensures Confined(v0, v, PlacePrint(v0, cat0, d, cat.nodes[id]))
  {
    hide Consistent, Created, CrashSafe, OnlySpares, AlwaysPublished, EntryClusters, FreeSet, Confined, PlacePrint, NoRun, FirstRun,
         Geometry.ClusterBytes, Geometry.Per;
  }

  /** A created entry is found by its name if and only if there was no hole ahead of the room it got: the
      condition can be read off the directory before the call. */
  lemma MadeIsFound(v0: Vol, cat0: Cat, t0: seq<Vol>, v: Vol, cat: Cat, t: seq<Vol>, g: Geometry, bm: BitmapLoc,
                    upcase: seq<u16>, d: nat, id: nat, name: Name, isDir: bool, r: Result<()>)
    requires EntryMade(v0, cat0, t0, v, cat, t, g, bm, upcase, d, id, name, isDir, r) && r.Ok?
    requires Consistent(v0, cat0, g, bm, upcase) && d in cat0.chains
    requires Walkable(v0, cat0, g.ClusterBytes(), g.Per(), upcase, d) && Walkable(v, cat, g.ClusterBytes(), g.Per(), upcase, d)
    requires Find(v0, cat0, g.Per(), upcase, d, name).None?
    ensures Find(v, cat, g.Per(), upcase, d, name) == Some(id)
       <==> !HoleAhead(v0, cat0.chains[d], g.Per(), SetSize(name))
  {
    hide *;
    MadeParts(v0, cat0, t0, v, cat, t, g, bm, upcase, d, id, name, isDir, r);
    CreatedSiblings(v0, cat0, v, cat, g, d, id, name, isDir);
    CreationEnds(v0, v, cat0, cat, g, bm, upcase, d, cat.nodes[id]);
    AddedIs(v0, cat0, v, cat, g, bm, upcase, d, id);
    NamesCount(cat.nodes[id]);
    AddedIsFound(v0, cat0, v, cat, g, bm, upcase, d, id, name);
  }

  lemma AddedIs(v0: Vol, cat0: Cat, v: Vol, cat: Cat, g: Geometry, bm: BitmapLoc, upcase: seq<u16>, d: nat, id: nat)
    requires Consistent(v0, cat0, g, bm, upcase) && Consistent(v, cat, g, bm, upcase)
    requires Walkable(v0, cat0, g.ClusterBytes(), g.Per(), upcase, d) && Walkable(v, cat, g.ClusterBytes(), g.Per(), upcase, d)
    requires d in cat0.chains && d in cat.chains && id in cat.nodes && cat.nodes[id].parent == d
    requires PlacedWhere(v0, cat0, cat, g.Per(), d, cat.nodes[id])
    requires EndsAsBefore(v0, v, cat0, cat.nodes[id])
    ensures SetAdded(v0, cat0, v, cat, g, bm, upcase, d, id)
  {
    hide Consistent, Walkable, PlacedWhere, EndsAsBefore, Geometry.ClusterBytes, Geometry.Per;
  }

  lemma MovedParts(v0: Vol, cat0: Cat, t0: seq<Vol>, v: Vol, cat: Cat, t: seq<Vol>, g: Geometry, bm: BitmapLoc,
                   upcase: seq<u16>, d: nat, id: nat, name: Name, r: Result<()>)
    requires id in cat0.nodes && MoveMade(v0, cat0, t0, v, cat, t, g, bm, upcase, d, id, name, r) && r.Ok?
    ensures d in cat0.chains && Moved(v0, cat0, v, cat, d, id, name)
    ensures Consistent(v, cat, g, bm, upcase) <==> MoveSound(v0, cat0, g.Per(), d, id, name)
    ensures id in cat.nodes && PlacedWhere(v0, cat0, cat, g.Per(), d, cat.nodes[id])
    ensures d in cat.chains && cat0.chains[d] <= cat.chains[d]
    ensures Confined(v0, v, MovePrint(v0, cat0, d, cat.nodes[id], id)) && LeftUnused(v, cat0.nodes[id])
  {
    hide Consistent, Moved, CrashSafe, OnlySpares, AlwaysPublished, FreeSet, Confined, MovePrint, NoRun, FirstRun, LeftUnused,
         MoveSound, Stale, Geometry.ClusterBytes, Geometry.Per;
  }

  lemma MovedSiblings(v0: Vol, cat0: Cat, v: Vol, cat: Cat, d: nat, id: nat, name: Name)
    requires Moved(v0, cat0, v, cat, d, id, name)
    ensures SameSiblings(cat0, cat, d, id) && id in cat.nodes && cat.nodes[id].parent == d && cat.nodes[id].facts.name == name
    ensures d in cat0.nodes && d != id ==> d in cat.nodes && SameEntry(cat0.nodes[d], cat.nodes[d])
  {
    hide FileContent;
  }

  lemma MovedDirs(v0: Vol, cat0: Cat, v: Vol, cat: Cat, d: nat, id: nat, name: Name)
    requires Moved(v0, cat0, v, cat, d, id, name) && cat0.IsDir(d)
    ensures cat.IsDir(d)
  {
    hide FileContent;
  }

  /** A moved entry is found by its new name if and only if there was no hole ahead of the room it got. */
  lemma MovedIsFound(v0: Vol, cat0: Cat, t0: seq<Vol>, v: Vol, cat: Cat, t: seq<Vol>, g: Geometry, bm: BitmapLoc,
                     upcase: seq<u16>, d: nat, id: nat, name: Name, r: Result<()>)
    requires id in cat0.nodes && MoveMade(v0, cat0, t0, v, cat, t, g, bm, upcase, d, id, name, r) && r.Ok?
    requires Consistent(v0, cat0, g, bm, upcase) && d in cat0.chains && MoveSound(v0, cat0, g.Per(), d, id, name)
    requires Walkable(v0, cat0, g.ClusterBytes(), g.Per(), upcase, d) && Walkable(v, cat, g.ClusterBytes(), g.Per(), upcase, d)
    requires Find(v0, cat0, g.Per(), upcase, d, name).None?
    ensures Find(v, cat, g.Per(), upcase, d, name) == Some(id)
       <==> !HoleAhead(v0, cat0.chains[d], g.Per(), SetSize(name))
  {
    hide *;
    MovedParts(v0, cat0, t0, v, cat, t, g, bm, upcase, d, id, name, r);
    MovedSiblings(v0, cat0, v, cat, d, id, name);
    MoveEnds(v0, v, cat0, cat, g, bm, upcase, d, cat.nodes[id], id);
    AddedIs(v0, cat0, v, cat, g, bm, upcase, d, id);
    NamesCount(cat.nodes[id]);
    AddedIsFound(v0, cat0, v, cat, g, bm, upcase, d, id, name);
  }

  // ---- Unique names ------------------------------------------------------------------------------

  /** No two nodes of directory `d` have the same folded name. */
  ghost predicate UniqueNames(cat: Cat, upcase: seq<u16>, d: nat)
  {
    forall k, k' | k in cat.nodes && k' in cat.nodes && cat.nodes[k].parent == d && cat.nodes[k'].parent == d ::
      UpName(upcase, cat.nodes[k].facts.name) == UpName(upcase, cat.nodes[k'].facts.name) ==> k == k'
  }

  /** Every node of directory `d` is visible. */
  ghost predicate NoneHidden(v: Vol, cat: Cat, per: nat, d: nat)
  {
    forall k {:trigger Visible(v, cat, per, k)} :: k in cat.nodes && cat.nodes[k].parent == d ==> Visible(v, cat, per, k)
  }

  /** A visible node stays visible when an entry is added beside it. */
  lemma SiblingStaysVisible(v0: Vol, cat0: Cat, v: Vol, cat: Cat, g: Geometry, bm: BitmapLoc, upcase: seq<u16>, d: nat, id: nat, k: nat)
    requires SetAdded(v0, cat0, v, cat, g, bm, upcase, d, id) && id in cat.nodes && SameSiblings(cat0, cat, d, id)
    requires k in cat.nodes && k != id && cat.nodes[k].parent == d
    requires k in cat0.nodes && Visible(v0, cat0, g.Per(), k)
    ensures Visible(v, cat, g.Per(), k)
  {
    hide *;
    var per, cb := g.Per(), g.ClusterBytes();
    AddedParts(v0, cat0, v, cat, g, bm, upcase, d, id);
    SiblingsIs(cat0, cat, d, id, k);
    SiblingPosition(v0, cat0, v, cat, cb, per, upcase, d, k);
    NodeAtPosition(v, cat, cb, per, upcase, d, id);
    NodeAtPosition(v0, cat0, cb, per, upcase, d, k);
    VisibleIs(v0, cat0, per, d, k);
    VisibleIs(v, cat, per, d, k);
    var p, q := Position(cat, per, k), Position(cat, per, id);
    if p <= q {
      OpenBefore(v0, cat0, v, cat, g, bm, upcase, d, id, p);
    } else {
      OpenAround(v0, cat0, v, cat, g, bm, upcase, d, id, p);
    }
  }

  /** Slots before, in and after the new set are open as far as they were. */
  lemma OpenAround(v0: Vol, cat0: Cat, v: Vol, cat: Cat, g: Geometry, bm: BitmapLoc, upcase: seq<u16>, d: nat, id: nat, p: nat)
    requires SetAdded(v0, cat0, v, cat, g, bm, upcase, d, id) && d in cat0.chains && d in cat.chains && id in cat.nodes
    requires Slots(SlotsAt(v0, Addrs(cat0.chains[d], g.Per()))) && Slots(SlotsAt(v, Addrs(cat.chains[d], g.Per())))
    requires p <= |Addrs(cat0.chains[d], g.Per())| && Open(SlotsAt(v0, Addrs(cat0.chains[d], g.Per())), 0, p)
    ensures Open(SlotsAt(v, Addrs(cat.chains[d], g.Per())), 0, p)
  {
    hide *;
    AddedParts(v0, cat0, v, cat, g, bm, upcase, d, id);
    NodeAtPosition(v, cat, g.ClusterBytes(), g.Per(), upcase, d, id);
    NamesCount(cat.nodes[id]);
    var s0, s := SlotsAt(v0, Addrs(cat0.chains[d], g.Per())), SlotsAt(v, Addrs(cat.chains[d], g.Per()));
    var q, c := Position(cat, g.Per(), id), cat.nodes[id].Count();
    SetIsOpen(s, q, cat.nodes[id].facts, upcase);
    AddrsPrefix(cat0.chains[d], cat.chains[d], g.Per());
    forall x: nat | x < p && !(q <= x < q + c)
      ensures EndsAlike(s0[x], s[x])
    {
      BeforeTheSet(v0, v, cat0, cat, g, bm, upcase, d, id, x);
    }
    OpenPieces(s0, s, p, q, c);
  }

  lemma OpenPieces(s0: seq<seq<byte>>, s: seq<seq<byte>>, p: nat, q: nat, c: nat)
    requires Slots(s0) && Slots(s) && p <= |s0| && p <= |s| && Open(s0, 0, p) && Open(s, q, q + c)
    requires forall x: nat :: x < p && !(q <= x < q + c) ==> EndsAlike(s0[x], s[x])
    ensures Open(s, 0, p)
  {
  }

  /** In a directory that hides nothing, adding an entry under a name a search did not find keeps names unique,
      and hides nothing if and only if there was no hole ahead of the room. */
  lemma AddedKeepsUnique(v0: Vol, cat0: Cat, v: Vol, cat: Cat, g: Geometry, bm: BitmapLoc, upcase: seq<u16>, d: nat, id: nat, name: Name)
    requires SetAdded(v0, cat0, v, cat, g, bm, upcase, d, id) && d in cat0.chains && id in cat.nodes
    requires cat.nodes[id].facts.name == name && SameSiblings(cat0, cat, d, id)
    requires Find(v0, cat0, g.Per(), upcase, d, name).None?
    requires UniqueNames(cat0, upcase, d) && NoneHidden(v0, cat0, g.Per(), d)
    ensures UniqueNames(cat, upcase, d)
    ensures NoneHidden(v, cat, g.Per(), d) <==> !HoleAhead(v0, cat0.chains[d], g.Per(), cat.nodes[id].Count())
  {
    hide *;
    var per, cb := g.Per(), g.ClusterBytes();
    AddedParts(v0, cat0, v, cat, g, bm, upcase, d, id);
    AddedIsVisible(v0, cat0, v, cat, g, bm, upcase, d, id);
    FindMeans(v0, cat0, cb, per, upcase, d, name);
    forall k | k in cat.nodes && k != id && cat.nodes[k].parent == d
      ensures k in cat0.nodes && cat0.nodes[k].parent == d && cat0.nodes[k].facts.name == cat.nodes[k].facts.name
      ensures UpName(upcase, cat.nodes[k].facts.name) != UpName(upcase, name) && Visible(v, cat, per, k)
    {
      SiblingsIs(cat0, cat, d, id, k);
      SiblingPosition(v0, cat0, v, cat, cb, per, upcase, d, k);
      HiddenNot(v0, cat0, per, d, k);
      SiblingStaysVisible(v0, cat0, v, cat, g, bm, upcase, d, id, k);
    }
    UniqueIs(cat0, cat, upcase, d, id, name);
    NoneHiddenIs(v, cat, per, d, id);
  }

  lemma HiddenNot(v: Vol, cat: Cat, per: nat, d: nat, k: nat)
    requires NoneHidden(v, cat, per, d) && k in cat.nodes && cat.nodes[k].parent == d
    ensures Visible(v, cat, per, k)
  {
    hide Visible;
  }

  lemma UniqueIs(cat0: Cat, cat: Cat, upcase: seq<u16>, d: nat, id: nat, name: Name)
    requires UniqueNames(cat0, upcase, d) && id in cat.nodes && cat.nodes[id].facts.name == name && cat.nodes[id].parent == d
    requires forall k :: k in cat.nodes && k != id && cat.nodes[k].parent == d ==>
      && k in cat0.nodes && cat0.nodes[k].parent == d && cat0.nodes[k].facts.name == cat.nodes[k].facts.name
      && UpName(upcase, cat.nodes[k].facts.name) != UpName(upcase, name)
    ensures UniqueNames(cat, upcase, d)
  {
    hide UpName;
  }

  lemma NoneHiddenIs(v: Vol, cat: Cat, per: nat, d: nat, id: nat)
    requires id in cat.nodes && cat.nodes[id].parent == d
    requires forall k :: k in cat.nodes && k != id && cat.nodes[k].parent == d ==> Visible(v, cat, per, k)
    ensures NoneHidden(v, cat, per, d) <==> Visible(v, cat, per, id)
  {
    hide Visible;
  }

  /** Creation keeps names unique. */
  lemma MadeKeepsUnique(v0: Vol, cat0: Cat, t0: seq<Vol>, v: Vol, cat: Cat, t: seq<Vol>, g: Geometry, bm: BitmapLoc,
                        upcase: seq<u16>, d: nat, id: nat, name: Name, isDir: bool, r: Result<()>)
    requires EntryMade(v0, cat0, t0, v, cat, t, g, bm, upcase, d, id, name, isDir, r) && r.Ok?
    requires Consistent(v0, cat0, g, bm, upcase) && d in cat0.chains
    requires Walkable(v0, cat0, g.ClusterBytes(), g.Per(), upcase, d) && Walkable(v, cat, g.ClusterBytes(), g.Per(), upcase, d)
    requires Find(v0, cat0, g.Per(), upcase, d, name).None?
    requires UniqueNames(cat0, upcase, d) && NoneHidden(v0, cat0, g.Per(), d)
    ensures UniqueNames(cat, upcase, d)
    ensures NoneHidden(v, cat, g.Per(), d) <==> !HoleAhead(v0, cat0.chains[d], g.Per(), SetSize(name))
  {
    hide *;
    MadeParts(v0, cat0, t0, v, cat, t, g, bm, upcase, d, id, name, isDir, r);
    CreatedSiblings(v0, cat0, v, cat, g, d, id, name, isDir);
    CreationEnds(v0, v, cat0, cat, g, bm, upcase, d, cat.nodes[id]);
    AddedIs(v0, cat0, v, cat, g, bm, upcase, d, id);
    NamesCount(cat.nodes[id]);
    AddedKeepsUnique(v0, cat0, v, cat, g, bm, upcase, d, id, name);
  }

  /** Renaming keeps names unique. */
  lemma MovedKeepsUnique(v0: Vol, cat0: Cat, t0: seq<Vol>, v: Vol, cat: Cat, t: seq<Vol>, g: Geometry, bm: BitmapLoc,
                         upcase: seq<u16>, d: nat, id: nat, name: Name, r: Result<()>)
    requires id in cat0.nodes && MoveMade(v0, cat0, t0, v, cat, t, g, bm, upcase, d, id, name, r) && r.Ok?
    requires Consistent(v0, cat0, g, bm, upcase) && d in cat0.chains && MoveSound(v0, cat0, g.Per(), d, id, name)
    requires Walkable(v0, cat0, g.ClusterBytes(), g.Per(), upcase, d) && Walkable(v, cat, g.ClusterBytes(), g.Per(), upcase, d)
    requires Find(v0, cat0, g.Per(), upcase, d, name).None?
    requires UniqueNames(cat0, upcase, d) && NoneHidden(v0, cat0, g.Per(), d)
    ensures UniqueNames(cat, upcase, d)
    ensures NoneHidden(v, cat, g.Per(), d) <==> !HoleAhead(v0, cat0.chains[d], g.Per(), SetSize(name))
  {
    hide *;
    MovedParts(v0, cat0, t0, v, cat, t, g, bm, upcase, d, id, name, r);
    MovedSiblings(v0, cat0, v, cat, d, id, name);
    MoveEnds(v0, v, cat0, cat, g, bm, upcase, d, cat.nodes[id], id);
    AddedIs(v0, cat0, v, cat, g, bm, upcase, d, id);
    NamesCount(cat.nodes[id]);
    AddedKeepsUnique(v0, cat0, v, cat, g, bm, upcase, d, id, name);
  }
}
