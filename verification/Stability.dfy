/** Rewriting an entry in place moves no path: every name resolves to the node it resolved to. */
module Stabilities {
  import opened Catalogues
  import opened Directories
  import opened EntrySets
  import opened FileTruncates
  import opened FileWrites
  import opened Geometries
  import opened Listings
  import opened Lookups
  import opened Outcomes
  import opened Visibilities
  import opened Volumes

  /** Every directory of the volume can be walked. */
  ghost predicate AllWalkable(v: Vol, cat: Cat, cb: nat, per: nat, upcase: seq<u16>)
  {
    forall d {:trigger Walkable(v, cat, cb, per, upcase, d)} :: cat.IsDir(d) ==> Walkable(v, cat, cb, per, upcase, d)
  }

  lemma AllWalkableIs(v: Volume, cat: Cat, upcase: seq<u16>)
    requires v.Valid() && Consistent(v.vol, cat, v.geo, v.bm, upcase)
    ensures AllWalkable(v.vol, cat, v.geo.ClusterBytes(), v.geo.Per(), upcase)
  {
    hide Walkable, Consistent, Volume.Valid, Geometry.ClusterBytes, Geometry.Per;
    forall d | cat.IsDir(d)
      ensures Walkable(v.vol, cat, v.geo.ClusterBytes(), v.geo.Per(), upcase, d)
    {
      WalkableIs(v, cat, upcase, d);
    }
  }

  /** The two volumes record the same nodes in the same places under the same names, in directories of the same
      clusters whose slots end them alike. */
  ghost predicate SameTree(v0: Vol, cat0: Cat, v: Vol, cat: Cat)
  {
    && cat.nodes.Keys == cat0.nodes.Keys && (forall k :: k in cat0.nodes ==> SameEntry(cat0.nodes[k], cat.nodes[k]))
    && (forall d :: cat0.IsDir(d) && d in cat0.chains ==> d in cat.chains && cat.chains[d] == cat0.chains[d])
    && (forall a: SlotAddr {:trigger v.Slot(a)} :: cat0.InDirectory(a.cluster) && |v0.Slot(a)| == SLOT && |v.Slot(a)| == SLOT ==>
          EndsAlike(v0.Slot(a), v.Slot(a)))
  }

  lemma TreeParts(v0: Vol, cat0: Cat, v: Vol, cat: Cat, d: nat)
    requires SameTree(v0, cat0, v, cat) && cat0.IsDir(d) && d in cat0.chains
    ensures cat.IsDir(d) && d in cat.chains && cat.chains[d] == cat0.chains[d]
    ensures forall k :: k in cat0.nodes <==> k in cat.nodes
    ensures forall k :: k in cat0.nodes ==> SameEntry(cat0.nodes[k], cat.nodes[k])
  {
    hide EndsAlike, Vol.Slot;
  }

  lemma TreeSlot(v0: Vol, cat0: Cat, v: Vol, cat: Cat, a: SlotAddr)
    requires SameTree(v0, cat0, v, cat) && cat0.InDirectory(a.cluster) && |v0.Slot(a)| == SLOT && |v.Slot(a)| == SLOT
    ensures EndsAlike(v0.Slot(a), v.Slot(a))
  {
    hide EndsAlike, Vol.Slot, SameEntry;
  }

  /** The slots of a directory are open up to the same positions. */
  lemma OpenStable(v0: Vol, cat0: Cat, v: Vol, cat: Cat, cb: nat, per: nat, upcase: seq<u16>, d: nat, p: nat)
    requires SameTree(v0, cat0, v, cat) && Walkable(v0, cat0, cb, per, upcase, d) && Walkable(v, cat, cb, per, upcase, d)
    requires d in cat0.chains && d in cat.chains && cat.chains[d] == cat0.chains[d] && cat0.IsDir(d) && p <= |Addrs(cat0.chains[d], per)|
    requires Slots(SlotsAt(v0, Addrs(cat0.chains[d], per))) && Slots(SlotsAt(v, Addrs(cat.chains[d], per)))
    ensures Open(SlotsAt(v, Addrs(cat.chains[d], per)), 0, p) <==> Open(SlotsAt(v0, Addrs(cat0.chains[d], per)), 0, p)
  {
    hide *;
    var addrs := Addrs(cat0.chains[d], per);
    var s0, s := SlotsAt(v0, addrs), SlotsAt(v, addrs);
    forall x: nat | x < p
      ensures EndsAlike(s0[x], s[x])
    {
      WholeSlot(s0, x);
      WholeSlot(s, x);
      WalkInDirectory(v0, cat0, cb, per, upcase, d, x);
      TreeSlot(v0, cat0, v, cat, addrs[x]);
    }
    OpenSame(s0, s, p);
  }

  lemma WalkInDirectory(v: Vol, cat: Cat, cb: nat, per: nat, upcase: seq<u16>, d: nat, x: nat)
    requires Walkable(v, cat, cb, per, upcase, d) && d in cat.chains && x < |Addrs(cat.chains[d], per)|
    ensures cat.InDirectory(Addrs(cat.chains[d], per)[x].cluster)
  {
    hide NodesOk, SlotsOwned, Addrs, Slots;
    DirSlotAddr(cat, d, per, x);
  }

  /** A node of a directory is visible in one of the two volumes if it is in the other, and at the same
      position. */
  lemma NodeStable(v0: Vol, cat0: Cat, v: Vol, cat: Cat, cb: nat, per: nat, upcase: seq<u16>, d: nat, k: nat)
    requires SameTree(v0, cat0, v, cat) && Walkable(v0, cat0, cb, per, upcase, d) && Walkable(v, cat, cb, per, upcase, d)
    requires d in cat0.chains && cat0.IsDir(d) && k in cat0.nodes && cat0.nodes[k].parent == d
    ensures d in cat.chains && k in cat.nodes && cat.nodes[k].parent == d && cat.nodes[k].facts.name == cat0.nodes[k].facts.name
    ensures Position(cat, per, k) == Position(cat0, per, k)
    ensures Visible(v, cat, per, k) <==> Visible(v0, cat0, per, k)
  {
    hide *;
    TreeParts(v0, cat0, v, cat, d);
    EntryNames(cat0.nodes[k], cat.nodes[k]);
    WalkableSlots(v0, cat0, cb, per, upcase, d);
    WalkableSlots(v, cat, cb, per, upcase, d);
    SiblingPosition(v0, cat0, v, cat, cb, per, upcase, d, k);
    NodeAtPosition(v0, cat0, cb, per, upcase, d, k);
    OpenStable(v0, cat0, v, cat, cb, per, upcase, d, Position(cat0, per, k));
    VisibleIs(v0, cat0, per, d, k);
    VisibleIs(v, cat, per, d, k);
  }

  lemma EntryNames(n0: Node, n: Node)
    requires SameEntry(n0, n)
    ensures n.parent == n0.parent && n.facts.name == n0.facts.name && n.facts.isDir == n0.facts.isDir
  {
  }

  /** What a search finds is visible, has the name, and comes first. */
  lemma FindLeast(v: Vol, cat: Cat, cb: nat, per: nat, upcase: seq<u16>, d: nat, name: Name, k: nat)
    requires Walkable(v, cat, cb, per, upcase, d) && d in cat.chains
    requires k in cat.nodes && cat.nodes[k].parent == d && Visible(v, cat, per, k)
    requires UpName(upcase, cat.nodes[k].facts.name) == UpName(upcase, name)
    ensures var r := Find(v, cat, per, upcase, d, name);
      && r.Some? && r.value in cat.nodes && cat.nodes[r.value].parent == d
      && Position(cat, per, r.value) <= Position(cat, per, k)
  {
    hide *;
    FindMeans(v, cat, cb, per, upcase, d, name);
    VisibleIsListed(v, cat, cb, per, upcase, d, k);
    FindIsFirstListed(v, cat, cb, per, upcase, d, name);
    FirstIsLeast(v, cat, cb, per, upcase, d, UpName(upcase, name), 0, k);
  }

  lemma SamePosition(v: Vol, cat: Cat, cb: nat, per: nat, upcase: seq<u16>, d: nat, k: nat, k': nat)
    requires Walkable(v, cat, cb, per, upcase, d) && d in cat.chains
    requires k in cat.nodes && cat.nodes[k].parent == d && k' in cat.nodes && cat.nodes[k'].parent == d
    requires Position(cat, per, k) == Position(cat, per, k')
    ensures k == k'
  {
    hide *;
    NodeAtPosition(v, cat, cb, per, upcase, d, k);
    NodeAtPosition(v, cat, cb, per, upcase, d, k');
  }

  /** A search finds the same node in both volumes. */
  lemma FindStable(v0: Vol, cat0: Cat, v: Vol, cat: Cat, cb: nat, per: nat, upcase: seq<u16>, d: nat, name: Name)
    requires SameTree(v0, cat0, v, cat) && Walkable(v0, cat0, cb, per, upcase, d) && Walkable(v, cat, cb, per, upcase, d)
    requires d in cat0.chains && cat0.IsDir(d)
    ensures Find(v, cat, per, upcase, d, name) == Find(v0, cat0, per, upcase, d, name)
  {
    hide *;
    TreeParts(v0, cat0, v, cat, d);
    FindMeans(v0, cat0, cb, per, upcase, d, name);
    FindMeans(v, cat, cb, per, upcase, d, name);
    var r0, r := Find(v0, cat0, per, upcase, d, name), Find(v, cat, per, upcase, d, name);
    if r0.Some? {
      NodeStable(v0, cat0, v, cat, cb, per, upcase, d, r0.value);
      FindLeast(v, cat, cb, per, upcase, d, name, r0.value);
    }
    if r.Some? {
      EntryNames(cat0.nodes[r.value], cat.nodes[r.value]);
      NodeStable(v0, cat0, v, cat, cb, per, upcase, d, r.value);
      FindLeast(v0, cat0, cb, per, upcase, d, name, r.value);
      SamePosition(v, cat, cb, per, upcase, d, r0.value, r.value);
    }
  }

  lemma {:induction false} ResolveStable(v0: Vol, cat0: Cat, v: Vol, cat: Cat, cb: nat, per: nat, upcase: seq<u16>, d: nat, path: seq<Name>)
    requires SameTree(v0, cat0, v, cat) && AllWalkable(v0, cat0, cb, per, upcase) && AllWalkable(v, cat, cb, per, upcase) && cat0.IsDir(d)
    ensures Resolve(v, cat, per, upcase, d, path) == Resolve(v0, cat0, per, upcase, d, path)
    ensures var s := Resolve(v0, cat0, per, upcase, d, path); s.Ok? ==> cat0.IsDir(s.value)
    decreases |path|
  {
    if path != [] {
      FoundStable(v0, cat0, v, cat, cb, per, upcase, d, path[0]);
      hide SameTree, AllWalkable, Find, Cat.IsDir;
      var found := Find(v0, cat0, per, upcase, d, path[0]);
      if found.Some? && cat0.IsDir(found.value) {
        ResolveStable(v0, cat0, v, cat, cb, per, upcase, found.value, path[1..]);
      }
    }
  }

  lemma FoundStable(v0: Vol, cat0: Cat, v: Vol, cat: Cat, cb: nat, per: nat, upcase: seq<u16>, d: nat, name: Name)
    requires SameTree(v0, cat0, v, cat) && AllWalkable(v0, cat0, cb, per, upcase) && AllWalkable(v, cat, cb, per, upcase) && cat0.IsDir(d)
    ensures Find(v, cat, per, upcase, d, name) == Find(v0, cat0, per, upcase, d, name)
    ensures var r := Find(v0, cat0, per, upcase, d, name); r.Some? ==> (cat.IsDir(r.value) <==> cat0.IsDir(r.value))
  {
    WalkableAt(v0, cat0, cb, per, upcase, d);
    SameDirs(v0, cat0, v, cat);
    WalkableAt(v, cat, cb, per, upcase, d);
    hide SameTree, AllWalkable, Find, Walkable, Cat.IsDir;
    FindStable(v0, cat0, v, cat, cb, per, upcase, d, name);
  }

  lemma WalkableAt(v: Vol, cat: Cat, cb: nat, per: nat, upcase: seq<u16>, d: nat)
    requires AllWalkable(v, cat, cb, per, upcase) && cat.IsDir(d)
    ensures Walkable(v, cat, cb, per, upcase, d) && d in cat.chains
  {
    hide NodesOk, SlotsOwned, Placed, Addrs, Slots;
  }

  lemma SameDirs(v0: Vol, cat0: Cat, v: Vol, cat: Cat)
    requires SameTree(v0, cat0, v, cat)
    ensures forall k :: cat.IsDir(k) <==> cat0.IsDir(k)
  {
    hide EndsAlike, Vol.Slot;
  }

  /** Every path names the same node in both volumes. */
  lemma NamedStable(v0: Vol, cat0: Cat, v: Vol, cat: Cat, cb: nat, per: nat, upcase: seq<u16>, path: seq<Name>)
    requires SameTree(v0, cat0, v, cat) && AllWalkable(v0, cat0, cb, per, upcase) && AllWalkable(v, cat, cb, per, upcase)
    ensures Named(v, cat, per, upcase, path) == Named(v0, cat0, per, upcase, path)
  {
    hide SameTree, AllWalkable, Find, Resolve;
    if path != [] {
      ResolveStable(v0, cat0, v, cat, cb, per, upcase, ROOT, path[..|path| - 1]);
      var s := Resolve(v0, cat0, per, upcase, ROOT, path[..|path| - 1]);
      if s.Ok? {
        FoundStable(v0, cat0, v, cat, cb, per, upcase, s.value, path[|path| - 1]);
      }
    }
  }

  // ---- Rewritten entries -------------------------------------------------------------------------

  /** An update of one file's chain and facts leaves the tree as it is. */
  lemma UpdateKeepsTree(v0: Vol, v: Vol, cat: Cat, g: Geometry, bm: BitmapLoc, upcase: seq<u16>, id: nat, ch: seq<nat>, f: Facts)
    requires Consistent(v0, cat, g, bm, upcase) && id in cat.nodes && !cat.nodes[id].facts.isDir
    requires Consistent(v, UpdatedCat(cat, id, ch, f), g, bm, upcase)
    requires f.name == cat.nodes[id].facts.name && f.isDir == cat.nodes[id].facts.isDir
    requires f.Recordable() && Updated(v0, v, cat, upcase, id, ch, f)
    ensures SameTree(v0, cat, v, UpdatedCat(cat, id, ch, f))
  {
    hide *;
    var cat' := UpdatedCat(cat, id, ch, f);
    OwnershipParts(v0, cat, g, bm, upcase);
    FileIsNoDirectory(cat, g, bm, id);
    UpdatedNodes(cat, id, ch, f);
    UpdatedParts(v0, v, cat, upcase, id, ch, f);
    UpdatedEntries(cat, id, f);
    forall a: SlotAddr | cat.InDirectory(a.cluster) && |v0.Slot(a)| == SLOT && |v.Slot(a)| == SLOT
      ensures EndsAlike(v0.Slot(a), v.Slot(a))
    {
      if a in cat.SetOf(id) {
        SetSlotStays(v0, v, cat, cat', g, bm, upcase, id, a);
        AlikeIs(v0.Slot(a), v.Slot(a));
      } else {
        UpdatedOutside(v0, v, cat, upcase, id, ch, f, a);
        AlikeIs(v0.Slot(a), v.Slot(a));
      }
    }
    SameTreeIs(v0, cat, v, cat', id);
  }

  lemma UpdatedEntries(cat: Cat, id: nat, f: Facts)
    requires id in cat.nodes && f.name == cat.nodes[id].facts.name && f.isDir == cat.nodes[id].facts.isDir
    ensures SameEntry(cat.nodes[id], cat.nodes[id].(facts := f))
    ensures forall k :: k in cat.nodes ==> SameEntry(cat.nodes[k], cat.nodes[k])
  {
  }

  lemma UpdatedOutside(v0: Vol, v: Vol, cat: Cat, upcase: seq<u16>, id: nat, ch: seq<nat>, f: Facts, a: SlotAddr)
    requires id in cat.nodes && f.Recordable() && Updated(v0, v, cat, upcase, id, ch, f) && a !in cat.SetOf(id) && cat.InDirectory(a.cluster)
    ensures v.Slot(a) == v0.Slot(a)
  {
    hide Vol.Slot, ChainStep, SetOnDisk, Cat.SetOf, Cat.InDirectory;
  }

  lemma SameTreeIs(v0: Vol, cat0: Cat, v: Vol, cat: Cat, id: nat)
    requires id in cat0.nodes && cat.nodes.Keys == cat0.nodes.Keys && !cat0.IsDir(id)
    requires forall k :: k in cat0.nodes && k != id ==> cat.nodes[k] == cat0.nodes[k]
    requires SameEntry(cat0.nodes[id], cat.nodes[id]) && forall k :: k in cat0.nodes ==> SameEntry(cat0.nodes[k], cat0.nodes[k])
    requires forall k :: k in cat0.chains && k != id ==> k in cat.chains && cat.chains[k] == cat0.chains[k]
    requires forall a: SlotAddr {:trigger v.Slot(a)} :: cat0.InDirectory(a.cluster) && |v0.Slot(a)| == SLOT && |v.Slot(a)| == SLOT ==>
          EndsAlike(v0.Slot(a), v.Slot(a))
    ensures SameTree(v0, cat0, v, cat)
  {
    hide EndsAlike, Vol.Slot, SameEntry, Cat.InDirectory;
  }

  ghost predicate SamePaths(v0: Vol, cat0: Cat, v: Vol, cat: Cat, per: nat, upcase: seq<u16>)
  {
    forall path {:trigger Named(v, cat, per, upcase, path)} :: Named(v, cat, per, upcase, path) == Named(v0, cat0, per, upcase, path)
  }

  /** After an update every path still names the node it named. */
  lemma UpdateKeepsNames(v: Volume, v0: Vol, cat: Cat, upcase: seq<u16>, id: nat, ch: seq<nat>, f: Facts)
    requires v.Valid() && Consistent(v0, cat, v.geo, v.bm, upcase) && id in cat.nodes && !cat.nodes[id].facts.isDir
    requires AllWalkable(v0, cat, v.geo.ClusterBytes(), v.geo.Per(), upcase)
    requires Consistent(v.vol, UpdatedCat(cat, id, ch, f), v.geo, v.bm, upcase)
    requires f.name == cat.nodes[id].facts.name && f.isDir == cat.nodes[id].facts.isDir
    requires f.Recordable() && Updated(v0, v.vol, cat, upcase, id, ch, f)
    ensures SamePaths(v0, cat, v.vol, UpdatedCat(cat, id, ch, f), v.geo.Per(), upcase)
  {
    var cat' := UpdatedCat(cat, id, ch, f);
    UpdateKeepsTree(v0, v.vol, cat, v.geo, v.bm, upcase, id, ch, f);
    hide *;
    TreeKeepsNames(v, v0, cat, cat', upcase);
  }

  lemma TreeKeepsNames(v: Volume, v0: Vol, cat: Cat, cat': Cat, upcase: seq<u16>)
    requires v.Valid() && Consistent(v.vol, cat', v.geo, v.bm, upcase) && SameTree(v0, cat, v.vol, cat')
    requires AllWalkable(v0, cat, v.geo.ClusterBytes(), v.geo.Per(), upcase)
    ensures SamePaths(v0, cat, v.vol, cat', v.geo.Per(), upcase)
  {
    AllWalkableIs(v, cat', upcase);
    hide Consistent, SameTree, AllWalkable, Volume.Valid, Named, Geometry.ClusterBytes, Geometry.Per;
    forall path
      ensures Named(v.vol, cat', v.geo.Per(), upcase, path) == Named(v0, cat, v.geo.Per(), upcase, path)
    {
      NamedStable(v0, cat, v.vol, cat', v.geo.ClusterBytes(), v.geo.Per(), upcase, path);
    }
  }

  lemma TruncateKeepsNames(v: Volume, v0: Vol, cat: Cat, upcase: seq<u16>, id: nat, len: nat)
    requires v.Valid() && Consistent(v0, cat, v.geo, v.bm, upcase) && id in cat.nodes && !cat.nodes[id].facts.isDir
    requires AllWalkable(v0, cat, v.geo.ClusterBytes(), v.geo.Per(), upcase) && 0 < v.geo.ClusterBytes() && id in cat.chains
    requires TruncateDone(v0, Tidied(v0, v.vol, cat, id, len), cat, v.geo.ClusterBytes(), upcase, id, len)
    requires Consistent(v.vol, TruncatedCat(cat, id, v.geo.ClusterBytes(), len), v.geo, v.bm, upcase)
    ensures SamePaths(v0, cat, v.vol, TruncatedCat(cat, id, v.geo.ClusterBytes(), len), v.geo.Per(), upcase)
  {
    hide *;
    var cb := v.geo.ClusterBytes();
    var ch := Cut(cat, id, cb, len);
    var f := FactsAfter(cat.nodes[id].facts, ch, len, TruncatedFlags(cat.nodes[id].facts, |ch|));
    var tidy := Tidied(v0, v.vol, cat, id, len);
    TruncateDoneParts(v0, tidy, cat, cb, upcase, id, len);
    TruncatedCatIs(cat, id, cb, len, ch, f);
    CutOwned(v0, cat, v.geo, v.bm, upcase, id, len);
    UpdateKeepsConsistent(v0, tidy, cat, v.geo, v.bm, upcase, id, ch, f);
    UpdateKeepsTree(v0, tidy, cat, v.geo, v.bm, upcase, id, ch, f);
    TidiedParts(v0, v.vol, cat, id, len);
    TreeWithSpares(v0, cat, tidy, v.vol, UpdatedCat(cat, id, ch, f), SparesAfter(cat, id, len));
    TreeKeepsNames(v, v0, cat, TruncatedCat(cat, id, cb, len), upcase);
  }

  /** The tree is in the directories' contents; which clusters lie spare says nothing of it. */
  lemma TreeWithSpares(v0: Vol, cat0: Cat, v: Vol, v': Vol, cat: Cat, spare: set<nat>)
    requires SameTree(v0, cat0, v, cat) && v'.data == v.data
    ensures SameTree(v0, cat0, v', cat.(spare := spare))
  {
    hide EndsAlike, SameEntry;
    assert forall a: SlotAddr :: v'.Slot(a) == v.Slot(a);
    hide Vol.Slot;
  }
}
