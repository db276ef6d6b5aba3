/** Searching the directories of a consistent volume: what the search finds is a node of the catalogue. */
module Lookups {
  import opened Bytes
  import opened Catalogues
  import opened Directories
  import opened EntrySets
  import opened Fats
  import opened FileData
  import opened Geometries
  import opened SlotLists
  import opened Volumes

  lemma BitmapOwned(cat: Cat, g: Geometry, bm: BitmapLoc, c: nat)
    requires 0 < g.ClusterBytes() && Placed(cat) && SystemOk(cat, g, bm)
    ensures g.InBitmapRun(bm, c) ==> c in cat.own && cat.own[c].id == BITMAP
  {
    if g.InBitmapRun(bm, c) {
      var k := c - bm.firstCluster;
      assert cat.chains[BITMAP][k] == c;
    }
  }

  /** The chains of a consistent volume are where the code may read and write them. */
  lemma OwnerClusters(v: Volume, cat: Cat, upcase: seq<u16>, id: nat)
    requires v.Valid() && Consistent(v.vol, cat, v.geo, v.bm, upcase)
    requires id in cat.chains && id != BITMAP
    ensures FileClusters(v.geo, v.bm, cat.chains[id]) && DirClusters(v, cat.chains[id])
  {
    v.Sizes();
    hide Volume.Valid, NodesOk, SlotsOwned, Geometry.ClusterBytes, DivCeil;
    var ch := cat.chains[id];
    ChainDistinct(v.vol.fat, ch);
    forall i | 0 <= i < |ch|
      ensures v.geo.InRange(ch[i]) && !v.geo.InBitmapRun(v.bm, ch[i])
    {
      assert cat.own[ch[i]] == Place(id, i);
      BitmapOwned(cat, v.geo, v.bm, ch[i]);
    }
  }

  lemma SlotOfNode(v: Vol, cat: Cat, cb: nat, per: nat, upcase: seq<u16>, a: SlotAddr)
    requires 0 < cb && NodesOk(v, cat, cb, upcase) && SlotsOwned(v, cat, per) && FileSlotAt(v, cat, per, a)
    ensures a in cat.slotOwn && cat.slotOwn[a] in cat.nodes
    ensures var n := cat.nodes[cat.slotOwn[a]];
      n.facts.Recordable() && n.cluster == a.cluster && n.start == a.index && v.Slot(a) == Encode(n.facts, upcase)[0]
  {
    hide Encode, SetSize;
    var id := cat.slotOwn[a];
    assert NodeOk(v, cat, cb, upcase, id);
    var n := cat.nodes[id];
    var j := a.index - n.start;
    assert n.Addr(j) == a;
    SetHead(n.facts, upcase);
    assert v.Slot(a) == Encode(n.facts, upcase)[j];
  }

  /** A directory of a consistent volume can be walked and searched. */
  lemma DirReady(v: Volume, cat: Cat, upcase: seq<u16>, d: nat)
    requires v.Valid() && Consistent(v.vol, cat, v.geo, v.bm, upcase) && cat.IsDir(d)
    ensures d in cat.chains && cat.chains[d] != []
    ensures DirChain(v.vol, cat.chains[d][0], v.geo.clusterCount) == Ok(cat.chains[d])
    ensures Searchable(v, cat.chains[d])
  {
    DirChainKnown(v, cat, upcase, d);
    OwnerClusters(v, cat, upcase, d);
    var addrs := Addrs(cat.chains[d], v.geo.Per());
    ClustersToAddrs(v, cat.chains[d]);
    WholeSlots(v, addrs);
    hide Volume.Valid, Geometry.ClusterBytes, Geometry.Per, SlotsOwned, Encode, Geometry.InBitmapRun, Linked, BitsMatch, NodesOk;
    forall i | 0 <= i < |addrs| && SlotsAt(v.vol, addrs)[i][0] == ENTRY_FILE
      ensures 1 <= SlotsAt(v.vol, addrs)[i][1]
    {
      DirSlotAddr(cat, d, v.geo.Per(), i);
      SlotOfNode(v.vol, cat, v.geo.ClusterBytes(), v.geo.Per(), upcase, addrs[i]);
      SetHead(cat.nodes[cat.slotOwn[addrs[i]]].facts, upcase);
    }
  }

  lemma DirChainKnown(v: Volume, cat: Cat, upcase: seq<u16>, d: nat)
    requires v.Valid() && Consistent(v.vol, cat, v.geo, v.bm, upcase) && cat.IsDir(d)
    ensures d in cat.chains && cat.chains[d] != [] && d != BITMAP
    ensures DirChain(v.vol, cat.chains[d][0], v.geo.clusterCount) == Ok(cat.chains[d])
  {
    v.Sizes();
    hide Volume.Valid, SlotsOwned, SetOnDisk, Geometry.ClusterBytes;
    if d != ROOT {
      assert NodeOk(v.vol, cat, v.geo.ClusterBytes(), upcase, d);
    }
    ChainDistinct(v.vol.fat, cat.chains[d]);
    WalkOfChain(v.vol.fat, cat.chains[d], v.geo.clusterCount, false);
  }

  lemma DirSlotAddr(cat: Cat, d: nat, per: nat, i: nat)
    requires Placed(cat) && d in cat.chains && cat.IsDir(d) && 0 < per && i < |Addrs(cat.chains[d], per)|
    ensures var a := Addrs(cat.chains[d], per)[i];
      && a.index == i % per && a.index < per && i / per < |cat.chains[d]| && a.cluster == cat.chains[d][i / per]
      && a.cluster in cat.own && cat.own[a.cluster] == Place(d, i / per) && cat.InDirectory(a.cluster)
  {
    AddrsIndex(cat.chains[d], per, i);
    assert cat.own[cat.chains[d][i / per]] == Place(d, i / per);
  }

  // ---- What a search finds -------------------------------------------------------------

  /** The set of a hit is where the hit says, and carries the name sought. */
  ghost predicate HitAt(upcase: seq<u16>, slots: seq<seq<byte>>, want: Name, h: Hit)
    requires Slots(slots)
  {
    && 2 <= h.count && h.pos + h.count <= |slots|
    && slots[h.pos][0] == ENTRY_FILE && h.count == 1 + slots[h.pos][1] as nat
    && h == HitOf(slots[h.pos..h.pos + h.count]).(pos := h.pos)
    && UpName(upcase, NameIn(slots[h.pos..h.pos + h.count])) == want
  }

  lemma HitLater(upcase: seq<u16>, slots: seq<seq<byte>>, want: Name, n: nat, h: Hit)
    requires Slots(slots) && n <= |slots| && Slots(slots[n..]) && HitAt(upcase, slots[n..], want, h)
    ensures HitAt(upcase, slots, want, h.(pos := h.pos + n))
  {
    hide UpName, NameIn, HitOf;
    assert slots[n..][h.pos..h.pos + h.count] == slots[h.pos + n..h.pos + n + h.count];
  }

  lemma HitFirst(upcase: seq<u16>, slots: seq<seq<byte>>, want: Name, n: nat)
    requires Slots(slots) && slots != [] && slots[0][0] == ENTRY_FILE && n == 1 + slots[0][1] as nat && 2 <= n <= |slots|
    requires UpName(upcase, NameIn(slots[..n])) == want
    ensures HitAt(upcase, slots, want, HitOf(slots[..n]))
  {
    hide UpName, NameIn, HitOf;
    HitCount(slots[..n]);
    assert slots[0..n] == slots[..n];
  }

  lemma {:induction false} HitFound(upcase: seq<u16>, slots: seq<seq<byte>>, want: Name)
    requires Slots(slots) && LocateIn(upcase, slots, want).Some?
    ensures HitAt(upcase, slots, want, LocateIn(upcase, slots, want).value)
    decreases |slots|
  {
    hide UpName, NameIn, HitOf, HitAt;
    var n := 1 + slots[0][1] as nat;
    if slots[0][0] != ENTRY_FILE {
      HitFound(upcase, slots[1..], want);
      HitLater(upcase, slots, want, 1, LocateIn(upcase, slots[1..], want).value);
    } else if UpName(upcase, NameIn(slots[..n])) == want {
      HitFirst(upcase, slots, want, n);
    } else {
      HitFound(upcase, slots[n..], want);
      HitLater(upcase, slots, want, n, LocateIn(upcase, slots[n..], want).value);
    }
  }

  lemma HitFacts(upcase: seq<u16>, slots: seq<seq<byte>>, want: Name)
    requires Slots(slots) && LocateIn(upcase, slots, want).Some?
    ensures var h := LocateIn(upcase, slots, want).value;
      && 2 <= h.count && h.pos + h.count <= |slots|
      && slots[h.pos][0] == ENTRY_FILE && h.count == 1 + slots[h.pos][1] as nat
      && h == HitOf(slots[h.pos..h.pos + h.count]).(pos := h.pos)
      && UpName(upcase, NameIn(slots[h.pos..h.pos + h.count])) == want
  {
    HitFound(upcase, slots, want);
    hide LocateIn, UpName, NameIn, HitOf;
  }

  lemma HitCount(set_: seq<seq<byte>>)
    requires |set_| >= 2 && Slots(set_)
    ensures HitOf(set_).pos == 0 && HitOf(set_).count == |set_|
  {
  }

  lemma HitOfEncode(f: Facts, upcase: seq<u16>)
    requires f.Recordable()
    ensures HitOf(Encode(f, upcase)) == Hit(0, SetSize(f.name), f.first, f.len, f.isDir, f.flags)
    ensures NameIn(Encode(f, upcase)) == f.name
  {
    hide Checksum, FileSlot, StreamSlot, NameSlots, CollectUnits, BitSet, NameHash, Field;
    FileFields(SetSize(f.name) - 1, Checksum(Unsummed(f, upcase, 0)), f.isDir);
    StreamFields(f.flags, |f.name|, NameHash(upcase, f.name), f.len, f.first, f.len);
    NameRoundTrip(f.name);
    assert Encode(f, upcase)[2..] == NameSlots(f.name);
  }

  /** The location of node `n`, as the search reports it. */
  function LocOfNode(n: Node): EntryLoc
  {
    EntryLoc(n.SetAddrs(), n.facts.first, n.facts.len, n.facts.isDir, n.facts.flags)
  }

  /** A directory to write into: its first cluster and, unless it is the root, where its own entry lies. */
  datatype DirHandle = DirHandle(firstCluster: nat, entry: Option<EntryLoc>)

  ghost function HandleOf(cat: Cat, d: nat): DirHandle
    requires d in cat.chains && cat.chains[d] != [] && (d == ROOT || d in cat.nodes)
  {
    DirHandle(cat.chains[d][0], if d == ROOT then None else Some(LocOfNode(cat.nodes[d])))
  }

  ghost predicate HandleFor(cat: Cat, dir: DirHandle, d: nat)
  {
    cat.IsDir(d) && d in cat.chains && cat.chains[d] != [] && dir == HandleOf(cat, d)
  }

  /** The node a search for `name` in directory `d` finds. */
  ghost function Find(v: Vol, cat: Cat, per: nat, upcase: seq<u16>, d: nat, name: Name): Option<nat>
  {
    if d in cat.chains && Slots(SlotsAt(v, Addrs(cat.chains[d], per))) then
      match Located(v, upcase, cat.chains[d], per, name)
      case None => None
      case Some(loc) =>
        if loc.offsets != [] && loc.offsets[0] in cat.slotOwn then Some(cat.slotOwn[loc.offsets[0]]) else None
    else None
  }

  /** The directory a path leads to from directory `d`. */
  ghost function Resolve(v: Vol, cat: Cat, per: nat, upcase: seq<u16>, d: nat, path: seq<Name>): Result<nat>
    decreases |path|
  {
    if path == [] then Ok(d)
    else
      match Find(v, cat, per, upcase, d, path[0])
      case None => Err(NotFound)
      case Some(id) =>
        if cat.IsDir(id) then Resolve(v, cat, per, upcase, id, path[1..])
        else Err(Invalid("path component is not a directory"))
  }

  /** The directory that holds the last component of a path. */
  ghost function ParentOf(v: Vol, cat: Cat, per: nat, upcase: seq<u16>, path: seq<Name>): Result<nat>
  {
    if path == [] then Err(Invalid("empty file name")) else Resolve(v, cat, per, upcase, ROOT, path[..|path| - 1])
  }

  /** The node a path names. */
  ghost function Named(v: Vol, cat: Cat, per: nat, upcase: seq<u16>, path: seq<Name>): Result<nat>
  {
    match ParentOf(v, cat, per, upcase, path)
    case Err(e) => Err(e)
    case Ok(d) =>
      match Find(v, cat, per, upcase, d, path[|path| - 1])
      case None => Err(NotFound)
      case Some(id) => Ok(id)
  }

  /** `loc` is the location of node `found`, which lies in directory `d` under `name`. */
  ghost predicate FoundNode(cat: Cat, upcase: seq<u16>, d: nat, name: Name, found: nat, loc: EntryLoc)
  {
    && found in cat.nodes && cat.nodes[found].parent == d
    && UpName(upcase, cat.nodes[found].facts.name) == UpName(upcase, name)
    && loc == LocOfNode(cat.nodes[found])
  }

  /** In a consistent volume a search finds nothing but nodes: what it returns is the location of a node of
      that directory with that name. */
  lemma SearchFindsNodes(v: Vol, cat: Cat, cb: nat, per: nat, upcase: seq<u16>, d: nat, name: Name)
    requires 0 < cb && 0 < per == cb / SLOT && Placed(cat) && NodesOk(v, cat, cb, upcase) && SlotsOwned(v, cat, per)
    requires d in cat.chains && cat.IsDir(d) && Slots(SlotsAt(v, Addrs(cat.chains[d], per)))
    ensures var found, loc := Find(v, cat, per, upcase, d, name), Located(v, upcase, cat.chains[d], per, name);
      && (found.None? <==> loc.None?)
      && (found.Some? ==> FoundNode(cat, upcase, d, name, found.value, loc.value))
  {
    hide LocateIn, UpName, HitOf, NameIn, Encode, SlotsOwned, NodesOk, Placed, Addrs;
    var addrs := Addrs(cat.chains[d], per);
    var slots, want := SlotsAt(v, addrs), UpName(upcase, name);
    if LocateIn(upcase, slots, want).Some? {
      HitFacts(upcase, slots, want);
      var h := LocateIn(upcase, slots, want).value;
      HitIsNode(v, cat, cb, per, upcase, d, h.pos);
      var n := cat.nodes[cat.slotOwn[addrs[h.pos]]];
      HitOfEncode(n.facts, upcase);
      assert h == HitOf(Encode(n.facts, upcase)).(pos := h.pos);
      assert addrs[h.pos..h.pos + h.count][0] == addrs[h.pos];
      assert Located(v, upcase, cat.chains[d], per, name) == Some(LocOfNode(n));
    }
  }

  lemma HeadOfNode(v: Vol, cat: Cat, cb: nat, per: nat, upcase: seq<u16>, d: nat, pos: nat, i: nat, s: nat)
    requires 0 < cb && 0 < per == cb / SLOT && Placed(cat) && NodesOk(v, cat, cb, upcase) && SlotsOwned(v, cat, per)
    requires pos == i * per + s && s < per
    requires d in cat.chains && cat.IsDir(d) && pos < |Addrs(cat.chains[d], per)|
    requires Slots(SlotsAt(v, Addrs(cat.chains[d], per))) && SlotsAt(v, Addrs(cat.chains[d], per))[pos][0] == ENTRY_FILE
    ensures i < |cat.chains[d]|
    ensures var a := Addrs(cat.chains[d], per)[pos];
      && a in cat.slotOwn && cat.slotOwn[a] in cat.nodes
      && var n := cat.nodes[cat.slotOwn[a]];
      && n.parent == d && n.facts.Recordable() && SetOnDisk(v, n, upcase)
      && n.start + n.Count() <= per
      && n.cluster == cat.chains[d][i] && n.start == s
      && n.Count() == 1 + SlotsAt(v, Addrs(cat.chains[d], per))[pos][1] as nat
  {
    hide Encode, SetOnDisk, ChainSuits, SetSize, Addrs, Vol.Slot, Facts.Recordable;
    var addrs := Addrs(cat.chains[d], per);
    DivModUnique(i, per, s);
    DirSlotAddr(cat, d, per, pos);
    SlotOfNode(v, cat, cb, per, upcase, addrs[pos]);
    var id := cat.slotOwn[addrs[pos]];
    assert NodeOk(v, cat, cb, upcase, id);
    SetHead(cat.nodes[id].facts, upcase);
  }

  lemma HitIsNode(v: Vol, cat: Cat, cb: nat, per: nat, upcase: seq<u16>, d: nat, pos: nat)
    requires 0 < cb && 0 < per == cb / SLOT && Placed(cat) && NodesOk(v, cat, cb, upcase) && SlotsOwned(v, cat, per)
    requires d in cat.chains && cat.IsDir(d) && pos < |Addrs(cat.chains[d], per)|
    requires Slots(SlotsAt(v, Addrs(cat.chains[d], per))) && SlotsAt(v, Addrs(cat.chains[d], per))[pos][0] == ENTRY_FILE
    ensures var addrs := Addrs(cat.chains[d], per);
      && addrs[pos] in cat.slotOwn && cat.slotOwn[addrs[pos]] in cat.nodes
      && var n := cat.nodes[cat.slotOwn[addrs[pos]]];
      && n.parent == d && n.facts.Recordable() && pos + n.Count() <= |addrs|
      && n.Count() == 1 + SlotsAt(v, addrs)[pos][1] as nat
      && addrs[pos..pos + n.Count()] == n.SetAddrs()
      && SlotsAt(v, addrs)[pos..pos + n.Count()] == Encode(n.facts, upcase)
  {
    DivMod(pos, per);
    hide NodesOk, SlotsOwned, Placed, Addrs, SetOnDisk;
    HitIsNodeAt(v, cat, cb, per, upcase, d, pos, pos / per, pos % per);
  }

  lemma HitIsNodeAt(v: Vol, cat: Cat, cb: nat, per: nat, upcase: seq<u16>, d: nat, pos: nat, i: nat, s: nat)
    requires 0 < cb && 0 < per == cb / SLOT && Placed(cat) && NodesOk(v, cat, cb, upcase) && SlotsOwned(v, cat, per)
    requires pos == i * per + s && s < per
    requires d in cat.chains && cat.IsDir(d) && pos < |Addrs(cat.chains[d], per)|
    requires Slots(SlotsAt(v, Addrs(cat.chains[d], per))) && SlotsAt(v, Addrs(cat.chains[d], per))[pos][0] == ENTRY_FILE
    ensures var addrs := Addrs(cat.chains[d], per);
      && addrs[pos] in cat.slotOwn && cat.slotOwn[addrs[pos]] in cat.nodes
      && var n := cat.nodes[cat.slotOwn[addrs[pos]]];
      && n.parent == d && n.facts.Recordable() && pos + n.Count() <= |addrs|
      && n.Count() == 1 + SlotsAt(v, addrs)[pos][1] as nat
      && addrs[pos..pos + n.Count()] == n.SetAddrs()
      && SlotsAt(v, addrs)[pos..pos + n.Count()] == Encode(n.facts, upcase)
  {
    HeadOfNode(v, cat, cb, per, upcase, d, pos, i, s);
    var n := cat.nodes[cat.slotOwn[Addrs(cat.chains[d], per)[pos]]];
    hide Encode, NodesOk, SlotsOwned, Placed, Addrs, SetOnDisk, SetSize;
    NodeInWalk(v, cat.chains[d], per, upcase, n, i);
  }

  /** The set of a node that lies in the `i`-th cluster of a directory, seen in the walk. */
  lemma NodeInWalk(v: Vol, ch: seq<nat>, per: nat, upcase: seq<u16>, n: Node, i: nat)
    requires i < |ch| && n.cluster == ch[i] && n.start + n.Count() <= per
    requires n.facts.Recordable() && SetOnDisk(v, n, upcase)
    ensures i * per + n.start + n.Count() <= |Addrs(ch, per)|
    ensures Addrs(ch, per)[i * per + n.start..i * per + n.start + n.Count()] == n.SetAddrs()
    ensures SlotsAt(v, Addrs(ch, per))[i * per + n.start..i * per + n.start + n.Count()] == Encode(n.facts, upcase)
  {
    hide Encode, Addrs, SetOnDisk, SetSize, SlotsAt;
    AddrsRun(ch, per, i, n.start, n.Count());
    SetOnDiskSlots(v, n, upcase);
    SubSlots(v, Addrs(ch, per), i * per + n.start, i * per + n.start + n.Count());
  }
}
