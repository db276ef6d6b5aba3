/** Who owns what on a volume: the chains of the system structures, of the root directory and of every file
    and directory, and the slots that record them. The catalogue is ghost: the source keeps no such table, it
    is what its operations are meant to agree on. */
module Catalogues {
  import opened Alloc
  import opened Bytes
  import opened Directories
  import opened EntrySets
  import opened Fats
  import opened Geometries
  import opened Volumes

  const ROOT := 0
  const BITMAP := 1
  const UPCASE := 2

  /** A file or directory: the directory it is in, where its entry set lies, and what the set records. */
  datatype Node = Node(parent: nat, cluster: nat, start: nat, facts: Facts)
  {
    function Count(): nat { SetSize(facts.name) }

    function Addr(j: nat): SlotAddr { SlotAddr(cluster, start + j) }

    function SetAddrs(): (a: seq<SlotAddr>)
      ensures |a| == Count() && forall j :: 0 <= j < |a| ==> a[j] == Addr(j)
    {
      SlotRun(cluster, start, Count())
    }
  }

  /** The place of a cluster: its owner and its index in the owner's chain. */
  datatype Place = Place(id: nat, at: nat)

  /** `chains`: the clusters of every owner; a file without clusters owns the empty chain. `own`: the
      inverse. `spare`: clusters marked allocated that nobody owns. `slotOwn`: the node each used slot
      belongs to. */
  datatype Cat = Cat(chains: map<nat, seq<nat>>, own: map<nat, Place>, spare: set<nat>,
                     nodes: map<nat, Node>, slotOwn: map<SlotAddr, nat>)
  {
    predicate IsDir(id: nat) { id == ROOT || (id in nodes && nodes[id].facts.isDir) }

    predicate InDirectory(c: nat) { c in own && IsDir(own[c].id) }

    /** `id` now owns exactly the clusters of `ch`. */
    function SetChain(id: nat, ch: seq<nat>): Cat
    {
      this.(chains := chains[id := ch],
            own := map c | c in own.Keys + Elems(ch) && (c in ch || own[c].id != id)
                     :: if c in ch then Place(id, IndexOf(ch, c)) else own[c])
    }

    /** `id` is now recorded as `n`, and owns exactly the slots of that record. */
    function PutNode(id: nat, n: Node): Cat
    {
      this.(nodes := nodes[id := n],
            slotOwn := map a | a in slotOwn.Keys + Elems(n.SetAddrs()) && (a in n.SetAddrs() || slotOwn[a] != id)
                         :: if a in n.SetAddrs() then id else slotOwn[a])
    }

    function DropNode(id: nat): Cat
    {
      this.(nodes := nodes - {id}, slotOwn := map a | a in slotOwn && slotOwn[a] != id :: slotOwn[a])
    }

    /** The slots of `id`'s entry set, none if it has none. */
    function SetOf(id: nat): set<SlotAddr>
    {
      if id in nodes then Elems(nodes[id].SetAddrs()) else {}
    }

    function DropChain(id: nat): Cat
    {
      this.(chains := chains - {id}, own := map c | c in own && own[c].id != id :: own[c])
    }
  }

  function IndexOf(ch: seq<nat>, c: nat): (i: nat)
    requires c in ch
    ensures i < |ch| && ch[i] == c
  {
    if ch[0] == c then 0 else 1 + IndexOf(ch[1..], c)
  }

  // ---- Clusters ------------------------------------------------------------------------

  /** `own` is the inverse of `chains`: every cluster of a chain has that place, and only those. */
  ghost predicate Placed(cat: Cat)
  {
    && (forall id, i :: id in cat.chains && 0 <= i < |cat.chains[id]| ==>
          cat.chains[id][i] in cat.own && cat.own[cat.chains[id][i]] == Place(id, i))
    && (forall c :: c in cat.own ==> var p := cat.own[c];
          p.id in cat.chains && p.at < |cat.chains[p.id]| && cat.chains[p.id][p.at] == c)
    && (forall c :: c in cat.spare ==> c !in cat.own)
  }

  /** Every chain is linked and ended in the FAT. */
  ghost predicate Linked(fat: seq<nat>, cat: Cat)
  {
    forall id {:trigger IsChain(fat, cat.chains[id])} :: id in cat.chains ==> IsChain(fat, cat.chains[id])
  }

  /** The allocated clusters are the owned ones and the spare ones. */
  ghost predicate BitsMatch(bits: seq<bool>, cat: Cat)
  {
    forall c :: 2 <= c < |bits| ==> (bits[c] <==> c in cat.own || c in cat.spare)
  }

  ghost predicate ChainsOwned(v: Vol, cat: Cat)
  {
    && |v.bits| == |v.fat| && v.Unreserved()
    && Placed(cat) && Linked(v.fat, cat) && BitsMatch(v.bits, cat)
  }

  /** What ownership means, in terms of the disk alone: chains are in range, free of repetition, ended and
      disjoint, and, up to the spare clusters, their union is the set of allocated clusters. */
  lemma OwnershipMeans(v: Vol, cat: Cat)
    requires ChainsOwned(v, cat)
    ensures forall id :: id in cat.chains ==> IsChain(v.fat, cat.chains[id]) && Distinct(cat.chains[id])
    ensures forall id, id' :: id in cat.chains && id' in cat.chains && id != id' ==>
      Elems(cat.chains[id]) !! Elems(cat.chains[id'])
    ensures forall c :: 2 <= c < |v.bits| ==>
      (v.bits[c] <==> c in cat.spare || exists id :: id in cat.chains && c in cat.chains[id])
  {
    forall id | id in cat.chains
      ensures Distinct(cat.chains[id])
    {
      ChainDistinct(v.fat, cat.chains[id]);
    }
    forall id, id', c | id in cat.chains && id' in cat.chains && c in Elems(cat.chains[id]) && c in Elems(cat.chains[id'])
      ensures id == id'
    {
      var i :| 0 <= i < |cat.chains[id]| && cat.chains[id][i] == c;
      var i' :| 0 <= i' < |cat.chains[id']| && cat.chains[id'][i'] == c;
      assert cat.own[c] == Place(id, i) && cat.own[c] == Place(id', i');
    }
    forall c | 2 <= c < |v.bits| && c in cat.own
      ensures exists id :: id in cat.chains && c in cat.chains[id]
    {
      assert c in cat.chains[cat.own[c].id];
    }
  }

  lemma IndexOfDistinct(ch: seq<nat>, i: nat)
    requires Distinct(ch) && i < |ch|
    ensures IndexOf(ch, ch[i]) == i
  {
    assert forall k :: 0 <= k < |ch| && k != i ==> ch[k] != ch[i];
  }

  lemma SetChainPlaced(cat: Cat, id: nat, ch: seq<nat>)
    requires Placed(cat) && Distinct(ch)
    requires forall c :: c in ch ==> c !in cat.spare && (c in cat.own ==> cat.own[c].id == id)
    ensures Placed(cat.SetChain(id, ch))
  {
    hide IndexOf;
    var cat' := cat.SetChain(id, ch);
    forall id', i | id' in cat'.chains && 0 <= i < |cat'.chains[id']|
      ensures cat'.chains[id'][i] in cat'.own && cat'.own[cat'.chains[id'][i]] == Place(id', i)
    {
      var c := cat'.chains[id'][i];
      if id' == id {
        IndexOfDistinct(ch, i);
      } else {
        assert c in cat.own && cat.own[c] == Place(id', i);
      }
    }
    forall c | c in cat'.own
      ensures var p := cat'.own[c]; p.id in cat'.chains && p.at < |cat'.chains[p.id]| && cat'.chains[p.id][p.at] == c
    {
      if c !in ch {
        assert c in cat.own && cat'.own[c] == cat.own[c];
      }
    }
  }

  lemma DropChainPlaced(cat: Cat, id: nat)
    requires Placed(cat)
    ensures Placed(cat.DropChain(id))
  {
  }

  lemma OthersLinked(fat0: seq<nat>, fat: seq<nat>, cat: Cat, id: nat)
    requires Placed(cat) && Linked(fat0, cat) && |fat| == |fat0|
    requires forall c :: 0 <= c < |fat| && c in cat.own && cat.own[c].id != id ==> fat[c] == fat0[c]
    ensures forall id' :: id' in cat.chains && id' != id ==> IsChain(fat, cat.chains[id'])
  {
    forall id' | id' in cat.chains && id' != id
      ensures IsChain(fat, cat.chains[id'])
    {
      var ch := cat.chains[id'];
      assert IsChain(fat0, ch);
      assert forall i :: 0 <= i < |ch| ==> cat.own[ch[i]] == Place(id', i);
    }
  }

  lemma SetChainBits(bits0: seq<bool>, bits: seq<bool>, cat: Cat, id: nat, ch: seq<nat>)
    requires Placed(cat) && BitsMatch(bits0, cat) && |bits| == |bits0|
    requires forall c :: c in ch ==> c !in cat.spare && (c in cat.own ==> cat.own[c].id == id)
    requires forall c :: 2 <= c < |bits| ==>
      bits[c] == (c in ch || (bits0[c] && !(c in cat.own && cat.own[c].id == id)))
    ensures BitsMatch(bits, cat.SetChain(id, ch))
  {
    hide IndexOf;
    var cat' := cat.SetChain(id, ch);
    forall c | 2 <= c < |bits|
      ensures bits[c] <==> c in cat'.own || c in cat'.spare
    {
      assert bits0[c] <==> c in cat.own || c in cat.spare;
      assert c in Elems(ch) <==> c in ch;
    }
  }

  lemma DropChainBits(bits0: seq<bool>, bits: seq<bool>, cat: Cat, id: nat)
    requires Placed(cat) && BitsMatch(bits0, cat) && |bits| == |bits0|
    requires forall c :: 2 <= c < |bits| ==> bits[c] == (bits0[c] && !(c in cat.own && cat.own[c].id == id))
    ensures BitsMatch(bits, cat.DropChain(id))
  {
    var cat' := cat.DropChain(id);
    forall c | 2 <= c < |bits|
      ensures bits[c] <==> c in cat'.own || c in cat'.spare
    {
      assert bits0[c] <==> c in cat.own || c in cat.spare;
    }
  }

  /** Giving `id` the chain `ch` keeps ownership when `ch` is linked and takes nobody else's clusters, when
      the bits of the old and the new clusters of `id` say so, and when nothing else changes. */
  lemma SetChainKeepsOwnership(v0: Vol, v: Vol, cat: Cat, id: nat, ch: seq<nat>)
    requires ChainsOwned(v0, cat) && |v.fat| == |v0.fat| && |v.bits| == |v0.bits|
    requires IsChain(v.fat, ch)
    requires forall c :: c in ch ==> c !in cat.spare && (c in cat.own ==> cat.own[c].id == id)
    requires forall c :: 0 <= c < |v.fat| && c in cat.own && cat.own[c].id != id ==> v.fat[c] == v0.fat[c]
    requires forall c :: 2 <= c < |v.bits| ==>
      v.bits[c] == (c in ch || (v0.bits[c] && !(c in cat.own && cat.own[c].id == id)))
    ensures ChainsOwned(v, cat.SetChain(id, ch))
  {
    hide IsChain, Placed, BitsMatch;
    ChainDistinct(v.fat, ch);
    SetChainPlaced(cat, id, ch);
    OthersLinked(v0.fat, v.fat, cat, id);
    SetChainBits(v0.bits, v.bits, cat, id, ch);
  }

  lemma DropChainKeepsOwnership(v0: Vol, v: Vol, cat: Cat, id: nat)
    requires ChainsOwned(v0, cat) && |v.fat| == |v0.fat| && |v.bits| == |v0.bits|
    requires forall c :: 0 <= c < |v.fat| && c in cat.own && cat.own[c].id != id ==> v.fat[c] == v0.fat[c]
    requires forall c :: 2 <= c < |v.bits| ==>
      v.bits[c] == (v0.bits[c] && !(c in cat.own && cat.own[c].id == id))
    ensures ChainsOwned(v, cat.DropChain(id))
  {
    hide IsChain, Placed, BitsMatch;
    DropChainPlaced(cat, id);
    OthersLinked(v0.fat, v.fat, cat, id);
    DropChainBits(v0.bits, v.bits, cat, id);
  }

  /** Clusters that get marked without an owner join the spare ones. */
  lemma SparesGrow(v0: Vol, v: Vol, cat: Cat, more: set<nat>)
    requires ChainsOwned(v0, cat) && Marked(v0, v, more) && more <= FreeSet(v0)
    ensures ChainsOwned(v, cat.(spare := cat.spare + more))
  {
    forall c | c in more
      ensures c !in cat.own
    {
      assert !v0.bits[c];
    }
  }

  // ---- Entry sets ----------------------------------------------------------------------

  /** A chain suits the facts recorded of it. */
  ghost predicate ChainSuits(ch: seq<nat>, f: Facts, cb: nat)
    requires 0 < cb
  {
    && f.first == (if ch == [] then 0 else ch[0])
    && if f.isDir then ch != [] && f.len == |ch| * cb else |ch| == DivCeil(f.len, cb)
  }

  /** The entry set of `n` lies, whole, at the node's slots. */
  ghost predicate SetOnDisk(v: Vol, n: Node, upcase: seq<u16>)
    requires n.facts.Recordable()
  {
    forall j :: 0 <= j < n.Count() ==> v.Slot(n.Addr(j)) == Encode(n.facts, upcase)[j]
  }

  lemma SetOnDiskSlots(v: Vol, n: Node, upcase: seq<u16>)
    requires n.facts.Recordable()
    ensures SetOnDisk(v, n, upcase) <==> SlotsAt(v, n.SetAddrs()) == Encode(n.facts, upcase)
  {
    hide Encode, Vol.Slot;
    var s, e := SlotsAt(v, n.SetAddrs()), Encode(n.facts, upcase);
    assert forall j :: 0 <= j < n.Count() ==> s[j] == v.Slot(n.Addr(j));
    if SetOnDisk(v, n, upcase) {
      assert forall j :: 0 <= j < n.Count() ==> s[j] == e[j];
    }
  }

  /** What holds of every file and directory of a volume at rest. */
  ghost predicate NodeOk(v: Vol, cat: Cat, cb: nat, upcase: seq<u16>, id: nat)
    requires 0 < cb
  {
    && id in cat.nodes && id in cat.chains
    && var n := cat.nodes[id];
    && n.facts.Recordable() && n.facts.flags <= 1
    && n.start + n.Count() <= cb / SLOT
    && n.cluster in cat.own && cat.own[n.cluster].id == n.parent && cat.IsDir(n.parent)
    && SetOnDisk(v, n, upcase)
    && ChainSuits(cat.chains[id], n.facts, cb)
  }

  ghost predicate NodesOk(v: Vol, cat: Cat, cb: nat, upcase: seq<u16>)
    requires 0 < cb
  {
    forall id {:trigger NodeOk(v, cat, cb, upcase, id)} :: id in cat.nodes ==> NodeOk(v, cat, cb, upcase, id)
  }

  /** Each slot of a set belongs to its node and to no other; a File slot in a directory is some node's. */
  ghost predicate SlotsOwned(v: Vol, cat: Cat, per: nat)
  {
    && (forall id, j :: id in cat.nodes && 0 <= j < cat.nodes[id].Count() ==>
          cat.nodes[id].Addr(j) in cat.slotOwn && cat.slotOwn[cat.nodes[id].Addr(j)] == id)
    && (forall a :: a in cat.slotOwn ==> var id := cat.slotOwn[a];
          id in cat.nodes && cat.nodes[id].cluster == a.cluster
          && cat.nodes[id].start <= a.index < cat.nodes[id].start + cat.nodes[id].Count())
    && (forall a :: FileSlotAt(v, cat, per, a) ==> a in cat.slotOwn)
  }

  /** `a` is a slot of a directory that starts a file entry set. */
  ghost predicate FileSlotAt(v: Vol, cat: Cat, per: nat, a: SlotAddr)
  {
    cat.InDirectory(a.cluster) && a.index < per && |v.Slot(a)| == SLOT && v.Slot(a)[0] == ENTRY_FILE
  }

  /** The owners are the three system structures and the nodes; the root and the bitmap are where the boot
      sector and the bitmap entry say. */
  ghost predicate SystemOk(cat: Cat, g: Geometry, bm: BitmapLoc)
    requires 0 < g.ClusterBytes()
  {
    && cat.chains.Keys == cat.nodes.Keys + {ROOT, BITMAP, UPCASE}
    && ROOT !in cat.nodes && BITMAP !in cat.nodes && UPCASE !in cat.nodes
    && cat.chains[ROOT] != [] && cat.chains[ROOT][0] == g.rootFirstCluster
    && cat.chains[BITMAP] == Run(bm.firstCluster, DivCeil(bm.lengthBytes, g.ClusterBytes()))
  }

  /** The invariant of a volume that only this crate writes. */
  ghost predicate Consistent(v: Vol, cat: Cat, g: Geometry, bm: BitmapLoc, upcase: seq<u16>)
  {
    && 0 < g.ClusterBytes()
    && ChainsOwned(v, cat)
    && NodesOk(v, cat, g.ClusterBytes(), upcase)
    && SlotsOwned(v, cat, g.Per())
    && SystemOk(cat, g, bm)
  }

  lemma NodeIds(cat: Cat, g: Geometry, bm: BitmapLoc, id: nat)
    requires 0 < g.ClusterBytes() && SystemOk(cat, g, bm) && id in cat.nodes
    ensures id > UPCASE && id in cat.chains && ROOT !in cat.nodes
  {
  }

  // ---- Steps of the catalogue ----------------------------------------------------------

  /** `v` shows the slots of directories as `v0` does, except those of `changed`. */
  ghost predicate DirSlotsSame(v0: Vol, v: Vol, cat: Cat, changed: set<SlotAddr>)
  {
    forall a: SlotAddr :: cat.InDirectory(a.cluster) && a !in changed ==> v.Slot(a) == v0.Slot(a)
  }

  /** A node none of whose own data changed is still in order. */
  lemma NodeStays(v0: Vol, v: Vol, cat0: Cat, cat: Cat, cb: nat, upcase: seq<u16>, id: nat, changed: set<SlotAddr>)
    requires 0 < cb && NodeOk(v0, cat0, cb, upcase, id)
    requires DirSlotsSame(v0, v, cat0, changed)
    requires id in cat.nodes && cat.nodes[id] == cat0.nodes[id]
    requires id in cat.chains && cat.chains[id] == cat0.chains[id]
    requires forall j :: 0 <= j < cat.nodes[id].Count() ==> cat.nodes[id].Addr(j) !in changed
    requires cat.nodes[id].cluster in cat.own
    requires cat.own[cat.nodes[id].cluster].id == cat0.own[cat.nodes[id].cluster].id
    requires cat.IsDir(cat.nodes[id].parent)
    ensures NodeOk(v, cat, cb, upcase, id)
  {
    var n := cat.nodes[id];
    forall j | 0 <= j < n.Count()
      ensures v.Slot(n.Addr(j)) == Encode(n.facts, upcase)[j]
    {
      assert cat0.InDirectory(n.Addr(j).cluster);
    }
  }

  /** Two nodes share no slot. */
  lemma SetsApart(v: Vol, cat: Cat, per: nat, id: nat, id': nat, j: nat)
    requires SlotsOwned(v, cat, per) && id in cat.nodes && id' in cat.nodes && id != id'
    requires j < cat.nodes[id].Count()
    ensures cat.nodes[id].Addr(j) !in cat.nodes[id'].SetAddrs()
  {
    assert cat.slotOwn[cat.nodes[id].Addr(j)] == id;
    forall j' | 0 <= j' < cat.nodes[id'].Count()
      ensures cat.nodes[id'].Addr(j') != cat.nodes[id].Addr(j)
    {
      assert cat.slotOwn[cat.nodes[id'].Addr(j')] == id';
    }
  }

  /** Recording `id` as `n` with the chain `ch` is sound: the slots are free or its own, the clusters are
      free or its own, a directory stays a directory and keeps its clusters. */
  ghost predicate Recordable(cat: Cat, id: nat, n: Node, ch: seq<nat>)
  {
    && (forall j :: 0 <= j < n.Count() ==> n.Addr(j) !in cat.slotOwn || cat.slotOwn[n.Addr(j)] == id)
    && (forall c :: c in ch && c in cat.own ==> cat.own[c].id == id)
    && id != ROOT
    && (if id in cat.nodes
        then cat.nodes[id].facts.isDir == n.facts.isDir
             && (n.facts.isDir ==> forall c :: c in cat.own && cat.own[c].id == id ==> c in ch)
        else id !in cat.chains)
  }

  lemma OwnAfter(cat: Cat, id: nat, n: Node, ch: seq<nat>, c: nat)
    requires Placed(cat) && Recordable(cat, id, n, ch) && c in cat.own
    ensures var cat' := cat.SetChain(id, ch).PutNode(id, n);
      cat.own[c].id != id ==> c in cat'.own && cat'.own[c] == cat.own[c]
    ensures var cat' := cat.SetChain(id, ch).PutNode(id, n);
      cat.own[c].id == id && n.facts.isDir ==> c in cat'.own && cat'.own[c].id == id
  {
    hide IndexOf;
  }

  lemma PutNodeOther(v0: Vol, v: Vol, cat: Cat, cb: nat, per: nat, upcase: seq<u16>, id: nat, n: Node, ch: seq<nat>, k: nat)
    requires 0 < cb && Placed(cat) && NodeOk(v0, cat, cb, upcase, k) && SlotsOwned(v0, cat, per)
    requires Recordable(cat, id, n, ch) && k != id
    requires DirSlotsSame(v0, v, cat, cat.SetOf(id) + Elems(n.SetAddrs()))
    ensures NodeOk(v, cat.SetChain(id, ch).PutNode(id, n), cb, upcase, k)
  {
    var cat' := cat.SetChain(id, ch).PutNode(id, n);
    var m := cat.nodes[k];
    var changed := cat.SetOf(id) + Elems(n.SetAddrs());
    OwnAfter(cat, id, n, ch, m.cluster);
    SlotsElsewhere(v0, cat, per, id, n, ch, k);
    hide SetOnDisk, ChainSuits, SlotsOwned, IndexOf, DirSlotsSame, Placed;
    NodeStays(v0, v, cat, cat', cb, upcase, k, changed);
  }

  lemma SlotsElsewhere(v: Vol, cat: Cat, per: nat, id: nat, n: Node, ch: seq<nat>, k: nat)
    requires SlotsOwned(v, cat, per) && Recordable(cat, id, n, ch) && k in cat.nodes && k != id
    ensures forall j :: 0 <= j < cat.nodes[k].Count() ==>
      cat.nodes[k].Addr(j) !in cat.SetOf(id) && cat.nodes[k].Addr(j) !in n.SetAddrs()
  {
    forall j | 0 <= j < cat.nodes[k].Count()
      ensures cat.nodes[k].Addr(j) !in cat.SetOf(id) && cat.nodes[k].Addr(j) !in n.SetAddrs()
    {
      assert cat.slotOwn[cat.nodes[k].Addr(j)] == k;
      if id in cat.nodes {
        SetsApart(v, cat, per, k, id, j);
      }
      assert forall i :: 0 <= i < n.Count() ==> n.Addr(i) != cat.nodes[k].Addr(j);
    }
  }

  lemma PutNodeNodes(v0: Vol, v: Vol, cat: Cat, cb: nat, per: nat, upcase: seq<u16>, id: nat, n: Node, ch: seq<nat>)
    requires 0 < cb && Placed(cat) && NodesOk(v0, cat, cb, upcase) && SlotsOwned(v0, cat, per)
    requires Recordable(cat, id, n, ch)
    requires DirSlotsSame(v0, v, cat, cat.SetOf(id) + Elems(n.SetAddrs()))
    requires NodeOk(v, cat.SetChain(id, ch).PutNode(id, n), cb, upcase, id)
    ensures NodesOk(v, cat.SetChain(id, ch).PutNode(id, n), cb, upcase)
  {
    var cat' := cat.SetChain(id, ch).PutNode(id, n);
    hide NodeOk, SlotsOwned, DirSlotsSame, Recordable, Placed, IndexOf;
    forall k | k in cat'.nodes
      ensures NodeOk(v, cat', cb, upcase, k)
    {
      if k != id {
        PutNodeOther(v0, v, cat, cb, per, upcase, id, n, ch, k);
      }
    }
  }

  lemma OwnedSlotInSet(v: Vol, cat: Cat, per: nat, a: SlotAddr)
    requires SlotsOwned(v, cat, per) && a in cat.slotOwn
    ensures a in cat.SetOf(cat.slotOwn[a])
  {
    var n := cat.nodes[cat.slotOwn[a]];
    assert a == n.SetAddrs()[a.index - n.start];
  }

  lemma DirectoryAfter(cat: Cat, id: nat, n: Node, ch: seq<nat>, c: nat)
    requires Placed(cat) && Recordable(cat, id, n, ch)
    requires cat.SetChain(id, ch).PutNode(id, n).InDirectory(c)
    ensures cat.InDirectory(c) || (c in ch && c !in cat.own && n.facts.isDir)
  {
    hide IndexOf;
    if c in ch {
      assert IndexOf(ch, c) < |ch|;
      assert cat.SetChain(id, ch).own[c].id == id;
    }
  }

  /** No slot that stops being part of `id`'s set, and no slot of a cluster that joins a directory, starts a
      file entry set. */
  ghost predicate NoStrayFile(v: Vol, cat: Cat, per: nat, id: nat, n: Node, ch: seq<nat>)
  {
    && (forall a :: a in cat.SetOf(id) && a !in n.SetAddrs() && |v.Slot(a)| == SLOT ==> v.Slot(a)[0] != ENTRY_FILE)
    && (n.facts.isDir ==> forall a: SlotAddr ::
          a.cluster in ch && a.cluster !in cat.own && a.index < per && |v.Slot(a)| == SLOT ==> v.Slot(a)[0] != ENTRY_FILE)
  }

  lemma PutNodeFileSlot(v0: Vol, v: Vol, cat: Cat, per: nat, id: nat, n: Node, ch: seq<nat>, a: SlotAddr)
    requires Placed(cat) && SlotsOwned(v0, cat, per) && Recordable(cat, id, n, ch)
    requires DirSlotsSame(v0, v, cat, cat.SetOf(id) + Elems(n.SetAddrs()))
    requires NoStrayFile(v, cat, per, id, n, ch)
    requires FileSlotAt(v, cat.SetChain(id, ch).PutNode(id, n), per, a)
    ensures a in cat.SetChain(id, ch).PutNode(id, n).slotOwn
  {
    DirectoryAfter(cat, id, n, ch, a.cluster);
    hide IndexOf, Vol.Slot, Placed, Recordable;
    if a !in n.SetAddrs() {
      assert a !in cat.SetOf(id);
      assert FileSlotAt(v0, cat, per, a);
      OwnedSlotInSet(v0, cat, per, a);
    }
  }

  lemma PutNodeOwners(v0: Vol, cat: Cat, per: nat, id: nat, n: Node, ch: seq<nat>)
    requires SlotsOwned(v0, cat, per) && Recordable(cat, id, n, ch)
    ensures var cat' := cat.SetChain(id, ch).PutNode(id, n);
      forall k, j :: k in cat'.nodes && 0 <= j < cat'.nodes[k].Count() ==>
        cat'.nodes[k].Addr(j) in cat'.slotOwn && cat'.slotOwn[cat'.nodes[k].Addr(j)] == k
  {
    hide IndexOf;
    var cat' := cat.SetChain(id, ch).PutNode(id, n);
    forall k, j | k in cat'.nodes && 0 <= j < cat'.nodes[k].Count()
      ensures cat'.nodes[k].Addr(j) in cat'.slotOwn && cat'.slotOwn[cat'.nodes[k].Addr(j)] == k
    {
      if k == id {
        assert n.Addr(j) == n.SetAddrs()[j];
      } else {
        SlotsElsewhere(v0, cat, per, id, n, ch, k);
      }
    }
  }

  lemma PutNodeOwned(v0: Vol, cat: Cat, per: nat, id: nat, n: Node, ch: seq<nat>)
    requires SlotsOwned(v0, cat, per) && Recordable(cat, id, n, ch)
    ensures var cat' := cat.SetChain(id, ch).PutNode(id, n);
      forall a :: a in cat'.slotOwn ==> var k := cat'.slotOwn[a];
        k in cat'.nodes && cat'.nodes[k].cluster == a.cluster
        && cat'.nodes[k].start <= a.index < cat'.nodes[k].start + cat'.nodes[k].Count()
  {
    hide IndexOf, Vol.Slot, FileSlotAt;
    assert forall a :: a in n.SetAddrs() ==> a.cluster == n.cluster && n.start <= a.index < n.start + n.Count();
  }

  lemma PutNodeSlots(v0: Vol, v: Vol, cat: Cat, per: nat, id: nat, n: Node, ch: seq<nat>)
    requires Placed(cat) && SlotsOwned(v0, cat, per) && Recordable(cat, id, n, ch)
    requires DirSlotsSame(v0, v, cat, cat.SetOf(id) + Elems(n.SetAddrs()))
    requires NoStrayFile(v, cat, per, id, n, ch)
    ensures SlotsOwned(v, cat.SetChain(id, ch).PutNode(id, n), per)
  {
    var cat' := cat.SetChain(id, ch).PutNode(id, n);
    PutNodeOwners(v0, cat, per, id, n, ch);
    PutNodeOwned(v0, cat, per, id, n, ch);
    forall a | FileSlotAt(v, cat', per, a)
      ensures a in cat'.slotOwn
    {
      PutNodeFileSlot(v0, v, cat, per, id, n, ch, a);
    }
    hide Recordable, Placed, FileSlotAt, NoStrayFile, DirSlotsSame, Cat.SetChain, Cat.PutNode;
  }

  /** The disk side of giving `id` the chain `ch`: it is linked, takes no spare cluster, the bits follow,
      and no other owner's links change. */
  ghost predicate ChainStep(v0: Vol, v: Vol, cat: Cat, id: nat, ch: seq<nat>)
  {
    && |v.fat| == |v0.fat| && |v.bits| == |v0.bits| && IsChain(v.fat, ch)
    && (forall c :: c in ch ==> c !in cat.spare)
    && (forall c :: 0 <= c < |v.fat| && c in cat.own && cat.own[c].id != id ==> v.fat[c] == v0.fat[c])
    && (forall c :: 2 <= c < |v.bits| ==>
          v.bits[c] == (c in ch || (v0.bits[c] && !(c in cat.own && cat.own[c].id == id))))
  }

  /** A record that fits: recordable facts, inside one cluster of its directory, with a chain that suits. */
  ghost predicate NodeFits(cat: Cat, cb: nat, n: Node, ch: seq<nat>)
    requires 0 < cb
  {
    && n.facts.Recordable() && n.facts.flags <= 1
    && n.start + n.Count() <= cb / SLOT
    && n.cluster in cat.own && cat.own[n.cluster].id == n.parent && cat.IsDir(n.parent)
    && ChainSuits(ch, n.facts, cb)
  }

  lemma NewNodeOk(v: Vol, cat: Cat, cb: nat, upcase: seq<u16>, id: nat, n: Node, ch: seq<nat>)
    requires 0 < cb && Placed(cat) && Recordable(cat, id, n, ch) && NodeFits(cat, cb, n, ch) && SetOnDisk(v, n, upcase)
    ensures NodeOk(v, cat.SetChain(id, ch).PutNode(id, n), cb, upcase, id)
  {
    hide SetOnDisk, IndexOf;
    OwnAfter(cat, id, n, ch, n.cluster);
  }

  /** Recording `id` as `n` with the chain `ch`, on a disk that shows both, keeps a volume consistent. */
  lemma RecordKeepsConsistent(v0: Vol, v: Vol, cat: Cat, g: Geometry, bm: BitmapLoc, upcase: seq<u16>,
                              id: nat, n: Node, ch: seq<nat>)
    requires Consistent(v0, cat, g, bm, upcase) && id > UPCASE
    requires Recordable(cat, id, n, ch) && NodeFits(cat, g.ClusterBytes(), n, ch)
    requires ChainStep(v0, v, cat, id, ch) && SetOnDisk(v, n, upcase)
    requires DirSlotsSame(v0, v, cat, cat.SetOf(id) + Elems(n.SetAddrs()))
    requires NoStrayFile(v, cat, g.Per(), id, n, ch)
    ensures Consistent(v, cat.SetChain(id, ch).PutNode(id, n), g, bm, upcase)
  {
    hide Placed, Linked, BitsMatch, NodesOk, SlotsOwned, SetOnDisk, DirSlotsSame, NoStrayFile, NodeFits, NodeOk, IndexOf,
         Geometry.ClusterBytes, Geometry.Per, IsChain;
    var cat1 := cat.SetChain(id, ch);
    SetChainKeepsOwnership(v0, v, cat, id, ch);
    OwnedOnlyChains(v, cat1, cat1.PutNode(id, n));
    NewNodeOk(v, cat, g.ClusterBytes(), upcase, id, n, ch);
    PutNodeNodes(v0, v, cat, g.ClusterBytes(), g.Per(), upcase, id, n, ch);
    PutNodeSlots(v0, v, cat, g.Per(), id, n, ch);
  }

  /** Ownership of clusters looks at the chains alone. */
  lemma OwnedOnlyChains(v: Vol, cat: Cat, cat': Cat)
    requires ChainsOwned(v, cat) && cat'.chains == cat.chains && cat'.own == cat.own && cat'.spare == cat.spare
    ensures ChainsOwned(v, cat')
  {
  }

  /** Giving the root one more cluster, blank, keeps a volume consistent. */
  lemma RootGrowthKeepsConsistent(v0: Vol, v: Vol, cat: Cat, g: Geometry, bm: BitmapLoc, upcase: seq<u16>, ch: seq<nat>)
    requires Consistent(v0, cat, g, bm, upcase)
    requires ChainStep(v0, v, cat, ROOT, ch) && cat.chains[ROOT] <= ch
    requires forall c :: c in ch && c in cat.own ==> cat.own[c].id == ROOT
    requires DirSlotsSame(v0, v, cat, {})
    requires forall a: SlotAddr :: a.cluster in ch && a.cluster !in cat.own && a.index < g.Per() && |v.Slot(a)| == SLOT ==>
      v.Slot(a)[0] != ENTRY_FILE
    ensures Consistent(v, cat.SetChain(ROOT, ch), g, bm, upcase)
  {
    hide Linked, BitsMatch, SetOnDisk, NodeOk, IndexOf, Geometry.ClusterBytes, Geometry.Per, IsChain, DirSlotsSame,
         NodesOk, SlotsOwned, Vol.Slot;
    var cat' := cat.SetChain(ROOT, ch);
    SetChainKeepsOwnership(v0, v, cat, ROOT, ch);
    RootGrowthNodes(v0, v, cat, g.ClusterBytes(), upcase, ch);
    RootGrowthSlots(v0, v, cat, g.Per(), ch);
  }

  lemma RootOwnAfter(cat: Cat, ch: seq<nat>, c: nat)
    requires Placed(cat) && ROOT in cat.chains && cat.chains[ROOT] <= ch && c in cat.own
    requires forall c :: c in ch && c in cat.own ==> cat.own[c].id == ROOT
    ensures c in cat.SetChain(ROOT, ch).own && cat.SetChain(ROOT, ch).own[c].id == cat.own[c].id
  {
    hide IndexOf;
    if cat.own[c].id == ROOT {
      assert cat.chains[ROOT][cat.own[c].at] == ch[cat.own[c].at] == c;
    }
  }

  lemma RootGrowthNodes(v0: Vol, v: Vol, cat: Cat, cb: nat, upcase: seq<u16>, ch: seq<nat>)
    requires 0 < cb && Placed(cat) && NodesOk(v0, cat, cb, upcase)
    requires ROOT in cat.chains && ROOT !in cat.nodes && cat.chains[ROOT] <= ch
    requires forall c :: c in ch && c in cat.own ==> cat.own[c].id == ROOT
    requires DirSlotsSame(v0, v, cat, {})
    ensures NodesOk(v, cat.SetChain(ROOT, ch), cb, upcase)
  {
    var cat' := cat.SetChain(ROOT, ch);
    forall k | k in cat'.nodes
      ensures NodeOk(v, cat', cb, upcase, k)
    {
      RootGrowthNode(v0, v, cat, cb, upcase, ch, k);
    }
  }

  lemma RootGrowthNode(v0: Vol, v: Vol, cat: Cat, cb: nat, upcase: seq<u16>, ch: seq<nat>, k: nat)
    requires 0 < cb && Placed(cat) && NodeOk(v0, cat, cb, upcase, k)
    requires ROOT in cat.chains && ROOT !in cat.nodes && cat.chains[ROOT] <= ch
    requires forall c :: c in ch && c in cat.own ==> cat.own[c].id == ROOT
    requires DirSlotsSame(v0, v, cat, {})
    ensures NodeOk(v, cat.SetChain(ROOT, ch), cb, upcase, k)
  {
    hide SetOnDisk, ChainSuits, IndexOf, DirSlotsSame;
    RootOwnAfter(cat, ch, cat.nodes[k].cluster);
    NodeStays(v0, v, cat, cat.SetChain(ROOT, ch), cb, upcase, k, {});
  }

  lemma RootGrowthSlots(v0: Vol, v: Vol, cat: Cat, per: nat, ch: seq<nat>)
    requires Placed(cat) && SlotsOwned(v0, cat, per) && ROOT in cat.chains
    requires DirSlotsSame(v0, v, cat, {})
    requires forall a: SlotAddr :: a.cluster in ch && a.cluster !in cat.own && a.index < per && |v.Slot(a)| == SLOT ==>
      v.Slot(a)[0] != ENTRY_FILE
    requires forall c :: c in ch && c in cat.own ==> cat.own[c].id == ROOT
    ensures SlotsOwned(v, cat.SetChain(ROOT, ch), per)
  {
    hide IndexOf, Vol.Slot;
    var cat' := cat.SetChain(ROOT, ch);
    forall a | FileSlotAt(v, cat', per, a)
      ensures a in cat'.slotOwn
    {
      if a.cluster in ch && a.cluster !in cat.own {
      } else {
        assert cat.InDirectory(a.cluster);
        assert FileSlotAt(v0, cat, per, a);
      }
    }
  }

  // ---- Removal -------------------------------------------------------------------------

  /** Nothing else is recorded as lying in `id`. */
  ghost predicate Childless(cat: Cat, id: nat)
  {
    forall k :: k in cat.nodes && k != id ==> cat.nodes[k].parent != id
  }

  lemma DropNodeNodes(v0: Vol, v: Vol, cat: Cat, cb: nat, per: nat, upcase: seq<u16>, id: nat)
    requires 0 < cb && Placed(cat) && NodesOk(v0, cat, cb, upcase) && SlotsOwned(v0, cat, per)
    requires id in cat.nodes && id != ROOT && Childless(cat, id)
    requires DirSlotsSame(v0, v, cat, cat.SetOf(id))
    ensures NodesOk(v, cat.DropChain(id).DropNode(id), cb, upcase)
  {
    var cat' := cat.DropChain(id).DropNode(id);
    forall k | k in cat'.nodes
      ensures NodeOk(v, cat', cb, upcase, k)
    {
      assert NodeOk(v0, cat, cb, upcase, k);
      forall j | 0 <= j < cat.nodes[k].Count()
        ensures cat.nodes[k].Addr(j) !in cat.SetOf(id)
      {
        SetsApart(v0, cat, per, k, id, j);
      }
      DropNodeOther(v0, v, cat, cb, upcase, id, k);
    }
  }

  lemma DropNodeOther(v0: Vol, v: Vol, cat: Cat, cb: nat, upcase: seq<u16>, id: nat, k: nat)
    requires 0 < cb && NodeOk(v0, cat, cb, upcase, k) && k != id && id != ROOT && Childless(cat, id)
    requires forall j :: 0 <= j < cat.nodes[k].Count() ==> cat.nodes[k].Addr(j) !in cat.SetOf(id)
    requires DirSlotsSame(v0, v, cat, cat.SetOf(id))
    ensures NodeOk(v, cat.DropChain(id).DropNode(id), cb, upcase, k)
  {
    hide SetOnDisk, ChainSuits, DirSlotsSame;
    NodeStays(v0, v, cat, cat.DropChain(id).DropNode(id), cb, upcase, k, cat.SetOf(id));
  }

  lemma DropNodeSlots(v0: Vol, v: Vol, cat: Cat, per: nat, id: nat)
    requires SlotsOwned(v0, cat, per) && id in cat.nodes && id != ROOT
    requires DirSlotsSame(v0, v, cat, cat.SetOf(id))
    requires forall a :: a in cat.SetOf(id) && |v.Slot(a)| == SLOT ==> v.Slot(a)[0] != ENTRY_FILE
    ensures SlotsOwned(v, cat.DropChain(id).DropNode(id), per)
  {
    hide Vol.Slot;
    var cat' := cat.DropChain(id).DropNode(id);
    forall a | FileSlotAt(v, cat', per, a)
      ensures a in cat'.slotOwn
    {
      assert a !in cat.SetOf(id);
      assert FileSlotAt(v0, cat, per, a);
      OwnedSlotInSet(v0, cat, per, a);
    }
  }

  /** Dropping a childless node whose slots are cleared and whose clusters are free keeps a volume
      consistent. */
  lemma RemovalKeepsConsistent(v0: Vol, v: Vol, cat: Cat, g: Geometry, bm: BitmapLoc, upcase: seq<u16>, id: nat)
    requires Consistent(v0, cat, g, bm, upcase) && id in cat.nodes && id > UPCASE && Childless(cat, id)
    requires |v.fat| == |v0.fat| && |v.bits| == |v0.bits|
    requires forall c :: 0 <= c < |v.fat| && c in cat.own && cat.own[c].id != id ==> v.fat[c] == v0.fat[c]
    requires forall c :: 2 <= c < |v.bits| ==> v.bits[c] == (v0.bits[c] && !(c in cat.own && cat.own[c].id == id))
    requires DirSlotsSame(v0, v, cat, cat.SetOf(id))
    requires forall a :: a in cat.SetOf(id) && |v.Slot(a)| == SLOT ==> v.Slot(a)[0] != ENTRY_FILE
    ensures Consistent(v, cat.DropChain(id).DropNode(id), g, bm, upcase)
  {
    hide Placed, Linked, BitsMatch, NodesOk, SlotsOwned, SetOnDisk, DirSlotsSame, NodeOk, Geometry.ClusterBytes, Geometry.Per, IsChain;
    DropChainKeepsOwnership(v0, v, cat, id);
    OwnedOnlyChains(v, cat.DropChain(id), cat.DropChain(id).DropNode(id));
    DropNodeNodes(v0, v, cat, g.ClusterBytes(), g.Per(), upcase, id);
    DropNodeSlots(v0, v, cat, g.Per(), id);
  }

  /** Which clusters lie spare is nobody's concern but the bitmap's. */
  lemma SparesMayDiffer(v0: Vol, v: Vol, cat: Cat, g: Geometry, bm: BitmapLoc, upcase: seq<u16>, spare: set<nat>)
    requires Consistent(v0, cat, g, bm, upcase) && |v.fat| == |v0.fat| && |v.bits| == |v0.bits|
    requires forall c :: 0 <= c < |v.fat| && c in cat.own ==> v.fat[c] == v0.fat[c]
    requires DirSlotsSame(v0, v, cat, {})
    requires spare !! cat.own.Keys
    requires forall c :: 2 <= c < |v.bits| ==> (v.bits[c] <==> c in cat.own || c in spare)
    ensures Consistent(v, cat.(spare := spare), g, bm, upcase)
  {
    SparesMayDifferChains(v0, v, cat, spare);
    SpareNodes(v0, v, cat, g.ClusterBytes(), upcase, spare);
    SpareSlots(v0, v, cat, g.Per(), spare);
    hide ChainsOwned, NodesOk, SlotsOwned, DirSlotsSame, Geometry.ClusterBytes, Geometry.Per;
  }

  lemma SpareNodes(v0: Vol, v: Vol, cat: Cat, cb: nat, upcase: seq<u16>, spare: set<nat>)
    requires 0 < cb && NodesOk(v0, cat, cb, upcase) && DirSlotsSame(v0, v, cat, {})
    ensures NodesOk(v, cat.(spare := spare), cb, upcase)
  {
    hide NodeOk, DirSlotsSame;
    forall id | id in cat.nodes
      ensures NodeOk(v, cat.(spare := spare), cb, upcase, id)
    {
      assert NodeOk(v0, cat, cb, upcase, id);
      SpareNode(v0, v, cat, cb, upcase, spare, id);
    }
  }

  lemma SpareSlots(v0: Vol, v: Vol, cat: Cat, per: nat, spare: set<nat>)
    requires SlotsOwned(v0, cat, per) && DirSlotsSame(v0, v, cat, {})
    ensures SlotsOwned(v, cat.(spare := spare), per)
  {
    hide Vol.Slot;
    forall a | FileSlotAt(v, cat.(spare := spare), per, a)
      ensures a in cat.slotOwn
    {
      assert FileSlotAt(v0, cat, per, a);
    }
  }

  lemma SparesMayDifferChains(v0: Vol, v: Vol, cat: Cat, spare: set<nat>)
    requires ChainsOwned(v0, cat) && |v.fat| == |v0.fat| && |v.bits| == |v0.bits|
    requires forall c :: 0 <= c < |v.fat| && c in cat.own ==> v.fat[c] == v0.fat[c]
    requires spare !! cat.own.Keys
    requires forall c :: 2 <= c < |v.bits| ==> (v.bits[c] <==> c in cat.own || c in spare)
    ensures ChainsOwned(v, cat.(spare := spare))
  {
    hide IsChain;
    forall id | id in cat.chains
      ensures IsChain(v.fat, cat.chains[id])
    {
      OthersLinked(v0.fat, v.fat, cat, id + 1);
    }
  }

  lemma SpareNode(v0: Vol, v: Vol, cat: Cat, cb: nat, upcase: seq<u16>, spare: set<nat>, id: nat)
    requires 0 < cb && NodeOk(v0, cat, cb, upcase, id) && DirSlotsSame(v0, v, cat, {})
    ensures NodeOk(v, cat.(spare := spare), cb, upcase, id)
  {
    hide Encode, Vol.Slot, ChainSuits, SetOnDisk, DirSlotsSame;
    NodeStays(v0, v, cat, cat.(spare := spare), cb, upcase, id, {});
  }

  /** More spare clusters leave everything else in order. */
  lemma SparesKeepConsistent(v0: Vol, v: Vol, cat: Cat, g: Geometry, bm: BitmapLoc, upcase: seq<u16>, more: set<nat>)
    requires Consistent(v0, cat, g, bm, upcase) && Marked(v0, v, more) && more <= FreeSet(v0)
    ensures Consistent(v, cat.(spare := cat.spare + more), g, bm, upcase)
  {
    SparesGrow(v0, v, cat, more);
    hide NodesOk, SlotsOwned, SystemOk, Linked, Geometry.ClusterBytes, Geometry.Per;
    SparesMayDiffer(v0, v, cat, g, bm, upcase, cat.spare + more);
  }
}
