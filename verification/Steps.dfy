/** How the disk steps of the operations move a consistent volume along. */
module Steps {
  import opened Alloc
  import opened Bytes
  import opened Catalogues
  import opened EntrySets
  import opened Fats
  import opened Footprints
  import opened Geometries
  import opened SlotWrites
  import opened Volumes

  // ---- Chains --------------------------------------------------------------------------

  /** A free cluster is nobody's. */
  lemma FreeIsUnowned(v: Vol, cat: Cat, c: nat)
    requires ChainsOwned(v, cat) && c in FreeSet(v)
    ensures c !in cat.own && c !in cat.spare
  {
  }

  /** A first chain for `id`, freshly allocated. */
  lemma AllocStep(v0: Vol, v: Vol, cat: Cat, id: nat, chain: seq<nat>)
    requires ChainsOwned(v0, cat) && Allocated(v0, v, chain)
    requires id in cat.chains ==> cat.chains[id] == []
    ensures ChainStep(v0, v, cat, id, chain)
    ensures forall c :: c in chain ==> c !in cat.own
  {
    forall c | c in chain
      ensures c !in cat.own && c !in cat.spare
    {
      assert c in Elems(chain);
      FreeIsUnowned(v0, cat, c);
    }
    NothingOwned(cat, id);
  }

  lemma NothingOwned(cat: Cat, id: nat)
    requires Placed(cat) && (id in cat.chains ==> cat.chains[id] == [])
    ensures forall c :: c in cat.own ==> cat.own[c].id != id
  {
  }

  lemma OwnedIsInChain(cat: Cat, id: nat)
    requires Placed(cat) && id in cat.chains
    ensures forall c :: c in cat.own && cat.own[c].id == id <==> c in cat.chains[id]
  {
    forall c | c in cat.chains[id]
      ensures c in cat.own && cat.own[c].id == id
    {
      var i :| 0 <= i < |cat.chains[id]| && cat.chains[id][i] == c;
    }
  }

  /** The chain of `id`, extended behind its last cluster. */
  lemma ExtendStep(v0: Vol, v: Vol, cat: Cat, id: nat, added: seq<nat>)
    requires ChainsOwned(v0, cat) && id in cat.chains && cat.chains[id] != []
    requires Extended(v0, v, cat.chains[id][|cat.chains[id]| - 1], added)
    ensures ChainStep(v0, v, cat, id, cat.chains[id] + added)
    ensures forall c :: c in added ==> c !in cat.own
  {
    var ch := cat.chains[id];
    forall c | c in added
      ensures c !in cat.own && c !in cat.spare
    {
      assert c in Elems(added);
      FreeIsUnowned(v0, cat, c);
    }
    OwnedIsInChain(cat, id);
    ExtendLinks(v0, v, ch, added);
    assert forall c :: c in ch ==> c in cat.own;
    assert forall c :: 2 <= c < |v.bits| && c in ch ==> v0.bits[c];
  }

  lemma ExtendLinks(v0: Vol, v: Vol, ch: seq<nat>, added: seq<nat>)
    requires v0.Unreserved() && IsChain(v0.fat, ch) && ch != [] && |v0.bits| == |v0.fat|
    requires forall c :: c in ch ==> c < |v0.bits| && v0.bits[c]
    requires Extended(v0, v, ch[|ch| - 1], added)
    ensures IsChain(v.fat, ch + added)
  {
    var all := ch + added;
    ChainDistinct(v0.fat, ch);
    forall i | 0 <= i < |ch|
      ensures ch[i] !in added
    {
      assert ch[i] in added <==> ch[i] in Elems(added);
    }
    forall i | 0 <= i < |all| - 1
      ensures v.fat[all[i]] == all[i + 1]
    {
      if i < |ch| - 1 {
        assert ch[i] != ch[|ch| - 1];
      } else if i >= |ch| {
        assert all[i] == added[i - |ch|] && all[i + 1] == added[i - |ch| + 1];
      }
    }
    if added != [] {
      assert all[|all| - 1] == added[|added| - 1];
    }
  }

  // ---- Slots ---------------------------------------------------------------------------

  /** Writing file clusters, or clusters of nobody, shows no directory a different slot. */
  lemma DataElsewhere(v0: Vol, v: Vol, cat: Cat, cs: set<nat>)
    requires |v.data| == |v0.data| && (forall c :: 0 <= c < |v.data| && c !in cs ==> v.data[c] == v0.data[c])
    requires forall c :: c in cs ==> !cat.InDirectory(c)
    ensures DirSlotsSame(v0, v, cat, {})
  {
  }

  lemma DirSlotsChain(v0: Vol, v1: Vol, v2: Vol, cat: Cat, a: set<SlotAddr>, b: set<SlotAddr>)
    requires DirSlotsSame(v0, v1, cat, a) && DirSlotsSame(v1, v2, cat, b)
    ensures DirSlotsSame(v0, v2, cat, a + b)
  {
  }

  lemma ChainStepSameLinks(v0: Vol, v1: Vol, v2: Vol, cat: Cat, id: nat, ch: seq<nat>)
    requires ChainStep(v0, v1, cat, id, ch) && v2.fat == v1.fat && v2.bits == v1.bits
    ensures ChainStep(v0, v2, cat, id, ch)
  {
  }

  /** Rewriting the set of node `n` to the facts `f` puts that set on disk. */
  lemma RewrittenOnDisk(v0: Vol, v: Vol, n: Node, f: Facts, upcase: seq<u16>, next: seq<seq<byte>>)
    requires n.facts.Recordable() && f.Recordable() && f.name == n.facts.name && f.isDir == n.facts.isDir
    requires SetOnDisk(v0, n, upcase)
    requires next == Encode(f, upcase)
    requires SlotsWritten(v0, v, n.SetAddrs()[..2], next[..2], 2)
    ensures SetOnDisk(v, n.(facts := f), upcase)
    ensures DirSlotsOnly(v0, v, Elems(n.SetAddrs()))
  {
    hide Encode, Vol.Slot, Checksum, NameHash, FileSlot, StreamSlot, NameSlots;
    var m := n.(facts := f);
    SameNames(n.facts, f, upcase);
    assert n.SetAddrs()[..2] == [n.Addr(0), n.Addr(1)];
    forall j | 0 <= j < m.Count()
      ensures v.Slot(m.Addr(j)) == Encode(f, upcase)[j]
    {
      if j < 2 {
        assert v.Slot(n.SetAddrs()[..2][j]) == next[..2][j];
      } else {
        assert m.Addr(j) !in n.SetAddrs()[..2];
        assert v.Slot(m.Addr(j)) == v0.Slot(n.Addr(j));
      }
    }
  }

  /** The name slots of a set depend on the name alone. */
  lemma SameNames(f: Facts, f': Facts, upcase: seq<u16>)
    requires f.Recordable() && f'.Recordable() && f'.name == f.name
    ensures forall j :: 2 <= j < SetSize(f.name) ==> Encode(f, upcase)[j] == Encode(f', upcase)[j]
  {
  }

  /** Slots outside `changed` are the same. */
  ghost predicate DirSlotsOnly(v0: Vol, v: Vol, changed: set<SlotAddr>)
  {
    forall a :: a !in changed ==> v.Slot(a) == v0.Slot(a)
  }

  lemma OnlyIsSame(v0: Vol, v: Vol, cat: Cat, changed: set<SlotAddr>)
    requires DirSlotsOnly(v0, v, changed)
    ensures DirSlotsSame(v0, v, cat, changed)
  {
  }

  // ---- Crash prefixes --------------------------------------------------------------------

  /** A run of at least `n` allocated clusters of the volume starts at `first`. */
  ghost predicate HeadsRun(v: Vol, first: nat, n: nat)
    decreases n
  {
    n == 0 || (2 <= first < |v.fat| && first < |v.bits| && v.bits[first] && HeadsRun(v, v.fat[first], n - 1))
  }

  /** If the first two slots of a set show a live file entry, it heads the clusters its length calls for. */
  ghost predicate Published(v: Vol, n: Node, cb: nat)
    requires 0 < cb
  {
    var f, s := v.Slot(n.Addr(0)), v.Slot(n.Addr(1));
    |f| == |s| == SLOT && f[0] == ENTRY_FILE && s[0] == ENTRY_STREAM ==>
      HeadsRun(v, Field(s, 20, 4), DivCeil(Field(s, 24, 8), cb))
  }

  /** The clusters of `ch` are linked in order and allocated. */
  ghost predicate RunHeld(v: Vol, ch: seq<nat>)
  {
    Links(v.fat, ch) && |v.bits| == |v.fat| && forall i :: 0 <= i < |ch| ==> v.bits[ch[i]]
  }

  lemma {:induction false} HeldHeads(v: Vol, ch: seq<nat>, n: nat)
    requires RunHeld(v, ch) && n <= |ch|
    ensures n == 0 || HeadsRun(v, ch[0], n)
  {
    if n > 1 {
      var t := ch[1..];
      assert forall i :: 0 <= i < |t| ==> t[i] == ch[i + 1];
      HeldHeads(v, t, n - 1);
      assert v.fat[ch[0]] == t[0];
    } else if n == 1 {
      assert HeadsRun(v, v.fat[ch[0]], 0);
    }
  }

  /** An entry that shows facts whose chain is held is published. */
  lemma FactsPublished(v: Vol, n: Node, f: Facts, upcase: seq<u16>, ch: seq<nat>, cb: nat)
    requires 0 < cb && f.Recordable() && v.Slot(n.Addr(1)) == Encode(f, upcase)[1]
    requires RunHeld(v, ch) && DivCeil(f.len, cb) <= |ch| && (ch != [] ==> f.first == ch[0])
    ensures Published(v, n, cb)
  {
    hide Encode, Vol.Slot, DivCeil, Checksum, NameHash, FileSlot, StreamSlot, NameSlots, Field, RunHeld;
    StreamOf(f, upcase);
    HeldHeads(v, ch, DivCeil(f.len, cb));
    if ch == [] {
      assert HeadsRun(v, f.first, 0);
    }
  }

  lemma StreamOf(f: Facts, upcase: seq<u16>)
    requires f.Recordable()
    ensures var s := Encode(f, upcase)[1];
      |s| == SLOT && s[0] == ENTRY_STREAM && Field(s, 20, 4) == f.first && Field(s, 24, 8) == f.len
  {
    hide Checksum, NameHash, FileSlot, NameSlots, Field, StreamSlot;
    StreamFields(f.flags, |f.name|, NameHash(upcase, f.name), f.len, f.first, f.len);
  }

  /** Everything recorded of node `k`, and everything its record points at, is as in `v0`: its set, the links
      and bits of its chain and, for a file, its contents. */
  ghost predicate NodeKept(v0: Vol, v: Vol, cat: Cat, k: nat)
    requires k in cat.nodes && k in cat.chains
  {
    && |v.fat| == |v0.fat| && |v.bits| == |v0.bits| && |v.data| == |v0.data|
    && (forall j :: 0 <= j < cat.nodes[k].Count() ==> v.Slot(cat.nodes[k].Addr(j)) == v0.Slot(cat.nodes[k].Addr(j)))
    && (forall c :: c in cat.chains[k] && c < |v.fat| ==> v.fat[c] == v0.fat[c])
    && (forall c :: c in cat.chains[k] && c < |v.bits| ==> v.bits[c] == v0.bits[c])
    && (!cat.nodes[k].facts.isDir ==> forall c :: c in cat.chains[k] && c < |v.data| ==> v.data[c] == v0.data[c])
  }

  /** The footprint stays off node `k`. */
  ghost predicate Avoids(f: Footprint, cat: Cat, k: nat)
    requires k in cat.nodes && k in cat.chains
  {
    && (forall c :: c in cat.chains[k] ==> c !in f.links && c !in f.marks)
    && (!cat.nodes[k].facts.isDir ==> forall c :: c in cat.chains[k] ==> c !in f.data && c !in Homes(f.slots))
    && (forall j :: 0 <= j < cat.nodes[k].Count() ==> cat.nodes[k].Addr(j) !in f.slots)
    && cat.nodes[k].cluster !in f.data
  }

  lemma AvoidedIsKept(v0: Vol, v: Vol, cat: Cat, k: nat, f: Footprint)
    requires k in cat.nodes && k in cat.chains && Confined(v0, v, f) && Avoids(f, cat, k)
    ensures NodeKept(v0, v, cat, k)
  {
    hide Vol.Slot;
    assert forall j :: 0 <= j < cat.nodes[k].Count() ==> cat.nodes[k].Addr(j).cluster == cat.nodes[k].cluster;
  }

  /** At every view of the trace from `from` on, every node but those of `named` is kept. */
  ghost predicate BystandersSafe(v0: Vol, cat: Cat, trace: seq<Vol>, from: nat, named: set<nat>)
    requires cat.nodes.Keys <= cat.chains.Keys
  {
    forall t, k :: from <= t < |trace| && k in cat.nodes && k !in named ==> NodeKept(v0, trace[t], cat, k)
  }

  lemma ConfinedSafe(v0: Vol, cat: Cat, trace: seq<Vol>, from: nat, named: set<nat>, f: Footprint)
    requires cat.nodes.Keys <= cat.chains.Keys && Through(v0, trace, from, f)
    requires forall k :: k in cat.nodes && k !in named ==> Avoids(f, cat, k)
    ensures BystandersSafe(v0, cat, trace, from, named)
  {
    hide Confined, NodeKept, Avoids;
    forall t, k | from <= t < |trace| && k in cat.nodes && k !in named
      ensures NodeKept(v0, trace[t], cat, k)
    {
      AvoidedIsKept(v0, trace[t], cat, k, f);
    }
  }

  /** A kept node is published, whatever else changed. */
  lemma KeptIsPublished(v0: Vol, v: Vol, cat: Cat, cb: nat, upcase: seq<u16>, k: nat)
    requires 0 < cb && ChainsOwned(v0, cat) && NodeOk(v0, cat, cb, upcase, k) && NodeKept(v0, v, cat, k)
    ensures Published(v, cat.nodes[k], cb)
  {
    var n, ch := cat.nodes[k], cat.chains[k];
    hide Vol.Slot, Encode, Published, HeadsRun;
    NodeHeld(v0, cat, k);
    assert RunHeld(v, ch);
    SuitedLength(ch, n.facts, cb);
    assert v.Slot(n.Addr(1)) == Encode(n.facts, upcase)[1];
    FactsPublished(v, n, n.facts, upcase, ch, cb);
  }

  lemma NodeHeld(v: Vol, cat: Cat, k: nat)
    requires ChainsOwned(v, cat) && k in cat.chains
    ensures RunHeld(v, cat.chains[k])
  {
    var ch := cat.chains[k];
    assert IsChain(v.fat, ch);
    forall i | 0 <= i < |ch|
      ensures v.bits[ch[i]]
    {
      assert cat.own[ch[i]] == Place(k, i);
    }
  }

  lemma SuitedLength(ch: seq<nat>, f: Facts, cb: nat)
    requires 0 < cb && ChainSuits(ch, f, cb)
    ensures DivCeil(f.len, cb) == |ch|
  {
    if f.isDir {
      DivCeilIs(f.len, cb, |ch|);
    }
  }
}
