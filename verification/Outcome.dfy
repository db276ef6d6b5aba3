/** What an operation leaves of a volume, for the nodes it names and for all the others. */
module Outcomes {
  import opened Alloc
  import opened Bytes
  import opened Catalogues
  import opened Directories
  import opened EntrySets
  import opened FileData
  import opened FileTruncates
  import opened FileWrites
  import opened Footprints
  import opened Geometries
  import opened Lookups
  import opened Steps
  import opened Volumes

  /** The bytes of file `k`. */
  ghost function FileContent(v: Vol, cat: Cat, k: nat): seq<byte>
  {
    if k in cat.nodes && k in cat.chains then Content(v, cat.chains[k], cat.nodes[k].facts.len) else []
  }

  /** Every node outside `named` keeps its record, its clusters and, if it is a file, its bytes. */
  ghost predicate OthersKept(v0: Vol, cat0: Cat, v: Vol, cat: Cat, named: set<nat>)
  {
    forall k {:trigger k in cat.nodes} {:trigger FileContent(v, cat, k)} :: k in cat0.nodes && k !in named ==>
      && k in cat.nodes && cat.nodes[k] == cat0.nodes[k]
      && k in cat0.chains && k in cat.chains && cat.chains[k] == cat0.chains[k]
      && (!cat0.nodes[k].facts.isDir ==> FileContent(v, cat, k) == FileContent(v0, cat0, k))
  }

  /** In every view of the trace each node's entry, if it shows a live file, heads the clusters its length
      calls for. */
  ghost predicate EachPublished(trace: seq<Vol>, from: nat, cat: Cat, cb: nat)
    requires 0 < cb
  {
    forall k {:trigger AlwaysPublished(trace, from, cat.nodes[k], cb)} :: k in cat.nodes ==>
      AlwaysPublished(trace, from, cat.nodes[k], cb)
  }

  /** What a power cut during an operation cannot do: whatever view of the trace the device is left in, the
      nodes outside `named` are as they were, and no entry points at clusters it does not own. */
  ghost predicate CrashSafe(v0: Vol, trace: seq<Vol>, from: nat, cat: Cat, cb: nat, named: set<nat>)
  {
    && 0 < cb && cat.nodes.Keys <= cat.chains.Keys
    && BystandersSafe(v0, cat, trace, from, named) && EachPublished(trace, from, cat, cb)
  }

  lemma NodesHaveChains(v: Vol, cat: Cat, g: Geometry, bm: BitmapLoc, upcase: seq<u16>)
    requires Consistent(v, cat, g, bm, upcase)
    ensures 0 < g.ClusterBytes() && cat.nodes.Keys <= cat.chains.Keys
  {
  }

  /** A run whose footprint avoids the nodes it does not name, and during which the named ones stay
      published, is safe. */
  lemma SafeRun(v0: Vol, trace: seq<Vol>, from: nat, cat: Cat, g: Geometry, bm: BitmapLoc, upcase: seq<u16>,
                named: set<nat>, f: Footprint)
    requires Consistent(v0, cat, g, bm, upcase) && 0 < g.ClusterBytes() && cat.nodes.Keys <= cat.chains.Keys
    requires Through(v0, trace, from, f)
    requires forall k :: k in cat.nodes && k !in named ==> Avoids(f, cat, k)
    requires forall k :: k in cat.nodes && k in named ==> AlwaysPublished(trace, from, cat.nodes[k], g.ClusterBytes())
    ensures CrashSafe(v0, trace, from, cat, g.ClusterBytes(), named)
  {
    hide *;
    ConfinedSafe(v0, cat, trace, from, named, f);
    forall k | k in cat.nodes
      ensures AlwaysPublished(trace, from, cat.nodes[k], g.ClusterBytes())
    {
      if k !in named {
        BystanderPublished(v0, trace, from, cat, g, bm, upcase, named, k);
      }
    }
    CrashSafeIs(v0, trace, from, cat, g.ClusterBytes(), named);
  }

  lemma CrashSafeIs(v0: Vol, trace: seq<Vol>, from: nat, cat: Cat, cb: nat, named: set<nat>)
    requires 0 < cb && cat.nodes.Keys <= cat.chains.Keys && BystandersSafe(v0, cat, trace, from, named)
    requires forall k :: k in cat.nodes ==> AlwaysPublished(trace, from, cat.nodes[k], cb)
    ensures CrashSafe(v0, trace, from, cat, cb, named)
  {
    hide BystandersSafe, AlwaysPublished;
  }

  lemma BystanderPublished(v0: Vol, trace: seq<Vol>, from: nat, cat: Cat, g: Geometry, bm: BitmapLoc, upcase: seq<u16>,
                           named: set<nat>, k: nat)
    requires Consistent(v0, cat, g, bm, upcase) && 0 < g.ClusterBytes() && cat.nodes.Keys <= cat.chains.Keys
    requires BystandersSafe(v0, cat, trace, from, named) && k in cat.nodes && k !in named
    ensures AlwaysPublished(trace, from, cat.nodes[k], g.ClusterBytes())
  {
    hide ChainsOwned, NodeOk, SlotsOwned, SystemOk, NodeKept, Published, Geometry.ClusterBytes;
    assert NodeOk(v0, cat, g.ClusterBytes(), upcase, k);
    forall t | from <= t < |trace|
      ensures Published(trace[t], cat.nodes[k], g.ClusterBytes())
    {
      assert NodeKept(v0, trace[t], cat, k);
      KeptIsPublished(v0, trace[t], cat, g.ClusterBytes(), upcase, k);
    }
  }

  /** The other nodes of a crash-safe run that ends in `v` keep everything. */
  lemma SafeKeepsOthers(v0: Vol, v: Vol, cat0: Cat, cat: Cat, named: set<nat>)
    requires cat0.nodes.Keys <= cat0.chains.Keys
    requires forall k :: k in cat0.nodes && k !in named ==> NodeKept(v0, v, cat0, k)
    requires forall k :: k in cat0.nodes && k !in named ==>
      k in cat.nodes && cat.nodes[k] == cat0.nodes[k] && k in cat.chains && cat.chains[k] == cat0.chains[k]
    ensures OthersKept(v0, cat0, v, cat, named)
  {
    hide NodeKept, Content;
    forall k | k in cat0.nodes && k !in named && !cat0.nodes[k].facts.isDir
      ensures FileContent(v, cat, k) == FileContent(v0, cat0, k)
    {
      assert NodeKept(v0, v, cat0, k);
      KeptContent(v0, v, cat0, k);
    }
  }

  lemma KeptContent(v0: Vol, v: Vol, cat: Cat, k: nat)
    requires k in cat.nodes && k in cat.chains && NodeKept(v0, v, cat, k) && !cat.nodes[k].facts.isDir
    ensures Content(v, cat.chains[k], cat.nodes[k].facts.len) == Content(v0, cat.chains[k], cat.nodes[k].facts.len)
  {
    ContentFrame(v0, v, cat.chains[k], cat.nodes[k].facts.len);
  }

  /** The last view of a trace is the present one, unless nothing was written. */
  lemma FinalKept(v: Volume, v0: Vol, t0: seq<Vol>, cat: Cat, named: set<nat>)
    requires v.Valid() && t0 <= v.trace && t0 != [] && t0[|t0| - 1] == v0
    requires cat.nodes.Keys <= cat.chains.Keys && BystandersSafe(v0, cat, v.trace, |t0|, named)
    ensures forall k :: k in cat.nodes && k !in named ==> NodeKept(v0, v.vol, cat, k)
  {
    assert v.trace[|v.trace| - 1] == v.vol;
    hide Volume.Valid;
    if |v.trace| > |t0| {
      hide NodeKept;
    }
  }

  // ---- Footprints that avoid a node --------------------------------------------------------

  lemma AvoidsBoth(f: Footprint, g: Footprint, cat: Cat, k: nat)
    requires k in cat.nodes && k in cat.chains && Avoids(f, cat, k) && Avoids(g, cat, k)
    ensures Avoids(f.Join(g), cat, k)
  {
    forall c | c in Homes(f.Join(g).slots)
      ensures c in Homes(f.slots) || c in Homes(g.slots)
    {
      var a :| a in f.slots + g.slots && a.cluster == c;
    }
  }

  /** Growth takes free clusters and changes the link behind another node's last cluster. */
  lemma GrowthAvoids(v0: Vol, cat: Cat, id: nat, k: nat)
    requires ChainsOwned(v0, cat) && id in cat.chains && k in cat.nodes && k in cat.chains && k != id
    ensures Avoids(GrowthPrint(v0, cat.chains[id]), cat, k)
  {
    hide Linked, BitsMatch;
    NodeHeld(v0, cat, k);
    OwnedIsInChain(cat, k);
    OwnedIsInChain(cat, id);
    var f := GrowthPrint(v0, cat.chains[id]);
    forall c | c in cat.chains[k]
      ensures c !in f.links && c !in f.marks
    {
      assert cat.own[c].id == k;
    }
  }

  /** Contents of `id`'s clusters and of clusters of nobody: no other file's, and no directory's. */
  lemma ContentsAvoid(cat: Cat, id: nat, ch: seq<nat>, k: nat)
    requires Placed(cat) && id in cat.nodes && !cat.IsDir(id) && k in cat.nodes && k in cat.chains && k != id
    requires cat.InDirectory(cat.nodes[k].cluster)
    requires forall c :: c in ch && c in cat.own ==> cat.own[c].id == id
    ensures Avoids(ContentsOf(Elems(ch)), cat, k)
  {
    OwnedIsInChain(cat, k);
  }

  /** The entry set of one node is not another's, and lies in no file. */
  lemma SetAvoids(v0: Vol, cat: Cat, per: nat, id: nat, k: nat)
    requires Placed(cat) && SlotsOwned(v0, cat, per) && id in cat.nodes && k in cat.nodes && k in cat.chains && k != id
    requires cat.InDirectory(cat.nodes[id].cluster) && ROOT !in cat.nodes
    ensures Avoids(SlotsOf(cat.SetOf(id)), cat, k)
  {
    hide SlotsOwned;
    OwnedIsInChain(cat, k);
    forall j | 0 <= j < cat.nodes[k].Count()
      ensures cat.nodes[k].Addr(j) !in cat.SetOf(id)
    {
      SetsApart(v0, cat, per, k, id, j);
    }
    forall c | c in Homes(cat.SetOf(id))
      ensures c == cat.nodes[id].cluster
    {
      var a :| a in cat.SetOf(id) && a.cluster == c;
    }
  }

  /** A write to one file leaves every other node alone, at every step. */
  lemma WriteAvoids(v0: Vol, cat: Cat, g: Geometry, bm: BitmapLoc, upcase: seq<u16>, id: nat, ch: seq<nat>, k: nat)
    requires Consistent(v0, cat, g, bm, upcase) && id in cat.nodes && id in cat.chains && !cat.nodes[id].facts.isDir
    requires k in cat.nodes && k in cat.chains && k != id
    requires forall c :: c in ch && c in cat.own ==> cat.own[c].id == id
    ensures Avoids(WritePrint(v0, cat, id, ch), cat, k)
  {
    NodeFacts(v0, cat, g, bm, upcase, id);
    NodeFacts(v0, cat, g, bm, upcase, k);
    FileIsNoDirectory(cat, g, bm, id);
    NodeIds(cat, g, bm, id);
    OwnershipParts(v0, cat, g, bm, upcase);
    hide *;
    GrowthAvoids(v0, cat, id, k);
    ContentsAvoid(cat, id, ch, k);
    SetAvoids(v0, cat, g.Per(), id, k);
    WritePrintParts(v0, cat, id, ch);
    AvoidsBoth(GrowthPrint(v0, cat.chains[id]), ContentsOf(Elems(ch)), cat, k);
    AvoidsBoth(GrowthPrint(v0, cat.chains[id]).Join(ContentsOf(Elems(ch))), SlotsOf(cat.SetOf(id)), cat, k);
  }

  lemma WritePrintParts(v0: Vol, cat: Cat, id: nat, ch: seq<nat>)
    requires id in cat.chains
    ensures WritePrint(v0, cat, id, ch)
         == GrowthPrint(v0, cat.chains[id]).Join(ContentsOf(Elems(ch))).Join(SlotsOf(cat.SetOf(id)))
  {
  }

  lemma OwnershipParts(v: Vol, cat: Cat, g: Geometry, bm: BitmapLoc, upcase: seq<u16>)
    requires Consistent(v, cat, g, bm, upcase)
    ensures 0 < g.ClusterBytes() && ChainsOwned(v, cat) && Placed(cat) && SlotsOwned(v, cat, g.Per())
    ensures SystemOk(cat, g, bm) && NodesOk(v, cat, g.ClusterBytes(), upcase)
    ensures |v.bits| == |v.fat| && v.Unreserved()
  {
  }

  // ---- The outcome of a write --------------------------------------------------------------

  /** The node keeps its name, its place and its kind; only what it points at may differ. */
  ghost predicate SameEntry(n0: Node, n: Node)
  {
    n == n0.(facts := n.facts) && n.facts.name == n0.facts.name && n.facts.isDir == n0.facts.isDir
  }

  /** A write of `buf` at `offset` of file `id`: its bytes are the old ones overwritten, and nobody else's
      differ. */
  ghost predicate FileWritten(v0: Vol, cat0: Cat, v: Vol, cat: Cat, id: nat, offset: nat, buf: seq<byte>)
  {
    && cat.nodes.Keys == cat0.nodes.Keys && id in cat.nodes && SameEntry(cat0.nodes[id], cat.nodes[id])
    && cat.nodes[id].facts.len == Max(offset + |buf|, cat0.nodes[id].facts.len)
    && FileContent(v, cat, id) == Overwritten(FileContent(v0, cat0, id), offset, buf)
    && cat.spare == cat0.spare
    && OthersKept(v0, cat0, v, cat, {id})
  }

  lemma WriteOutcome(v0: Vol, v: Vol, cat: Cat, g: Geometry, bm: BitmapLoc, upcase: seq<u16>, id: nat, ch: seq<nat>,
                     offset: nat, buf: seq<byte>)
    requires Consistent(v0, cat, g, bm, upcase) && 0 < g.ClusterBytes() && cat.nodes.Keys <= cat.chains.Keys
    requires id in cat.nodes && id in cat.chains && !cat.nodes[id].facts.isDir
    requires WriteDone(v0, v, cat, g.ClusterBytes(), upcase, id, ch, offset, buf)
    requires forall k :: k in cat.nodes && k != id ==> NodeKept(v0, v, cat, k)
    ensures var f := FactsAfter(cat.nodes[id].facts, ch, Max(offset + |buf|, cat.nodes[id].facts.len), 1);
      && Consistent(v, UpdatedCat(cat, id, ch, f), g, bm, upcase)
      && FileWritten(v0, cat, v, UpdatedCat(cat, id, ch, f), id, offset, buf)
  {
    var f := FactsAfter(cat.nodes[id].facts, ch, Max(offset + |buf|, cat.nodes[id].facts.len), 1);
    WriteDoneParts(v0, v, cat, g.ClusterBytes(), upcase, id, ch, offset, buf);
    UpdatedNodes(cat, id, ch, f);
    hide *;
    UpdateKeepsConsistent(v0, v, cat, g, bm, upcase, id, ch, f);
    SafeKeepsOthers(v0, v, cat, UpdatedCat(cat, id, ch, f), {id});
    FileWrittenIs(v0, v, cat, id, ch, f, offset, buf);
  }

  lemma WriteDoneParts(v0: Vol, v: Vol, cat: Cat, cb: nat, upcase: seq<u16>, id: nat, ch: seq<nat>, offset: nat, buf: seq<byte>)
    requires 0 < cb && id in cat.nodes && id in cat.chains && WriteDone(v0, v, cat, cb, upcase, id, ch, offset, buf)
    ensures var f0 := cat.nodes[id].facts;
      var f := FactsAfter(f0, ch, Max(offset + |buf|, f0.len), 1);
      && f.Recordable() && Updated(v0, v, cat, upcase, id, ch, f) && ChainSuits(ch, f, cb)
      && f.name == f0.name && f.isDir == f0.isDir && f.flags <= 1 && f.len == Max(offset + |buf|, f0.len)
      && (forall c :: c in ch && c in cat.own ==> cat.own[c].id == id)
      && Content(v, ch, f.len) == Overwritten(Content(v0, cat.chains[id], f0.len), offset, buf)
  {
    hide Updated, ChainSuits, Content, Overwritten;
  }

  lemma UpdatedNodes(cat: Cat, id: nat, ch: seq<nat>, f: Facts)
    requires id in cat.nodes
    ensures var cat' := UpdatedCat(cat, id, ch, f);
      && cat'.nodes == cat.nodes[id := cat.nodes[id].(facts := f)] && cat'.chains == cat.chains[id := ch]
      && cat'.spare == cat.spare && cat'.nodes.Keys == cat.nodes.Keys
      && (forall k :: k in cat.nodes && k != id ==> k in cat'.nodes && cat'.nodes[k] == cat.nodes[k])
      && (forall k :: k in cat.chains && k != id ==> k in cat'.chains && cat'.chains[k] == cat.chains[k])
  {
  }

  lemma FileWrittenIs(v0: Vol, v: Vol, cat: Cat, id: nat, ch: seq<nat>, f: Facts, offset: nat, buf: seq<byte>)
    requires id in cat.nodes && id in cat.chains
    requires f.name == cat.nodes[id].facts.name && f.isDir == cat.nodes[id].facts.isDir
    requires f.len == Max(offset + |buf|, cat.nodes[id].facts.len)
    requires Content(v, ch, f.len) == Overwritten(Content(v0, cat.chains[id], cat.nodes[id].facts.len), offset, buf)
    requires OthersKept(v0, cat, v, UpdatedCat(cat, id, ch, f), {id})
    ensures FileWritten(v0, cat, v, UpdatedCat(cat, id, ch, f), id, offset, buf)
  {
    hide Content, Overwritten, OthersKept, Cat.SetChain, Cat.PutNode;
    UpdatedNodes(cat, id, ch, f);
  }

  /** A failed allocation: every cluster that was free is now marked without an owner; all nodes keep
      everything. */
  ghost predicate SpaceRanOut(v0: Vol, cat0: Cat, v: Vol, cat: Cat)
  {
    cat == cat0.(spare := cat0.spare + FreeSet(v0)) && FreeSet(v) == {} && OthersKept(v0, cat0, v, cat, {})
  }

  lemma OutOfSpace(v0: Vol, v: Vol, cat: Cat, g: Geometry, bm: BitmapLoc, upcase: seq<u16>)
    requires Consistent(v0, cat, g, bm, upcase) && Marked(v0, v, FreeSet(v0))
    ensures Consistent(v, cat.(spare := cat.spare + FreeSet(v0)), g, bm, upcase)
    ensures SpaceRanOut(v0, cat, v, cat.(spare := cat.spare + FreeSet(v0)))
  {
    NodesHaveChains(v0, cat, g, bm, upcase);
    MarkedFree(v0, v, FreeSet(v0));
    hide Consistent, FreeSet, Content;
    SparesKeepConsistent(v0, v, cat, g, bm, upcase, FreeSet(v0));
    forall k | k in cat.nodes
      ensures Content(v, cat.chains[k], cat.nodes[k].facts.len) == Content(v0, cat.chains[k], cat.nodes[k].facts.len)
    {
      ContentFrame(v0, v, cat.chains[k], cat.nodes[k].facts.len);
    }
  }

  /** The clusters a write up to `end` adds to a file of length `len`. */
  function NeededClusters(len: nat, end: nat, cb: nat): int
    requires 0 < cb
  {
    DivCeil(Max(end, len), cb) - DivCeil(len, cb)
  }

  lemma NeededIs(len: nat, end: nat, cb: nat)
    requires 0 < cb
    ensures NeededClusters(len, end, cb) == DivCeil(Max(end, len), cb) - DivCeil(len, cb)
  {
  }

  lemma CanWriteIs(v: Volume, cat: Cat, upcase: seq<u16>, id: nat, entry: EntryLoc, end: nat)
    requires v.Valid() && Consistent(v.vol, cat, v.geo, v.bm, upcase) && 0 < v.geo.ClusterBytes()
    requires id in cat.nodes && !cat.nodes[id].facts.isDir && entry == LocOfNode(cat.nodes[id])
    requires end < 0x1_0000_0000_0000_0000 && DivCeil(end, v.geo.ClusterBytes()) < U32
    ensures CanWrite(v, cat, upcase, id, entry, end)
  {
    hide Volume.Valid, Consistent;
  }

  lemma IsFileIs(v: Volume, cat: Cat, upcase: seq<u16>, id: nat, entry: EntryLoc)
    requires v.Valid() && Consistent(v.vol, cat, v.geo, v.bm, upcase)
    requires id in cat.nodes && !cat.nodes[id].facts.isDir && entry == LocOfNode(cat.nodes[id])
    ensures IsFile(v, cat, upcase, id, entry)
  {
    hide Volume.Valid, Consistent;
  }

  /** The whole trace of a write is safe for everybody else. */
  lemma WriteSafe(v0: Vol, trace: seq<Vol>, from: nat, cat: Cat, g: Geometry, bm: BitmapLoc, upcase: seq<u16>, id: nat, ch: seq<nat>)
    requires Consistent(v0, cat, g, bm, upcase) && 0 < g.ClusterBytes() && id in cat.nodes && !cat.nodes[id].facts.isDir
    requires forall c :: c in ch && c in cat.own ==> cat.own[c].id == id
    requires WriteTrace(v0, trace, from, cat, g.ClusterBytes(), id, ch)
    ensures CrashSafe(v0, trace, from, cat, g.ClusterBytes(), {id})
  {
    NodesHaveChains(v0, cat, g, bm, upcase);
    WriteTraceParts(v0, trace, from, cat, g.ClusterBytes(), id, ch);
    hide *;
    forall k | k in cat.nodes && k !in {id}
      ensures Avoids(WritePrint(v0, cat, id, ch), cat, k)
    {
      WriteAvoids(v0, cat, g, bm, upcase, id, ch, k);
    }
    SafeRun(v0, trace, from, cat, g, bm, upcase, {id}, WritePrint(v0, cat, id, ch));
  }

  lemma WriteTraceParts(v0: Vol, trace: seq<Vol>, from: nat, cat: Cat, cb: nat, id: nat, ch: seq<nat>)
    requires WriteTrace(v0, trace, from, cat, cb, id, ch)
    ensures 0 < cb && id in cat.nodes && id in cat.chains
    ensures Through(v0, trace, from, WritePrint(v0, cat, id, ch)) && AlwaysPublished(trace, from, cat.nodes[id], cb)
  {
  }

  lemma CrashSafeParts(v0: Vol, trace: seq<Vol>, from: nat, cat: Cat, cb: nat, named: set<nat>)
    requires CrashSafe(v0, trace, from, cat, cb, named)
    ensures 0 < cb && cat.nodes.Keys <= cat.chains.Keys && BystandersSafe(v0, cat, trace, from, named)
  {
  }

  // ---- The outcome of a truncation ---------------------------------------------------------

  /** The first `len` bytes, or everything followed by zeros up to `len`. */
  function Resized(old_: seq<byte>, len: nat): seq<byte>
  {
    if len <= |old_| then old_[..len] else old_ + Zeros(len - |old_|)
  }

  /** A truncation of file `id` to `len`: its bytes are the old ones resized, and nobody else's differ. */
  ghost predicate FileTruncated(v0: Vol, cat0: Cat, v: Vol, cat: Cat, id: nat, len: nat)
  {
    && cat.nodes.Keys == cat0.nodes.Keys && id in cat.nodes && SameEntry(cat0.nodes[id], cat.nodes[id])
    && cat.nodes[id].facts.len == len
    && FileContent(v, cat, id) == Resized(FileContent(v0, cat0, id), len)
    && id in cat0.chains && cat.spare == SparesAfter(cat0, id, len)
    && OthersKept(v0, cat0, v, cat, {id})
  }

  /** The content of a file has the length its entry says. */
  lemma WholeContent(v: Volume, cat: Cat, upcase: seq<u16>, id: nat)
    requires v.Valid() && Consistent(v.vol, cat, v.geo, v.bm, upcase) && id in cat.nodes && !cat.nodes[id].facts.isDir
    ensures |FileContent(v.vol, cat, id)| == cat.nodes[id].facts.len
  {
    hide Volume.Valid, Consistent, Content, FileClusters;
    FileFacts(v, cat, upcase, id, LocOfNode(cat.nodes[id]));
    OwnerClusters(v, cat, upcase, id);
    SizedClusters(v, cat.chains[id]);
    ContentSize(v.vol, cat.chains[id], v.geo.ClusterBytes(), cat.nodes[id].facts.len);
  }

  /** Extending a file is writing zeros at its new end. */
  lemma ExtensionIsWrite(old_: seq<byte>, len: nat, n: nat)
    requires |old_| < len && n <= len - |old_|
    ensures Overwritten(old_, len - n, Zeros(n)) == Resized(old_, len)
  {
    ZerosJoin(len - n - |old_|, n);
  }

  lemma ExtensionOutcome(v0: Vol, cat0: Cat, v: Vol, cat: Cat, id: nat, len: nat, n: nat)
    requires id in cat0.nodes && |FileContent(v0, cat0, id)| == cat0.nodes[id].facts.len < len
    requires n <= len - cat0.nodes[id].facts.len
    requires FileWritten(v0, cat0, v, cat, id, len - n, Zeros(n)) && id in cat0.chains
    ensures FileTruncated(v0, cat0, v, cat, id, len)
  {
    hide FileContent, OthersKept, Overwritten, Resized;
    ExtensionIsWrite(FileContent(v0, cat0, id), len, n);
  }

  /** The nodes a truncation of `id` takes clusters of: those it shares the freed run with. */
  ghost predicate Struck(cat: Cat, id: nat, len: nat, k: nat)
    requires id in cat.chains
  {
    len == 0 && k in cat.chains && exists c :: c in cat.chains[k] && c in Elems(RunOf(cat.chains[id]))
  }

  /** `id` and the nodes a truncation of it takes clusters of. */
  ghost function StruckBy(cat: Cat, id: nat, len: nat): set<nat>
    requires id in cat.chains
  {
    {id} + set k | k in cat.nodes && Struck(cat, id, len, k)
  }

  lemma ClearStrikesNobody(v0: Vol, cat: Cat, id: nat, len: nat)
    requires ChainsOwned(v0, cat) && id in cat.chains && (0 < len || RunClear(cat, id))
    ensures StruckBy(cat, id, len) == {id}
  {
    hide RunOf, Linked, BitsMatch;
    forall k | k in cat.nodes && Struck(cat, id, len, k)
      ensures k == id
    {
      var c :| c in cat.chains[k] && c in Elems(RunOf(cat.chains[id]));
      OwnedIsInChain(cat, k);
      assert c in RunOf(cat.chains[id]);
    }
  }

  lemma DisturbedAvoids(v0: Vol, cat: Cat, id: nat, len: nat, k: nat)
    requires ChainsOwned(v0, cat) && id in cat.chains && k in cat.nodes && k in cat.chains && k !in StruckBy(cat, id, len)
    ensures Avoids(ClustersOf(Disturbed(cat, id, len)), cat, k)
  {
    hide RunOf, Linked, BitsMatch;
    if 0 < len {
      OwnedIsInChain(cat, id);
      assert forall c :: c in Elems(cat.chains[id]) <==> c in cat.chains[id];
      RelinkingAvoids(cat, id, Elems(cat.chains[id]), k);
    } else {
      assert !Struck(cat, id, len, k);
    }
  }

  lemma RelinkingAvoids(cat: Cat, id: nat, cs: set<nat>, k: nat)
    requires Placed(cat) && k in cat.nodes && k in cat.chains && k != id
    requires forall c :: c in cs ==> c in cat.own && cat.own[c].id == id
    ensures Avoids(ClustersOf(cs), cat, k)
  {
    OwnedIsInChain(cat, k);
  }

  /** A truncation leaves every node alone, at every step, that it shares no freed run with. */
  lemma TruncateAvoids(v0: Vol, cat: Cat, g: Geometry, bm: BitmapLoc, upcase: seq<u16>, id: nat, len: nat, k: nat)
    requires Consistent(v0, cat, g, bm, upcase) && id in cat.nodes && id in cat.chains
    requires k in cat.nodes && k in cat.chains && k !in StruckBy(cat, id, len)
    ensures Avoids(TruncatePrint(cat, id, len), cat, k)
  {
    assert id in StruckBy(cat, id, len);
    NodeFacts(v0, cat, g, bm, upcase, id);
    NodeIds(cat, g, bm, id);
    OwnershipParts(v0, cat, g, bm, upcase);
    hide *;
    DisturbedAvoids(v0, cat, id, len, k);
    SetAvoids(v0, cat, g.Per(), id, k);
    AvoidsBoth(ClustersOf(Disturbed(cat, id, len)), SlotsOf(cat.SetOf(id)), cat, k);
    TruncatePrintIs(cat, id, len);
  }

  lemma TruncatePrintIs(cat: Cat, id: nat, len: nat)
    requires id in cat.chains
    ensures TruncatePrint(cat, id, len) == ClustersOf(Disturbed(cat, id, len)).Join(SlotsOf(cat.SetOf(id)))
  {
  }

  lemma TruncateSafe(v0: Vol, trace: seq<Vol>, from: nat, cat: Cat, g: Geometry, bm: BitmapLoc, upcase: seq<u16>, id: nat, len: nat)
    requires Consistent(v0, cat, g, bm, upcase) && id in cat.nodes && id in cat.chains
    requires Through(v0, trace, from, TruncatePrint(cat, id, len))
    ensures cat.nodes.Keys <= cat.chains.Keys && BystandersSafe(v0, cat, trace, from, StruckBy(cat, id, len))
  {
    NodesHaveChains(v0, cat, g, bm, upcase);
    hide *;
    forall k | k in cat.nodes && k !in StruckBy(cat, id, len)
      ensures Avoids(TruncatePrint(cat, id, len), cat, k)
    {
      TruncateAvoids(v0, cat, g, bm, upcase, id, len, k);
    }
    ConfinedSafe(v0, cat, trace, from, StruckBy(cat, id, len), TruncatePrint(cat, id, len));
  }

  lemma TruncateOutcome(v0: Vol, v: Vol, cat: Cat, g: Geometry, bm: BitmapLoc, upcase: seq<u16>, id: nat, len: nat)
    requires Consistent(v0, cat, g, bm, upcase) && 0 < g.ClusterBytes() && cat.nodes.Keys <= cat.chains.Keys
    requires id in cat.nodes && !cat.nodes[id].facts.isDir
    requires TruncateDone(v0, Tidied(v0, v, cat, id, len), cat, g.ClusterBytes(), upcase, id, len)
    requires id in cat.chains && (len == 0 ==> RunClear(cat, id) && LinksFreed(v0, v, cat, id))
    requires forall k :: k in cat.nodes && k !in {id} ==> NodeKept(v0, v, cat, k)
    ensures var cat' := TruncatedCat(cat, id, g.ClusterBytes(), len);
      Consistent(v, cat', g, bm, upcase) && FileTruncated(v0, cat, v, cat', id, len)
  {
    var ch := Cut(cat, id, g.ClusterBytes(), len);
    var f := FactsAfter(cat.nodes[id].facts, ch, len, TruncatedFlags(cat.nodes[id].facts, |ch|));
    var tidy := Tidied(v0, v, cat, id, len);
    hide *;
    TruncateDoneParts(v0, tidy, cat, g.ClusterBytes(), upcase, id, len);
    UpdatedNodes(cat, id, ch, f);
    TruncatedCatIs(cat, id, g.ClusterBytes(), len, ch, f);
    CutOwned(v0, cat, g, bm, upcase, id, len);
    UpdateKeepsConsistent(v0, tidy, cat, g, bm, upcase, id, ch, f);
    SettledSpares(v0, v, cat, g, bm, upcase, id, len);
    TidiedParts(v0, v, cat, id, len);
    SameDataContent(tidy, v, ch, len);
    SafeKeepsOthers(v0, v, cat, TruncatedCat(cat, id, g.ClusterBytes(), len), {id});
    FileTruncatedIs(v0, v, cat, id, ch, f);
  }

  lemma SameDataContent(v: Vol, v': Vol, ch: seq<nat>, len: nat)
    requires v'.data == v.data
    ensures Content(v', ch, len) == Content(v, ch, len)
  {
    ContentFrame(v, v', ch, len);
  }

  /** The volume as it is, with the spares it has, is in order if the tidied one is. */
  lemma SettledSpares(v0: Vol, v: Vol, cat: Cat, g: Geometry, bm: BitmapLoc, upcase: seq<u16>, id: nat, len: nat)
    requires Consistent(v0, cat, g, bm, upcase) && 0 < g.ClusterBytes() && id in cat.nodes && id in cat.chains
    requires len == 0 ==> RunClear(cat, id) && LinksFreed(v0, v, cat, id)
    requires var ch := Cut(cat, id, g.ClusterBytes(), len);
      var f := FactsAfter(cat.nodes[id].facts, ch, len, TruncatedFlags(cat.nodes[id].facts, |ch|));
      Consistent(Tidied(v0, v, cat, id, len), UpdatedCat(cat, id, ch, f), g, bm, upcase)
    ensures Consistent(v, TruncatedCat(cat, id, g.ClusterBytes(), len), g, bm, upcase)
  {
    var ch := Cut(cat, id, g.ClusterBytes(), len);
    var f := FactsAfter(cat.nodes[id].facts, ch, len, TruncatedFlags(cat.nodes[id].facts, |ch|));
    TruncatedCatIs(cat, id, g.ClusterBytes(), len, ch, f);
    TidiedParts(v0, v, cat, id, len);
    UpdatedNodes(cat, id, ch, f);
    ConsistentOwned(v0, cat, g, bm, upcase);
    if len == 0 {
      CutToNothing(cat, id, g.ClusterBytes());
      LinksFreedParts(v0, v, cat, id);
      ClearRunBits(v0, v, cat, id);
      UpdatedOwn(cat, id, ch, f);
      SameDataSlots(Tidied(v0, v, cat, id, len), v, UpdatedCat(cat, id, ch, f));
      hide *;
      SparesMayDiffer(Tidied(v0, v, cat, id, len), v, UpdatedCat(cat, id, ch, f), g, bm, upcase, SparesAfter(cat, id, len));
    } else {
      hide *;
      SparesUntouched(cat, id, len);
      SameSpares(UpdatedCat(cat, id, ch, f));
    }
  }

  lemma SparesUntouched(cat: Cat, id: nat, len: nat)
    requires id in cat.chains && 0 < len
    ensures SparesAfter(cat, id, len) == cat.spare
  {
  }

  lemma SameSpares(cat: Cat)
    ensures cat.(spare := cat.spare) == cat
  {
  }

  lemma CutToNothing(cat: Cat, id: nat, cb: nat)
    requires 0 < cb && id in cat.chains
    ensures Cut(cat, id, cb, 0) == []
  {
    DivCeilBounds(0, cb);
  }

  lemma LinksFreedParts(v0: Vol, v: Vol, cat: Cat, id: nat)
    requires id in cat.chains && LinksFreed(v0, v, cat, id)
    ensures |v.bits| == |v0.bits| && |v.fat| == |v0.fat|
    ensures forall c :: 0 <= c < |v.bits| ==> v.bits[c] == (v0.bits[c] && c !in Elems(RunOf(cat.chains[id])))
  {
  }

  lemma UpdatedOwn(cat: Cat, id: nat, ch: seq<nat>, f: Facts)
    requires id in cat.nodes
    ensures UpdatedCat(cat, id, ch, f).own == cat.SetChain(id, ch).own
  {
    hide Cat.SetChain;
  }

  lemma SameDataSlots(v: Vol, v': Vol, cat: Cat)
    requires v'.data == v.data
    ensures DirSlotsSame(v, v', cat, {})
  {
  }

  function Cut(cat: Cat, id: nat, cb: nat, len: nat): seq<nat>
    requires 0 < cb && id in cat.chains
  {
    var ch := cat.chains[id];
    ch[..Min(DivCeil(len, cb), |ch|)]
  }

  function TruncatedCat(cat: Cat, id: nat, cb: nat, len: nat): Cat
    requires 0 < cb && id in cat.chains && id in cat.nodes
  {
    var ch := Cut(cat, id, cb, len);
    UpdatedCat(cat, id, ch, FactsAfter(cat.nodes[id].facts, ch, len, TruncatedFlags(cat.nodes[id].facts, |ch|)))
      .(spare := SparesAfter(cat, id, len))
  }

  lemma TruncatedCatIs(cat: Cat, id: nat, cb: nat, len: nat, ch: seq<nat>, f: Facts)
    requires 0 < cb && id in cat.chains && id in cat.nodes && ch == Cut(cat, id, cb, len)
    requires f == FactsAfter(cat.nodes[id].facts, ch, len, TruncatedFlags(cat.nodes[id].facts, |ch|))
    ensures TruncatedCat(cat, id, cb, len) == UpdatedCat(cat, id, ch, f).(spare := SparesAfter(cat, id, len))
  {
  }

  lemma CutOwned(v0: Vol, cat: Cat, g: Geometry, bm: BitmapLoc, upcase: seq<u16>, id: nat, len: nat)
    requires Consistent(v0, cat, g, bm, upcase) && 0 < g.ClusterBytes() && id in cat.chains && id in cat.nodes
    ensures forall c :: c in Cut(cat, id, g.ClusterBytes(), len) && c in cat.own ==> cat.own[c].id == id
    ensures cat.nodes[id].facts.flags <= 1
  {
    NodeFacts(v0, cat, g, bm, upcase, id);
    OwnershipParts(v0, cat, g, bm, upcase);
    OwnedIsInChain(cat, id);
    hide Consistent, SystemOk, Placed, ChainsOwned, SlotsOwned, DivCeil, Geometry.ClusterBytes, SetOnDisk;
    var ch, cut := cat.chains[id], Cut(cat, id, g.ClusterBytes(), len);
    assert forall i :: 0 <= i < |cut| ==> cut[i] == ch[i];
  }

  lemma TruncateDoneParts(v0: Vol, v: Vol, cat: Cat, cb: nat, upcase: seq<u16>, id: nat, len: nat)
    requires 0 < cb && id in cat.nodes && TruncateDone(v0, v, cat, cb, upcase, id, len)
    ensures id in cat.chains
    ensures var f0, ch := cat.nodes[id].facts, Cut(cat, id, cb, len);
      var f := FactsAfter(f0, ch, len, TruncatedFlags(f0, |ch|));
      && f.Recordable() && Updated(v0, v, cat, upcase, id, ch, f) && ChainSuits(ch, f, cb)
      && f.name == f0.name && f.isDir == f0.isDir && (f0.flags <= 1 ==> f.flags <= 1) && f.len == len
      && len <= |Content(v0, cat.chains[id], f0.len)|
      && Content(v, ch, len) == Content(v0, cat.chains[id], f0.len)[..len]
  {
    hide Updated, ChainSuits, Content, DivCeil;
  }

  lemma FileTruncatedIs(v0: Vol, v: Vol, cat: Cat, id: nat, ch: seq<nat>, f: Facts)
    requires id in cat.nodes && id in cat.chains
    requires f.name == cat.nodes[id].facts.name && f.isDir == cat.nodes[id].facts.isDir
    requires f.len <= |Content(v0, cat.chains[id], cat.nodes[id].facts.len)|
    requires Content(v, ch, f.len) == Content(v0, cat.chains[id], cat.nodes[id].facts.len)[..f.len]
    requires OthersKept(v0, cat, v, UpdatedCat(cat, id, ch, f).(spare := SparesAfter(cat, id, f.len)), {id})
    ensures FileTruncated(v0, cat, v, UpdatedCat(cat, id, ch, f).(spare := SparesAfter(cat, id, f.len)), id, f.len)
  {
    hide Content, OthersKept, Cat.SetChain, Cat.PutNode, SparesAfter;
    UpdatedNodes(cat, id, ch, f);
  }
}
