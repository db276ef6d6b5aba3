/** Shrinking a file: the disk side of a truncation. */
module FileTruncates {
  import opened Alloc
  import opened Bytes
  import opened Catalogues
  import opened Directories
  import opened EntrySets
  import opened Fats
  import opened FileData
  import opened FileWrites
  import opened Footprints
  import opened Geometries
  import opened Lookups
  import opened SlotWrites
  import opened Steps
  import opened Volumes

  /** Free each cluster of `list` on its own, as a shrinking file does with its tail. */
  method FreeEach(v: Volume, list: seq<nat>) returns (r: Result<()>)
    requires v.Valid() && forall i :: 0 <= i < |list| ==> v.geo.InRange(list[i])
    modifies v, v.disk
    ensures v.Valid() && old(v.trace) <= v.trace && r.Ok?
    ensures Freed(old(v.vol), v.vol, Elems(list))
    ensures Through(old(v.vol), v.trace, |old(v.trace)|, ClustersOf(Elems(list)))
  {
    hide Volume.Valid, Confined, Freed, Elems, Run, Through;
    ghost var v0, t0, all := v.vol, |v.trace|, ClustersOf(Elems(list));
    FreedNothing(v0);
    NoElems(list);
    ThroughNothing(v0, v.trace, all);
    for i := 0 to |list|
      invariant v.Valid() && old(v.trace) <= v.trace && t0 <= |v.trace|
      invariant Freed(v0, v.vol, Elems(list[..i]))
      invariant Through(v0, v.trace, t0, all)
    {
      ghost var v1, t1 := v.vol, v.trace;
      RunOfOne(list[i], v.geo.clusterCount);
      r := FreeChain(v, list[i], Some(1));
      FreedStep(v0, v1, v.vol, t1, v.trace, t0, list, i);
    }
    assert list[..|list|] == list;
    return Ok(());
  }

  lemma NoElems(list: seq<nat>)
    ensures Elems(list[..0]) == {}
  {
  }

  lemma RunOfOne(c: nat, total: nat)
    requires 2 <= c < total + 2
    ensures Run(c, Min(1, total)) == [c]
  {
  }

  lemma FreedStep(v0: Vol, v1: Vol, v2: Vol, t1: seq<Vol>, t2: seq<Vol>, from: nat, list: seq<nat>, i: nat)
    requires i < |list| && Freed(v0, v1, Elems(list[..i])) && Freed(v1, v2, Elems([list[i]]))
    requires from <= |t1| && t1 <= t2
    requires Through(v0, t1, from, ClustersOf(Elems(list))) && Through(v1, t2, |t1|, ClustersOf(Elems([list[i]])))
    ensures Freed(v0, v2, Elems(list[..i + 1]))
    ensures Through(v0, t2, from, ClustersOf(Elems(list)))
  {
    var all := ClustersOf(Elems(list));
    assert Elems(list[..i + 1]) == Elems(list[..i]) + Elems([list[i]]);
    FreedConfined(v0, v1, Elems(list[..i]));
    ConfinedWider(v0, v1, ClustersOf(Elems(list[..i])), all);
    hide Confined, Freed;
    FreedTwice(v0, v1, v2, Elems(list[..i]), Elems([list[i]]));
    assert t2[..|t1|] == t1;
    ThroughChain(v0, t1, from, all, v1, t2, ClustersOf(Elems([list[i]])), all);
  }

  lemma FreedTwice(v0: Vol, v1: Vol, v2: Vol, a: set<nat>, b: set<nat>)
    requires Freed(v0, v1, a) && Freed(v1, v2, b)
    ensures Freed(v0, v2, a + b)
  {
  }

  // ---- Cutting the chain -----------------------------------------------------------------

  /** Ending the chain of `id` after `keep` clusters and freeing the rest. */
  lemma CutStep(v0: Vol, v1: Vol, v2: Vol, cat: Cat, id: nat, keep: nat)
    requires ChainsOwned(v0, cat) && id in cat.chains && 0 < keep <= |cat.chains[id]|
    requires |v0.fat| == |v0.bits| && cat.chains[id][keep - 1] < |v0.fat|
    requires v1 == v0.WithFat(cat.chains[id][keep - 1], END_OF_CHAIN)
    requires Freed(v1, v2, Elems(cat.chains[id][keep..]))
    ensures ChainStep(v0, v2, cat, id, cat.chains[id][..keep])
  {
    var ch := cat.chains[id];
    assert IsChain(v0.fat, ch);
    ChainDistinct(v0.fat, ch);
    OwnedIsInChain(cat, id);
    CutLinks(v0, v1, v2, ch, keep);
    assert forall c :: c in ch <==> c in ch[..keep] || c in Elems(ch[keep..]) by { CutElems(ch, keep); }
    hide IsChain, Placed;
    NodeHeld(v0, cat, id);
    assert forall c :: c in ch ==> c in cat.own && c !in cat.spare by { SpareIsUnowned(cat); }
    CutBits(v0, v1, v2, cat, id, keep);
  }

  lemma SpareIsUnowned(cat: Cat)
    requires Placed(cat)
    ensures forall c :: c in cat.own ==> c !in cat.spare
  {
  }

  lemma CutElems(ch: seq<nat>, keep: nat)
    requires keep <= |ch|
    ensures forall c :: c in ch <==> c in ch[..keep] || c in Elems(ch[keep..])
  {
    assert ch == ch[..keep] + ch[keep..];
  }

  lemma CutLinks(v0: Vol, v1: Vol, v2: Vol, ch: seq<nat>, keep: nat)
    requires IsChain(v0.fat, ch) && Distinct(ch) && 0 < keep <= |ch|
    requires v1 == v0.WithFat(ch[keep - 1], END_OF_CHAIN) && Freed(v1, v2, Elems(ch[keep..]))
    ensures IsChain(v2.fat, ch[..keep])
  {
    forall i | 0 <= i < keep
      ensures ch[i] !in Elems(ch[keep..])
    {
      assert forall j :: 0 <= j < |ch[keep..]| ==> ch[keep..][j] == ch[keep + j];
    }
  }

  lemma CutBits(v0: Vol, v1: Vol, v2: Vol, cat: Cat, id: nat, keep: nat)
    requires id in cat.chains && 0 < keep <= |cat.chains[id]| && RunHeld(v0, cat.chains[id]) && Distinct(cat.chains[id])
    requires |v0.fat| == |v0.bits| && cat.chains[id][keep - 1] < |v0.fat|
    requires v1 == v0.WithFat(cat.chains[id][keep - 1], END_OF_CHAIN)
    requires Freed(v1, v2, Elems(cat.chains[id][keep..]))
    requires forall c :: c in cat.own && cat.own[c].id == id <==> c in cat.chains[id]
    ensures forall c :: 2 <= c < |v2.bits| ==>
      v2.bits[c] == (c in cat.chains[id][..keep] || (v0.bits[c] && !(c in cat.own && cat.own[c].id == id)))
    ensures forall c :: 0 <= c < |v2.fat| && c in cat.own && cat.own[c].id != id ==> v2.fat[c] == v0.fat[c]
  {
    var ch := cat.chains[id];
    CutElems(ch, keep);
    forall c | c in ch[..keep]
      ensures c !in Elems(ch[keep..])
    {
      var i :| 0 <= i < keep && ch[i] == c;
      assert forall j :: 0 <= j < |ch[keep..]| ==> ch[keep..][j] == ch[keep + j];
    }
    assert forall c :: c in ch && c < |v0.bits| ==> v0.bits[c];
    assert ch[keep - 1] in ch;
  }

  // ---- Truncating to nothing ---------------------------------------------------------------

  /** The clusters a truncation to nothing frees: a run as long as the chain, from its first cluster on. */
  function RunOf(ch: seq<nat>): seq<nat>
  {
    if ch == [] then [] else Run(ch[0], |ch|)
  }

  /** Truncating to nothing frees the right clusters when the chain occupies exactly that run, in any order. */
  ghost predicate OccupiesRun(ch: seq<nat>) { Elems(ch) == Elems(RunOf(ch)) }

  lemma ZeroStep(v0: Vol, v2: Vol, cat: Cat, id: nat)
    requires ChainsOwned(v0, cat) && id in cat.chains && OccupiesRun(cat.chains[id])
    requires Freed(v0, v2, Elems(RunOf(cat.chains[id])))
    ensures ChainStep(v0, v2, cat, id, [])
  {
    OwnedIsInChain(cat, id);
    assert forall c :: c in cat.chains[id] <==> c in Elems(cat.chains[id]);
  }

  /** Freeing the run leaves the clusters owned as they should be if and only if the chain occupies it. */
  lemma ZeroTruncationExact(v0: Vol, v2: Vol, cat: Cat, id: nat)
    requires ChainsOwned(v0, cat) && id in cat.chains && |v2.fat| == |v0.fat| && |v2.bits| == |v0.bits|
    requires Freed(v0, v2, Elems(RunOf(cat.chains[id])))
    ensures ChainsOwned(v2, cat.SetChain(id, [])) <==> OccupiesRun(cat.chains[id])
  {
    var ch := cat.chains[id];
    if OccupiesRun(ch) {
      ZeroStep(v0, v2, cat, id);
      SetChainKeepsOwnership(v0, v2, cat, id, []);
    }
    if ChainsOwned(v2, cat.SetChain(id, [])) {
      ZeroedIsInRun(v0, v2, cat, id);
      ChainLinked(v0, cat, id);
      ChainDistinct(v0.fat, ch);
      DistinctCount(ch);
      DistinctCount(RunOf(ch));
      SubsetOfSameSize(Elems(ch), Elems(RunOf(ch)));
    }
  }

  /** The run meets no cluster that somebody else owns. */
  ghost predicate RunClear(cat: Cat, id: nat)
    requires id in cat.chains
  {
    forall c :: c in RunOf(cat.chains[id]) && c in cat.own ==> cat.own[c].id == id
  }

  /** The same owners, with other clusters lying spare. */
  function WithSpare(cat: Cat, spare: set<nat>): Cat { cat.(spare := spare) }

  /** What lies spare after a truncation: one to nothing leaks the clusters of the chain outside the run, and
      frees the spare ones inside it. */
  function SparesAfter(cat: Cat, id: nat, len: nat): set<nat>
    requires id in cat.chains
  {
    if len == 0 then cat.spare + Elems(cat.chains[id]) - Elems(RunOf(cat.chains[id])) else cat.spare
  }

  /** Freeing the run leaves every remaining cluster with its owner, for some set of spare clusters, if and only
      if the run meets nobody else's. */
  lemma ZeroTruncationHarms(v0: Vol, v2: Vol, cat: Cat, id: nat)
    requires ChainsOwned(v0, cat) && id in cat.chains && |v2.fat| == |v0.fat| && |v2.bits| == |v0.bits|
    requires Freed(v0, v2, Elems(RunOf(cat.chains[id])))
    ensures (exists s: set<nat> :: ChainsOwned(v2, WithSpare(cat.SetChain(id, []), s))) <==> RunClear(cat, id)
    ensures RunClear(cat, id) ==> ChainsOwned(v2, WithSpare(cat.SetChain(id, []), SparesAfter(cat, id, 0)))
  {
    hide ChainsOwned, SparesAfter, RunOf;
    if RunClear(cat, id) {
      ClearRunOwned(v0, v2, cat, id);
    }
    forall s: set<nat> | ChainsOwned(v2, WithSpare(cat.SetChain(id, []), s))
      ensures RunClear(cat, id)
    {
      OwnedRunClear(v0, v2, cat, id, s);
    }
  }

  lemma OwnedRunClear(v0: Vol, v2: Vol, cat: Cat, id: nat, s: set<nat>)
    requires ChainsOwned(v0, cat) && id in cat.chains && |v2.bits| == |v0.bits|
    requires Freed(v0, v2, Elems(RunOf(cat.chains[id]))) && ChainsOwned(v2, WithSpare(cat.SetChain(id, []), s))
    ensures RunClear(cat, id)
  {
    hide RunOf;
    forall c | c in RunOf(cat.chains[id]) && c in cat.own
      ensures cat.own[c].id == id
    {
      OwnedInRange(v0, cat, c);
      assert c in Elems(RunOf(cat.chains[id]));
      assert cat.own[c].id != id ==> c in cat.SetChain(id, []).own;
    }
  }

  lemma OwnedInRange(v: Vol, cat: Cat, c: nat)
    requires ChainsOwned(v, cat) && c in cat.own
    ensures 2 <= c < |v.bits| && v.bits[c]
  {
    var p := cat.own[c];
    assert IsChain(v.fat, cat.chains[p.id]) && cat.chains[p.id][p.at] == c;
  }

  lemma ClearRunOwned(v0: Vol, v2: Vol, cat: Cat, id: nat)
    requires ChainsOwned(v0, cat) && id in cat.chains && RunClear(cat, id)
    requires Freed(v0, v2, Elems(RunOf(cat.chains[id])))
    ensures ChainsOwned(v2, WithSpare(cat.SetChain(id, []), SparesAfter(cat, id, 0)))
  {
    var v1 := Tidied(v0, v2, cat, id, 0);
    ClearRunStep(v0, v2, cat, id);
    ClearRunBits(v0, v2, cat, id);
    hide ChainsOwned, Freed, Tidied, RunOf, SparesAfter, RunClear, ChainStep;
    SetChainOwned(v0, v1, cat, id);
    SparesMayDifferChains(v1, v2, cat.SetChain(id, []), SparesAfter(cat, id, 0));
  }

  lemma SetChainOwned(v0: Vol, v1: Vol, cat: Cat, id: nat)
    requires ChainsOwned(v0, cat) && ChainStep(v0, v1, cat, id, [])
    ensures ChainsOwned(v1, cat.SetChain(id, []))
  {
    SetChainKeepsOwnership(v0, v1, cat, id, []);
  }

  /** `v`, with the bits a truncation that freed exactly the clusters of `id` would have left. */
  function Tidied(v0: Vol, v: Vol, cat: Cat, id: nat, len: nat): Vol
  {
    if len == 0
    then v.(bits := seq(|v0.bits|, c requires 0 <= c < |v0.bits| => v0.bits[c] && !(c in cat.own && cat.own[c].id == id)))
    else v
  }

  lemma TidiedParts(v0: Vol, v: Vol, cat: Cat, id: nat, len: nat)
    ensures var v1 := Tidied(v0, v, cat, id, len); v1.fat == v.fat && v1.data == v.data
    ensures |v0.bits| == |v.bits| ==> |Tidied(v0, v, cat, id, len).bits| == |v.bits|
    ensures 0 < len ==> Tidied(v0, v, cat, id, len) == v
  {
  }

  lemma ClearRunStep(v0: Vol, v2: Vol, cat: Cat, id: nat)
    requires ChainsOwned(v0, cat) && id in cat.chains && RunClear(cat, id)
    requires Freed(v0, v2, Elems(RunOf(cat.chains[id])))
    ensures ChainStep(v0, Tidied(v0, v2, cat, id, 0), cat, id, [])
  {
    hide RunOf;
    assert forall c :: c in RunOf(cat.chains[id]) <==> c in Elems(RunOf(cat.chains[id]));
  }

  /** The bits after the run was freed: those of the remaining owners and the clusters then lying spare. */
  lemma ClearRunBits(v0: Vol, v2: Vol, cat: Cat, id: nat)
    requires ChainsOwned(v0, cat) && id in cat.chains && RunClear(cat, id) && |v2.bits| == |v0.bits|
    requires forall c :: 0 <= c < |v2.bits| ==> v2.bits[c] == (v0.bits[c] && c !in Elems(RunOf(cat.chains[id])))
    ensures var own := cat.SetChain(id, []).own;
      && SparesAfter(cat, id, 0) !! own.Keys
      && forall c :: 2 <= c < |v2.bits| ==> (v2.bits[c] <==> c in own || c in SparesAfter(cat, id, 0))
  {
    OwnedIsInChain(cat, id);
    hide RunOf, Linked;
    var ch, run := cat.chains[id], Elems(RunOf(cat.chains[id]));
    assert forall c :: c in RunOf(ch) <==> c in run;
    assert forall c :: c in ch <==> c in Elems(ch);
    forall c | 2 <= c < |v2.bits|
      ensures v2.bits[c] <==> c in cat.SetChain(id, []).own || c in SparesAfter(cat, id, 0)
    {
      assert v0.bits[c] <==> c in cat.own || c in cat.spare;
    }
  }

  /** A chain that occupies its run harms nobody and leaks nothing. */
  lemma OccupiedIsClear(v: Vol, cat: Cat, id: nat)
    requires ChainsOwned(v, cat) && id in cat.chains && OccupiesRun(cat.chains[id])
    ensures RunClear(cat, id) && forall len :: SparesAfter(cat, id, len) == cat.spare
  {
    hide RunOf, Linked;
    var ch := cat.chains[id];
    OwnedIsInChain(cat, id);
    assert forall c :: c in Elems(ch) <==> c in ch;
    assert forall c :: c in RunOf(ch) <==> c in Elems(RunOf(ch));
    SpareIsUnowned(cat);
  }

  lemma ZeroedIsInRun(v0: Vol, v2: Vol, cat: Cat, id: nat)
    requires ChainsOwned(v0, cat) && id in cat.chains && |v2.bits| == |v0.bits|
    requires Freed(v0, v2, Elems(RunOf(cat.chains[id]))) && BitsMatch(v2.bits, cat.SetChain(id, []))
    ensures Elems(cat.chains[id]) <= Elems(RunOf(cat.chains[id]))
  {
    hide RunOf;
    OwnedIsInChain(cat, id);
    NodeHeld(v0, cat, id);
    forall c | c in Elems(cat.chains[id])
      ensures c in Elems(RunOf(cat.chains[id]))
    {
      assert c in cat.chains[id] && c in cat.own && c !in cat.spare;
      assert c !in cat.SetChain(id, []).own;
      assert 2 <= c < |v0.bits| && v0.bits[c] && !v2.bits[c];
    }
  }

  lemma SubsetOfSameSize(a: set<nat>, b: set<nat>)
    requires a <= b && |a| == |b|
    ensures a == b
  {
    if a != b {
      assert a < b;
      var x :| x in b && x !in a;
      CardinalityMono(a, b - {x});
    }
  }

  // ---- One truncation, start to end ---------------------------------------------------------

  function TruncatedFlags(f: Facts, keep: nat): byte
  {
    if f.len == 0 then f.flags else if keep == 0 then 0 else 1
  }

  /** A completed truncation to `len`: the chain is cut, the set records it, nothing else in a directory and
      nothing in a file cluster changed, and what is left is the first `len` bytes. */
  ghost predicate TruncateDone(v0: Vol, v: Vol, cat: Cat, cb: nat, upcase: seq<u16>, id: nat, len: nat)
  {
    && 0 < cb && id in cat.nodes && id in cat.chains
    && var f0, ch := cat.nodes[id].facts, cat.chains[id];
    && DivCeil(len, cb) <= |ch|
    && var cut := ch[..DivCeil(len, cb)];
    && var f := FactsAfter(f0, cut, len, TruncatedFlags(f0, |cut|));
    && f.Recordable() && Updated(v0, v, cat, upcase, id, cut, f) && ChainSuits(cut, f, cb)
    && len <= |Content(v0, ch, f0.len)|
    && Content(v, cut, len) == Content(v0, ch, f0.len)[..len]
    && |v.data| == |v0.data|
    && (forall c :: 0 <= c < |v.data| && !cat.InDirectory(c) ==> v.data[c] == v0.data[c])
  }

  lemma CutContent(v: Vol, ch: seq<nat>, cb: nat, keep: nat, full: nat, len: nat)
    requires Sized(v.data, ch, cb) && keep <= |ch| && len <= keep * cb && len <= full <= |ch| * cb
    ensures full == |Content(v, ch, full)| && Content(v, ch[..keep], len) == Content(v, ch, full)[..len]
  {
    assert ch == ch[..keep] + ch[keep..];
    FlattenAppend(v.data, ch[..keep], ch[keep..]);
    ContentSize(v, ch, cb, full);
    ContentSize(v, ch[..keep], cb, len);
  }

  /** The clusters a truncation of `id` to `len` bytes relinks or frees. */
  function Disturbed(cat: Cat, id: nat, len: nat): set<nat>
    requires id in cat.chains
  {
    if len == 0 then Elems(RunOf(cat.chains[id])) else Elems(cat.chains[id])
  }

  /** Shrinking touches those clusters and the entry set. */
  function TruncatePrint(cat: Cat, id: nat, len: nat): Footprint
    requires id in cat.chains
  {
    ClustersOf(Disturbed(cat, id, len)).Join(SlotsOf(cat.SetOf(id)))
  }

  /** The cut itself: links and bits. */
  method CutChain(v: Volume, chain: seq<nat>, keep: nat) returns (r: Result<()>, ghost v1: Vol)
    requires v.Valid() && 0 < keep <= |chain| && forall i :: 0 <= i < |chain| ==> v.geo.InRange(chain[i])
    modifies v, v.disk
    ensures v.Valid() && old(v.trace) <= v.trace && r.Ok? && |old(v.vol).fat| == v.geo.clusterCount + 2
    ensures v1 == old(v.vol).WithFat(chain[keep - 1], END_OF_CHAIN)
    ensures Freed(v1, v.vol, Elems(chain[keep..]))
    ensures Through(old(v.vol), v.trace, |old(v.trace)|, ClustersOf(Elems(chain)))
    ensures Confined(old(v.vol), v.vol, ClustersOf(Elems(chain)))
  {
    hide Volume.Valid, Confined, Freed, Through, Elems, FreeSet;
    ghost var v0, t0, all := v.vol, |v.trace|, ClustersOf(Elems(chain));
    var _ := v.SetFat(chain[keep - 1], END_OF_CHAIN);
    v1 := v.vol;
    ghost var t1 := v.trace;
    r := FreeEach(v, chain[keep..]);
    CutConfined(v0, v1, v.vol, t0, t1, v.trace, chain, keep);
  }

  lemma CutConfined(v0: Vol, v1: Vol, v2: Vol, t0: nat, t1: seq<Vol>, t2: seq<Vol>, chain: seq<nat>, keep: nat)
    requires 0 < keep <= |chain| && chain[keep - 1] < |v0.fat|
    requires v1 == v0.WithFat(chain[keep - 1], END_OF_CHAIN) && Freed(v1, v2, Elems(chain[keep..]))
    requires |t1| == t0 + 1 && t1[t0] == v1 && t1 <= t2
    requires Through(v1, t2, |t1|, ClustersOf(Elems(chain[keep..])))
    ensures Through(v0, t2, t0, ClustersOf(Elems(chain))) && Confined(v0, v2, ClustersOf(Elems(chain)))
  {
    var all, rest := ClustersOf(Elems(chain)), ClustersOf(Elems(chain[keep..]));
    assert chain[keep - 1] in Elems(chain);
    assert Elems(chain[keep..]) <= Elems(chain);
    assert Confined(v0, v1, all);
    FreedConfined(v1, v2, Elems(chain[keep..]));
    hide Confined, Freed;
    ConfinedWider(v1, v2, rest, all);
    ConfinedChain(v0, v1, v2, all);
    assert t2[..|t1|] == t1;
    assert Through(v0, t1, t0, all);
    ThroughChain(v0, t1, t0, all, v1, t2, rest, all);
  }

  lemma TruncateReady(v: Volume, cat: Cat, upcase: seq<u16>, id: nat, entry: EntryLoc, len: nat)
    requires v.Valid() && IsFile(v, cat, upcase, id, entry) && len <= entry.dataLen
    ensures 0 < v.geo.ClusterBytes() && ChainsOwned(v.vol, cat) && id in cat.chains && id in cat.nodes
    ensures Consistent(v.vol, cat, v.geo, v.bm, upcase)
    ensures |cat.chains[id]| == DivCeil(entry.dataLen, v.geo.ClusterBytes()) && |cat.chains[id]| <= v.geo.clusterCount
    ensures DivCeil(len, v.geo.ClusterBytes()) <= |cat.chains[id]|
    ensures DivCeil(len, v.geo.ClusterBytes()) == 0 <==> len == 0
    ensures entry.dataLen == 0 <==> cat.chains[id] == []
    ensures cat.chains[id] != [] ==> entry.firstCluster == cat.chains[id][0] && 2 <= entry.firstCluster
    ensures DirAddrs(v, entry.offsets) && Distinct(entry.offsets) && 2 <= |entry.offsets|
    ensures cat.nodes[id].facts.Recordable() && SetOnDisk(v.vol, cat.nodes[id], upcase)
    ensures entry.dataLen == cat.nodes[id].facts.len && entry.offsets == cat.nodes[id].SetAddrs()
    ensures forall i :: 0 <= i < |cat.chains[id]| ==> v.geo.InRange(cat.chains[id][i])
    ensures Sized(v.vol.data, cat.chains[id], v.geo.ClusterBytes())
    ensures !cat.nodes[id].facts.isDir && |v.vol.fat| == |v.vol.bits| == v.geo.clusterCount + 2
    ensures forall i :: 0 <= i < |cat.chains[id]| ==> cat.chains[id][i] < |v.vol.fat|
  {
    hide Consistent, Volume.Valid, Distinct, DirAddrs, Encode, SetOnDisk;
    FileFacts(v, cat, upcase, id, entry);
    NodeFacts(v.vol, cat, v.geo, v.bm, upcase, id);
    NodeSlotsReady(v, cat, upcase, id);
    OwnerClusters(v, cat, upcase, id);
    ChainLinked(v.vol, cat, id);
    ChainDistinct(v.vol.fat, cat.chains[id]);
    SizedClusters(v, cat.chains[id]);
    v.Sizes();
    DivCeilMono(len, entry.dataLen, v.geo.ClusterBytes());
    DivCeilBounds(len, v.geo.ClusterBytes());
    DivCeilBounds(entry.dataLen, v.geo.ClusterBytes());
  }

  /** The slots of an entry set do not change while links and bits do. */
  lemma LinksLeaveSet(v0: Vol, v1: Vol, cat: Cat, upcase: seq<u16>, id: nat)
    requires v1.data == v0.data && id in cat.nodes && cat.nodes[id].facts.Recordable() && SetOnDisk(v0, cat.nodes[id], upcase)
    ensures SetOnDisk(v1, cat.nodes[id], upcase) && DirSlotsSame(v0, v1, cat, {})
    ensures SlotsAt(v1, cat.nodes[id].SetAddrs()) == Encode(cat.nodes[id].facts, upcase)
  {
    hide Encode;
    SetOnDiskSlots(v1, cat.nodes[id], upcase);
  }

  /** Links cut, bits cleared, set rewritten: the truncation is complete. */
  lemma TruncateCompletes(v0: Vol, v1: Vol, v2: Vol, cat: Cat, g: Geometry, bm: BitmapLoc, upcase: seq<u16>, id: nat, len: nat)
    requires Consistent(v0, cat, g, bm, upcase) && id in cat.nodes && id in cat.chains && !cat.nodes[id].facts.isDir
    requires 0 < g.ClusterBytes() && 0 < cat.nodes[id].facts.len && len <= cat.nodes[id].facts.len
    requires cat.nodes[id].facts.Recordable() && SetOnDisk(v0, cat.nodes[id], upcase) && v1.data == v0.data
    requires Sized(v0.data, cat.chains[id], g.ClusterBytes()) && DivCeil(len, g.ClusterBytes()) <= |cat.chains[id]|
    requires var cut := cat.chains[id][..DivCeil(len, g.ClusterBytes())];
      && ChainStep(v0, v1, cat, id, cut)
      && var f := FactsAfter(cat.nodes[id].facts, cut, len, TruncatedFlags(cat.nodes[id].facts, |cut|));
      SlotsWritten(v1, v2, cat.nodes[id].SetAddrs()[..2],
                   Rewritten(Encode(cat.nodes[id].facts, upcase), f.flags, f.len, f.first, f.len)[..2], 2)
    ensures TruncateDone(v0, v2, cat, g.ClusterBytes(), upcase, id, len)
  {
    var cb, f0, ch := g.ClusterBytes(), cat.nodes[id].facts, cat.chains[id];
    var cut := ch[..DivCeil(len, cb)];
    var f := FactsAfter(f0, cut, len, TruncatedFlags(f0, |cut|));
    LinksLeaveSet(v0, v1, cat, upcase, id);
    CutFacts(v0, cat, g, bm, upcase, id, len);
    TruncatedData(v0, v1, v2, cat, g, bm, upcase, id, len,
                  Rewritten(Encode(f0, upcase), f.flags, f.len, f.first, f.len)[..2]);
    PublishedUpdate(v0, v1, v1, v2, cat, upcase, id, cut, f);
    hide *;
    TruncateDoneIs(v0, v2, cat, cb, upcase, id, len, f);
  }

  lemma CutFacts(v: Vol, cat: Cat, g: Geometry, bm: BitmapLoc, upcase: seq<u16>, id: nat, len: nat)
    requires Consistent(v, cat, g, bm, upcase) && id in cat.nodes && id in cat.chains && !cat.nodes[id].facts.isDir
    requires 0 < g.ClusterBytes() && len <= cat.nodes[id].facts.len && cat.nodes[id].facts.Recordable()
    requires Sized(v.data, cat.chains[id], g.ClusterBytes()) && DivCeil(len, g.ClusterBytes()) <= |cat.chains[id]|
    ensures var f0, ch := cat.nodes[id].facts, cat.chains[id];
      var cut := ch[..DivCeil(len, g.ClusterBytes())];
      var f := FactsAfter(f0, cut, len, TruncatedFlags(f0, |cut|));
      && f.Recordable() && f.flags <= 1 && f.name == f0.name && f.isDir == f0.isDir && ChainSuits(cut, f, g.ClusterBytes())
      && len <= |Content(v, ch, f0.len)| && Content(v, cut, len) == Content(v, ch, f0.len)[..len]
  {
    NodeFacts(v, cat, g, bm, upcase, id);
    NodeChain(v, cat, g, bm, upcase, id);
    ChainLinked(v, cat, id);
    var f0, ch, cb := cat.nodes[id].facts, cat.chains[id], g.ClusterBytes();
    DivCeilBounds(len, cb);
    DivCeilBounds(f0.len, cb);
    hide Consistent, ChainsOwned, SetOnDisk, DivCeil, Content, Geometry.ClusterBytes;
    CutContent(v, ch, cb, DivCeil(len, cb), f0.len, len);
  }

  lemma TruncatedData(v0: Vol, v1: Vol, v2: Vol, cat: Cat, g: Geometry, bm: BitmapLoc, upcase: seq<u16>, id: nat, len: nat,
                      next: seq<seq<byte>>)
    requires Consistent(v0, cat, g, bm, upcase) && id in cat.nodes && id in cat.chains && !cat.nodes[id].facts.isDir
    requires v1.data == v0.data && 0 < g.ClusterBytes() && DivCeil(len, g.ClusterBytes()) <= |cat.chains[id]|
    requires |next| == 2 && SlotsWritten(v1, v2, cat.nodes[id].SetAddrs()[..2], next, 2)
    ensures |v2.data| == |v0.data| && forall c :: 0 <= c < |v2.data| && !cat.InDirectory(c) ==> v2.data[c] == v0.data[c]
    ensures var cut := cat.chains[id][..DivCeil(len, g.ClusterBytes())]; Content(v2, cut, len) == Content(v0, cut, len)
  {
    NodeFacts(v0, cat, g, bm, upcase, id);
    FileIsNoDirectory(cat, g, bm, id);
    var cut := cat.chains[id][..DivCeil(len, g.ClusterBytes())];
    OwnedIsInChain(cat, id);
    hide NodesOk, SlotsOwned, SystemOk, Linked, BitsMatch, SetOnDisk, Content, Geometry.ClusterBytes, Geometry.Per, Vol.Slot, DivCeil;
    var two := cat.nodes[id].SetAddrs()[..2];
    assert forall i :: 0 <= i < 2 ==> two[i].cluster == cat.nodes[id].cluster;
    assert forall c :: c in cut ==> c in cat.chains[id];
    ContentFrame(v0, v2, cut, len);
  }

  lemma TruncateDoneIs(v0: Vol, v: Vol, cat: Cat, cb: nat, upcase: seq<u16>, id: nat, len: nat, f: Facts)
    requires 0 < cb && id in cat.nodes && id in cat.chains && DivCeil(len, cb) <= |cat.chains[id]|
    requires f == FactsAfter(cat.nodes[id].facts, cat.chains[id][..DivCeil(len, cb)], len,
                             TruncatedFlags(cat.nodes[id].facts, |cat.chains[id][..DivCeil(len, cb)]|))
    requires f.Recordable() && Updated(v0, v, cat, upcase, id, cat.chains[id][..DivCeil(len, cb)], f)
    requires ChainSuits(cat.chains[id][..DivCeil(len, cb)], f, cb)
    requires len <= |Content(v0, cat.chains[id], cat.nodes[id].facts.len)|
    requires Content(v, cat.chains[id][..DivCeil(len, cb)], len) == Content(v0, cat.chains[id], cat.nodes[id].facts.len)[..len]
    requires |v.data| == |v0.data| && forall c :: 0 <= c < |v.data| && !cat.InDirectory(c) ==> v.data[c] == v0.data[c]
    ensures TruncateDone(v0, v, cat, cb, upcase, id, len)
  {
    hide Updated, ChainSuits, Content, DivCeil;
  }

  lemma FreeListKnown(fat: seq<nat>, first: nat, n: nat, total: nat, ch: seq<nat>)
    requires ch != [] && ch[0] == first && |ch| == n <= total
    ensures FreeList(fat, first, Some(n), total) == Ok(RunOf(ch))
  {
  }

  /** A run that a chain of the volume occupies lies in the bitmap. */
  lemma OccupiedInBitmap(v: Vol, cat: Cat, g: Geometry, bm: BitmapLoc, size: nat, id: nat)
    requires ChainsOwned(v, cat) && id in cat.chains && OccupiesRun(cat.chains[id])
    requires g.Fits(bm, size) && |v.bits| == g.clusterCount + 2
    ensures InBitmap(bm, RunOf(cat.chains[id]))
  {
    OccupiedOwned(v, cat, id);
    assert g.clusterCount <= 8 * bm.lengthBytes;
    hide *;
    EachInBitmap(bm, RunOf(cat.chains[id]), |v.bits|);
  }

  lemma EachInBitmap(bm: BitmapLoc, run: seq<nat>, bound: nat)
    requires bound <= 8 * bm.lengthBytes + 2 && forall i :: 0 <= i < |run| ==> 2 <= run[i] < bound
    ensures InBitmap(bm, run)
  {
  }

  lemma OccupiedOwned(v: Vol, cat: Cat, id: nat)
    requires ChainsOwned(v, cat) && id in cat.chains && OccupiesRun(cat.chains[id])
    ensures forall i :: 0 <= i < |RunOf(cat.chains[id])| ==> 2 <= RunOf(cat.chains[id])[i] < |v.bits|
  {
    OwnedIsInChain(cat, id);
    hide RunOf, Placed, Linked, BitsMatch;
    var ch, run := cat.chains[id], RunOf(cat.chains[id]);
    forall i | 0 <= i < |run|
      ensures 2 <= run[i] < |v.bits|
    {
      assert run[i] in Elems(run);
      assert run[i] in ch;
      OwnedInRange(v, cat, run[i]);
    }
  }

  /** Truncating to nothing: free the run, then record an empty file. */
  method ZeroEntry(v: Volume, upcase: seq<u16>, entry: EntryLoc, old_: nat, ghost cat: Cat, ghost id: nat) returns (r: Result<()>)
    requires v.Valid() && IsFile(v, cat, upcase, id, entry) && 0 < entry.dataLen
    requires 0 < v.geo.ClusterBytes() && old_ == DivCeil(entry.dataLen, v.geo.ClusterBytes())
    modifies v, v.disk
    ensures v.Valid() && old(v.trace) <= v.trace && id in cat.chains
    ensures r.Ok? <==> InBitmap(v.bm, RunOf(cat.chains[id]))
    ensures r.Ok? ==> LinksFreed(old(v.vol), v.vol, cat, id)
    ensures r.Ok? && RunClear(cat, id) ==>
      TruncateDone(old(v.vol), Tidied(old(v.vol), v.vol, cat, id, 0), cat, v.geo.ClusterBytes(), upcase, id, 0)
    ensures r.Err? ==> HeadFreed(v.vol, cat, id)
    ensures Through(old(v.vol), v.trace, |old(v.trace)|, TruncatePrint(cat, id, 0))
  {
    hide *;
    ghost var v0, t0 := v.vol, |v.trace|;
    TruncateReady(v, cat, upcase, id, entry, 0);
    FreeListKnown(v.vol.fat, entry.firstCluster, old_, v.geo.clusterCount, cat.chains[id]);
    v.Sizes();
    ghost var list := RunOf(cat.chains[id]);
    var freed := FreeChain(v, entry.firstCluster, Some(old_));
    ghost var v1, t1 := v.vol, v.trace;
    DisturbedIs(cat, id, 0);
    DisturbedPrint(v0, v.trace, t0, cat, id, 0);
    if freed.Err? {
      HeadFreedIs(v, cat, id);
      return freed;
    }
    FreedParts(v0, v1, Elems(list));
    LinksLeaveSet(v0, v1, cat, upcase, id);
    RewriteStream(v, entry, 0, 0, 0, 0);
    ghost var next := Rewritten(Encode(cat.nodes[id].facts, upcase), 0, 0, 0, 0);
    RewriteSameLinks(v1, v.vol, cat.nodes[id].SetAddrs()[..2], next[..2]);
    RewriteTail(v0, v1, t0, t1, v.trace, cat, id, 0, next);
    LinksFreedIs(v0, v1, v.vol, cat, id);
    if RunClear(cat, id) {
      ZeroCompletes(v0, v1, v.vol, cat, v.geo, v.bm, upcase, id);
    }
    return Ok(());
  }

  /** The links and bits are those of `v0` with the run freed. */
  ghost predicate LinksFreed(v0: Vol, v: Vol, cat: Cat, id: nat)
    requires id in cat.chains
  {
    Freed(v0, v.(data := v0.data), Elems(RunOf(cat.chains[id])))
  }

  lemma LinksFreedIs(v0: Vol, v1: Vol, v: Vol, cat: Cat, id: nat)
    requires id in cat.chains && Freed(v0, v1, Elems(RunOf(cat.chains[id]))) && v.fat == v1.fat && v.bits == v1.bits
    ensures LinksFreed(v0, v, cat, id)
  {
    assert v.(data := v0.data) == v1;
  }

  /** The file's first cluster is marked free. */
  ghost predicate HeadFreed(v: Vol, cat: Cat, id: nat)
    requires id in cat.chains
  {
    cat.chains[id] != [] && cat.chains[id][0] < |v.bits| && !v.bits[cat.chains[id][0]]
  }

  lemma HeadFreedIs(v: Volume, cat: Cat, id: nat)
    requires id in cat.chains && cat.chains[id] != [] && v.geo.InRange(cat.chains[id][0])
    requires |v.vol.bits| == v.geo.clusterCount + 2 && !v.vol.bits[cat.chains[id][0]]
    ensures HeadFreed(v.vol, cat, id)
  {
  }

  lemma ZeroCompletes(v0: Vol, v1: Vol, v2: Vol, cat: Cat, g: Geometry, bm: BitmapLoc, upcase: seq<u16>, id: nat)
    requires Consistent(v0, cat, g, bm, upcase) && id in cat.nodes && id in cat.chains && !cat.nodes[id].facts.isDir
    requires 0 < g.ClusterBytes() && 0 < cat.nodes[id].facts.len && cat.nodes[id].facts.Recordable()
    requires SetOnDisk(v0, cat.nodes[id], upcase) && Sized(v0.data, cat.chains[id], g.ClusterBytes())
    requires RunClear(cat, id) && Freed(v0, v1, Elems(RunOf(cat.chains[id])))
    requires SlotsWritten(v1, v2, cat.nodes[id].SetAddrs()[..2], Rewritten(Encode(cat.nodes[id].facts, upcase), 0, 0, 0, 0)[..2], 2)
    ensures TruncateDone(v0, Tidied(v0, v2, cat, id, 0), cat, g.ClusterBytes(), upcase, id, 0)
  {
    hide Consistent, RunClear, RunOf, Freed, Tidied, SlotsWritten, Sized, TruncateDone, Encode, Rewritten, SetOnDisk, ChainStep,
         DivCeil, Facts.Recordable, Geometry.ClusterBytes;
    ConsistentOwned(v0, cat, g, bm, upcase);
    ClearRunStep(v0, v1, cat, id);
    FreedParts(v0, v1, Elems(RunOf(cat.chains[id])));
    TidiedParts(v0, v1, cat, id, 0);
    TidiedWritten(v0, v1, v2, cat, id, cat.nodes[id].SetAddrs()[..2], Rewritten(Encode(cat.nodes[id].facts, upcase), 0, 0, 0, 0)[..2]);
    ZeroFacts(cat, id, g.ClusterBytes());
    TruncateCompletes(v0, Tidied(v0, v1, cat, id, 0), Tidied(v0, v2, cat, id, 0), cat, g, bm, upcase, id, 0);
  }

  lemma ConsistentOwned(v: Vol, cat: Cat, g: Geometry, bm: BitmapLoc, upcase: seq<u16>)
    requires Consistent(v, cat, g, bm, upcase)
    ensures ChainsOwned(v, cat)
  {
  }

  lemma TidiedWritten(v0: Vol, v1: Vol, v2: Vol, cat: Cat, id: nat, addrs: seq<SlotAddr>, slots: seq<seq<byte>>)
    requires |addrs| == |slots| == 2 && SlotsWritten(v1, v2, addrs, slots, 2)
    ensures SlotsWritten(Tidied(v0, v1, cat, id, 0), Tidied(v0, v2, cat, id, 0), addrs, slots, 2)
  {
    var w1, w2 := Tidied(v0, v1, cat, id, 0), Tidied(v0, v2, cat, id, 0);
    assert forall a: SlotAddr :: w1.Slot(a) == v1.Slot(a) && w2.Slot(a) == v2.Slot(a);
    hide Vol.Slot;
  }

  lemma FreedParts(v0: Vol, v1: Vol, cs: set<nat>)
    requires Freed(v0, v1, cs)
    ensures v1.data == v0.data && |v1.fat| == |v0.fat| && |v1.bits| == |v0.bits| && Confined(v0, v1, ClustersOf(cs))
  {
  }

  lemma RewriteSameLinks(v1: Vol, v2: Vol, addrs: seq<SlotAddr>, slots: seq<seq<byte>>)
    requires |addrs| == |slots| && SlotsWritten(v1, v2, addrs, slots, |addrs|)
    ensures v2.fat == v1.fat && v2.bits == v1.bits
  {
  }

  lemma DisturbedPrint(v0: Vol, trace: seq<Vol>, from: nat, cat: Cat, id: nat, len: nat)
    requires id in cat.chains && Through(v0, trace, from, ClustersOf(Disturbed(cat, id, len)))
    ensures Through(v0, trace, from, TruncatePrint(cat, id, len))
  {
    hide Disturbed, Through, Cat.SetOf;
    ThroughWider(v0, trace, from, ClustersOf(Disturbed(cat, id, len)), TruncatePrint(cat, id, len));
  }

  lemma DisturbedIs(cat: Cat, id: nat, len: nat)
    requires id in cat.chains
    ensures Disturbed(cat, id, len) == if len == 0 then Elems(RunOf(cat.chains[id])) else Elems(cat.chains[id])
  {
  }

  lemma ZeroFacts(cat: Cat, id: nat, cb: nat)
    requires 0 < cb && id in cat.nodes && id in cat.chains && 0 < cat.nodes[id].facts.len
    ensures DivCeil(0, cb) == 0 && cat.chains[id][..0] == []
    ensures var f := FactsAfter(cat.nodes[id].facts, [], 0, TruncatedFlags(cat.nodes[id].facts, 0));
      f.flags == 0 && f.len == 0 && f.first == 0
  {
    DivCeilBounds(0, cb);
  }

  /** The two writes of the rewrite stay inside the footprint. */
  lemma RewriteTail(v0: Vol, v1: Vol, from: nat, t1: seq<Vol>, t2: seq<Vol>, cat: Cat, id: nat, len: nat, next: seq<seq<byte>>)
    requires id in cat.chains && id in cat.nodes && |next| >= 2 && from <= |t1| && t1 <= t2 && |t2| == |t1| + 2
    requires Through(v0, t1, from, TruncatePrint(cat, id, len)) && Confined(v0, v1, ClustersOf(Disturbed(cat, id, len)))
    requires SlotsWritten(v1, t2[|t1|], cat.nodes[id].SetAddrs()[..2], next[..2], 1)
    requires SlotsWritten(v1, t2[|t1| + 1], cat.nodes[id].SetAddrs()[..2], next[..2], 2)
    ensures Through(v0, t2, from, TruncatePrint(cat, id, len))
  {
    hide Confined, SlotsWritten, Disturbed;
    var two, f := cat.nodes[id].SetAddrs()[..2], TruncatePrint(cat, id, len);
    var s := SlotsOf(Elems(two));
    SlotsWrittenConfined(v1, t2[|t1|], two, next[..2], 1);
    SlotsWrittenConfined(v1, t2[|t1| + 1], two, next[..2], 2);
    assert Through(v1, t2, |t1|, s);
    assert Elems(two) <= cat.SetOf(id);
    ConfinedWider(v0, v1, ClustersOf(Disturbed(cat, id, len)), f);
    ThroughChain(v0, t1, from, f, v1, t2, s, f);
  }

  /** Shrinking to `keep` clusters: end the chain there, free the rest, then record the new length. */
  method ShrinkEntry(v: Volume, upcase: seq<u16>, entry: EntryLoc, chain: seq<nat>, len: nat, ghost cat: Cat, ghost id: nat)
    returns (r: Result<()>)
    requires v.Valid() && IsFile(v, cat, upcase, id, entry) && 0 < len <= entry.dataLen
    requires id in cat.chains && chain == cat.chains[id] && 0 < v.geo.ClusterBytes()
    modifies v, v.disk
    ensures v.Valid() && old(v.trace) <= v.trace && r.Ok?
    ensures TruncateDone(old(v.vol), v.vol, cat, v.geo.ClusterBytes(), upcase, id, len)
    ensures Through(old(v.vol), v.trace, |old(v.trace)|, TruncatePrint(cat, id, len))
  {
    hide *;
    ghost var v0, t0 := v.vol, |v.trace|;
    TruncateReady(v, cat, upcase, id, entry, len);
    v.Sizes();
    var keep := DivCeil(len, v.geo.ClusterBytes());
    ghost var v1;
    r, v1 := CutChain(v, chain, keep);
    ghost var v2, t2 := v.vol, v.trace;
    CutStep(v0, v1, v2, cat, id, keep);
    FreedParts(v1, v2, Elems(chain[keep..]));
    WordOnly(v0, v1, chain[keep - 1]);
    DisturbedIs(cat, id, len);
    DisturbedPrint(v0, v.trace, t0, cat, id, len);
    LinksLeaveSet(v0, v2, cat, upcase, id);
    RewriteStream(v, entry, entry.firstCluster, len, len, 1);
    ghost var next := Rewritten(Encode(cat.nodes[id].facts, upcase), 1, len, entry.firstCluster, len);
    RewriteTail(v0, v2, t0, t2, v.trace, cat, id, len, next);
    ShrunkFacts(cat, id, v.geo.ClusterBytes(), len);
    TruncateCompletes(v0, v2, v.vol, cat, v.geo, v.bm, upcase, id, len);
    return Ok(());
  }

  lemma WordOnly(v0: Vol, v1: Vol, c: nat)
    requires c < |v0.fat| && v1 == v0.WithFat(c, END_OF_CHAIN)
    ensures v1.data == v0.data
  {
  }

  lemma ShrunkFacts(cat: Cat, id: nat, cb: nat, len: nat)
    requires 0 < cb && id in cat.nodes && id in cat.chains && 0 < cat.nodes[id].facts.len
    requires 0 < DivCeil(len, cb) <= |cat.chains[id]|
    ensures var cut := cat.chains[id][..DivCeil(len, cb)];
      var f := FactsAfter(cat.nodes[id].facts, cut, len, TruncatedFlags(cat.nodes[id].facts, |cut|));
      f.flags == 1 && f.len == len && f.first == cat.chains[id][0]
  {
    hide DivCeil;
  }

  /** A file without clusters has nothing to shrink: the only length asked of it is the one it has. */
  lemma NothingToShrink(v: Volume, cat: Cat, upcase: seq<u16>, id: nat, entry: EntryLoc)
    requires v.Valid() && IsFile(v, cat, upcase, id, entry) && entry.dataLen == 0
    ensures TruncateDone(v.vol, v.vol, cat, v.geo.ClusterBytes(), upcase, id, 0)
  {
    TruncateReady(v, cat, upcase, id, entry, 0);
    CutFacts(v.vol, cat, v.geo, v.bm, upcase, id, 0);
    NodeChain(v.vol, cat, v.geo, v.bm, upcase, id);
    var f := cat.nodes[id].facts;
    hide Volume.Valid, Consistent, SetOnDisk, DivCeil, Content, ChainSuits;
    SameChainStep(v.vol, cat, id);
    assert cat.chains[id][..0] == cat.chains[id];
    assert cat.nodes[id].(facts := f) == cat.nodes[id];
    assert FactsAfter(f, [], 0, f.flags) == f;
  }

  lemma SameChainStep(v: Vol, cat: Cat, id: nat)
    requires ChainsOwned(v, cat) && id in cat.chains
    ensures ChainStep(v, v, cat, id, cat.chains[id])
  {
    GrownByNothing(v, cat, id);
  }

  /** Truncate a file to at most its length. One to nothing frees the run: it fails when the run leaves the bitmap,
      with part of the run freed, and is complete, up to the clusters left spare, when the run meets nobody else's. */
  method TruncateEntry(v: Volume, upcase: seq<u16>, entry: EntryLoc, len: nat, ghost cat: Cat, ghost id: nat) returns (r: Result<()>)
    requires v.Valid() && IsFile(v, cat, upcase, id, entry) && len <= entry.dataLen
    modifies v, v.disk
    ensures v.Valid() && old(v.trace) <= v.trace && id in cat.chains
    ensures r.Ok? <==> 0 < len || InBitmap(v.bm, RunOf(cat.chains[id]))
    ensures r.Ok? && (0 < len || RunClear(cat, id)) ==>
      TruncateDone(old(v.vol), Tidied(old(v.vol), v.vol, cat, id, len), cat, v.geo.ClusterBytes(), upcase, id, len)
    ensures len == 0 && r.Ok? ==> LinksFreed(old(v.vol), v.vol, cat, id)
    ensures r.Err? ==> HeadFreed(v.vol, cat, id)
    ensures Through(old(v.vol), v.trace, |old(v.trace)|, TruncatePrint(cat, id, len))
  {
    hide *;
    TruncateReady(v, cat, upcase, id, entry, len);
    var cb := v.geo.ClusterBytes();
    var keep, old_ := DivCeil(len, cb), DivCeil(entry.dataLen, cb);
    if old_ > 0 {
      var chain := ReadKnownChain(v, entry, old_, cat, id);
      if keep == 0 {
        r := ZeroEntry(v, upcase, entry, old_, cat, id);
      } else {
        ghost var v0 := v.vol;
        r := ShrinkEntry(v, upcase, entry, chain, len, cat, id);
        TidiedParts(v0, v.vol, cat, id, len);
      }
      return;
    }
    NothingToShrink(v, cat, upcase, id, entry);
    EmptyRun(v.vol, v.bm, cat, id);
    ThroughNothing(v.vol, v.trace, TruncatePrint(cat, id, len));
    return Ok(());
  }

  lemma EmptyRun(v: Vol, bm: BitmapLoc, cat: Cat, id: nat)
    requires ChainsOwned(v, cat) && id in cat.chains && cat.chains[id] == []
    ensures InBitmap(bm, RunOf(cat.chains[id])) && LinksFreed(v, v, cat, id)
    ensures Tidied(v, v, cat, id, 0) == v
  {
    NothingOwned(cat, id);
    assert Elems(RunOf(cat.chains[id])) == {};
    FreedNothing(v);
    assert v.(data := v.data) == v;
    assert Tidied(v, v, cat, id, 0).bits == v.bits;
  }
}
