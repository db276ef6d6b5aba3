/** Cluster allocation: the allocation bitmap and FAT chain maintenance (sections 7.1 and 4). */
module Alloc {
  import opened Bytes
  import opened Fats
  import opened Footprints
  import opened Geometries
  import opened Volumes

  /** The clusters whose allocation bit is clear. */
  function FreeSet(v: Vol): set<nat> { set c: nat | 2 <= c < |v.bits| && !v.bits[c] }

  /** The `i`-th cluster probed from `hint`, wrapping at the last cluster. */
  function Probe(hint: nat, i: nat, total: nat): nat
    requires 2 <= hint && 0 < total
  {
    2 + (hint - 2 + i) % total
  }

  lemma ProbeHitsAll(hint: nat, total: nat, c: nat) returns (i: nat)
    requires 2 <= hint && 2 <= c < total + 2
    ensures i < total && Probe(hint, i, total) == c
  {
    var h := (hint - 2) % total;
    var q := (hint - 2) / total;
    DivMod(hint - 2, total);
    i := if h <= c - 2 then c - 2 - h else c - 2 - h + total;
    if h <= c - 2 {
      assert hint - 2 + i == q * total + (c - 2);
      DivModUnique(q, total, c - 2);
    } else {
      assert hint - 2 + i == (q + 1) * total + (c - 2);
      DivModUnique(q + 1, total, c - 2);
    }
  }

  lemma ProbeInRange(hint: nat, i: nat, total: nat)
    requires 2 <= hint && 0 < total
    ensures 2 <= Probe(hint, i, total) < total + 2
  {
    DivMod(hint - 2 + i, total);
  }

  /** `c` comes first among the free clusters when one counts up from `start` and goes on at cluster 2 after the last. */
  ghost predicate FirstFreeFrom(v: Vol, start: nat, c: nat)
  {
    && c in FreeSet(v)
    && forall c' :: c' in FreeSet(v) ==> if start <= c then c' < start || c <= c' else c' < start && c <= c'
  }

  lemma ProbeFrom(hint: nat, i: nat, total: nat)
    requires 2 <= hint && i < total
    ensures var start := 2 + (hint - 2) % total;
      Probe(hint, i, total) == if start + i < total + 2 then start + i else start + i - total
  {
    var h, q := (hint - 2) % total, (hint - 2) / total;
    DivMod(hint - 2, total);
    if h + i < total {
      assert hint - 2 + i == q * total + (h + i);
      DivModUnique(q, total, h + i);
    } else {
      assert hint - 2 + i == (q + 1) * total + (h + i - total);
      DivModUnique(q + 1, total, h + i - total);
    }
  }

  lemma ProbedFirst(v: Vol, hint: nat, i: nat, total: nat)
    requires 2 <= hint && i < total && |v.bits| == total + 2 && Probe(hint, i, total) in FreeSet(v)
    requires forall j: nat :: j < i ==> Probe(hint, j, total) !in FreeSet(v)
    ensures FirstFreeFrom(v, 2 + (hint - 2) % total, Probe(hint, i, total))
  {
    hide Probe;
    var start, c := 2 + (hint - 2) % total, Probe(hint, i, total);
    ProbeFrom(hint, i, total);
    DivMod(hint - 2, total);
    forall c' | c' in FreeSet(v)
      ensures if start <= c then c' < start || c <= c' else c' < start && c <= c'
    {
      var j: nat := if start <= c' then c' - start else c' - start + total;
      ProbeFrom(hint, j, total);
      assert Probe(hint, j, total) == c';
    }
  }

  /** Find the first free cluster at or after `hint`, wrapping once. It fails exactly when every cluster is
      allocated. */
  method FindFree(v: Volume, hint: nat) returns (r: Result<nat>)
    requires v.Valid() && 2 <= hint
    ensures |v.vol.bits| == v.geo.clusterCount + 2
    ensures r.Err? <==> FreeSet(v.vol) == {}
    ensures r.Ok? ==> r.value in FreeSet(v.vol)
    ensures r.Ok? ==> 0 < v.geo.clusterCount && exists i: nat ::
      && r.value == Probe(hint, i, v.geo.clusterCount)
      && forall j: nat :: j < i ==> Probe(hint, j, v.geo.clusterCount) !in FreeSet(v.vol)
    ensures r.Ok? ==> FirstFreeFrom(v.vol, 2 + (hint - 2) % v.geo.clusterCount, r.value)
  {
    hide Volume.Valid, Probe, FirstFreeFrom;
    v.Sizes();
    var total := v.geo.clusterCount;
    var i := 0;
    var c := 0;
    while i < total
      invariant i <= total
      invariant forall j: nat :: j < i ==> Probe(hint, j, total) !in FreeSet(v.vol)
    {
      c := Probe(hint, i, total);
      ProbeInRange(hint, i, total);
      var used :- v.IsAllocated(c);
      if !used {
        ProbedFirst(v.vol, hint, i, total);
        return Ok(c);
      }
      i := i + 1;
    }
    forall c | c in FreeSet(v.vol)
      ensures false
    {
      var k := ProbeHitsAll(hint, total, c);
    }
    return Err(Invalid("no free clusters"));
  }

  // ---- Allocating ----------------------------------------------------------------------

  /** `v` is `v0` with the clusters of `cs` allocated. */
  ghost predicate Marked(v0: Vol, v: Vol, cs: set<nat>)
  {
    && v.fat == v0.fat && v.data == v0.data && |v.bits| == |v0.bits|
    && forall c :: 0 <= c < |v.bits| ==> v.bits[c] == (v0.bits[c] || c in cs)
  }

  /** `v` is `v0` except in the FAT words of `cs`. */
  ghost predicate Relinked(v0: Vol, v: Vol, cs: set<nat>)
  {
    && v.bits == v0.bits && v.data == v0.data && |v.fat| == |v0.fat|
    && forall c :: 0 <= c < |v.fat| && c !in cs ==> v.fat[c] == v0.fat[c]
  }

  lemma MarkedFree(v0: Vol, v: Vol, cs: set<nat>)
    requires Marked(v0, v, cs)
    ensures FreeSet(v) == FreeSet(v0) - cs
    ensures Confined(v0, v, ClustersOf(cs))
  {
  }

  lemma MarkedNothing(v0: Vol)
    ensures Marked(v0, v0, {})
  {
  }

  lemma MarkOneMore(v0: Vol, v: Vol, cs: set<nat>, c: nat)
    requires Marked(v0, v, cs) && c < |v.bits|
    ensures Marked(v0, v.WithBit(c, true), cs + {c})
  {
  }

  lemma {:induction false} CardinalityMono<T>(a: set<T>, b: set<T>)
    requires a <= b
    ensures |a| <= |b|
    decreases a
  {
    if a != {} {
      var x :| x in a;
      CardinalityMono(a - {x}, b - {x});
    }
  }

  /** Set the bits of `count` free clusters, the first ones a wrapping search meets. Running out leaves
      every cluster of the volume marked. */
  method TakeClusters(v: Volume, count: nat) returns (r: Result<seq<nat>>)
    requires v.Valid()
    modifies v, v.disk
    ensures v.Valid() && old(v.trace) <= v.trace
    ensures r.Ok? <==> count <= |FreeSet(old(v.vol))|
    ensures r.Ok? ==> |r.value| == count && Distinct(r.value) && Elems(r.value) <= FreeSet(old(v.vol))
    ensures r.Ok? ==> Marked(old(v.vol), v.vol, Elems(r.value))
    ensures r.Err? ==> Marked(old(v.vol), v.vol, FreeSet(old(v.vol)))
    ensures Through(old(v.vol), v.trace, |old(v.trace)|, ClustersOf(FreeSet(old(v.vol))))
  {
    hide Volume.Valid, Marked, Confined;
    ghost var v0, free := v.vol, FreeSet(v.vol);
    var chain, hint := [], 2;
    MarkedNothing(v0);
    assert Elems(chain) == {};
    v.Sizes();
    for i := 0 to count
      invariant v.Valid() && old(v.trace) <= v.trace
      invariant |chain| == i && Distinct(chain) && Elems(chain) <= free
      invariant Marked(v0, v.vol, Elems(chain))
      invariant Through(v0, v.trace, |old(v.trace)|, ClustersOf(free))
      invariant 2 <= hint
    {
      MarkedFree(v0, v.vol, Elems(chain));
      DistinctCount(chain);
      var found := FindFree(v, hint);
      if found.Err? {
        assert Elems(chain) == free;
        return Err(found.error);
      }
      var c := found.value;
      ghost var v1, cs := v.vol, Elems(chain);
      assert c in free - cs;
      var _ := v.SetBit(c, true);
      MarkOneMore(v0, v1, cs, c);
      MarkedFree(v0, v.vol, cs + {c});
      ConfinedWider(v0, v.vol, ClustersOf(cs + {c}), ClustersOf(free));
      chain := chain + [c];
      assert Elems(chain) == cs + {c};
      hint := c + 1;
    }
    DistinctCount(chain);
    CardinalityMono(Elems(chain), free);
    return Ok(chain);
  }

  lemma RelinkedConfined(v0: Vol, v: Vol, cs: set<nat>)
    requires Relinked(v0, v, cs)
    ensures Confined(v0, v, WordsOf(cs))
  {
  }

  /** Link the clusters of `chain` in order and end the chain after the last. */
  method LinkChain(v: Volume, chain: seq<nat>)
    requires v.Valid() && Distinct(chain)
    requires forall i :: 0 <= i < |chain| ==> v.geo.InRange(chain[i])
    modifies v, v.disk
    ensures v.Valid() && old(v.trace) <= v.trace
    ensures IsChain(v.vol.fat, chain)
    ensures Relinked(old(v.vol), v.vol, Elems(chain))
    ensures Through(old(v.vol), v.trace, |old(v.trace)|, WordsOf(Elems(chain)))
  {
    hide Volume.Valid, Confined;
    v.Sizes();
    if chain == [] {
      return;
    }
    ghost var v0, cs := v.vol, Elems(chain);
    for i := 0 to |chain|
      invariant v.Valid() && old(v.trace) <= v.trace
      invariant Relinked(v0, v.vol, cs)
      invariant forall j :: 0 <= j < i && j + 1 < |chain| ==> v.vol.fat[chain[j]] == chain[j + 1]
      invariant i == |chain| ==> v.vol.fat[chain[i - 1]] == END_OF_CHAIN
      invariant Through(v0, v.trace, |old(v.trace)|, WordsOf(cs))
    {
      var _ := v.SetFat(chain[i], if i + 1 < |chain| then chain[i + 1] else END_OF_CHAIN);
      RelinkedConfined(v0, v.vol, cs);
    }
  }

  /** What a successful allocation of `chain` makes of `v0`. */
  ghost predicate Allocated(v0: Vol, v: Vol, chain: seq<nat>)
  {
    && v.data == v0.data && |v.bits| == |v0.bits| && |v.fat| == |v0.fat|
    && Distinct(chain) && Elems(chain) <= FreeSet(v0)
    && IsChain(v.fat, chain)
    && (forall c :: 0 <= c < |v.bits| ==> v.bits[c] == (v0.bits[c] || c in chain))
    && (forall c :: 0 <= c < |v.fat| && c !in chain ==> v.fat[c] == v0.fat[c])
  }

  /** Allocate `count` clusters as a FAT chain. It succeeds exactly when that many are free. Every write on
      the way leaves the bits, links and contents of allocated clusters alone. When it fails no link has
      changed, but every free cluster of the volume has been marked allocated. */
  method AllocChain(v: Volume, count: nat) returns (r: Result<seq<nat>>)
    requires v.Valid()
    modifies v, v.disk
    ensures v.Valid() && old(v.trace) <= v.trace
    ensures r.Ok? <==> count <= |FreeSet(old(v.vol))|
    ensures r.Ok? ==> |r.value| == count && Allocated(old(v.vol), v.vol, r.value)
    ensures r.Err? ==> Marked(old(v.vol), v.vol, FreeSet(old(v.vol)))
    ensures Through(old(v.vol), v.trace, |old(v.trace)|, ClustersOf(FreeSet(old(v.vol))))
  {
    hide Volume.Valid, Confined;
    v.Sizes();
    ghost var v0, t0, f := v.vol, |v.trace|, ClustersOf(FreeSet(v.vol));
    var chain :- TakeClusters(v, count);
    ghost var v1, t1, g := v.vol, v.trace, WordsOf(Elems(chain));
    assert forall c :: c in chain <==> c in Elems(chain);
    assert forall i :: 0 <= i < |chain| ==> chain[i] in FreeSet(v0);
    LinkChain(v, chain);
    MarkedFree(v0, v1, Elems(chain));
    ThroughChain(v0, t1, t0, f, v1, v.trace, g, f) by {
      ConfinedWider(v0, v1, ClustersOf(Elems(chain)), f);
    }
    return Ok(chain);
  }

  /** Append `count` clusters to the chain that ends in `tail`. */
  method ExtendChain(v: Volume, tail: nat, count: nat) returns (r: Result<seq<nat>>)
    requires v.Valid() && v.geo.InRange(tail)
    modifies v, v.disk
    ensures v.Valid() && old(v.trace) <= v.trace
    ensures r.Ok? <==> count <= |FreeSet(old(v.vol))|
    ensures |old(v.vol).bits| == v.geo.clusterCount + 2
    ensures r.Ok? && old(v.vol).bits[tail] ==> |r.value| == count && Extended(old(v.vol), v.vol, tail, r.value)
    ensures r.Err? ==> Marked(old(v.vol), v.vol, FreeSet(old(v.vol)))
    ensures Through(old(v.vol), v.trace, |old(v.trace)|, Footprint(FreeSet(old(v.vol)) + {tail}, FreeSet(old(v.vol)), {}, {}))
  {
    hide Volume.Valid, Confined;
    v.Sizes();
    ghost var v0, t0, free := v.vol, |v.trace|, FreeSet(v.vol);
    ghost var f := Footprint(free + {tail}, free, {}, {});
    var chain := AllocChain(v, count);
    ThroughWider(v0, v.trace, t0, ClustersOf(free), f);
    if chain.Err? {
      return chain;
    }
    ghost var v1, t1 := v.vol, v.trace;
    if chain.value != [] {
      v.Sizes();
      AllocatedConfined(v0, v1, chain.value);
      var _ := v.SetFat(tail, chain.value[0]);
      RelinkedConfined(v1, v.vol, {tail});
      assert Through(v1, v.trace, |t1|, WordsOf({tail}));
      ThroughChain(v0, t1, t0, ClustersOf(free), v1, v.trace, WordsOf({tail}), f);
    }
    return chain;
  }

  /** What appending `added` behind `tail` makes of `v0`. */
  ghost predicate Extended(v0: Vol, v: Vol, tail: nat, added: seq<nat>)
  {
    && v.data == v0.data && |v.bits| == |v0.bits| && |v.fat| == |v0.fat|
    && Distinct(added) && Elems(added) <= FreeSet(v0) && tail !in added
    && IsChain(v.fat, added)
    && (forall c :: 0 <= c < |v.bits| ==> v.bits[c] == (v0.bits[c] || c in added))
    && (forall c :: 0 <= c < |v.fat| && c !in added && c != tail ==> v.fat[c] == v0.fat[c])
    && (tail < |v.fat| ==> v.fat[tail] == if added == [] then v0.fat[tail] else added[0])
  }

  lemma AllocatedConfined(v0: Vol, v: Vol, chain: seq<nat>)
    requires Allocated(v0, v, chain)
    ensures Confined(v0, v, ClustersOf(FreeSet(v0)))
  {
  }

  lemma ExtendedConfined(v0: Vol, v: Vol, tail: nat, added: seq<nat>)
    requires Extended(v0, v, tail, added)
    ensures Confined(v0, v, Footprint(FreeSet(v0) + {tail}, FreeSet(v0), {}, {}))
  {
  }

  // ---- Freeing -------------------------------------------------------------------------

  /** The clusters a free without a known length visits, with room for `room` of them. Unlike a read it
      also stops, without complaint, at a word that is no cluster number. */
  function FreeWalk(fat: seq<nat>, cur: nat, room: nat): Result<seq<nat>>
    decreases room
  {
    if room == 0 then Err(Invalid("free: chain loop"))
    else if !(2 <= cur < |fat|) then Err(Invalid("FAT index out of range"))
    else if 2 <= fat[cur] < |fat| then Prepend([cur], FreeWalk(fat, fat[cur], room - 1))
    else Ok([cur])
  }

  lemma {:induction false} FreeWalkOfChain(fat: seq<nat>, ch: seq<nat>, room: nat)
    requires |fat| <= BAD_CLUSTER && IsChain(fat, ch) && ch != [] && |ch| <= room
    ensures FreeWalk(fat, ch[0], room) == Ok(ch)
    decreases room
  {
    OneClusterChain(fat, ch);
    if |ch| == 1 {
      assert ch == [ch[0]];
    } else {
      ChainTail(fat, ch);
      assert ch[1..][0] == fat[ch[0]];
      FreeWalkOfChain(fat, ch[1..], room - 1);
      assert ch == [ch[0]] + ch[1..];
    }
  }

  method WalkToFree(v: Volume, first: nat) returns (r: Result<seq<nat>>)
    requires v.Valid()
    ensures r == FreeWalk(v.vol.fat, first, v.geo.clusterCount)
  {
    hide Volume.Valid;
    v.Sizes();
    var out: seq<nat>, cur: nat, cap: nat := [], first, v.geo.clusterCount;
    PrependNothing([], FreeWalk(v.vol.fat, cur, cap));
    while true
      invariant |out| <= cap
      invariant Prepend(out, FreeWalk(v.vol.fat, cur, cap - |out|)) == FreeWalk(v.vol.fat, first, cap)
      decreases cap - |out|
    {
      ghost var before := out;
      out := out + [cur];
      if |out| > cap {
        return Err(Invalid("free: chain loop"));
      }
      var next :- v.FatEntry(cur);
      if 2 <= next < v.geo.clusterCount + 2 {
        PrependTwice(before, [cur], FreeWalk(v.vol.fat, next, cap - |out|));
        cur := next;
      } else {
        return Ok(out);
      }
    }
  }

  /** `v` is `v0` with the clusters of `cs` free and unlinked. */
  ghost predicate Freed(v0: Vol, v: Vol, cs: set<nat>)
  {
    && v.data == v0.data && |v.bits| == |v0.bits| && |v.fat| == |v0.fat|
    && (forall c :: 0 <= c < |v.bits| ==> v.bits[c] == (v0.bits[c] && c !in cs))
    && (forall c :: 0 <= c < |v.fat| ==> v.fat[c] == if c in cs then 0 else v0.fat[c])
  }

  lemma FreedConfined(v0: Vol, v: Vol, cs: set<nat>)
    requires Freed(v0, v, cs)
    ensures Confined(v0, v, ClustersOf(cs))
  {
  }

  lemma FreeOneMore(v0: Vol, v1: Vol, cs: set<nat>, c: nat, v2: Vol, v3: Vol)
    requires Freed(v0, v1, cs) && |v0.bits| == |v0.fat|
    requires v2 == v1.WithBit(c, false)
    requires v3 == if c < |v2.fat| then v2.WithFat(c, 0) else v2
    ensures Freed(v0, v3, cs + {c})
    ensures Confined(v0, v2, ClustersOf(cs + {c}))
  {
  }

  /** Clear the bit and the FAT word of each cluster in `list`. The writes stop at the first cluster the
      bitmap has no bit for. */
  method ClearClusters(v: Volume, list: seq<nat>) returns (r: Result<()>)
    requires v.Valid() && forall i :: 0 <= i < |list| ==> 2 <= list[i]
    modifies v, v.disk
    ensures v.Valid() && old(v.trace) <= v.trace
    ensures (forall i :: 0 <= i < |list| ==> v.geo.InRange(list[i])) ==> r.Ok?
    ensures r.Ok? <==> InBitmap(v.bm, list)
    ensures r.Ok? ==> Freed(old(v.vol), v.vol, Elems(list))
    ensures r.Err? && v.geo.InRange(list[0]) ==> |v.vol.bits| == v.geo.clusterCount + 2 && !v.vol.bits[list[0]]
    ensures Through(old(v.vol), v.trace, |old(v.trace)|, ClustersOf(Elems(list)))
  {
    hide Volume.Valid, Confined, Freed, InBitmap, Elems;
    v.Sizes();
    ghost var v0, all := v.vol, ClustersOf(Elems(list));
    FreedNothing(v0);
    NothingListed(v.bm, list);
    for i := 0 to |list|
      invariant v.Valid() && old(v.trace) <= v.trace && |v.vol.fat| == |v.vol.bits| == v.geo.clusterCount + 2
      invariant Freed(v0, v.vol, Elems(list[..i]))
      invariant InBitmap(v.bm, list[..i])
      invariant Through(v0, v.trace, |old(v.trace)|, all)
    {
      ghost var v1, cs, c := v.vol, Elems(list[..i]), list[i];
      FirstFreed(v0, v1, list, i);
      OneMoreListed(v.bm, list, i);
      var bit := v.SetBit(list[i], false);
      if bit.Err? {
        return bit;
      }
      ghost var v2 := v.vol;
      var _ := v.SetFat(list[i], 0);
      FreeOneMore(v0, v1, cs, c, v2, v.vol);
      FreedConfined(v0, v.vol, cs + {c});
      ConfinedWider(v0, v2, ClustersOf(cs + {c}), all);
      ConfinedWider(v0, v.vol, ClustersOf(cs + {c}), all);
    }
    assert list[..|list|] == list;
    return Ok(());
  }

  /** The bitmap has a bit for every cluster of `list`. */
  predicate InBitmap(bm: BitmapLoc, list: seq<nat>)
  {
    forall i :: 0 <= i < |list| ==> (list[i] - 2) / 8 < bm.lengthBytes
  }

  lemma NothingListed(bm: BitmapLoc, list: seq<nat>)
    ensures Elems(list[..0]) == {} && InBitmap(bm, list[..0])
  {
  }

  lemma OneMoreListed(bm: BitmapLoc, list: seq<nat>, i: nat)
    requires i < |list| && InBitmap(bm, list[..i])
    ensures Elems(list[..i + 1]) == Elems(list[..i]) + {list[i]} && Elems(list[..i + 1]) <= Elems(list)
    ensures InBitmap(bm, list[..i + 1]) <==> (list[i] - 2) / 8 < bm.lengthBytes
    ensures (list[i] - 2) / 8 >= bm.lengthBytes ==> !InBitmap(bm, list)
  {
    assert list[..i + 1] == list[..i] + [list[i]];
  }

  lemma FirstFreed(v0: Vol, v: Vol, list: seq<nat>, i: nat)
    requires i < |list| && Freed(v0, v, Elems(list[..i]))
    ensures 0 < i && list[0] < |v.bits| ==> !v.bits[list[0]]
  {
    if 0 < i {
      assert list[..i][0] == list[0];
    }
  }

  lemma FreedNothing(v0: Vol)
    ensures Freed(v0, v0, {})
  {
  }

  /** The `n` clusters from `first` on. */
  function Run(first: nat, n: nat): (s: seq<nat>)
    ensures |s| == n && forall i :: 0 <= i < n ==> s[i] == first + i
  {
    seq(n, i => first + i)
  }

  /** The clusters a call of `FreeChain` clears. */
  function FreeList(fat: seq<nat>, first: nat, contiguousLen: Option<nat>, total: nat): Result<seq<nat>>
  {
    match contiguousLen
    case Some(n) => Ok(Run(first, Min(n, total)))
    case None => FreeWalk(fat, first, total)
  }

  /** Free the chain from `first`: without a length by walking the FAT, with one by taking that many
      consecutive clusters, whatever the FAT says. */
  method FreeChain(v: Volume, first: nat, contiguousLen: Option<nat>) returns (r: Result<()>)
    requires v.Valid()
    modifies v, v.disk
    ensures v.Valid() && old(v.trace) <= v.trace
    ensures first < 2 ==> r == Ok(()) && v.vol == old(v.vol) && v.trace == old(v.trace)
    ensures var list := FreeList(old(v.vol).fat, first, contiguousLen, v.geo.clusterCount);
            2 <= first ==>
            if list.Err? then r.Err? && v.vol == old(v.vol) && v.trace == old(v.trace)
            else
              && ((forall i :: 0 <= i < |list.value| ==> v.geo.InRange(list.value[i])) ==> r.Ok?)
              && (r.Ok? <==> InBitmap(v.bm, list.value))
              && (r.Err? && v.geo.InRange(first) ==> |v.vol.bits| == v.geo.clusterCount + 2 && !v.vol.bits[first])
              && (r.Ok? ==> Freed(old(v.vol), v.vol, Elems(list.value)))
              && Through(old(v.vol), v.trace, |old(v.trace)|, ClustersOf(Elems(list.value)))
  {
    hide Volume.Valid, Confined, Freed;
    if first < 2 {
      return Ok(());
    }
    var clusters;
    if contiguousLen.Some? {
      clusters := Run(first, Min(contiguousLen.value, v.geo.clusterCount));
    } else {
      clusters :- WalkToFree(v, first);
      FreeWalkAbove(v.vol.fat, first, v.geo.clusterCount);
    }
    r := ClearClusters(v, clusters);
  }

  lemma {:induction false} FreeWalkAbove(fat: seq<nat>, cur: nat, room: nat)
    requires FreeWalk(fat, cur, room).Ok?
    ensures forall i :: 0 <= i < |FreeWalk(fat, cur, room).value| ==> 2 <= FreeWalk(fat, cur, room).value[i] < |fat|
    decreases room
  {
    if 2 <= fat[cur] < |fat| {
      FreeWalkAbove(fat, fat[cur], room - 1);
    }
  }

  /** Freeing what was just allocated gives back the bitmap exactly, and every FAT word outside the
      chain. */
  lemma AllocThenFree(v0: Vol, v1: Vol, chain: seq<nat>, v2: Vol)
    requires v0.Unreserved() && |v0.bits| == |v0.fat| && chain != []
    requires Allocated(v0, v1, chain)
    requires var list := FreeList(v1.fat, chain[0], None, |v1.fat| - 2);
             list.Ok? ==> Freed(v1, v2, Elems(list.value))
    ensures FreeList(v1.fat, chain[0], None, |v1.fat| - 2) == Ok(chain)
    ensures v2.bits == v0.bits && v2.data == v0.data
    ensures forall c :: 0 <= c < |v0.fat| && c !in chain ==> v2.fat[c] == v0.fat[c]
  {
    ChainDistinct(v1.fat, chain);
    FreeWalkOfChain(v1.fat, chain, |v1.fat| - 2);
    forall c | 0 <= c < |v0.bits|
      ensures v2.bits[c] == v0.bits[c]
    {
      if c in chain {
        assert c in Elems(chain);
      }
    }
  }
}
