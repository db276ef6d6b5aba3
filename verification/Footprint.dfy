/** What a run of device writes may have touched. */
module Footprints {
  import opened Geometries
  import opened Volumes

  /** `links`: clusters whose FAT word may change. `marks`: clusters whose allocation bit may change. `data`:
      clusters whose contents may change. `slots`: single directory slots that may change in clusters
      otherwise left alone. */
  datatype Footprint = Footprint(links: set<nat>, marks: set<nat>, data: set<nat>, slots: set<SlotAddr>)
  {
    function Join(f: Footprint): Footprint
    {
      Footprint(links + f.links, marks + f.marks, data + f.data, slots + f.slots)
    }

    ghost predicate Within(f: Footprint)
    {
      links <= f.links && marks <= f.marks && data <= f.data && slots <= f.slots
    }
  }

  lemma JoinContains(f: Footprint, g: Footprint)
    ensures f.Within(f.Join(g)) && g.Within(f.Join(g))
  {
  }

  function ClustersOf(cs: set<nat>): Footprint { Footprint(cs, cs, {}, {}) }

  function WordsOf(cs: set<nat>): Footprint { Footprint(cs, {}, {}, {}) }

  function ContentsOf(cs: set<nat>): Footprint { Footprint({}, {}, cs, {}) }

  function SlotsOf(a: set<SlotAddr>): Footprint { Footprint({}, {}, {}, a) }

  function Homes(slots: set<SlotAddr>): set<nat> { set a | a in slots :: a.cluster }

  /** `v` differs from `v0` inside the footprint at most. */
  ghost predicate Confined(v0: Vol, v: Vol, f: Footprint)
  {
    && |v.fat| == |v0.fat| && |v.bits| == |v0.bits| && |v.data| == |v0.data|
    && (forall c :: 0 <= c < |v.fat| && c !in f.links ==> v.fat[c] == v0.fat[c])
    && (forall c :: 0 <= c < |v.bits| && c !in f.marks ==> v.bits[c] == v0.bits[c])
    && (forall c :: 0 <= c < |v.data| && c !in f.data && c !in Homes(f.slots) ==> v.data[c] == v0.data[c])
    && (forall a :: a !in f.slots && a.cluster !in f.data ==> v.Slot(a) == v0.Slot(a))
  }

  /** Every view in `trace` from index `from` on stays confined: what holds of it holds after a power cut
      at any point of the run. */
  ghost predicate Through(v0: Vol, trace: seq<Vol>, from: nat, f: Footprint)
  {
    forall k :: from <= k < |trace| ==> Confined(v0, trace[k], f)
  }

  lemma ConfinedWider(v0: Vol, v: Vol, f: Footprint, f': Footprint)
    requires Confined(v0, v, f) && f.Within(f')
    ensures Confined(v0, v, f')
  {
    assert Homes(f.slots) <= Homes(f'.slots);
  }

  lemma ConfinedNothing(v: Vol, f: Footprint)
    ensures Confined(v, v, f)
  {
  }

  lemma ConfinedChain(v0: Vol, v1: Vol, v2: Vol, f: Footprint)
    requires Confined(v0, v1, f) && Confined(v1, v2, f)
    ensures Confined(v0, v2, f)
  {
  }

  /** Two runs one after the other stay inside a common footprint. */
  lemma ThroughChain(v0: Vol, t1: seq<Vol>, from: nat, f1: Footprint, v1: Vol, t2: seq<Vol>, f2: Footprint, f: Footprint)
    requires from <= |t1| <= |t2| && t2[..|t1|] == t1
    requires Through(v0, t1, from, f1) && Confined(v0, v1, f1) && Through(v1, t2, |t1|, f2)
    requires f1.Within(f) && f2.Within(f)
    ensures Through(v0, t2, from, f)
  {
    hide Confined, Footprint.Within;
    forall k | from <= k < |t2|
      ensures Confined(v0, t2[k], f)
    {
      if k < |t1| {
        assert t2[k] == t2[..|t1|][k] == t1[k];
        ConfinedWider(v0, t2[k], f1, f);
      } else {
        ConfinedWider(v0, v1, f1, f);
        ConfinedWider(v1, t2[k], f2, f);
        ConfinedChain(v0, v1, t2[k], f);
      }
    }
  }

  lemma ThroughNothing(v0: Vol, t: seq<Vol>, f: Footprint)
    ensures Through(v0, t, |t|, f)
  {
  }

  lemma ThroughWider(v0: Vol, t: seq<Vol>, from: nat, f: Footprint, f': Footprint)
    requires Through(v0, t, from, f) && f.Within(f')
    ensures Through(v0, t, from, f')
  {
    hide Confined;
    forall k | from <= k < |t|
      ensures Confined(v0, t[k], f')
    {
      ConfinedWider(v0, t[k], f, f');
    }
  }
}
