/** Concrete volumes on which the code does not do what its comments say: each is a device that holds a consistent
    volume, mounted, and the outcome is that of the real operation. The exact conditions are proved beside the
    operations. */
module Counterexamples {
  import opened Alloc
  import opened Bytes
  import opened Catalogues
  import opened Creations
  import opened Devices
  import opened Directories
  import opened EntrySets
  import opened ExfatFileSystem
  import opened FileTruncates
  import opened FileWrites
  import opened Geometries
  import opened Listings
  import opened Lookups
  import opened Outcomes
  import opened Placements
  import opened Realisations
  import opened Removals
  import opened Renames
  import opened SlotWrites
  import opened Stabilities
  import opened Steps
  import opened Trees
  import opened Visibilities
  import opened Volumes

  // ---- A fragmented file truncated to nothing ----------------------------------------------------------

  /** File "a", number 3, occupies clusters 5 and 7; file "b", number 4, cluster 6. */
  function FragmentedItems(): seq<Item>
  {
    [Item(Node(ROOT, 2, 3, Facts([0x61], false, 5, 1025, 1)), [5, 7]), Item(Node(ROOT, 2, 6, Facts([0x62], false, 6, 1, 1)), [6])]
  }

  function Fragmented(): Account
  {
    Device(FragmentedItems(), [Place(3, 0), Place(4, 0), Place(3, 1)], SystemSlots)
  }

  lemma FragmentedPlaces()
    ensures PlacesMatch(FragmentedItems(), [Place(3, 0), Place(4, 0), Place(3, 1)])
  {
  }

  lemma FragmentedApart()
    ensures Fragmented().SetsDisjoint()
  {
    DeviceParts(FragmentedItems(), [Place(3, 0), Place(4, 0), Place(3, 1)], SystemSlots);
    var b := Fragmented();
    assert b.nodes[3].Count() == 3 && b.nodes[4].Count() == 3;
    hide Device;
  }

  lemma FragmentedFits(k: nat)
    requires Fragmented().SetsDisjoint() && 0 < GEO.ClusterBytes() && 3 <= k < 5
    ensures Fragmented().Fitting(k)
  {
    DeviceFits();
    DeviceParts(FragmentedItems(), [Place(3, 0), Place(4, 0), Place(3, 1)], SystemSlots);
    hide Device, Account.SetsDisjoint, Account.SlotOwn, Geometry.ClusterBytes, Geometry.Per;
  }

  lemma FragmentedReady()
    ensures Fragmented().WellFormed(SIZE)
  {
    DeviceFits();
    FragmentedPlaces();
    FragmentedApart();
    forall k: nat | 3 <= k < 5
      ensures Fragmented().Fitting(k)
    {
      FragmentedFits(k);
    }
    hide Device, PlacesMatch, Account.SetsDisjoint, Account.Fitting, Geometry.ClusterBytes;
    DeviceReady(FragmentedItems(), [Place(3, 0), Place(4, 0), Place(3, 1)], SystemSlots);
  }

  /** Truncating file "a" to nothing succeeds, frees clusters 5 and 6 and leaves 7 marked: it takes the only cluster of
      file "b", so whatever counts as spare the owners of the clusters are no longer all accounted for. */
  method TruncationTakesBystander() returns (fs: ExfatFs, r: Result<()>, ghost v0: Vol, ghost cat0: Cat)
    ensures Consistent(v0, cat0, GEO, BM, []) && 3 in cat0.nodes && cat0.nodes[3].facts.name == [0x61]
    ensures 4 in cat0.nodes && 4 in cat0.chains && cat0.chains[4] == [6] && cat0.nodes[4].facts.len == 1
    ensures r.Ok? && |fs.volume.vol.bits| == 10 && !fs.volume.vol.bits[6] && fs.volume.vol.bits[7]
    ensures forall s: set<nat> :: !ChainsOwned(fs.volume.vol, WithSpare(cat0.SetChain(3, []), s))
  {
    hide *;
    FragmentedReady();
    FragmentedIs();
    fs := Mount(Fragmented());
    v0, cat0 := fs.volume.vol, fs.cat;
    ghost var t0 := fs.volume.trace;
    Held(fs, Fragmented());
    FragmentedNamed(fs);
    NoClusters(fs);
    ConsistentOwned(v0, cat0, GEO, BM, []);
    r := fs.TruncateFile([[0x61]], 0);
    FragmentedFreed(fs, v0, cat0, t0, r);
  }

  lemma FragmentedIs()
    ensures var b := Fragmented();
      && b.geo == GEO && b.bm == BM && b.upcase == [] && b.nodes.Keys == {3, 4} && 3 in b.chains && b.chains[3] == [5, 7]
      && 4 in b.chains && b.chains[4] == [6] && b.nodes[3] == Node(0, 2, 3, Facts([0x61], false, 5, 1025, 1))
      && b.nodes[4] == Node(0, 2, 6, Facts([0x62], false, 6, 1, 1)) && 0 in b.chains && b.chains[0] == [2]
      && (forall a :: b.fill(a) == SystemSlots(a)) && 6 in b.own && b.own[6] == Place(4, 0) && 7 in b.own
    ensures DivCeil(0, GEO.ClusterBytes()) == 0
  {
    DeviceFits();
    DeviceParts(FragmentedItems(), [Place(3, 0), Place(4, 0), Place(3, 1)], SystemSlots);
    DivCeilBounds(0, 1024);
  }

  /** An empty length takes no cluster. */
  lemma NoClusters(fs: ExfatFs)
    requires fs.volume.geo == GEO
    ensures 0 < fs.volume.geo.ClusterBytes() && DivCeil(0, fs.volume.geo.ClusterBytes()) < U32
  {
    DeviceFits();
    DivCeilBounds(0, 1024);
  }

  lemma FragmentedAlone()
    ensures Fragmented().SetsDisjoint() && StandsAlone(Fragmented(), 0, 3)
  {
    FragmentedIs();
    FragmentedApart();
    hide Fragmented, Account.SetsDisjoint, Account.SlotOwn, StandsAlone, SystemSlots;
    FirstInRoot(Fragmented(), 3);
  }

  lemma FragmentedNamed(fs: ExfatFs)
    requires Holds(fs, Fragmented())
    ensures fs.NodeAt([[0x61]]) == Ok(3)
  {
    hide *;
    FragmentedIs();
    FragmentedAlone();
    RootIs(fs);
    FindsAlone(fs, Fragmented(), 0, 3);
    RootPath(fs, [0x61]);
  }

  lemma RootIs(fs: ExfatFs)
    ensures fs.cat.IsDir(0)
  {
  }

  /** A truncation to nothing that strikes somebody else succeeds. */
  lemma StrikingSucceeds(fs: ExfatFs, v0: Vol, cat0: Cat, t0: seq<Vol>, id: nat, r: Result<()>)
    requires id in cat0.nodes && id in cat0.chains && fs.Shrunk(v0, cat0, t0, id, 0, r)
    requires InBitmap(fs.volume.bm, RunOf(cat0.chains[id])) && !RunClear(cat0, id)
    ensures r.Ok? && LinksFreed(v0, fs.volume.vol, cat0, id)
    ensures forall s: set<nat> :: !ChainsOwned(fs.volume.vol, WithSpare(cat0.SetChain(id, []), s))
  {
    hide Volume.Valid, ChainsOwned, RunOf, BystandersSafe, StruckBy, Cat.SetChain, RunClear, InBitmap, LinksFreed, FileTruncated,
         SamePaths, ExfatFs.Valid;
  }

  lemma FragmentedFreed(fs: ExfatFs, v0: Vol, cat0: Cat, t0: seq<Vol>, r: Result<()>)
    requires ChainsOwned(v0, cat0) && fs.volume.bm == BM && cat0.own == Fragmented().own && cat0.chains == Fragmented().chains
    requires 3 in cat0.nodes && 3 in cat0.chains && fs.Shrunk(v0, cat0, t0, 3, 0, r) && |v0.bits| == 10
    ensures r.Ok? && |fs.volume.vol.bits| == 10 && !fs.volume.vol.bits[6] && fs.volume.vol.bits[7]
    ensures forall s: set<nat> :: !ChainsOwned(fs.volume.vol, WithSpare(cat0.SetChain(3, []), s))
  {
    FragmentedRun();
    hide *;
    FragmentedIs();
    OwnedInRange(v0, cat0, 7);
    RunTaken(cat0);
    StrikingSucceeds(fs, v0, cat0, t0, 3, r);
    RunFreed(v0, fs.volume.vol, cat0);
  }

  lemma FragmentedRun()
    ensures RunOf([5, 7]) == [5, 6] && BitmapLoc(3, 1) == BM
  {
  }

  lemma RunTaken(cat0: Cat)
    requires 3 in cat0.chains && RunOf(cat0.chains[3]) == [5, 6] && 6 in cat0.own && cat0.own[6] == Place(4, 0)
    ensures InBitmap(BM, RunOf(cat0.chains[3])) && !RunClear(cat0, 3)
  {
    hide RunOf;
    assert 6 in [5, 6];
  }

  lemma RunFreed(v0: Vol, v: Vol, cat0: Cat)
    requires 3 in cat0.chains && RunOf(cat0.chains[3]) == [5, 6] && |v0.bits| == 10 && v0.bits[7]
    ensures LinksFreed(v0, v, cat0, 3) ==> |v.bits| == 10 && !v.bits[6] && v.bits[7]
  {
    hide RunOf;
    assert Elems([5, 6]) == {5, 6};
  }

  lemma UnownedIsFree(v: Vol, cat: Cat, c: nat)
    requires ChainsOwned(v, cat) && 2 <= c < |v.bits| && c !in cat.own && c !in cat.spare
    ensures c in FreeSet(v)
  {
  }

  // ---- A directory moved below itself ------------------------------------------------------------------

  /** Directory "A", number 3, holds directory "B", number 4. */
  function NestedItems(): seq<Item>
  {
    [Item(Node(ROOT, 2, 3, Facts([0x41], true, 5, 1024, 1)), [5]), Item(Node(3, 5, 0, Facts([0x42], true, 6, 1024, 1)), [6])]
  }

  function Nested(): Account { Device(NestedItems(), [Place(3, 0), Place(4, 0)], SystemSlots) }

  lemma NestedIs()
    ensures var b := Nested();
      && b.geo == GEO && b.bm == BM && b.upcase == [] && b.nodes.Keys == {3, 4}
      && b.nodes[3] == Node(0, 2, 3, Facts([0x41], true, 5, 1024, 1)) && b.nodes[4] == Node(3, 5, 0, Facts([0x42], true, 6, 1024, 1))
      && b.chains.Keys == {0, 1, 2, 3, 4} && b.chains[0] == [2] && b.chains[3] == [5] && b.chains[4] == [6]
      && (forall a: SlotAddr :: b.fill(a) == SystemSlots(a)) && 7 !in b.own && 5 in b.own && b.own[5] == Place(3, 0)
  {
    DeviceFits();
    DeviceParts(NestedItems(), [Place(3, 0), Place(4, 0)], SystemSlots);
  }

  lemma NestedPlaces()
    ensures PlacesMatch(NestedItems(), [Place(3, 0), Place(4, 0)])
  {
  }

  lemma NestedApart()
    ensures Nested().SetsDisjoint()
  {
    NestedIs();
    hide Nested;
  }

  lemma NestedFits(k: nat)
    requires Nested().SetsDisjoint() && 0 < GEO.ClusterBytes() && 3 <= k < 5
    ensures Nested().Fitting(k)
  {
    DeviceFits();
    DeviceParts(NestedItems(), [Place(3, 0), Place(4, 0)], SystemSlots);
    hide Device, Account.SetsDisjoint, Account.SlotOwn, Geometry.ClusterBytes, Geometry.Per;
  }

  lemma NestedReady()
    ensures Nested().WellFormed(SIZE)
  {
    DeviceFits();
    NestedPlaces();
    NestedApart();
    forall k: nat | 3 <= k < 5
      ensures Nested().Fitting(k)
    {
      NestedFits(k);
    }
    hide Device, PlacesMatch, Account.SetsDisjoint, Account.Fitting, Geometry.ClusterBytes;
    DeviceReady(NestedItems(), [Place(3, 0), Place(4, 0)], SystemSlots);
  }

  lemma NestedAlone()
    ensures Nested().SetsDisjoint() && StandsAlone(Nested(), 0, 3) && StandsAlone(Nested(), 3, 4)
  {
    NestedIs();
    NestedApart();
    hide Nested, Account.SetsDisjoint, Account.SlotOwn, SystemSlots;
    FirstInRoot(Nested(), 3);
  }

  lemma NestedNamed(fs: ExfatFs)
    requires Holds(fs, Nested())
    ensures fs.NodeAt([[0x41]]) == Ok(3)
    ensures fs.ParentAt([[0x41], [0x42], [0x63]]) == Ok(4) && fs.NodeAt([[0x41], [0x42], [0x63]]) == Err(NotFound)
  {
    hide *;
    NestedIs();
    NestedAlone();
    Held(fs, Nested());
    DirIs(fs, 0);
    DirIs(fs, 3);
    DirIs(fs, 4);
    FindsAlone(fs, Nested(), 0, 3);
    FindsAlone(fs, Nested(), 3, 4);
    FindsNothing(fs, Nested(), 4, [0x63]);
    RootPath(fs, [0x41]);
    SubSubPath(fs, [0x41], 3, [0x42], 4, [0x63]);
  }

  lemma DirIs(fs: ExfatFs, d: nat)
    ensures fs.cat.IsDir(d) <==> d == 0 || (d in fs.cat.nodes && fs.cat.nodes[d].facts.isDir)
  {
  }

  lemma NestedRooted(cat: Cat)
    requires cat.nodes.Keys == {3, 4} && cat.nodes[3].parent == 0 && cat.nodes[4].parent == 3
    ensures Rooted(cat) && Under(cat, 4, 3) && ROOT !in cat.nodes
  {
    assert Up(cat, 3, 1) == Up(cat, 0, 0) == 0;
    assert Up(cat, 4, 1) == Up(cat, 3, 0) == 3;
    assert Up(cat, 4, 2) == Up(cat, 3, 1);
  }

  /** Renaming "/A" to "/A/B/c" succeeds on a sound volume and leaves a sound one, on which neither directory can be
      reached from the root. */
  method MoveCutsOff() returns (fs: ExfatFs, r: Result<()>, ghost v0: Vol, ghost cat0: Cat)
    ensures Consistent(v0, cat0, GEO, BM, []) && Rooted(cat0) && 3 in cat0.nodes && cat0.nodes[3].facts.name == [0x41]
    ensures r.Ok? && fs.Valid() && 3 in fs.cat.nodes && !Rooted(fs.cat)
  {
    hide *;
    NestedReady();
    NestedIs();
    fs := Mount(Nested());
    v0, cat0 := fs.volume.vol, fs.cat;
    ghost var t0 := fs.volume.trace;
    Held(fs, Nested());
    NestedNamed(fs);
    NestedRooted(cat0);
    ConsistentOwned(v0, cat0, GEO, BM, []);
    UnownedIsFree(v0, cat0, 7);
    DirIs(fs, 4);
    r := fs.Rename([[0x41]], [[0x41], [0x42], [0x63]]);
    NestedMoved(fs, v0, cat0, t0, r);
  }

  lemma NestedMoved(fs: ExfatFs, v0: Vol, cat0: Cat, t0: seq<Vol>, r: Result<()>)
    requires 3 in cat0.nodes && Rooted(cat0) && Under(cat0, 4, 3) && ROOT !in cat0.nodes && cat0.IsDir(4) && 7 in FreeSet(v0)
    requires MoveMade(v0, cat0, t0, fs.volume.vol, fs.cat, fs.volume.trace, fs.volume.geo, fs.volume.bm, fs.upcase, 4, 3, [0x63], r)
    ensures r.Ok? && 3 in fs.cat.nodes && !Rooted(fs.cat) && MoveSound(v0, cat0, fs.volume.geo.Per(), 4, 3, [0x63])
  {
    hide Rooted, Under, Consistent, CrashSafe, Moved, FreeSet, NoRun, PlacedWhere, LeftUnused, Stale, SetSize, Geometry.ClusterBytes, Geometry.Per;
    assert r.Ok?;
    RenameKeepsTree(v0, cat0, fs.volume.vol, fs.cat, 4, 3, [0x63]);
  }

  // ---- A directory moved into itself ---------------------------------------------------------------------

  /** Names so long that their entry sets take 19, 12 and 8 slots. */
  function Long(): Name { Fill(255, 0x61) }
  function Middling(): Name { Fill(150, 0x62) }
  function Short(): Name { Fill(90, 0x63) }

  lemma LongNames()
    ensures SetSize(Long()) == 19 && SetSize(Middling()) == 12 && SetSize(Short()) == 8 && SetSize([0x78]) == 3 && SetSize([0x41]) == 3
    ensures Long() != Middling() && Long() != Short() && |Long()| == 255 && |Middling()| == 150 && |Short()| == 90
    ensures 19 == 2 + DivCeil(255, NAME_UNITS) && !BadName([0x78])
  {
  }

  /** Directory "A", number 3, holds two files whose sets fill its cluster up to the last slot. */
  function CrowdedItems(): seq<Item>
  {
    [Item(Node(ROOT, 2, 3, Facts([0x41], true, 5, 1024, 1)), [5]), Item(Node(3, 5, 0, Facts(Long(), false, 0, 0, 0)), []),
     Item(Node(3, 5, 19, Facts(Middling(), false, 0, 0, 0)), [])]
  }

  function Crowded(): Account { Device(CrowdedItems(), [Place(3, 0)], SystemSlots) }

  lemma CrowdedIs()
    ensures var b := Crowded();
      && b.geo == GEO && b.bm == BM && b.upcase == [] && b.nodes.Keys == {3, 4, 5}
      && b.nodes[3] == Node(0, 2, 3, Facts([0x41], true, 5, 1024, 1)) && b.nodes[4] == Node(3, 5, 0, Facts(Long(), false, 0, 0, 0))
      && b.nodes[5] == Node(3, 5, 19, Facts(Middling(), false, 0, 0, 0))
      && b.chains.Keys == {0, 1, 2, 3, 4, 5} && b.chains[0] == [2] && b.chains[3] == [5] && b.chains[4] == [] && b.chains[5] == []
      && (forall a: SlotAddr :: b.fill(a) == SystemSlots(a)) && 6 !in b.own && 5 in b.own && b.own[5] == Place(3, 0)
  {
    hide Long, Middling, Fill;
    DeviceFits();
    DeviceParts(CrowdedItems(), [Place(3, 0)], SystemSlots);
  }

  lemma CrowdedPlaces()
    ensures PlacesMatch(CrowdedItems(), [Place(3, 0)])
  {
    hide Long, Middling;
  }

  lemma CrowdedApart()
    ensures Crowded().SetsDisjoint()
  {
    CrowdedIs();
    LongNames();
    hide Crowded, Long, Middling, SetSize;
  }

  lemma CrowdedFits(k: nat)
    requires Crowded().SetsDisjoint() && 0 < GEO.ClusterBytes() && 3 <= k < 6
    ensures Crowded().Fitting(k)
  {
    DeviceFits();
    CrowdedIs();
    LongNames();
    DivCeilBounds(0, 1024);
    hide Crowded, Account.SetsDisjoint, Account.SlotOwn, Long, Middling, SetSize, DivCeil, Geometry.ClusterBytes, Geometry.Per;
  }

  lemma CrowdedReady()
    ensures Crowded().WellFormed(SIZE)
  {
    DeviceFits();
    CrowdedPlaces();
    CrowdedApart();
    forall k: nat | 3 <= k < 6
      ensures Crowded().Fitting(k)
    {
      CrowdedFits(k);
    }
    hide Device, PlacesMatch, Account.SetsDisjoint, Account.Fitting, Geometry.ClusterBytes, Long, Middling;
    DeviceReady(CrowdedItems(), [Place(3, 0)], SystemSlots);
  }

  lemma CrowdedAlone()
    ensures Crowded().SetsDisjoint() && StandsAlone(Crowded(), 0, 3)
  {
    CrowdedIs();
    CrowdedApart();
    hide Crowded, Account.SetsDisjoint, Account.SlotOwn, SystemSlots, StandsAlone, Long, Middling;
    FirstInRoot(Crowded(), 3);
  }

  lemma CrowdedNamed(fs: ExfatFs)
    requires Holds(fs, Crowded())
    ensures fs.NodeAt([[0x41]]) == Ok(3) && fs.ParentAt([[0x41], [0x78]]) == Ok(3) && fs.NodeAt([[0x41], [0x78]]) == Err(NotFound)
  {
    hide *;
    CrowdedIs();
    CrowdedAlone();
    LongNames();
    Held(fs, Crowded());
    DirIs(fs, 0);
    DirIs(fs, 3);
    FindsAlone(fs, Crowded(), 0, 3);
    FindsNothing(fs, Crowded(), 3, [0x78]);
    RootPath(fs, [0x41]);
    SubPath(fs, [0x41], 3, [0x78]);
  }

  /** A cluster whose slots are in use but the last few. */
  ghost predicate Busy(v: Vol, c: nat, n: nat)
  {
    forall x: nat {:trigger SlotAddr(c, x)} :: x < n ==> |v.Slot(SlotAddr(c, x))| == 32 && 0x80 <= v.Slot(SlotAddr(c, x))[0]
  }

  lemma NoRunInBusy(v: Vol, c: nat, k: nat)
    requires 1 <= k <= 32 && Busy(v, c, 33 - k)
    ensures NoRun(v, [c], 32, k)
  {
    hide Vol.Slot;
    forall s: nat
      ensures !RunAt(v, c, 32, k, s)
    {
      if s + k <= 32 {
        assert !Usable(v.Slot(SlotAddr(c, s)));
      }
    }
  }

  lemma CrowdedFull(fs: ExfatFs)
    requires Holds(fs, Crowded())
    ensures NoRun(fs.volume.vol, [5], 32, 3)
  {
    hide Crowded, Holds, Vol.Slot, NoRun;
    forall x: nat {:trigger SlotAddr(5, x)} | x < 30
      ensures |fs.volume.vol.Slot(SlotAddr(5, x))| == 32 && 0x80 <= fs.volume.vol.Slot(SlotAddr(5, x))[0]
    {
      CrowdedSlot(fs, x);
    }
    NoRunInBusy(fs.volume.vol, 5, 3);
  }

  lemma CrowdedSlot(fs: ExfatFs, x: nat)
    requires Holds(fs, Crowded()) && x < 30
    ensures var s := fs.volume.vol.Slot(SlotAddr(5, x)); |s| == 32 && 0x80 <= s[0]
  {
    CrowdedIs();
    LongNames();
    hide Crowded, Long, Middling, SetSize, Holds, Vol.Slot;
    if x < 19 {
      SetSlotBusy(fs, Crowded(), 4, x);
    } else {
      SetSlotBusy(fs, Crowded(), 5, x);
    }
  }

  /** Renaming "/A" to "/A/x" succeeds, grows the directory, and leaves a record of the length it had before: the
      volume is no longer sound. */
  method SelfMoveBreaks() returns (fs: ExfatFs, r: Result<()>, ghost v0: Vol, ghost cat0: Cat)
    ensures Consistent(v0, cat0, GEO, BM, []) && 3 in cat0.nodes && cat0.nodes[3].facts.name == [0x41]
    ensures r.Ok? && 0 < GEO.ClusterBytes() && Stale(fs.volume.vol, fs.cat, GEO.ClusterBytes(), [], 3)
    ensures !Consistent(fs.volume.vol, fs.cat, GEO, BM, [])
  {
    hide *;
    CrowdedReady();
    CrowdedIs();
    DeviceFits();
    LongNames();
    fs := Mount(Crowded());
    v0, cat0 := fs.volume.vol, fs.cat;
    ghost var t0 := fs.volume.trace;
    Held(fs, Crowded());
    CrowdedNamed(fs);
    CrowdedFull(fs);
    ConsistentOwned(v0, cat0, GEO, BM, []);
    UnownedIsFree(v0, cat0, 6);
    r := fs.Rename([[0x41]], [[0x41], [0x78]]);
    CrowdedMoved(fs, v0, cat0, t0, r);
  }

  lemma CrowdedMoved(fs: ExfatFs, v0: Vol, cat0: Cat, t0: seq<Vol>, r: Result<()>)
    requires 3 in cat0.nodes && 3 in cat0.chains && cat0.chains[3] == [5] && 6 in FreeSet(v0) && NoRun(v0, [5], 32, 3)
    requires fs.volume.geo == GEO && fs.volume.bm == BM && fs.upcase == []
    requires MoveMade(v0, cat0, t0, fs.volume.vol, fs.cat, fs.volume.trace, fs.volume.geo, fs.volume.bm, fs.upcase, 3, 3, [0x78], r)
    ensures r.Ok? && 0 < GEO.ClusterBytes() && Stale(fs.volume.vol, fs.cat, GEO.ClusterBytes(), [], 3)
    ensures !Consistent(fs.volume.vol, fs.cat, GEO, BM, [])
  {
    DeviceFits();
    LongNames();
    hide Consistent, CrashSafe, Moved, FreeSet, NoRun, PlacedWhere, LeftUnused, Stale, SetSize, Geometry.ClusterBytes, Geometry.Per, BadName;
  }

  // ---- A child hidden from the emptiness test ---------------------------------------------------------------

  /** Directory "D", number 3, of two clusters: the first holds cleared slots and then an end-of-directory slot, the
      second the set of file "x", number 4. */
  function HidingItems(): seq<Item>
  {
    [Item(Node(ROOT, 2, 3, Facts([0x44], true, 5, 2048, 1)), [5, 6]), Item(Node(3, 6, 0, Facts([0x78], false, 0, 0, 0)), [])]
  }

  /** What clearing leaves of thirty slots. */
  function ClearedSlotsOf5(a: SlotAddr): byte
  {
    if a.cluster == 5 && a.index < 30 then 0x05 else SystemSlots(a)
  }

  function Hiding(): Account { Device(HidingItems(), [Place(3, 0), Place(3, 1)], ClearedSlotsOf5) }

  lemma HidingIs()
    ensures var b := Hiding();
      && b.geo == GEO && b.bm == BM && b.upcase == [] && b.nodes.Keys == {3, 4}
      && b.nodes[3] == Node(0, 2, 3, Facts([0x44], true, 5, 2048, 1)) && b.nodes[4] == Node(3, 6, 0, Facts([0x78], false, 0, 0, 0))
      && b.chains.Keys == {0, 1, 2, 3, 4} && b.chains[0] == [2] && b.chains[3] == [5, 6] && b.chains[4] == []
      && (forall a: SlotAddr :: b.fill(a) == ClearedSlotsOf5(a)) && 6 in b.own && b.own[6] == Place(3, 1)
  {
    DeviceFits();
    DeviceParts(HidingItems(), [Place(3, 0), Place(3, 1)], ClearedSlotsOf5);
  }

  lemma HidingPlaces()
    ensures PlacesMatch(HidingItems(), [Place(3, 0), Place(3, 1)])
  {
  }

  lemma HidingApart()
    ensures Hiding().SetsDisjoint()
  {
    HidingIs();
    hide Hiding;
  }

  lemma HidingFits(k: nat)
    requires Hiding().SetsDisjoint() && 0 < GEO.ClusterBytes() && 3 <= k < 5
    ensures Hiding().Fitting(k)
  {
    DeviceFits();
    HidingIs();
    LongNames();
    DivCeilBounds(0, 1024);
    hide Hiding, Account.SetsDisjoint, Account.SlotOwn, SetSize, DivCeil, Geometry.ClusterBytes, Geometry.Per;
  }

  lemma HidingReady()
    ensures Hiding().WellFormed(SIZE)
  {
    DeviceFits();
    HidingPlaces();
    HidingApart();
    forall k: nat | 3 <= k < 5
      ensures Hiding().Fitting(k)
    {
      HidingFits(k);
    }
    hide Device, PlacesMatch, Account.SetsDisjoint, Account.Fitting, Geometry.ClusterBytes;
    DeviceReady(HidingItems(), [Place(3, 0), Place(3, 1)], ClearedSlotsOf5);
  }

  lemma HidingNamed(fs: ExfatFs)
    requires Holds(fs, Hiding())
    ensures fs.NodeAt([[0x44]]) == Ok(3)
  {
    hide *;
    HidingIs();
    HidingAlone();
    DirIs(fs, 0);
    FindsAlone(fs, Hiding(), 0, 3);
    RootPath(fs, [0x44]);
  }

  lemma HidingAlone()
    ensures Hiding().SetsDisjoint() && StandsAlone(Hiding(), 0, 3)
  {
    HidingIs();
    HidingApart();
    hide Hiding, Account.SetsDisjoint, Account.SlotOwn, SystemSlots, StandsAlone;
    FirstInRoot(Hiding(), 3);
  }

  /** The file lies behind the end-of-directory slot: the directory lists nothing. */
  lemma HidingListsNothing(fs: ExfatFs)
    requires Holds(fs, Hiding())
    ensures fs.Removable(3)
  {
    hide *;
    HidingIs();
    Held(fs, Hiding());
    DeviceFits();
    DirIs(fs, 3);
    Directory(fs, Hiding(), 3);
    WalkableSlots(fs.volume.vol, fs.cat, 1024, 32, [], 3);
    var ks := NodesFrom(fs.volume.vol, fs.cat, 32, 3, 0);
    if ks != [] {
      assert ks[0] in ks;
      ListedVisible(fs.volume.vol, fs.cat, 1024, 32, [], 3, 0, ks[0]);
      HidingHides(fs);
    }
    fs.RemovableIs(3);
  }

  lemma HidingHides(fs: ExfatFs)
    requires Holds(fs, Hiding())
    ensures 3 in fs.cat.chains && 4 in fs.cat.nodes && Slots(SlotsAt(fs.volume.vol, Addrs(fs.cat.chains[3], 32)))
    ensures !Open(SlotsAt(fs.volume.vol, Addrs(fs.cat.chains[3], 32)), 0, Position(fs.cat, 32, 4))
  {
    hide *;
    HidingIs();
    Held(fs, Hiding());
    DirIs(fs, 3);
    Directory(fs, Hiding(), 3);
    HidingEnd(fs);
    ShutBefore(fs.volume.vol, fs.cat);
  }

  lemma ShutBefore(v: Vol, cat: Cat)
    requires Walkable(v, cat, 1024, 32, [], 3) && 3 in cat.chains && cat.chains[3] == [5, 6]
    requires 4 in cat.nodes && cat.nodes[4].cluster == 6 && cat.nodes[4].start == 0
    requires |v.Slot(SlotAddr(5, 30))| == 32 && v.Slot(SlotAddr(5, 30))[0] == 0
    ensures Slots(SlotsAt(v, Addrs(cat.chains[3], 32))) && !Open(SlotsAt(v, Addrs(cat.chains[3], 32)), 0, Position(cat, 32, 4))
  {
    hide NodesOk, SlotsOwned, Addrs, Vol.Slot;
    AddrsSize([5, 6], 32);
    DirSlotAddr(cat, 3, 32, 30);
    assert Addrs([5, 6], 32)[30] == SlotAddr(5, 30);
    assert cat.own[cat.chains[3][1]] == Place(3, 1);
  }

  lemma HidingEnd(fs: ExfatFs)
    requires Holds(fs, Hiding())
    ensures var s := fs.volume.vol.Slot(SlotAddr(5, 30)); |s| == 32 && s[0] == 0
  {
    hide *;
    HidingIs();
    LastCleared();
    OtherSlot(fs, Hiding(), SlotAddr(5, 30));
  }

  lemma LastCleared()
    ensures ClearedSlotsOf5(SlotAddr(5, 30)) == 0
  {
  }

  /** Removing "/D" succeeds although file "x" is recorded in it: the file is left without a directory. */
  method RemovalOrphans() returns (fs: ExfatFs, r: Result<()>, ghost v0: Vol, ghost cat0: Cat)
    ensures Consistent(v0, cat0, GEO, BM, []) && 3 in cat0.nodes && cat0.nodes[3].facts.name == [0x44]
    ensures r.Ok? && !fs.Valid() && 4 in fs.cat.nodes && fs.cat.nodes[4].parent == 3 && 3 !in fs.cat.nodes
  {
    hide *;
    HidingReady();
    HidingIs();
    fs := Mount(Hiding());
    v0, cat0 := fs.volume.vol, fs.cat;
    Held(fs, Hiding());
    HidingNamed(fs);
    HidingListsNothing(fs);
    r := fs.Remove([[0x44]]);
    WithoutParts(cat0, 3);
    HasChild(cat0, 3, 4);
  }

  lemma HasChild(cat: Cat, d: nat, k: nat)
    requires k in cat.nodes && k != d && cat.nodes[k].parent == d
    ensures !Childless(cat, d)
  {
  }

  // ---- A hole ahead of the chosen run --------------------------------------------------------------------

  /** The root holds two files whose sets leave its cluster two slots, one too few for the shortest set. */
  function HoledItems(): seq<Item>
  {
    [Item(Node(ROOT, 2, 3, Facts(Long(), false, 0, 0, 0)), []), Item(Node(ROOT, 2, 22, Facts(Short(), false, 0, 0, 0)), [])]
  }

  function Holed(): Account { Device(HoledItems(), [], SystemSlots) }

  lemma HoledIs()
    ensures var b := Holed();
      && b.geo == GEO && b.bm == BM && b.upcase == [] && b.nodes.Keys == {3, 4}
      && b.nodes[3] == Node(0, 2, 3, Facts(Long(), false, 0, 0, 0)) && b.nodes[4] == Node(0, 2, 22, Facts(Short(), false, 0, 0, 0))
      && b.chains.Keys == {0, 1, 2, 3, 4} && b.chains[0] == [2] && b.chains[3] == [] && b.chains[4] == []
      && (forall a: SlotAddr :: b.fill(a) == SystemSlots(a)) && 5 !in b.own
  {
    hide Long, Short, Fill;
    DeviceFits();
    DeviceParts(HoledItems(), [], SystemSlots);
  }

  lemma HoledPlaces()
    ensures PlacesMatch(HoledItems(), [])
  {
    hide Long, Short;
  }

  lemma HoledApart()
    ensures Holed().SetsDisjoint()
  {
    HoledIs();
    LongNames();
    hide Holed, Long, Short, SetSize;
  }

  lemma HoledFits(k: nat)
    requires Holed().SetsDisjoint() && 0 < GEO.ClusterBytes() && 3 <= k < 5
    ensures Holed().Fitting(k)
  {
    DeviceFits();
    HoledIs();
    LongNames();
    DivCeilBounds(0, 1024);
    HoledRoot();
    hide Holed, Account.SetsDisjoint, Account.SlotOwn, Long, Short, SetSize, DivCeil, Geometry.ClusterBytes, Geometry.Per;
  }

  lemma HoledRoot()
    ensures 2 in Holed().own && Holed().own[2] == Place(0, 0)
  {
    DeviceParts(HoledItems(), [], SystemSlots);
  }

  lemma HoledReady()
    ensures Holed().WellFormed(SIZE)
  {
    DeviceFits();
    HoledPlaces();
    HoledApart();
    forall k: nat | 3 <= k < 5
      ensures Holed().Fitting(k)
    {
      HoledFits(k);
    }
    hide Device, PlacesMatch, Account.SetsDisjoint, Account.Fitting, Geometry.ClusterBytes, Long, Short;
    DeviceReady(HoledItems(), [], SystemSlots);
  }

  lemma HoledNamed(fs: ExfatFs)
    requires Holds(fs, Holed())
    ensures fs.ParentAt([[0x78]]) == Ok(0) && fs.NodeAt([[0x78]]) == Err(NotFound)
  {
    hide *;
    HoledIs();
    LongNames();
    Held(fs, Holed());
    DirIs(fs, 0);
    FindsNothing(fs, Holed(), 0, [0x78]);
    RootPath(fs, [0x78]);
  }

  lemma HoledSlot(fs: ExfatFs, x: nat)
    requires Holds(fs, Holed()) && x < 30
    ensures var s := fs.volume.vol.Slot(SlotAddr(2, x)); |s| == 32 && 0x80 <= s[0]
  {
    HoledIs();
    LongNames();
    hide Holed, Long, Short, SetSize, Holds, Vol.Slot;
    if x < 3 {
      OtherSlot(fs, Holed(), SlotAddr(2, x));
    } else if x < 22 {
      SetSlotBusy(fs, Holed(), 3, x);
    } else {
      SetSlotBusy(fs, Holed(), 4, x);
    }
  }

  lemma HoledEnd(fs: ExfatFs)
    requires Holds(fs, Holed())
    ensures var s := fs.volume.vol.Slot(SlotAddr(2, 30)); |s| == 32 && s[0] == 0
  {
    HoledIs();
    LongNames();
    hide Holed, Long, Short, SetSize, Holds, Vol.Slot;
    OtherSlot(fs, Holed(), SlotAddr(2, 30));
  }

  lemma HoledHole(fs: ExfatFs)
    requires Holds(fs, Holed())
    ensures HoleAhead(fs.volume.vol, [2], 32, 3)
  {
    hide Holed, Holds, Vol.Slot, NoRun, HoleAhead;
    HoledEnd(fs);
    forall x: nat {:trigger SlotAddr(2, x)} | x < 30
      ensures |fs.volume.vol.Slot(SlotAddr(2, x))| == 32 && 0x80 <= fs.volume.vol.Slot(SlotAddr(2, x))[0]
    {
      HoledSlot(fs, x);
    }
    NoRunInBusy(fs.volume.vol, 2, 3);
    HoleAtEnd(fs.volume.vol, 2, 30);
  }

  lemma HoleAtEnd(v: Vol, c: nat, e: nat)
    requires NoRun(v, [c], 32, 3) && e < 32 && |v.Slot(SlotAddr(c, e))| == 32 && v.Slot(SlotAddr(c, e))[0] == 0
    ensures HoleAhead(v, [c], 32, 3)
  {
    hide Vol.Slot, RunAt;
    assert HoleAt(v, [c], 32, 3, 0, e);
  }

  /** Creating "/x" succeeds, and "/x" is not found. */
  method HoleHidesEntry() returns (fs: ExfatFs, r: Result<()>, ghost id: nat, ghost v0: Vol, ghost cat0: Cat)
    ensures Consistent(v0, cat0, GEO, BM, [])
    ensures r.Ok? && fs.Valid() && id in fs.cat.nodes && fs.cat.nodes[id].parent == 0 && fs.cat.nodes[id].facts.name == [0x78]
    ensures fs.NodeAt([[0x78]]) == Err(NotFound)
  {
    hide *;
    HoledReady();
    HoledIs();
    DeviceFits();
    LongNames();
    fs := Mount(Holed());
    v0, cat0 := fs.volume.vol, fs.cat;
    ghost var t0 := fs.volume.trace;
    Held(fs, Holed());
    HoledNamed(fs);
    HoledHole(fs);
    ConsistentOwned(v0, cat0, GEO, BM, []);
    UnownedIsFree(v0, cat0, 5);
    r, id := fs.CreateFile([[0x78]]);
    HoledMade(fs, v0, cat0, t0, id, r);
    HoledLost(fs, v0, cat0, t0, id, r);
    RootPath(fs, [0x78]);
  }

  /** No other node of the root has the name. */
  lemma HoledLost(fs: ExfatFs, v0: Vol, cat0: Cat, t0: seq<Vol>, id: nat, r: Result<()>)
    requires fs.Valid() && fs.volume.geo == GEO && fs.upcase == [] && cat0.nodes == Holed().nodes && r.Ok?
    requires EntryMade(v0, cat0, t0, fs.volume.vol, fs.cat, fs.volume.trace, fs.volume.geo, fs.volume.bm, fs.upcase, 0, id, [0x78], false, r)
    requires fs.FindIn(0, [0x78]) != Some(id)
    ensures fs.FindIn(0, [0x78]) == None
  {
    hide *;
    fs.Parts();
    DeviceFits();
    HoledIs();
    LongNames();
    DirIs(fs, 0);
    WalkableIs(fs.volume, fs.cat, fs.upcase, 0);
    fs.FindInIs(0, [0x78]);
    FindMeans(fs.volume.vol, fs.cat, 1024, 32, [], 0, [0x78]);
    PlainName([0x78]);
    var found := fs.FindIn(0, [0x78]);
    if found.Some? {
      PlainName(fs.cat.nodes[found.value].facts.name);
      OthersNamed(fs, v0, cat0, t0, id, r, found.value);
    }
  }

  lemma OthersNamed(fs: ExfatFs, v0: Vol, cat0: Cat, t0: seq<Vol>, id: nat, r: Result<()>, k: nat)
    requires EntryMade(v0, cat0, t0, fs.volume.vol, fs.cat, fs.volume.trace, fs.volume.geo, fs.volume.bm, fs.upcase, 0, id, [0x78], false, r)
    requires r.Ok? && k in fs.cat.nodes && k != id && 0 !in cat0.nodes
    ensures k in cat0.nodes && fs.cat.nodes[k] == cat0.nodes[k]
  {
    hide Consistent, CrashSafe, FreeSet, NoRun, PlacedWhere, SetSize, EntryClusters, FileContent, Geometry.ClusterBytes, Geometry.Per;
  }

  lemma HoledMade(fs: ExfatFs, v0: Vol, cat0: Cat, t0: seq<Vol>, id: nat, r: Result<()>)
    requires 5 in FreeSet(v0)
    requires EntryMade(v0, cat0, t0, fs.volume.vol, fs.cat, fs.volume.trace, fs.volume.geo, fs.volume.bm, fs.upcase, 0, id, [0x78], false, r)
    ensures r.Ok? && id in fs.cat.nodes && fs.cat.nodes[id].parent == 0 && fs.cat.nodes[id].facts.name == [0x78]
  {
    FileClustersNeeded(v0, cat0, fs.volume.geo.Per(), 0, [0x78]);
    hide Consistent, CrashSafe, FreeSet, NoRun, PlacedWhere, SetSize, OthersKept, EntryClusters, Geometry.ClusterBytes, Geometry.Per;
  }
}
