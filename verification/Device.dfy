/** Small devices given by their files and directories, and what paths name on them. */
module Devices {
  import opened Alloc
  import opened Bytes
  import opened Catalogues
  import opened Directories
  import opened EntrySets
  import opened ExfatFileSystem
  import opened Geometries
  import opened Listings
  import opened Lookups
  import opened Realisations
  import opened Removals
  import opened Visibilities
  import opened Volumes

  // ---- A small device --------------------------------------------------------------------------------

  /** Eight clusters of 1024 bytes, 32 slots each: the root in 2, the bitmap in 3, the up-case table in 4. */
  const GEO := Geometry(512, 2, 24, 1, 25, 8, 2)
  const BM := BitmapLoc(3, 1)
  const SIZE := 20992

  /** The slots formatting leaves in the root: volume label, bitmap, up-case table. */
  function SystemSlots(a: SlotAddr): byte
  {
    if a.cluster == 2 && a.index == 0 then 0x83
    else if a.cluster == 2 && a.index == 1 then 0x81
    else if a.cluster == 2 && a.index == 2 then 0x82
    else 0
  }

  /** A file or directory and the clusters it owns. */
  datatype Item = Item(node: Node, chain: seq<nat>)

  function ChainAt(items: seq<Item>, id: nat): seq<nat>
  {
    if id < 3 then [2 + id] else if id - 3 < |items| then items[id - 3].chain else []
  }

  function NodeAt(items: seq<Item>, id: nat): Node
    requires 3 <= id < 3 + |items|
  {
    items[id - 3].node
  }

  function PlaceAt(places: seq<Place>, c: nat): Place
    requires 2 <= c < 5 + |places|
  {
    if c < 5 then Place(c - 2, 0) else places[c - 5]
  }

  /** The device with these files and directories, numbered from 3 on; `places` are the places of the clusters from
      5 on. Names fold to themselves. */
  function Device(items: seq<Item>, places: seq<Place>, fill: SlotAddr -> byte): Account
  {
    Account(GEO, BM, [], map id: nat | 0 <= id < 3 + |items| :: ChainAt(items, id),
            map c: nat | 2 <= c < 5 + |places| :: PlaceAt(places, c),
            map id: nat | 3 <= id < 3 + |items| :: NodeAt(items, id), fill)
  }

  ghost predicate ItemPlaced(items: seq<Item>, places: seq<Place>, id: nat)
  {
    forall i :: 0 <= i < |ChainAt(items, id)| ==>
      2 <= ChainAt(items, id)[i] < 5 + |places| && PlaceAt(places, ChainAt(items, id)[i]) == Place(id, i)
  }

  ghost predicate PlaceTaken(items: seq<Item>, places: seq<Place>, c: nat)
    requires 2 <= c < 5 + |places|
  {
    var q := PlaceAt(places, c);
    q.id < 3 + |items| && q.at < |ChainAt(items, q.id)| && ChainAt(items, q.id)[q.at] == c
  }

  /** `places` are where the chains say. */
  ghost predicate PlacesMatch(items: seq<Item>, places: seq<Place>)
  {
    && |places| <= 5
    && (forall id :: 0 <= id < 3 + |items| ==> ItemPlaced(items, places, id))
    && (forall c :: 2 <= c < 5 + |places| ==> PlaceTaken(items, places, c))
  }

  lemma DeviceFits()
    ensures GEO.Fits(BM, SIZE) && GEO.ClusterBytes() == 1024 && GEO.Per() == 32 && MIN_CLUSTER == 1024
    ensures DivCeil(BM.lengthBytes, GEO.ClusterBytes()) == 1 && Run(3, 1) == [3]
  {
  }

  lemma DevicePlaced(items: seq<Item>, places: seq<Place>, fill: SlotAddr -> byte)
    requires PlacesMatch(items, places) && Device(items, places, fill).SetsDisjoint()
    ensures Placed(Device(items, places, fill).Catalogue())
  {
    hide Account.SlotOwn, ChainAt, PlaceAt, Account.SetsDisjoint, NodeAt;
    var cat := Device(items, places, fill).Catalogue();
    forall id, i | id in cat.chains && 0 <= i < |cat.chains[id]|
      ensures cat.chains[id][i] in cat.own && cat.own[cat.chains[id][i]] == Place(id, i)
    {
      assert ItemPlaced(items, places, id);
    }
    forall c | c in cat.own
      ensures var p := cat.own[c]; p.id in cat.chains && p.at < |cat.chains[p.id]| && cat.chains[p.id][p.at] == c
    {
      assert PlaceTaken(items, places, c);
    }
  }

  lemma DeviceSystem(items: seq<Item>, places: seq<Place>, fill: SlotAddr -> byte)
    requires Device(items, places, fill).SetsDisjoint()
    ensures 0 < GEO.ClusterBytes() && SystemOk(Device(items, places, fill).Catalogue(), GEO, BM)
  {
    DeviceFits();
    hide Account.SlotOwn, Geometry.ClusterBytes, DivCeil, Run, NodeAt, PlaceAt, Account.SetsDisjoint;
    var b := Device(items, places, fill);
    assert b.chains.Keys == b.nodes.Keys + {ROOT, BITMAP, UPCASE};
  }

  /** A device whose nodes fit is well formed. */
  lemma DeviceReady(items: seq<Item>, places: seq<Place>, fill: SlotAddr -> byte)
    requires PlacesMatch(items, places) && Device(items, places, fill).SetsDisjoint() && 0 < GEO.ClusterBytes()
    requires forall k :: 3 <= k < 3 + |items| ==> Device(items, places, fill).Fitting(k)
    requires forall a :: fill(a) != ENTRY_FILE
    ensures Device(items, places, fill).WellFormed(SIZE)
  {
    DeviceFits();
    DevicePlaced(items, places, fill);
    DeviceSystem(items, places, fill);
    DeviceParts(items, places, fill);
    hide Device, PlacesMatch, Account.Catalogue, Account.SetsDisjoint, Geometry.ClusterBytes, Geometry.Fits, Placed, SystemOk, Account.Fitting;
  }

  lemma DeviceParts(items: seq<Item>, places: seq<Place>, fill: SlotAddr -> byte)
    ensures var b := Device(items, places, fill);
      && b.geo == GEO && b.bm == BM && b.upcase == [] && b.fill == fill
      && (forall k :: k in b.nodes <==> 3 <= k < 3 + |items|)
      && (forall k :: 3 <= k < 3 + |items| ==> b.nodes[k] == NodeAt(items, k))
      && (forall k :: k in b.chains <==> 0 <= k < 3 + |items|)
      && (forall k :: 0 <= k < 3 + |items| ==> b.chains[k] == ChainAt(items, k))
      && (forall c :: c in b.own <==> 2 <= c < 5 + |places|)
      && (forall c :: 2 <= c < 5 + |places| ==> b.own[c] == PlaceAt(places, c))
    ensures |places| <= 5 ==> forall c :: c in Device(items, places, fill).own ==> GEO.InRange(c)
  {
    hide ChainAt, NodeAt, PlaceAt;
  }

  // ---- The device mounted ----------------------------------------------------------------------------

  /** `fs` is the device of `b`, untouched. */
  ghost predicate Holds(fs: ExfatFs, b: Account)
    reads fs, fs.volume, fs.volume.disk
  {
    && b.WellFormed(SIZE) && b.SetsDisjoint() && b.AllRecordable() && fs.Valid()
    && fs.volume.vol == b.View() && fs.cat == b.Catalogue()
    && fs.volume.geo == b.geo == GEO && fs.volume.bm == b.bm == BM && fs.upcase == b.upcase == []
  }

  method Mount(b: Account) returns (fs: ExfatFs)
    requires b.WellFormed(SIZE) && b.geo == GEO && b.bm == BM && b.upcase == []
    ensures fresh(fs) && fresh(fs.volume) && fresh(fs.volume.disk) && Holds(fs, b)
  {
    hide Account.WellFormed, Account.SetsDisjoint, Account.AllRecordable, Account.View, Account.Catalogue, ExfatFs.Valid;
    fs := Realise(b, SIZE);
  }

  lemma Held(fs: ExfatFs, b: Account)
    requires Holds(fs, b)
    ensures fs.volume.Valid() && Consistent(fs.volume.vol, fs.cat, GEO, BM, []) && fs.cat.nodes == b.nodes && fs.cat.chains == b.chains
    ensures fs.volume.geo == GEO && fs.volume.bm == BM && fs.upcase == []
    ensures fs.cat.own == b.own && fs.cat.spare == {} && |fs.volume.vol.bits| == 10
    ensures fs.Valid() && b.SetsDisjoint() && b.AllRecordable()
  {
    fs.Parts();
    hide Volume.Valid, Consistent, Account.WellFormed, Account.SetsDisjoint, Account.AllRecordable, Account.View, Account.SlotOwn;
  }

  /** A directory of the device can be walked. */
  lemma Directory(fs: ExfatFs, b: Account, d: nat)
    requires Holds(fs, b) && fs.cat.IsDir(d)
    ensures d in fs.cat.chains && Walkable(fs.volume.vol, fs.cat, 1024, 32, [], d)
  {
    Held(fs, b);
    DeviceFits();
    hide Holds, Consistent, Volume.Valid, Walkable, Geometry.ClusterBytes, Geometry.Per;
    WalkableIs(fs.volume, fs.cat, fs.upcase, d);
  }

  /** A slot the device shows. */
  lemma HeldSlot(fs: ExfatFs, b: Account, a: SlotAddr)
    requires Holds(fs, b) && 2 <= a.cluster < 10 && a.index < 32
    ensures b.SetsDisjoint() && b.AllRecordable() && fs.volume.vol.Slot(a) == b.SlotOf(a) && |fs.volume.vol.Slot(a)| == 32
  {
    DeviceFits();
    hide Account.WellFormed, Account.SetsDisjoint, Account.AllRecordable, Account.View, Account.Catalogue, Account.SlotOf, Vol.Slot,
         Geometry.Per, ExfatFs.Valid;
    SlotShown(b, SIZE, a);
  }

  /** Slots of entry sets are in use; other slots show the first byte they were given. */
  lemma FirstByte(b: Account, a: SlotAddr)
    requires b.SetsDisjoint() && b.AllRecordable()
    ensures a in b.SlotOwn() ==> 0x80 <= b.SlotOf(a)[0]
    ensures a !in b.SlotOwn() ==> b.SlotOf(a)[0] == b.fill(a)
  {
    hide Encode;
    if a in b.SlotOwn() {
      var n := b.nodes[b.SlotOwn()[a]];
      SetByte(n.facts, b.upcase, a.index - n.start);
    }
  }

  /** Which slots lie in entry sets. */
  lemma InSet(b: Account, k: nat, x: nat)
    requires b.SetsDisjoint() && k in b.nodes && b.nodes[k].start <= x < b.nodes[k].start + b.nodes[k].Count()
    ensures SlotAddr(b.nodes[k].cluster, x) in b.SlotOwn()
  {
    assert b.nodes[k].Addr(x - b.nodes[k].start) in b.SlotOwn();
  }

  lemma InNoSet(b: Account, a: SlotAddr)
    requires b.SetsDisjoint()
    requires forall k :: k in b.nodes && b.nodes[k].cluster == a.cluster ==>
      !(b.nodes[k].start <= a.index < b.nodes[k].start + b.nodes[k].Count())
    ensures a !in b.SlotOwn()
  {
  }

  /** A slot of a node's entry set is in use. */
  lemma SetSlotBusy(fs: ExfatFs, b: Account, k: nat, x: nat)
    requires Holds(fs, b) && k in b.nodes && 2 <= b.nodes[k].cluster < 10 && x < 32
    requires b.nodes[k].start <= x < b.nodes[k].start + b.nodes[k].Count()
    ensures var s := fs.volume.vol.Slot(SlotAddr(b.nodes[k].cluster, x)); |s| == 32 && 0x80 <= s[0]
  {
    hide *;
    var a := SlotAddr(b.nodes[k].cluster, x);
    HeldSlot(fs, b, a);
    FirstByte(b, a);
    InSet(b, k, x);
  }

  /** A slot of no entry set shows the first byte it was given. */
  lemma OtherSlot(fs: ExfatFs, b: Account, a: SlotAddr)
    requires Holds(fs, b) && 2 <= a.cluster < 10 && a.index < 32
    requires forall k :: k in b.nodes && b.nodes[k].cluster == a.cluster ==>
      !(b.nodes[k].start <= a.index < b.nodes[k].start + b.nodes[k].Count())
    ensures var s := fs.volume.vol.Slot(a); |s| == 32 && s[0] == b.fill(a)
  {
    hide *;
    HeldSlot(fs, b, a);
    FirstByte(b, a);
    InNoSet(b, a);
  }

  lemma PlainName(name: Name)
    ensures UpName([], name) == name
  {
  }

  /** The one visible node of its name in a directory is what a search finds. */
  lemma FoundAlone(v: Vol, cat: Cat, d: nat, k: nat)
    requires Walkable(v, cat, 1024, 32, [], d) && d in cat.chains && k in cat.nodes && cat.nodes[k].parent == d && Visible(v, cat, 32, k)
    requires forall k' :: k' in cat.nodes && cat.nodes[k'].parent == d && cat.nodes[k'].facts.name == cat.nodes[k].facts.name ==> k' == k
    ensures Find(v, cat, 32, [], d, cat.nodes[k].facts.name) == Some(k)
  {
    hide *;
    var name := cat.nodes[k].facts.name;
    FindMeans(v, cat, 1024, 32, [], d, name);
    PlainName(name);
    var r := Find(v, cat, 32, [], d, name);
    if r.Some? {
      PlainName(cat.nodes[r.value].facts.name);
    }
  }

  lemma NotThere(v: Vol, cat: Cat, d: nat, name: Name)
    requires Walkable(v, cat, 1024, 32, [], d) && d in cat.chains
    requires forall k :: k in cat.nodes && cat.nodes[k].parent == d ==> cat.nodes[k].facts.name != name
    ensures Find(v, cat, 32, [], d, name) == None
  {
    hide *;
    FindMeans(v, cat, 1024, 32, [], d, name);
    PlainName(name);
    var r := Find(v, cat, 32, [], d, name);
    if r.Some? {
      PlainName(cat.nodes[r.value].facts.name);
    }
  }

  /** A node in the first cluster of its directory, behind slots that do not end it, is visible. */
  lemma VisibleFirst(v: Vol, cat: Cat, d: nat, k: nat)
    requires Walkable(v, cat, 1024, 32, [], d) && d in cat.chains && k in cat.nodes && cat.nodes[k].parent == d
    requires cat.chains[d] != [] && cat.nodes[k].cluster == cat.chains[d][0] && cat.nodes[k].start <= 32
    requires forall x: nat :: x < cat.nodes[k].start ==>
      |v.Slot(SlotAddr(cat.nodes[k].cluster, x))| == SLOT && v.Slot(SlotAddr(cat.nodes[k].cluster, x))[0] != ENTRY_END
    ensures Visible(v, cat, 32, k)
  {
    hide NodesOk, SlotsOwned, Addrs, Vol.Slot;
    var addrs := Addrs(cat.chains[d], 32);
    AddrsSize(cat.chains[d], 32);
    assert cat.own[cat.chains[d][0]] == Place(d, 0);
    forall x: nat | x < cat.nodes[k].start && x < |addrs|
      ensures SlotsAt(v, addrs)[x][0] != ENTRY_END
    {
      DirSlotAddr(cat, d, 32, x);
      assert addrs[x] == SlotAddr(cat.nodes[k].cluster, x);
    }
  }

  /** `k` stands alone under its name in directory `d`, in its first cluster, behind slots that do not end it. */
  ghost predicate StandsAlone(b: Account, d: nat, k: nat)
    requires b.SetsDisjoint()
  {
    && k in b.nodes && b.nodes[k].parent == d && d in b.chains && b.chains[d] != [] && b.nodes[k].cluster == b.chains[d][0]
    && b.nodes[k].cluster < 10 && 2 <= b.nodes[k].cluster && b.nodes[k].start <= 32
    && (forall x: nat {:trigger SlotAddr(b.nodes[k].cluster, x)} :: x < b.nodes[k].start ==>
          SlotAddr(b.nodes[k].cluster, x) in b.SlotOwn() || b.fill(SlotAddr(b.nodes[k].cluster, x)) != 0)
    && (forall k' :: k' in b.nodes && b.nodes[k'].parent == d && b.nodes[k'].facts.name == b.nodes[k].facts.name ==> k' == k)
  }

  /** The first entry of the root, right behind the system's slots. */
  lemma FirstInRoot(b: Account, k: nat)
    requires b.SetsDisjoint() && k in b.nodes && b.nodes[k].parent == 0 && b.nodes[k].cluster == 2 && b.nodes[k].start == 3
    requires 0 in b.chains && b.chains[0] == [2] && forall a: SlotAddr :: a.cluster == 2 ==> b.fill(a) == SystemSlots(a)
    requires forall k' :: k' in b.nodes && b.nodes[k'].parent == 0 && b.nodes[k'].facts.name == b.nodes[k].facts.name ==> k' == k
    ensures StandsAlone(b, 0, k)
  {
    hide Account.SlotOwn, Account.SetsDisjoint;
    forall x: nat | x < 3
      ensures b.fill(SlotAddr(2, x)) != 0
    {
      assert b.fill(SlotAddr(2, x)) == SystemSlots(SlotAddr(2, x));
    }
  }

  lemma FindsAlone(fs: ExfatFs, b: Account, d: nat, k: nat)
    requires Holds(fs, b) && b.SetsDisjoint() && StandsAlone(b, d, k) && fs.cat.IsDir(d)
    ensures fs.FindIn(d, b.nodes[k].facts.name) == Some(k)
  {
    Held(fs, b);
    Directory(fs, b, d);
    DeviceFits();
    hide Holds, Consistent, Volume.Valid, Walkable, Find, Visible, Account.SlotOwn, Account.SlotOf, Vol.Slot, Geometry.Per, Account.SetsDisjoint,
         Account.AllRecordable;
    forall x: nat | x < b.nodes[k].start
      ensures var a := SlotAddr(b.nodes[k].cluster, x); |fs.volume.vol.Slot(a)| == SLOT && fs.volume.vol.Slot(a)[0] != ENTRY_END
    {
      HeldSlot(fs, b, SlotAddr(b.nodes[k].cluster, x));
      FirstByte(b, SlotAddr(b.nodes[k].cluster, x));
    }
    VisibleFirst(fs.volume.vol, fs.cat, d, k);
    FoundAlone(fs.volume.vol, fs.cat, d, k);
  }

  lemma FindsNothing(fs: ExfatFs, b: Account, d: nat, name: Name)
    requires Holds(fs, b) && fs.cat.IsDir(d)
    requires forall k :: k in b.nodes && b.nodes[k].parent == d ==> b.nodes[k].facts.name != name
    ensures fs.FindIn(d, name) == None
  {
    Held(fs, b);
    Directory(fs, b, d);
    DeviceFits();
    hide Holds, Consistent, Volume.Valid, Walkable, Find, Geometry.Per;
    NotThere(fs.volume.vol, fs.cat, d, name);
  }

  /** What a path of one component names. */
  lemma RootPath(fs: ExfatFs, name: Name)
    ensures fs.ParentAt([name]) == Ok(0)
    ensures fs.NodeAt([name]) == match fs.FindIn(0, name) { case None => Err(NotFound) case Some(k) => Ok(k) }
  {
    hide Find;
    assert [name][..0] == [];
  }

  ghost function ResolvedFrom(fs: ExfatFs, d: nat, path: seq<Name>): Result<nat>
    reads fs, fs.volume
  {
    Resolve(fs.volume.vol, fs.cat, fs.volume.geo.Per(), fs.upcase, d, path)
  }

  lemma DownOne(fs: ExfatFs, d: nat, path: seq<Name>, e: nat)
    requires path != [] && fs.FindIn(d, path[0]) == Some(e) && fs.cat.IsDir(e)
    ensures ResolvedFrom(fs, d, path) == ResolvedFrom(fs, e, path[1..])
    ensures |path| == 1 ==> ResolvedFrom(fs, d, path) == Ok(e)
  {
    hide Find;
  }

  lemma PathIs(fs: ExfatFs, path: seq<Name>)
    requires path != []
    ensures fs.ParentAt(path) == ResolvedFrom(fs, 0, path[..|path| - 1])
    ensures var p := fs.ParentAt(path); p.Ok? ==>
      fs.NodeAt(path) == match fs.FindIn(p.value, path[|path| - 1]) { case None => Err(NotFound) case Some(k) => Ok(k) }
  {
    hide Find, Resolve;
  }

  /** What a path below a directory in the root names. */
  lemma SubPath(fs: ExfatFs, top: Name, d: nat, name: Name)
    requires fs.FindIn(0, top) == Some(d) && fs.cat.IsDir(d)
    ensures fs.ParentAt([top, name]) == Ok(d)
    ensures fs.NodeAt([top, name]) == match fs.FindIn(d, name) { case None => Err(NotFound) case Some(k) => Ok(k) }
  {
    hide *;
    assert [top, name][..1] == [top];
    DownOne(fs, 0, [top], d);
    PathIs(fs, [top, name]);
  }

  lemma SubSubPath(fs: ExfatFs, top: Name, d: nat, sub: Name, e: nat, name: Name)
    requires fs.FindIn(0, top) == Some(d) && fs.cat.IsDir(d) && fs.FindIn(d, sub) == Some(e) && fs.cat.IsDir(e)
    ensures fs.ParentAt([top, sub, name]) == Ok(e)
    ensures fs.NodeAt([top, sub, name]) == match fs.FindIn(e, name) { case None => Err(NotFound) case Some(k) => Ok(k) }
  {
    hide *;
    assert [top, sub, name][..2] == [top, sub] && [top, sub][1..] == [sub];
    DownOne(fs, 0, [top, sub], d);
    DownOne(fs, d, [sub], e);
    PathIs(fs, [top, sub, name]);
  }
}
