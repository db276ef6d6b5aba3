/** From a blank device to a mounted, empty file system: the state every run of operations starts from. */
module Mounts {
  import opened Bytes
  import opened Catalogues
  import opened Directories
  import opened Disks
  import opened EntrySets
  import opened ExfatFileSystem
  import opened Formats
  import opened FreshVolumes
  import opened Geometries
  import opened Layouts
  import opened Listings
  import opened Openings
  import opened UpcaseTables
  import opened Volumes

  /** Formats a device and opens it. Whatever its size, if the formatter accepts it and the table expands,
      the mounted volume satisfies the invariant that every operation keeps, and its root lists empty. */
  method FormatAndOpen(disk: Disk, totalBytes: nat, serial: nat, table: seq<byte>) returns (r: Result<ExfatFs>)
    requires disk.Valid() && |disk.bytes| == totalBytes && |table| == UPCASE_LEN
    requires Plan(totalBytes).Ok? ==> Plan(totalBytes).value.clusterCount <= 0xFFFF_FFF5
    modifies disk
    ensures Plan(totalBytes).Err? ==> r.Err? && disk.bytes == old(disk.bytes)
    ensures Plan(totalBytes).Ok? ==> (r.Ok? <==> Expand(Words(table), []).Ok?)
    ensures r.Ok? ==>
      && fresh(r.value) && fresh(r.value.volume) && r.value.volume.disk == disk && r.value.Valid()
      && Plan(totalBytes).Ok? && r.value.volume.geo == Plan(totalBytes).value.Geo()
      && r.value.volume.bm == Plan(totalBytes).value.Bitmap() && Ok(r.value.upcase) == Expand(Words(table), [])
      && r.value.cat.nodes == map[] && ListsEmpty(r.value.volume.vol, r.value.cat, r.value.volume.geo.Per())
    ensures forall t, least: nat :: Plan(totalBytes).Ok? && Storable(t) && table == UnitBytes(Compress(t, 0, least)) ==>
      r.Ok? && r.value.upcase == t
  {
    WrittenMaps(table);
    hide *;
    var done := Format(disk, totalBytes, serial, table);
    if done.Err? {
      return Err(done.error);
    }
    ghost var l := Plan(totalBytes).value;
    FormatThenOpen(totalBytes, disk.bytes, l, serial, table);
    var opening := Openings.Open(disk);
    if opening.Err? {
      return Err(opening.error);
    }
    FreshIsConsistent(totalBytes, disk.bytes, l, serial, table, opening.value.upcase);
    ClustersLarge(l);
    ghost var view := VolOf(disk.bytes, l.Geo(), l.Bitmap());
    var volume := new Volume(disk, opening.value.geo, opening.value.bitmap.value, view);
    FreshListsEmpty(volume, l, opening.value.upcase);
    var fs := new ExfatFs(volume, opening.value.upcase, FreshCat(l));
    return Ok(fs);
  }

  /** Every map whose compressed table this is, is what the table loads as. */
  lemma WrittenMaps(table: seq<byte>)
    ensures forall t, least: nat :: Storable(t) && table == UnitBytes(Compress(t, 0, least)) ==> Expand(Words(table), []) == Ok(t)
  {
    forall t: seq<u16>, least: nat | Storable(t) && table == UnitBytes(Compress(t, 0, least))
      ensures Expand(Words(table), []) == Ok(t)
    {
      BytesLoad(t, least);
    }
  }

  /** The reader reports no entry in the root. */
  ghost predicate ListsEmpty(v: Vol, cat: Cat, per: nat)
  {
    && ROOT in cat.chains && Slots(SlotsAt(v, Addrs(cat.chains[ROOT], per)))
    && Listing(v, cat.chains[ROOT], per, 0xFFFF_FFFF_FFFF_FFFF) == Ok([])
  }

  lemma ClustersLarge(l: Layout)
    ensures MIN_CLUSTER <= l.Geo().ClusterBytes() <= 0x2_0000
  {
  }

  lemma FreshListsEmpty(volume: Volume, l: Layout, upcase: seq<u16>)
    requires volume.Valid() && volume.geo == l.Geo() && volume.bm == l.Bitmap()
    requires Consistent(volume.vol, FreshCat(l), l.Geo(), l.Bitmap(), upcase)
    ensures ListsEmpty(volume.vol, FreshCat(l), volume.geo.Per())
    ensures FreshCat(l).nodes == map[]
  {
    hide *;
    var cat, v, g := FreshCat(l), volume.vol, volume.geo;
    FreshCatIs(l);
    ClustersLarge(l);
    volume.Sizes();
    WalkableIs(volume, cat, upcase, 0);
    WalkableSlots(v, cat, g.ClusterBytes(), g.Per(), upcase, 0);
    CoversSlots(cat.chains[0], g.Per(), g.ClusterBytes(), 0xFFFF_FFFF_FFFF_FFFF);
    DirectoryLists(v, cat, g.ClusterBytes(), g.Per(), upcase, 0, 0xFFFF_FFFF_FFFF_FFFF);
    var ks := NodesFrom(v, cat, g.Per(), 0, 0);
    SomeIn(ks, cat.nodes);
    EmptyListing(cat);
    ListsEmptyIs(v, cat, g.Per());
  }

  lemma SomeIn<T>(ks: seq<nat>, nodes: map<nat, T>)
    requires forall j :: 0 <= j < |ks| ==> ks[j] in nodes
    ensures |ks| > 0 ==> nodes != map[]
  {
    if |ks| > 0 {
      assert ks[0] in nodes;
    }
  }

  lemma FreshCatIs(l: Layout)
    ensures FreshCat(l).nodes == map[] && FreshCat(l).IsDir(0) && ROOT == 0 && SLOT == 32
    ensures 0 in FreshCat(l).chains && |FreshCat(l).chains[0]| == 1
  {
  }

  lemma ListsEmptyIs(v: Vol, cat: Cat, per: nat)
    requires 0 in cat.chains && Slots(SlotsAt(v, Addrs(cat.chains[0], per)))
    requires Listing(v, cat.chains[0], per, 0xFFFF_FFFF_FFFF_FFFF) == Ok([])
    ensures ListsEmpty(v, cat, per)
  {
  }
}
