/** Loading an up-case table from a device, said about the bytes of the device: the map that was written is the
    map that is read, wherever on the heap its clusters lie. */
module TableLoadings {
  import opened Boots
  import opened Bytes
  import opened EntrySets
  import opened FileData
  import opened Formats
  import opened Geometries
  import opened Layouts
  import opened Openings
  import opened UpcaseTables

  /** The FAT word of cluster `c` lies on the device and is `next`. */
  ghost predicate LinkIs(img: seq<byte>, g: Geometry, c: nat, next: nat)
  {
    g.FatBase() + 4 * c + 4 <= |img| && Value4(img, g.FatBase() + 4 * c) == next
  }

  ghost predicate LinksTo(img: seq<byte>, g: Geometry, c: nat, next: nat)
  {
    LinkIs(img, g, c, next) && next != 0xFFFF_FFFF && next != 0xFFFF_FFF7
  }

  /** The clusters of `ch` are linked in this order, and none of them is marked bad or, but for the last, as the end. */
  ghost predicate Linked(img: seq<byte>, g: Geometry, ch: seq<nat>)
  {
    && (forall i :: 0 <= i < |ch| ==> g.InRange(ch[i]) && g.FatBase() + 4 * ch[i] + 4 <= |img|)
    && (forall i :: 0 <= i < |ch| - 1 ==> LinksTo(img, g, ch[i], ch[i + 1]))
    && (ch != [] ==> !LinkIs(img, g, ch[|ch| - 1], 0xFFFF_FFF7))
  }

  /** Byte `j` of `raw` is the byte at this place of the `j / cb`-th cluster. */
  ghost predicate LiesAlong(img: seq<byte>, g: Geometry, ch: seq<nat>, raw: seq<byte>)
    requires 0 < g.ClusterBytes()
  {
    var cb := g.ClusterBytes();
    forall j :: 0 <= j < |raw| ==> ByteAt(img, g, ch, cb, j, raw[j])
  }

  ghost predicate ByteAt(img: seq<byte>, g: Geometry, ch: seq<nat>, cb: nat, j: nat, b: byte)
    requires 0 < cb
  {
    && j / cb < |ch| && 2 <= ch[j / cb]
    && g.HeapBase() + (ch[j / cb] - 2) * cb + j % cb < |img|
    && img[g.HeapBase() + (ch[j / cb] - 2) * cb + j % cb] == b
  }

  // ---- The walk --------------------------------------------------------------------------------

  lemma EntryOfLink(img: seq<byte>, g: Geometry, c: nat)
    requires g.InRange(c) && g.FatBase() + 4 * c + 4 <= |img|
    ensures RawEntry(img, g, c) == Ok(Value4(img, g.FatBase() + 4 * c))
  {
    FromLeIsValue4(img, g.FatBase() + 4 * c);
    hide FromLe, Value4, Geometry.FatBase;
  }

  lemma LinkedTail(img: seq<byte>, g: Geometry, ch: seq<nat>)
    requires Linked(img, g, ch) && ch != []
    ensures Linked(img, g, ch[1..])
  {
    hide LinkIs, LinksTo, Geometry.FatBase, Geometry.InRange;
    var t := ch[1..];
    assert forall i :: 0 <= i < |t| ==> t[i] == ch[i + 1];
    forall i | 0 <= i < |t| - 1
      ensures LinksTo(img, g, t[i], t[i + 1])
    {
      assert t[i] == ch[i + 1] && t[i + 1] == ch[i + 1 + 1];
    }
  }

  /** Reading a linked list of known length gives that list. */
  lemma {:induction false} WalksLinked(img: seq<byte>, g: Geometry, ch: seq<nat>, first: nat)
    requires Linked(img, g, ch) && (ch != [] ==> ch[0] == first)
    ensures RawWalk(img, g, first, |ch|, true) == Ok(ch)
    decreases |ch|
  {
    hide RawEntry, Value4, Geometry.FatBase;
    if ch != [] {
      EntryOfLink(img, g, first);
      if |ch| == 1 {
        WalkEnds(img, g, first, Value4(img, g.FatBase() + 4 * first));
        assert ch == [first];
      } else {
        LinkedTail(img, g, ch);
        assert LinksTo(img, g, ch[0], ch[1]);
        WalksLinked(img, g, ch[1..], ch[1]);
        assert [first] + ch[1..] == ch;
      }
    }
  }

  lemma WalkEnds(img: seq<byte>, g: Geometry, c: nat, next: nat)
    requires RawEntry(img, g, c) == Ok(next) && next != 0xFFFF_FFF7
    ensures RawWalk(img, g, c, 1, true) == Ok([c])
  {
    hide RawEntry;
    assert RawWalk(img, g, next, 0, true) == Ok([]);
    assert [c] + [] == [c];
  }

  // ---- The bytes -------------------------------------------------------------------------------

  lemma HeadBytes(img: seq<byte>, g: Geometry, ch: seq<nat>, raw: seq<byte>, n: nat)
    requires 0 < g.ClusterBytes() && LiesAlong(img, g, ch, raw) && raw != [] && n == Min(g.ClusterBytes(), |raw|)
    requires ch != [] && g.InRange(ch[0])
    ensures RawCluster(img, g, ch[0], n) == Ok(raw[..n])
  {
    hide Geometry.ClusterBytes, Geometry.HeapBase;
    var at := g.ClusterStart(ch[0]);
    HeadByte(img, g, ch, raw, n, n - 1);
    var part := img[at..at + n];
    forall j: nat | j < n
      ensures part[j] == raw[j]
    {
      HeadByte(img, g, ch, raw, n, j);
    }
    assert part == raw[..n];
  }

  lemma HeadByte(img: seq<byte>, g: Geometry, ch: seq<nat>, raw: seq<byte>, n: nat, j: nat)
    requires 0 < g.ClusterBytes() && LiesAlong(img, g, ch, raw) && j < n == Min(g.ClusterBytes(), |raw|)
    requires ch != [] && g.InRange(ch[0])
    ensures g.ClusterStart(ch[0]) + j < |img| && img[g.ClusterStart(ch[0]) + j] == raw[j]
  {
    hide Geometry.ClusterBytes, Geometry.HeapBase;
    DivModUnique(0, g.ClusterBytes(), j);
    assert ByteAt(img, g, ch, g.ClusterBytes(), j, raw[j]);
  }

  lemma TailBytes(img: seq<byte>, g: Geometry, ch: seq<nat>, raw: seq<byte>)
    requires 0 < g.ClusterBytes() < |raw| && LiesAlong(img, g, ch, raw) && ch != []
    ensures LiesAlong(img, g, ch[1..], raw[g.ClusterBytes()..])
  {
    hide Geometry.ClusterBytes, Geometry.HeapBase;
    var cb := g.ClusterBytes();
    var t := raw[cb..];
    forall j | 0 <= j < |t|
      ensures ByteAt(img, g, ch[1..], cb, j, t[j])
    {
      DivMod(j, cb);
      BlocksEnd(j / cb, 1, cb);
      DivModUnique(j / cb + 1, cb, j % cb);
      assert ByteAt(img, g, ch, cb, j + cb, raw[j + cb]);
    }
  }

  /** The bytes gathered from the clusters are the ones that lie along them. */
  lemma {:induction false} GathersBytes(img: seq<byte>, g: Geometry, ch: seq<nat>, raw: seq<byte>)
    requires 0 < g.ClusterBytes() && LiesAlong(img, g, ch, raw)
    requires forall i :: 0 <= i < |ch| ==> g.InRange(ch[i])
    ensures Gather(img, g, ch, |raw|) == Ok(raw)
    decreases |ch|
  {
    hide Geometry.ClusterBytes, RawCluster, LiesAlong;
    var cb := g.ClusterBytes();
    if raw == [] {
      assert Zeros(0) == [];
    } else {
      SomeCluster(img, g, ch, raw);
      var n := Min(cb, |raw|);
      HeadBytes(img, g, ch, raw, n);
      if cb < |raw| {
        TailBytes(img, g, ch, raw);
      } else {
        NothingLies(img, g, ch[1..]);
        assert raw[n..] == [];
      }
      GathersBytes(img, g, ch[1..], raw[n..]);
      assert raw[..n] + raw[n..] == raw;
    }
  }

  lemma SomeCluster(img: seq<byte>, g: Geometry, ch: seq<nat>, raw: seq<byte>)
    requires 0 < g.ClusterBytes() && LiesAlong(img, g, ch, raw) && raw != []
    ensures ch != []
  {
    assert ByteAt(img, g, ch, g.ClusterBytes(), 0, raw[0]);
  }

  lemma NothingLies(img: seq<byte>, g: Geometry, ch: seq<nat>)
    requires 0 < g.ClusterBytes()
    ensures LiesAlong(img, g, ch, [])
  {
  }

  // ---- Round trip ------------------------------------------------------------------------------

  /** A map whose compressed table lies, low byte first, along a linked list of clusters is loaded from it. */
  lemma LoadsMap(img: seq<byte>, g: Geometry, ch: seq<nat>, first: nat, t: seq<u16>, least: nat)
    requires 0 < g.ClusterBytes() && Storable(t)
    requires Linked(img, g, ch) && (ch != [] ==> ch[0] == first)
    requires LiesAlong(img, g, ch, UnitBytes(Compress(t, 0, least)))
    requires |ch| == DivCeil(|UnitBytes(Compress(t, 0, least))|, g.ClusterBytes())
    ensures LoadTable(img, g, first, |UnitBytes(Compress(t, 0, least))|) == Ok(t)
  {
    hide Geometry.ClusterBytes, RawWalk, Gather, LiesAlong, Storable, Words, Expand, Compress, UnitBytes, DivCeil;
    var raw := UnitBytes(Compress(t, 0, least));
    assert |t| <= 0x1_0000 by { SmallMap(t); }
    WalksLinked(img, g, ch, first);
    GathersBytes(img, g, ch, raw);
    BytesLoad(t, least);
  }

  lemma SmallMap(t: seq<u16>)
    requires Storable(t)
    ensures |t| <= 0x1_0000
  {
  }

  /** A device whose root records that table opens with that map. */
  lemma OpensMap(img: seq<byte>, g: Geometry, ch: seq<nat>, first: nat, t: seq<u16>, least: nat)
    requires BootGeometry(img) == Ok(g) && 0 < g.ClusterBytes() && Storable(t)
    requires FindSystem(img, g, ENTRY_UPCASE) == Ok(Some((first, |UnitBytes(Compress(t, 0, least))|)))
    requires Linked(img, g, ch) && (ch != [] ==> ch[0] == first)
    requires LiesAlong(img, g, ch, UnitBytes(Compress(t, 0, least)))
    requires |ch| == DivCeil(|UnitBytes(Compress(t, 0, least))|, g.ClusterBytes())
    ensures Opened(img).Ok? ==> Opened(img).value.upcase == t
    ensures FindSystem(img, g, ENTRY_BITMAP).Ok? ==> Opened(img).Ok?
  {
    LoadsMap(img, g, ch, first, t, least);
    hide BootGeometry, FindSystem, LoadTable, Linked, LiesAlong, Storable, Compress, UnitBytes, DivCeil;
  }

  /** A device formatted with the table of a map opens with that map. */
  lemma FormattedMapOpens(totalBytes: nat, img: seq<byte>, l: Layout, serial: nat, t: seq<u16>, least: nat)
    requires Plan(totalBytes) == Ok(l) && l.clusterCount <= 0xFFFF_FFF5 && |img| == totalBytes && Storable(t)
    requires |UnitBytes(Compress(t, 0, least))| == UPCASE_LEN
    requires Formatted(img, l, serial, UnitBytes(Compress(t, 0, least)))
    ensures Opened(img) == Ok(Opening(l.Geo(), t, Some(BitmapLoc(2, l.bitmapBytes))))
  {
    FormatThenOpen(totalBytes, img, l, serial, UnitBytes(Compress(t, 0, least)));
    BytesLoad(t, least);
    hide Opened, Formatted, Compress, UnitBytes, Words, Expand, Storable, Plan;
  }
}
