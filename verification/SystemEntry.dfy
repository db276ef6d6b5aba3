/** The search for the volume's own entries, said about the bytes of the device: the first slot of the root that ends
    it or records what is wanted decides, and the place it records is the one that is used. */
module SystemEntries {
  import opened Boots
  import opened Bytes
  import opened Geometries
  import opened Openings
  import opened TableLoadings
  import opened Volumes

  /** The slot at `at` records a system structure; of the allocation bitmaps only the first is wanted, whose flags
      are even (section 7.1.2 of the exFAT specification). */
  ghost predicate Records(s: seq<byte>, at: nat, kind: byte)
    requires at + 32 <= |s|
  {
    s[at] == kind && (kind == 0x81 ==> s[at + 1] % 2 == 0)
  }

  ghost predicate StopsAt(s: seq<byte>, at: nat, kind: byte)
    requires at + 32 <= |s|
  {
    s[at] == 0 || Records(s, at, kind)
  }

  /** What the slot at `at` decides. */
  function Decides(s: seq<byte>, at: nat): Scan
    requires at + 32 <= |s|
  {
    if s[at] == 0 then End else Hit(Value4(s, at + 20), Value8(s, at + 24))
  }

  // ---- One cluster -----------------------------------------------------------------------------

  lemma SlotDecides(slot: seq<byte>, s: seq<byte>, at: nat, kind: byte)
    requires |slot| == 32 && at + 32 <= |s| && s[at..at + 32] == slot
    ensures slot[0] == s[at] && (slot[0] != 0 ==> (Wanted(slot, kind) <==> Records(s, at, kind)))
    ensures s[at] != 0 ==> Decides(s, at) == Hit(EntrySets.Field(slot, 20, 4), EntrySets.Field(slot, 24, 8))
  {
    SliceOfSlice(s, at, at + 32, 20, 4);
    SliceOfSlice(s, at, at + 32, 24, 8);
    FromLeIsValue4(s, at + 20);
    FromLeIsValue8(s, at + 24);
    hide Bytes.FromLe, Value4, Value8;
  }

  lemma {:induction false} ScanStops(s: seq<byte>, kind: byte, i: nat, j: nat)
    requires i <= j && 32 * j + 32 <= |s| && StopsAt(s, 32 * j, kind)
    requires forall x: nat :: i <= x < j ==> !StopsAt(s, 32 * x, kind)
    ensures ScanSlots(s[32 * i..], kind) == Decides(s, 32 * j)
    decreases j - i
  {
    hide StopsAt, Decides, Wanted, EntrySets.Field;
    ScanOne(s, kind, i);
    if i < j {
      assert !StopsAt(s, 32 * i, kind);
      ScanStops(s, kind, i + 1, j);
    }
  }

  lemma ScanOne(s: seq<byte>, kind: byte, i: nat)
    requires 32 * i + 32 <= |s|
    ensures ScanSlots(s[32 * i..], kind)
         == if StopsAt(s, 32 * i, kind) then Decides(s, 32 * i) else ScanSlots(s[32 * (i + 1)..], kind)
  {
    hide Decides, Wanted, EntrySets.Field, Records;
    var t := s[32 * i..];
    assert t[..32] == s[32 * i..32 * i + 32];
    assert t[32..] == s[32 * (i + 1)..];
    SlotDecides(t[..32], s, 32 * i, kind);
    if t[0] == 0 {
      DecidesEnd(s, 32 * i);
    }
  }

  lemma DecidesEnd(s: seq<byte>, at: nat)
    requires at + 32 <= |s| && s[at] == 0
    ensures Decides(s, at) == End
  {
  }

  /** Nothing in the slots from the `i`-th on stops the search. */
  lemma {:induction false} ScanPasses(s: seq<byte>, kind: byte, i: nat)
    requires 32 * i <= |s|
    requires forall x: nat :: i <= x && 32 * x + 32 <= |s| ==> !StopsAt(s, 32 * x, kind)
    ensures ScanSlots(s[32 * i..], kind) == Further
    decreases |s| - 32 * i
  {
    hide StopsAt, Decides, Wanted, EntrySets.Field;
    if 32 * i + 32 <= |s| {
      ScanOne(s, kind, i);
      assert !StopsAt(s, 32 * i, kind);
      ScanPasses(s, kind, i + 1);
    }
  }

  // ---- The root --------------------------------------------------------------------------------

  /** Cluster `c` lies on the device as a whole. */
  ghost predicate OnDevice(img: seq<byte>, g: Geometry, c: nat)
  {
    g.InRange(c) && g.HeapBase() + (c - 2) * g.ClusterBytes() + g.ClusterBytes() <= |img|
  }

  /** The `j`-th slot of cluster `c` stops the search. */
  ghost predicate SlotStops(img: seq<byte>, g: Geometry, c: nat, j: nat, kind: byte)
    requires OnDevice(img, g, c) && 32 * j + 32 <= g.ClusterBytes()
  {
    StopsAt(img, g.HeapBase() + (c - 2) * g.ClusterBytes() + 32 * j, kind)
  }

  /** No slot of cluster `c` below the `n`-th stops the search. */
  ghost predicate Passes(img: seq<byte>, g: Geometry, c: nat, n: nat, kind: byte)
    requires OnDevice(img, g, c)
  {
    forall j: nat :: j < n && 32 * j + 32 <= g.ClusterBytes() ==> !SlotStops(img, g, c, j, kind)
  }

  /** The search passes the first `n` clusters of the root. */
  ghost predicate PassesAll(img: seq<byte>, g: Geometry, ch: seq<nat>, n: nat, kind: byte)
    requires n <= |ch|
  {
    forall i :: 0 <= i < n ==> OnDevice(img, g, ch[i]) && Passes(img, g, ch[i], g.ClusterBytes(), kind)
  }

  lemma SameSlot(img: seq<byte>, at: nat, n: nat, x: nat, kind: byte)
    requires at + n <= |img| && x + 32 <= n
    ensures StopsAt(img[at..at + n], x, kind) == StopsAt(img, at + x, kind)
    ensures Decides(img[at..at + n], x) == Decides(img, at + x)
  {
    SliceOfSlice(img, at, at + n, x, 32);
    var t := img[at..at + n];
    SlotDecides(t[x..x + 32], t, x, kind);
    SlotDecides(t[x..x + 32], img, at + x, kind);
    assert t[x] == img[at + x] && t[x + 1] == img[at + x + 1];
    hide Value4, Value8;
  }

  /** A cluster that stops the search at its `j`-th slot. */
  lemma ClusterStops(img: seq<byte>, g: Geometry, c: nat, j: nat, kind: byte)
    requires OnDevice(img, g, c) && 32 * j + 32 <= g.ClusterBytes()
    requires SlotStops(img, g, c, j, kind) && Passes(img, g, c, j, kind)
    ensures RawCluster(img, g, c, g.ClusterBytes()).Ok?
    ensures ScanSlots(RawCluster(img, g, c, g.ClusterBytes()).value, kind)
         == Decides(img, g.HeapBase() + (c - 2) * g.ClusterBytes() + 32 * j)
  {
    hide StopsAt, Decides, ScanSlots, Geometry.HeapBase, Geometry.ClusterBytes;
    var at, n := g.ClusterStart(c), g.ClusterBytes();
    var t := img[at..at + n];
    forall x: nat | x <= j
      ensures StopsAt(t, 32 * x, kind) == SlotStops(img, g, c, x, kind)
    {
      SameSlot(img, at, n, 32 * x, kind);
    }
    SameSlot(img, at, n, 32 * j, kind);
    ScanStops(t, kind, 0, j);
    assert t[32 * 0..] == t;
  }

  lemma ClusterPasses(img: seq<byte>, g: Geometry, c: nat, kind: byte)
    requires OnDevice(img, g, c) && Passes(img, g, c, g.ClusterBytes(), kind)
    ensures RawCluster(img, g, c, g.ClusterBytes()).Ok?
    ensures ScanSlots(RawCluster(img, g, c, g.ClusterBytes()).value, kind) == Further
  {
    hide StopsAt, Decides, ScanSlots, Geometry.HeapBase, Geometry.ClusterBytes;
    var at, n := g.ClusterStart(c), g.ClusterBytes();
    var t := img[at..at + n];
    forall x: nat | 32 * x + 32 <= n
      ensures !StopsAt(t, 32 * x, kind)
    {
      SameSlot(img, at, n, 32 * x, kind);
      assert !SlotStops(img, g, c, x, kind);
    }
    ScanPasses(t, kind, 0);
    assert t[32 * 0..] == t;
  }

  lemma {:induction false} ChainPasses(img: seq<byte>, g: Geometry, ch: seq<nat>, n: nat, kind: byte)
    requires n <= |ch| && PassesAll(img, g, ch, n, kind)
    ensures ScanChain(img, g, ch, kind) == ScanChain(img, g, ch[n..], kind)
    decreases n
  {
    hide OnDevice, Passes, RawCluster, ScanSlots, Geometry.ClusterBytes;
    if n > 0 {
      ClusterPasses(img, g, ch[0], kind);
      var t := ch[1..];
      assert forall i :: 0 <= i < n - 1 ==> t[i] == ch[i + 1];
      ChainPasses(img, g, t, n - 1, kind);
      assert t[n - 1..] == ch[n..];
    } else {
      assert ch[0..] == ch;
    }
  }

  // ---- The chain of the root -------------------------------------------------------------------

  /** The clusters of the root are linked and the last is marked as the end. */
  ghost predicate RootIs(img: seq<byte>, g: Geometry, ch: seq<nat>)
  {
    && Linked(img, g, ch) && 0 < |ch| <= g.clusterCount && ch[0] == g.rootFirstCluster
    && LinkIs(img, g, ch[|ch| - 1], 0xFFFF_FFFF)
  }

  lemma {:induction false} WalksToEnd(img: seq<byte>, g: Geometry, ch: seq<nat>, cap: nat)
    requires Linked(img, g, ch) && 0 < |ch| <= cap && LinkIs(img, g, ch[|ch| - 1], 0xFFFF_FFFF)
    ensures RawWalk(img, g, ch[0], cap, false) == Ok(ch)
    decreases |ch|
  {
    hide RawEntry, Value4, Geometry.FatBase;
    EntryOfLink(img, g, ch[0]);
    if |ch| == 1 {
      assert ch == [ch[0]];
    } else {
      LinkedTail(img, g, ch);
      assert LinksTo(img, g, ch[0], ch[1]);
      WalksToEnd(img, g, ch[1..], cap - 1);
      assert [ch[0]] + ch[1..] == ch;
    }
  }

  // ---- The search ------------------------------------------------------------------------------

  /** The `j`-th slot of the root's `i`-th cluster is the first that stops the search. */
  ghost predicate FirstStop(img: seq<byte>, g: Geometry, ch: seq<nat>, kind: byte, i: nat, j: nat)
  {
    && i < |ch| && PassesAll(img, g, ch, i, kind) && OnDevice(img, g, ch[i])
    && 32 * j + 32 <= g.ClusterBytes() && SlotStops(img, g, ch[i], j, kind) && Passes(img, g, ch[i], j, kind)
  }

  /** The first cluster and length that the `j`-th slot of the root's `i`-th cluster records; nothing if it is the end. */
  function PlaceIn(img: seq<byte>, g: Geometry, ch: seq<nat>, i: nat, j: nat): Option<(nat, nat)>
  {
    if i < |ch| && 2 <= ch[i] then PlaceAt(img, g.ClusterStart(ch[i]) + 32 * j) else None
  }

  function PlaceAt(img: seq<byte>, at: nat): Option<(nat, nat)>
  {
    if at + 32 <= |img| && img[at] != 0 then Some((Value4(img, at + 20), Value8(img, at + 24))) else None
  }

  lemma DecidesPlace(img: seq<byte>, g: Geometry, ch: seq<nat>, kind: byte, i: nat, j: nat)
    requires FirstStop(img, g, ch, kind, i, j)
    ensures RawCluster(img, g, ch[i], g.ClusterBytes()).Ok?
    ensures var scan := ScanSlots(RawCluster(img, g, ch[i], g.ClusterBytes()).value, kind);
      !scan.Further? && PlaceIn(img, g, ch, i, j) == if scan.Hit? then Some((scan.first, scan.len)) else None
  {
    hide Passes, PassesAll, RawCluster, ScanSlots, Value4, Value8, SlotStops, Geometry.HeapBase, Geometry.ClusterBytes;
    ClusterStops(img, g, ch[i], j, kind);
  }

  /** The slot decides: its first cluster and length when it records what is wanted, nothing when it is the end. */
  lemma FirstStopDecides(img: seq<byte>, g: Geometry, ch: seq<nat>, kind: byte, i: nat, j: nat)
    requires RootIs(img, g, ch) && FirstStop(img, g, ch, kind, i, j)
    ensures FindSystem(img, g, kind) == Ok(PlaceIn(img, g, ch, i, j))
  {
    hide Linked, LinkIs, OnDevice, Passes, PassesAll, RawWalk, RawCluster, ScanSlots, SlotStops, PlaceIn, Geometry.ClusterBytes;
    RootInRange(img, g, ch);
    WalksToEnd(img, g, ch, g.clusterCount);
    ChainPasses(img, g, ch, i, kind);
    DecidesPlace(img, g, ch, kind, i, j);
  }

  lemma RootInRange(img: seq<byte>, g: Geometry, ch: seq<nat>)
    requires RootIs(img, g, ch)
    ensures g.rootFirstCluster != 0
  {
  }

  /** A root without such a slot records nothing. */
  lemma NoStopFindsNothing(img: seq<byte>, g: Geometry, ch: seq<nat>, kind: byte)
    requires RootIs(img, g, ch) && PassesAll(img, g, ch, |ch|, kind)
    ensures FindSystem(img, g, kind) == Ok(None)
  {
    hide Linked, LinkIs, PassesAll, RawWalk, RawCluster, ScanSlots;
    RootInRange(img, g, ch);
    WalksToEnd(img, g, ch, g.clusterCount);
    ChainPasses(img, g, ch, |ch|, kind);
  }

  /** An opened device uses the bitmap of the first slot with type 0x81 and even flags that no end slot precedes. */
  lemma OpensBitmap(img: seq<byte>, g: Geometry, ch: seq<nat>, i: nat, j: nat)
    requires BootGeometry(img) == Ok(g) && RootIs(img, g, ch) && FirstStop(img, g, ch, 0x81, i, j)
    requires Opened(img).Ok?
    ensures var place := PlaceIn(img, g, ch, i, j);
      Opened(img).value.bitmap == if place.None? then None else Some(BitmapLoc(place.value.0, place.value.1))
  {
    FirstStopDecides(img, g, ch, 0x81, i, j);
    hide BootGeometry, FindSystem, LoadTable, RootIs, FirstStop, PlaceIn;
  }

  /** Likewise it loads the up-case table of the first slot with type 0x82; without one names are compared as they are. */
  lemma OpensTable(img: seq<byte>, g: Geometry, ch: seq<nat>, i: nat, j: nat)
    requires BootGeometry(img) == Ok(g) && RootIs(img, g, ch) && FirstStop(img, g, ch, 0x82, i, j)
    requires Opened(img).Ok? && 0 < g.ClusterBytes()
    ensures var place := PlaceIn(img, g, ch, i, j);
      if place.None? then Opened(img).value.upcase == []
      else LoadTable(img, g, place.value.0, place.value.1) == Ok(Opened(img).value.upcase)
  {
    FirstStopDecides(img, g, ch, 0x82, i, j);
    hide BootGeometry, FindSystem, LoadTable, RootIs, FirstStop, PlaceIn, Geometry.ClusterBytes;
  }
}
