/** The read side on a consistent volume: looking a path up, and reading the file it names. */
module Readers {
  import opened Bytes
  import opened Catalogues
  import opened Directories
  import opened EntrySets
  import opened Fats
  import opened FileData
  import opened FileWrites
  import opened Geometries
  import opened Listings
  import opened Lookups
  import opened Outcomes
  import opened Removals
  import opened SlotLists
  import opened Volumes

  // ---- Looking up ------------------------------------------------------------------------------

  /** The first entry of a listing with the folded name `want`. */
  method FindEntry(upcase: seq<u16>, entries: seq<Entry>, want: Name) returns (r: Option<Entry>)
    ensures r == FirstMatch(upcase, entries, want)
  {
    hide UpName;
    for i := 0 to |entries|
      invariant FirstMatch(upcase, entries, want) == FirstMatch(upcase, entries[i..], want)
    {
      assert entries[i..][0] == entries[i] && entries[i..][1..] == entries[i + 1..];
      if UpName(upcase, entries[i].name) == want {
        return Some(entries[i]);
      }
    }
    assert entries[|entries|..] == [];
    return None;
  }

  /** The first matching entry is the entry of the first matching node. */
  lemma {:induction false} MatchIsNode(cat: Cat, upcase: seq<u16>, ks: seq<nat>, want: Name)
    requires forall i :: 0 <= i < |ks| ==> ks[i] in cat.nodes
    ensures var e, k := FirstMatch(upcase, EntriesOf(cat, ks), want), FirstNamed(cat, upcase, ks, want);
      && (e.None? <==> k.None?)
      && (k.Some? ==> k.value in cat.nodes && e == Some(EntryOf(cat.nodes[k.value].facts)))
    decreases |ks|
  {
    hide UpName;
    if ks != [] {
      var es := EntriesOf(cat, ks);
      assert es[0] == EntryOf(cat.nodes[ks[0]].facts) && es[0].name == cat.nodes[ks[0]].facts.name;
      assert es[1..] == EntriesOf(cat, ks[1..]);
      MatchIsNode(cat, upcase, ks[1..], want);
    }
  }

  /** The path a lookup follows from node `k`: unlike the writer's, it reports a file on the way as not found. */
  ghost function LookupFrom(v: Vol, cat: Cat, per: nat, upcase: seq<u16>, k: nat, path: seq<Name>): Option<nat>
    decreases |path|
  {
    if path == [] then Some(k)
    else if !cat.IsDir(k) then None
    else
      match Find(v, cat, per, upcase, k, path[0])
      case None => None
      case Some(id) => LookupFrom(v, cat, per, upcase, id, path[1..])
  }

  /** Reader and writer resolve a path to the same node. */
  lemma {:induction false} LookupIsNamed(v: Vol, cat: Cat, per: nat, upcase: seq<u16>, d: nat, path: seq<Name>)
    requires path != [] && cat.IsDir(d)
    ensures LookupFrom(v, cat, per, upcase, d, path)
      == match Resolve(v, cat, per, upcase, d, path[..|path| - 1])
         case Err(_) => None
         case Ok(e) => Find(v, cat, per, upcase, e, path[|path| - 1])
    decreases |path|
  {
    hide Find;
    var init := path[..|path| - 1];
    if |path| == 1 {
      assert init == [] && path[1..] == [];
    } else {
      assert init[0] == path[0] && init[1..] == path[1..][..|path[1..]| - 1];
      assert path[1..][|path[1..]| - 1] == path[|path| - 1];
      var found := Find(v, cat, per, upcase, d, path[0]);
      if found.Some? && cat.IsDir(found.value) {
        LookupIsNamed(v, cat, per, upcase, found.value, path[1..]);
      }
    }
  }

  /** The bound the reader uses for a directory: none for the root, the recorded length for any other. */
  function ListingBound(cat: Cat, d: nat): nat
  {
    if d in cat.nodes then cat.nodes[d].facts.len else 0xFFFF_FFFF_FFFF_FFFF
  }

  lemma BoundCovers(v: Volume, cat: Cat, upcase: seq<u16>, d: nat)
    requires v.Valid() && Consistent(v.vol, cat, v.geo, v.bm, upcase) && cat.IsDir(d) && d in cat.chains
    ensures |Addrs(cat.chains[d], v.geo.Per())| <= DivCeil(ListingBound(cat, d), SLOT)
  {
    OwnershipParts(v.vol, cat, v.geo, v.bm, upcase);
    if d in cat.nodes {
      NodeChain(v.vol, cat, v.geo, v.bm, upcase, d);
      DirLength(v, cat, upcase, d);
      ClusterSize(v);
      hide Volume.Valid, Consistent, ChainsOwned, Geometry.ClusterBytes, Geometry.Per, Addrs, DivCeil;
      CoversSlots(cat.chains[d], v.geo.Per(), v.geo.ClusterBytes(), cat.nodes[d].facts.len);
    } else {
      hide Volume.Valid, Consistent, ChainsOwned, Geometry.ClusterBytes, Geometry.Per, Addrs, DivCeil;
      WholeDirectory(v, cat, d);
    }
  }

  lemma DirLength(v: Volume, cat: Cat, upcase: seq<u16>, d: nat)
    requires v.Valid() && 0 < v.geo.ClusterBytes() && d in cat.nodes && d in cat.chains && cat.IsDir(d)
    requires Consistent(v.vol, cat, v.geo, v.bm, upcase) && ChainSuits(cat.chains[d], cat.nodes[d].facts, v.geo.ClusterBytes())
    ensures cat.nodes[d].facts.len == |cat.chains[d]| * v.geo.ClusterBytes()
  {
    OwnershipParts(v.vol, cat, v.geo, v.bm, upcase);
    RootOutside(cat, v.geo, v.bm);
    hide Volume.Valid, Consistent, ChainsOwned, Geometry.ClusterBytes;
  }

  lemma RootOutside(cat: Cat, g: Geometry, bm: BitmapLoc)
    requires 0 < g.ClusterBytes() && SystemOk(cat, g, bm)
    ensures ROOT !in cat.nodes
  {
  }

  /** One step of a lookup: list the directory and pick the first entry with the name. */
  method LookupStep(v: Volume, upcase: seq<u16>, first: nat, dataLen: nat, name: Name, ghost cat: Cat, ghost d: nat)
    returns (r: Result<Entry>)
    requires v.Valid() && Consistent(v.vol, cat, v.geo, v.bm, upcase) && cat.IsDir(d)
    requires d in cat.chains && cat.chains[d] != [] && first == cat.chains[d][0] && dataLen == ListingBound(cat, d)
    ensures var found := Find(v.vol, cat, v.geo.Per(), upcase, d, name);
      if found.None? then r == Err(NotFound)
      else found.value in cat.nodes && r == Ok(EntryOf(cat.nodes[found.value].facts))
  {
    hide *;
    OwnershipParts(v.vol, cat, v.geo, v.bm, upcase);
    DirReady(v, cat, upcase, d);
    DirChainOk(v, cat, upcase, d);
    WalkableIs(v, cat, upcase, d);
    BoundCovers(v, cat, upcase, d);
    DirectoryLists(v.vol, cat, v.geo.ClusterBytes(), v.geo.Per(), upcase, d, dataLen);
    FindIsFirstListed(v.vol, cat, v.geo.ClusterBytes(), v.geo.Per(), upcase, d, name);
    MatchIsNode(cat, upcase, NodesFrom(v.vol, cat, v.geo.Per(), d, 0), UpName(upcase, name));
    var entries := ReadDirectory(v, first, dataLen);
    match entries {
      case Err(e) =>
        return Err(e);
      case Ok(es) =>
        var e := FindEntry(upcase, es, UpName(upcase, name));
        return if e.Some? then Ok(e.value) else Err(NotFound);
    }
  }

  // ---- Reading ---------------------------------------------------------------------------------

  /** The clusters a read of a file of a consistent volume goes through are its chain, and they hold all of it. */
  lemma ReadableFile(v: Volume, cat: Cat, upcase: seq<u16>, id: nat)
    requires v.Valid() && Consistent(v.vol, cat, v.geo, v.bm, upcase) && id in cat.nodes && !cat.nodes[id].facts.isDir
    ensures 0 < v.geo.ClusterBytes() && id in cat.chains
    ensures var e, ch, cb := EntryOf(cat.nodes[id].facts), cat.chains[id], v.geo.ClusterBytes();
      && (e.size == 0 || ReadClusters(v.vol.fat, e, cb) == Ok(ch)) && OffBitmap(v.geo, v.bm, ch)
      && e.size == e.validSize == cat.nodes[id].facts.len && !e.isDir
      && Sized(v.vol.data, ch, cb) && e.size <= |ch| * cb && (forall i :: 0 <= i < |ch| ==> 2 <= ch[i])
  {
    FileFacts(v, cat, upcase, id, LocOfNode(cat.nodes[id]));
    NodeFacts(v.vol, cat, v.geo, v.bm, upcase, id);
    OwnerClusters(v, cat, upcase, id);
    SizedClusters(v, cat.chains[id]);
    ChainLinked(v.vol, cat, id);
    FlagsFatChain(cat.nodes[id].facts.flags);
    v.Sizes();
    hide Volume.Valid, Consistent, ChainsOwned, SetOnDisk, DivCeil, Geometry.ClusterBytes, Geometry.InBitmapRun, BitSet;
    if cat.chains[id] != [] {
      WalkOfChain(v.vol.fat, cat.chains[id], |cat.chains[id]|, true);
    }
  }

  /** Everything this crate writes is FAT-chained. */
  lemma FlagsFatChain(flags: byte)
    requires flags <= 1
    ensures !BitSet(flags, 1)
  {
  }

  /** The bytes a read gives are the content of the file. */
  lemma BytesAreContent(v: Vol, e: Entry, ch: seq<nat>, cb: nat, from: nat, to: nat)
    requires 0 < cb && Sized(v.data, ch, cb) && e.size == e.validSize && e.size <= |ch| * cb && from <= to <= e.size
    requires forall i :: 0 <= i < |ch| ==> 2 <= ch[i]
    ensures AllBacked(v, e, ch, cb, from, to)
    ensures |Content(v, ch, e.size)| == e.size && FileBytes(v, e, ch, cb, from, to) == Content(v, ch, e.size)[from..to]
  {
    ContentSize(v, ch, cb, e.size);
    hide Content, Backed, FileByte, Sized;
    var c, l := Content(v, ch, e.size), FileBytes(v, e, ch, cb, from, to);
    forall p: nat | from <= p < to
      ensures Backed(v, e, ch, cb, p) && c[p] == FileByte(v, e, ch, cb, p)
    {
      ByteIsContent(v, e, ch, cb, p);
    }
    assert forall i :: 0 <= i < to - from ==> l[i] == FileByte(v, e, ch, cb, from + i);
  }

  lemma ByteIsContent(v: Vol, e: Entry, ch: seq<nat>, cb: nat, p: nat)
    requires 0 < cb && Sized(v.data, ch, cb) && p < e.size == e.validSize && e.size <= |ch| * cb
    requires forall i :: 0 <= i < |ch| ==> 2 <= ch[i]
    ensures |Content(v, ch, e.size)| == e.size
    ensures Backed(v, e, ch, cb, p) && Content(v, ch, e.size)[p] == FileByte(v, e, ch, cb, p)
  {
    ContentSize(v, ch, cb, e.size);
    FlattenSize(v.data, ch, cb);
    BlockIndex(p, cb, |ch|);
    FlattenAt(v.data, ch, cb, p / cb, p % cb);
    hide Flatten;
  }

  ghost predicate AllIn(s: seq<nat>, ch: seq<nat>) { forall c :: c in s ==> c in ch }

  lemma AllInTail(s: seq<nat>, ch: seq<nat>)
    requires ch != [] && AllIn(s, ch[1..])
    ensures AllIn([ch[0]] + s, ch)
  {
  }

  /** A read with a known length goes through the clusters of the chain and no others. */
  lemma {:induction false} KnownWalkInChain(fat: seq<nat>, ch: seq<nat>, n: nat)
    requires |fat| <= BAD_CLUSTER && IsChain(fat, ch) && ch != []
    ensures Walk(fat, ch[0], n, true).Ok? ==> AllIn(Walk(fat, ch[0], n, true).value, ch)
    decreases n
  {
    if n > 0 {
      OneClusterChain(fat, ch);
      if |ch| > 1 {
        ChainTail(fat, ch);
        var rest := ch[1..];
        assert rest[0] == fat[ch[0]];
        KnownWalkInChain(fat, rest, n - 1);
        if Walk(fat, rest[0], n - 1, true).Ok? {
          AllInTail(Walk(fat, rest[0], n - 1, true).value, ch);
        }
      }
    }
  }

  lemma OwnedReads(v: Volume, cat: Cat, upcase: seq<u16>, id: nat)
    requires v.Valid() && Consistent(v.vol, cat, v.geo, v.bm, upcase) && id in cat.nodes
    ensures 0 < v.geo.ClusterBytes()
    ensures var c := ReadClusters(v.vol.fat, EntryOf(cat.nodes[id].facts), v.geo.ClusterBytes());
      c.Ok? ==> OffBitmap(v.geo, v.bm, c.value)
  {
    hide *;
    NodeFacts(v.vol, cat, v.geo, v.bm, upcase, id);
    NodeChain(v.vol, cat, v.geo, v.bm, upcase, id);
    OwnershipParts(v.vol, cat, v.geo, v.bm, upcase);
    NodeAboveBitmap(cat, v.geo, v.bm, id);
    OwnerClusters(v, cat, upcase, id);
    ChainLinked(v.vol, cat, id);
    v.Sizes();
    var ch, f, cb := cat.chains[id], cat.nodes[id].facts, v.geo.ClusterBytes();
    FlagsFatChain(f.flags);
    EntryReads(v.vol.fat, f, cb);
    FirstOfNone(v.vol.fat, ch, f, cb);
    if ch != [] {
      FatBelowBad(v.vol);
      KnownWalkInChain(v.vol.fat, ch, DivCeil(f.len, cb));
      ReadsOffBitmap(v, Walk(v.vol.fat, f.first, DivCeil(f.len, cb), true), ch);
    } else {
      NothingOffBitmap(v);
    }
  }

  lemma EntryReads(fat: seq<nat>, f: Facts, cb: nat)
    requires 0 < cb && !BitSet(f.flags, 1)
    ensures ReadClusters(fat, EntryOf(f), cb) == Walk(fat, f.first, DivCeil(f.len, cb), true)
  {
    hide BitSet, Walk, DivCeil;
  }

  lemma NothingOffBitmap(v: Volume)
    requires 0 < v.geo.ClusterBytes()
    ensures OffBitmap(v.geo, v.bm, [])
  {
  }

  lemma ReadsOffBitmap(v: Volume, r: Result<seq<nat>>, ch: seq<nat>)
    requires 0 < v.geo.ClusterBytes() && DirClusters(v, ch) && (r.Ok? ==> AllIn(r.value, ch))
    ensures r.Ok? ==> OffBitmap(v.geo, v.bm, r.value)
  {
    hide Geometry.InBitmapRun, Geometry.ClusterBytes;
    if r.Ok? {
      forall i | 0 <= i < |r.value|
        ensures !v.geo.InBitmapRun(v.bm, r.value[i])
      {
        assert r.value[i] in ch;
      }
    }
  }

  lemma NodeAboveBitmap(cat: Cat, g: Geometry, bm: BitmapLoc, id: nat)
    requires 0 < g.ClusterBytes() && SystemOk(cat, g, bm) && id in cat.nodes
    ensures id in cat.chains && id != BITMAP
  {
  }

  lemma FirstOfNone(fat: seq<nat>, ch: seq<nat>, f: Facts, cb: nat)
    requires 0 < cb && ChainSuits(ch, f, cb)
    ensures ch == [] ==> Walk(fat, f.first, DivCeil(f.len, cb), true) == Ok([])
  {
    hide DivCeil;
    if ch == [] {
      assert DivCeil(f.len, cb) == 0;
      assert Walk(fat, f.first, 0, true) == Ok([]);
    }
  }
}
