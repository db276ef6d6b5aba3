/** The file system: path resolution, creation, writing, truncation, renaming and removal. */
module ExfatFileSystem {
  import opened Alloc
  import opened Bytes
  import opened Catalogues
  import opened Directories
  import opened EntrySets
  import opened Creations
  import opened FileData
  import opened FileTruncates
  import opened FileWrites
  import opened Foldings
  import opened Geometries
  import opened Lookups
  import opened Outcomes
  import opened Placements
  import opened Readers
  import opened Removals
  import opened Renames
  import opened Listings
  import opened Stabilities
  import opened Steps
  import opened Visibilities
  import opened Volumes

  /** The smallest cluster that holds the longest entry set, nineteen slots. */
  const MIN_CLUSTER := 1024

  class ExfatFs {
    const volume: Volume
    const upcase: seq<u16>
    /** Who owns what: the ghost account the operations keep up to date. */
    ghost var cat: Cat

    ghost predicate Valid()
      reads this, volume, volume.disk
    {
      && volume.Valid()
      && Consistent(volume.vol, cat, volume.geo, volume.bm, upcase)
      && MIN_CLUSTER <= volume.geo.ClusterBytes()
    }

    ghost predicate IsHandle(dir: DirHandle, d: nat)
      reads this
    {
      HandleFor(cat, dir, d)
    }

    constructor (volume: Volume, upcase: seq<u16>, ghost cat: Cat)
      requires volume.Valid() && Consistent(volume.vol, cat, volume.geo, volume.bm, upcase)
      requires MIN_CLUSTER <= volume.geo.ClusterBytes()
      ensures Valid() && this.volume == volume && this.upcase == upcase && this.cat == cat
    {
      this.volume, this.upcase, this.cat := volume, upcase, cat;
    }

    /** What a search in directory `d` gives. */
    ghost function FindIn(d: nat, name: Name): Option<nat>
      reads this, volume
    {
      Find(volume.vol, cat, volume.geo.Per(), upcase, d, name)
    }

    lemma HandleReady(d: nat)
      requires Valid() && cat.IsDir(d)
      ensures d in cat.chains && cat.chains[d] != [] && IsHandle(HandleOf(cat, d), d)
      ensures DirChain(volume.vol, cat.chains[d][0], volume.geo.clusterCount) == Ok(cat.chains[d])
      ensures Searchable(volume, cat.chains[d])
    {
      DirReady(volume, cat, upcase, d);
    }

    /** Search directory `d` for `name`. */
    method LocateIn(dir: DirHandle, name: Name, ghost d: nat) returns (r: Result<Option<EntryLoc>>)
      requires Valid() && IsHandle(dir, d)
      ensures r.Ok? && (r.value.Some? <==> FindIn(d, name).Some?)
      ensures r.value.Some? ==> FoundNode(cat, upcase, d, name, FindIn(d, name).value, r.value.value)
    {
      hide Volume.Valid, Geometry.Per, Geometry.ClusterBytes, Consistent, Located, FoundNode, Searchable, DirChain, Find;
      HandleReady(d);
      SearchResult(d, name);
      r := Locate(volume, upcase, dir.firstCluster, name);
    }

    lemma SearchResult(d: nat, name: Name)
      requires Valid() && cat.IsDir(d)
      ensures d in cat.chains && Slots(SlotsAt(volume.vol, Addrs(cat.chains[d], volume.geo.Per())))
      ensures var found, loc := FindIn(d, name), Located(volume.vol, upcase, cat.chains[d], volume.geo.Per(), name);
        && (found.None? <==> loc.None?)
        && (found.Some? ==> FoundNode(cat, upcase, d, name, found.value, loc.value))
    {
      HandleReady(d);
      volume.Sizes();
      hide Volume.Valid, Geometry.Per, Geometry.ClusterBytes, NodesOk, SlotsOwned, Linked, BitsMatch, Placed, SystemOk,
           Located, FoundNode;
      SearchFindsNodes(volume.vol, cat, volume.geo.ClusterBytes(), volume.geo.Per(), upcase, d, name);
    }

    /** The directory at `path`, a sequence of component names. */
    method ResolveDir(path: seq<Name>) returns (r: Result<DirHandle>, ghost d: nat)
      requires Valid()
      ensures var s := Resolve(volume.vol, cat, volume.geo.Per(), upcase, ROOT, path);
        if s.Ok? then d == s.value && r.Ok? && IsHandle(r.value, d) else r.Err? && r.error == s.error
    {
      hide Volume.Valid, Geometry.Per, Geometry.ClusterBytes, Consistent, Find;
      d := ROOT;
      HandleReady(ROOT);
      RootCluster();
      var handle := DirHandle(volume.geo.rootFirstCluster, None);
      for i := 0 to |path|
        invariant IsHandle(handle, d)
        invariant Resolve(volume.vol, cat, volume.geo.Per(), upcase, ROOT, path)
               == Resolve(volume.vol, cat, volume.geo.Per(), upcase, d, path[i..])
      {
        var loc := LocateIn(handle, path[i], d);
        assert path[i..][0] == path[i] && path[i..][1..] == path[i + 1..];
        if loc.value.None? {
          return Err(NotFound), d;
        }
        if !loc.value.value.isDir {
          return Err(Invalid("path component is not a directory")), d;
        }
        d := FindIn(d, path[i]).value;
        HandleReady(d);
        FirstOfDir(d);
        handle := DirHandle(loc.value.value.firstCluster, Some(loc.value.value));
      }
      return Ok(handle), d;
    }

    lemma RootCluster()
      requires Valid()
      ensures ROOT in cat.chains && cat.chains[ROOT] != [] && cat.chains[ROOT][0] == volume.geo.rootFirstCluster
      ensures ROOT !in cat.nodes
    {
    }

    lemma FirstOfDir(d: nat)
      requires Valid() && d in cat.nodes && cat.nodes[d].facts.isDir
      ensures d != ROOT && d in cat.chains && cat.chains[d] != [] && cat.nodes[d].facts.first == cat.chains[d][0]
    {
      assert NodeOk(volume.vol, cat, volume.geo.ClusterBytes(), upcase, d);
    }

    /** The directory `path` would lie in. */
    ghost function ParentAt(path: seq<Name>): Result<nat>
      reads this, volume
    {
      ParentOf(volume.vol, cat, volume.geo.Per(), upcase, path)
    }

    /** The directory that holds the last component of `path`. */
    method ResolveParent(path: seq<Name>) returns (r: Result<DirHandle>, ghost d: nat)
      requires Valid()
      ensures var s := ParentAt(path);
        if s.Ok? then path != [] && d == s.value && r.Ok? && IsHandle(r.value, d) else r == Err(s.error)
    {
      if path == [] {
        return Err(Invalid("empty file name")), ROOT;
      }
      r, d := ResolveDir(path[..|path| - 1]);
    }

    /** The node `path` names. */
    ghost function NodeAt(path: seq<Name>): Result<nat>
      reads this, volume
    {
      Named(volume.vol, cat, volume.geo.Per(), upcase, path)
    }

    /** The file or directory at `path`: the start of every operation on an existing one. */
    method LocatePath(path: seq<Name>) returns (r: Result<EntryLoc>, ghost id: nat)
      requires Valid()
      ensures NodeAt(path).Err? ==> r == Err(NodeAt(path).error)
      ensures NodeAt(path).Ok? ==> NodeAt(path).value in cat.nodes && r == Ok(LocOfNode(cat.nodes[NodeAt(path).value]))
      ensures NodeAt(path).Ok? ==> id == NodeAt(path).value
    {
      hide Volume.Valid, Geometry.Per, Geometry.ClusterBytes, Consistent, Find, Resolve;
      id := ROOT;
      var dir, d := ResolveParent(path);
      if dir.Err? {
        return Err(dir.error), id;
      }
      var loc := LocateIn(dir.value, path[|path| - 1], d);
      if loc.value.None? {
        return Err(NotFound), id;
      }
      id := FindIn(d, path[|path| - 1]).value;
      return Ok(loc.value.value), id;
    }

    /** Write `buf` at `offset` of the file at `path`, growing and zero-filling as needed. The precondition
        keeps sizes within 64 bits and cluster counts within the 32 bits the source casts them to. */
    method WriteFile(path: seq<Name>, offset: nat, buf: seq<byte>) returns (r: Result<nat>)
      requires Valid()
      requires offset + |buf| < 0x1_0000_0000_0000_0000 && DivCeil(offset + |buf|, volume.geo.ClusterBytes()) < U32
      modifies this, volume, volume.disk
      ensures Valid() && old(volume.trace) <= volume.trace
      ensures buf == [] ==> r == Ok(0) && volume.vol == old(volume.vol) && cat == old(cat)
      ensures var t := old(NodeAt(path)); buf != [] && t.Err? ==>
        r == Err(t.error) && volume.vol == old(volume.vol) && cat == old(cat)
      ensures var t := old(NodeAt(path)); buf != [] && t.Ok? ==> t.value in old(cat).nodes
      ensures var t := old(NodeAt(path)); buf != [] && t.Ok? && old(cat).nodes[t.value].facts.isDir ==>
        r == Err(Invalid("write to a directory")) && volume.vol == old(volume.vol) && cat == old(cat)
      ensures var t := old(NodeAt(path)); buf != [] && t.Ok? && !old(cat).nodes[t.value].facts.isDir ==>
          && (r.Ok? <==> NeededClusters(old(cat).nodes[t.value].facts.len, offset + |buf|, volume.geo.ClusterBytes())
                         <= |FreeSet(old(volume.vol))|)
          && (r.Ok? ==> r.value == |buf| && FileWritten(old(volume.vol), old(cat), volume.vol, cat, t.value, offset, buf))
          && (r.Ok? ==> SamePaths(old(volume.vol), old(cat), volume.vol, cat, volume.geo.Per(), upcase))
          && (r.Err? ==> SpaceRanOut(old(volume.vol), old(cat), volume.vol, cat))
          && CrashSafe(old(volume.vol), volume.trace, |old(volume.trace)|, old(cat), volume.geo.ClusterBytes(), {t.value})
    {
      hide *;
      if buf == [] {
        return Ok(0);
      }
      var loc, id := LocatePath(path);
      if loc.Err? {
        return Err(loc.error);
      }
      LocatedKind(id, loc.value);
      if loc.value.isDir {
        return Err(Invalid("write to a directory"));
      }
      r := WriteLocated(loc.value, offset, buf, id);
    }

    lemma LocatedKind(id: nat, loc: EntryLoc)
      requires id in cat.nodes && loc == LocOfNode(cat.nodes[id])
      ensures loc.isDir == cat.nodes[id].facts.isDir && loc.dataLen == cat.nodes[id].facts.len
    {
    }

    method WriteLocated(loc: EntryLoc, offset: nat, buf: seq<byte>, ghost id: nat) returns (r: Result<nat>)
      requires Valid() && buf != []
      requires offset + |buf| < 0x1_0000_0000_0000_0000 && DivCeil(offset + |buf|, volume.geo.ClusterBytes()) < U32
      requires id in cat.nodes && loc == LocOfNode(cat.nodes[id]) && !cat.nodes[id].facts.isDir
      modifies this, volume, volume.disk
      ensures Valid() && old(volume.trace) <= volume.trace
      ensures r.Ok? <==> NeededClusters(old(cat).nodes[id].facts.len, offset + |buf|, volume.geo.ClusterBytes())
                         <= |FreeSet(old(volume.vol))|
      ensures r.Ok? ==> r.value == |buf| && FileWritten(old(volume.vol), old(cat), volume.vol, cat, id, offset, buf)
      ensures r.Ok? ==> SamePaths(old(volume.vol), old(cat), volume.vol, cat, volume.geo.Per(), upcase)
      ensures r.Err? ==> SpaceRanOut(old(volume.vol), old(cat), volume.vol, cat)
      ensures CrashSafe(old(volume.vol), volume.trace, |old(volume.trace)|, old(cat), volume.geo.ClusterBytes(), {id})
    {
      hide *;
      Parts();
      ghost var v0, t0, cat0 := volume.vol, volume.trace, cat;
      AllWalkableIs(volume, cat, upcase);
      CanWriteIs(volume, cat, upcase, id, loc, offset + |buf|);
      NodeChain(volume.vol, cat, volume.geo, volume.bm, upcase, id);
      var written, ch := WriteEntry(volume, upcase, loc, offset, buf, cat, id);
      LocatedKind(id, loc);
      NeededIs(loc.dataLen, offset + |buf|, volume.geo.ClusterBytes());
      if written.Err? {
        OutOfSpace(v0, volume.vol, cat0, volume.geo, volume.bm, upcase);
        WriteSafe(v0, volume.trace, |t0|, cat0, volume.geo, volume.bm, upcase, id, ch);
        cat := cat.(spare := cat.spare + FreeSet(v0));
        ValidIs();
        return Err(written.error);
      }
      WriteDoneParts(v0, volume.vol, cat0, volume.geo.ClusterBytes(), upcase, id, ch, offset, buf);
      WriteSafe(v0, volume.trace, |t0|, cat0, volume.geo, volume.bm, upcase, id, ch);
      CrashSafeParts(v0, volume.trace, |t0|, cat0, volume.geo.ClusterBytes(), {id});
      FinalKept(volume, v0, t0, cat0, {id});
      WriteOutcome(v0, volume.vol, cat0, volume.geo, volume.bm, upcase, id, ch, offset, buf);
      UpdateKeepsNames(volume, v0, cat0, upcase, id, ch,
                       FactsAfter(cat.nodes[id].facts, ch, Max(offset + |buf|, cat.nodes[id].facts.len), 1));
      cat := UpdatedCat(cat, id, ch, FactsAfter(cat.nodes[id].facts, ch, Max(offset + |buf|, cat.nodes[id].facts.len), 1));
      ValidIs();
      return Ok(|buf|);
    }

    /** Truncate the file at `path` to `len`: grow it with zeros, or shrink it and free clusters. A shrink to
        nothing frees a run as long as the file's chain: it is sound, up to leaked clusters, if and only if that run
        lies in the bitmap and meets no cluster of somebody else. */
    method TruncateFile(path: seq<Name>, len: nat) returns (r: Result<()>)
      requires Valid()
      requires len < 0x1_0000_0000_0000_0000 && DivCeil(len, volume.geo.ClusterBytes()) < U32
      modifies this, volume, volume.disk
      ensures volume.Valid() && old(volume.trace) <= volume.trace
      ensures var t := old(NodeAt(path)); t.Err? ==>
        Valid() && r == Err(t.error) && volume.vol == old(volume.vol) && cat == old(cat)
      ensures var t := old(NodeAt(path)); t.Ok? ==> t.value in old(cat).nodes && t.value in old(cat).chains
      ensures var t := old(NodeAt(path)); t.Ok? && old(cat).nodes[t.value].facts.isDir ==>
        Valid() && r == Err(Invalid("truncate a directory")) && volume.vol == old(volume.vol) && cat == old(cat)
      ensures var t := old(NodeAt(path)); t.Ok? && !old(cat).nodes[t.value].facts.isDir && old(cat).nodes[t.value].facts.len < len ==>
        && Valid()
        && (r.Ok? <==> NeededClusters(old(cat).nodes[t.value].facts.len, len, volume.geo.ClusterBytes())
                       <= |FreeSet(old(volume.vol))|)
        && (r.Ok? ==> FileTruncated(old(volume.vol), old(cat), volume.vol, cat, t.value, len))
        && (r.Ok? ==> SamePaths(old(volume.vol), old(cat), volume.vol, cat, volume.geo.Per(), upcase))
        && (r.Err? ==> SpaceRanOut(old(volume.vol), old(cat), volume.vol, cat))
        && CrashSafe(old(volume.vol), volume.trace, |old(volume.trace)|, old(cat), volume.geo.ClusterBytes(), {t.value})
      ensures var t := old(NodeAt(path)); t.Ok? && !old(cat).nodes[t.value].facts.isDir && len <= old(cat).nodes[t.value].facts.len ==>
        Shrunk(old(volume.vol), old(cat), old(volume.trace), t.value, len, r)
    {
      hide *;
      Parts();
      var loc, id := LocatePath(path);
      if loc.Err? {
        return Err(loc.error);
      }
      LocatedKind(id, loc.value);
      NodeChain(volume.vol, cat, volume.geo, volume.bm, upcase, id);
      if loc.value.isDir {
        return Err(Invalid("truncate a directory"));
      }
      if len > loc.value.dataLen {
        ghost var v0, cat0 := volume.vol, cat;
        var cb := volume.geo.ClusterBytes();
        var n := Min(len - loc.value.dataLen, cb);
        MinIs(len - loc.value.dataLen, cb);
        WholeContent(volume, cat, upcase, id);
        var written := WriteFile(path, len - n, Zeros(n));
        Parts();
        SameEnd(len, n);
        if written.Err? {
          return Err(written.error);
        }
        ExtensionOutcome(v0, cat0, volume.vol, cat, id, len, n);
        return Ok(());
      }
      r := ShrinkLocated(loc.value, len, id);
    }

    lemma MinIs(a: int, b: int)
      ensures Min(a, b) == if a < b then a else b
    {
    }

    lemma SameEnd(len: nat, n: nat)
      requires 0 < n <= len && |Zeros(n)| == n
      ensures len - n + |Zeros(n)| == len && Zeros(n) != []
    {
    }

    /** How a shrink of file `id` to `len` ends. */
    ghost predicate Shrunk(v0: Vol, cat0: Cat, t0: seq<Vol>, id: nat, len: nat, r: Result<()>)
      requires id in cat0.nodes && id in cat0.chains
      reads this, volume, volume.disk
    {
      && volume.Valid()
      && cat0.nodes.Keys <= cat0.chains.Keys && BystandersSafe(v0, cat0, volume.trace, |t0|, StruckBy(cat0, id, len))
      && (r.Ok? <==> 0 < len || InBitmap(volume.bm, RunOf(cat0.chains[id])))
      && (r.Ok? && Harmless(cat0, id, len) ==>
            && Valid() && FileTruncated(v0, cat0, volume.vol, cat, id, len) && StruckBy(cat0, id, len) == {id}
            && SamePaths(v0, cat0, volume.vol, cat, volume.geo.Per(), upcase))
      && (r.Ok? && !Harmless(cat0, id, len) ==>
            && LinksFreed(v0, volume.vol, cat0, id) && cat == cat0
            && forall s: set<nat> :: !ChainsOwned(volume.vol, WithSpare(cat0.SetChain(id, []), s)))
      && (r.Err? ==> HeadFreed(volume.vol, cat0, id) && cat == cat0)
    }

    /** The truncation frees no cluster of somebody else. */
    ghost predicate Harmless(cat0: Cat, id: nat, len: nat)
      requires id in cat0.chains
    {
      0 < len || RunClear(cat0, id)
    }

    method ShrinkLocated(loc: EntryLoc, len: nat, ghost id: nat) returns (r: Result<()>)
      requires Valid() && id in cat.chains
      requires id in cat.nodes && loc == LocOfNode(cat.nodes[id]) && !cat.nodes[id].facts.isDir && len <= loc.dataLen
      modifies this, volume, volume.disk
      ensures volume.Valid() && old(volume.trace) <= volume.trace
      ensures Shrunk(old(volume.vol), old(cat), old(volume.trace), id, len, r)
    {
      hide *;
      Parts();
      ghost var v0, t0, cat0, g := volume.vol, volume.trace, cat, volume.geo;
      AllWalkableIs(volume, cat, upcase);
      IsFileIs(volume, cat, upcase, id, loc);
      r := TruncateEntry(volume, upcase, loc, len, cat, id);
      TruncateSafe(v0, volume.trace, |t0|, cat0, g, volume.bm, upcase, id, len);
      ConsistentOwned(v0, cat0, g, volume.bm, upcase);
      HarmlessIs(cat0, id, len);
      if r.Ok? && Harmless(cat0, id, len) {
        ClearStrikesNobody(v0, cat0, id, len);
        FinalKept(volume, v0, t0, cat0, {id});
        TruncateOutcome(v0, volume.vol, cat0, g, volume.bm, upcase, id, len);
        TruncateKeepsNames(volume, v0, cat0, upcase, id, len);
        cat := TruncatedCat(cat, id, g.ClusterBytes(), len);
        ValidIs();
      }
      if r.Ok? && !Harmless(cat0, id, len) {
        Harm(v0, volume.vol, cat0, id);
      }
      ShrunkIs(v0, cat0, t0, id, len, r);
    }

    lemma HarmlessIs(cat0: Cat, id: nat, len: nat)
      requires id in cat0.chains
      ensures Harmless(cat0, id, len) <==> 0 < len || RunClear(cat0, id)
    {
    }

    /** A freed cluster of another owner is missing whatever is counted as spare. */
    lemma Harm(v0: Vol, v: Vol, cat0: Cat, id: nat)
      requires id in cat0.chains && ChainsOwned(v0, cat0) && LinksFreed(v0, v, cat0, id) && !RunClear(cat0, id)
      ensures forall s: set<nat> :: !ChainsOwned(v, WithSpare(cat0.SetChain(id, []), s))
    {
      hide RunOf, RunClear, Cat.SetChain;
      var v2 := v.(data := v0.data);
      ZeroTruncationHarms(v0, v2, cat0, id);
      assert forall s: set<nat> :: ChainsOwned(v, WithSpare(cat0.SetChain(id, []), s)) ==>
        ChainsOwned(v2, WithSpare(cat0.SetChain(id, []), s));
    }

    lemma ShrunkIs(v0: Vol, cat0: Cat, t0: seq<Vol>, id: nat, len: nat, r: Result<()>)
      requires id in cat0.nodes && id in cat0.chains && volume.Valid()
      requires cat0.nodes.Keys <= cat0.chains.Keys && BystandersSafe(v0, cat0, volume.trace, |t0|, StruckBy(cat0, id, len))
      requires r.Ok? <==> 0 < len || InBitmap(volume.bm, RunOf(cat0.chains[id]))
      requires r.Ok? && Harmless(cat0, id, len) ==>
            && Valid() && FileTruncated(v0, cat0, volume.vol, cat, id, len) && StruckBy(cat0, id, len) == {id}
            && SamePaths(v0, cat0, volume.vol, cat, volume.geo.Per(), upcase)
      requires r.Ok? && !Harmless(cat0, id, len) ==>
            && LinksFreed(v0, volume.vol, cat0, id) && cat == cat0
            && forall s: set<nat> :: !ChainsOwned(volume.vol, WithSpare(cat0.SetChain(id, []), s))
      requires r.Err? ==> HeadFreed(volume.vol, cat0, id) && cat == cat0
      ensures Shrunk(v0, cat0, t0, id, len, r)
    {
      hide Valid, Volume.Valid, FileTruncated, SamePaths, ChainsOwned, BystandersSafe, Harmless, StruckBy, LinksFreed, HeadFreed,
           RunOf, InBitmap, Cat.SetChain;
    }

    lemma Parts()
      requires Valid()
      ensures volume.Valid() && Consistent(volume.vol, cat, volume.geo, volume.bm, upcase)
      ensures volume.trace != [] && volume.trace[|volume.trace| - 1] == volume.vol
      ensures MIN_CLUSTER <= volume.geo.ClusterBytes() && 0 < volume.geo.ClusterBytes()
    {
      hide Consistent;
    }

    lemma ValidIs()
      requires volume.Valid() && Consistent(volume.vol, cat, volume.geo, volume.bm, upcase)
      requires MIN_CLUSTER <= volume.geo.ClusterBytes()
      ensures Valid()
    {
      hide Volume.Valid, Consistent;
    }

    /** Create the entry `name` in directory `d`, unless a search finds that name there. */
    method CreateEntry(dir: DirHandle, name: Name, isDir: bool, ghost d: nat) returns (r: Result<()>, ghost id: nat)
      requires Valid() && IsHandle(dir, d)
      modifies this, volume, volume.disk
      ensures Valid() && old(volume.trace) <= volume.trace
      ensures old(FindIn(d, name)).Some? ==>
        r == Err(Invalid("already exists")) && volume.vol == old(volume.vol) && cat == old(cat)
      ensures old(FindIn(d, name)).None? ==>
        EntryMade(old(volume.vol), old(cat), old(volume.trace), volume.vol, cat, volume.trace, volume.geo, volume.bm, upcase,
                  d, id, name, isDir, r)
      ensures d in old(cat).chains
      ensures old(FindIn(d, name)).None? && r.Ok? ==>
        (FindIn(d, name) == Some(id) <==> !HoleAhead(old(volume.vol), old(cat).chains[d], volume.geo.Per(), SetSize(name)))
    {
      hide *;
      Parts();
      HandleIs(dir, d);
      HandleParts(cat, dir, d);
      WalkableIs(volume, cat, upcase, d);
      id := 0;
      FindInIs(d, name);
      var found := LocateIn(dir, name, d);
      if found.value.Some? {
        return Err(Invalid("already exists")), id;
      }
      ghost var cat';
      if isDir {
        r, cat', id := MakeDirEntry(volume, upcase, dir, name, cat, d);
      } else {
        r, cat', id := MakeFileEntry(volume, upcase, dir, name, cat, d);
      }
      EntryMadeConsistent(old(volume.vol), old(cat), old(volume.trace), volume.vol, cat', volume.trace, volume.geo, volume.bm, upcase,
                          d, id, name, isDir, r);
      cat := cat';
      ValidIs();
      if r.Ok? {
        FoundAfter(old(volume.vol), old(cat), old(volume.trace), d, id, name, isDir, r);
      }
    }

    lemma FoundAfter(v0: Vol, cat0: Cat, t0: seq<Vol>, d: nat, id: nat, name: Name, isDir: bool, r: Result<()>)
      requires Valid() && r.Ok? && cat0.IsDir(d) && d in cat0.chains
      requires EntryMade(v0, cat0, t0, volume.vol, cat, volume.trace, volume.geo, volume.bm, upcase, d, id, name, isDir, r)
      requires Consistent(v0, cat0, volume.geo, volume.bm, upcase)
      requires Walkable(v0, cat0, volume.geo.ClusterBytes(), volume.geo.Per(), upcase, d)
      requires Find(v0, cat0, volume.geo.Per(), upcase, d, name).None?
      ensures FindIn(d, name) == Some(id) <==> !HoleAhead(v0, cat0.chains[d], volume.geo.Per(), SetSize(name))
    {
      hide *;
      Parts();
      MadeParts(v0, cat0, t0, volume.vol, cat, volume.trace, volume.geo, volume.bm, upcase, d, id, name, isDir, r);
      CreatedDirs(v0, cat0, volume.vol, cat, volume.geo, d, id, name, isDir);
      WalkableIs(volume, cat, upcase, d);
      MadeIsFound(v0, cat0, t0, volume.vol, cat, volume.trace, volume.geo, volume.bm, upcase, d, id, name, isDir, r);
      FindInIs(d, name);
    }

    lemma FindInIs(d: nat, name: Name)
      ensures FindIn(d, name) == Find(volume.vol, cat, volume.geo.Per(), upcase, d, name)
    {
      hide Find;
    }

    lemma HandleIs(dir: DirHandle, d: nat)
      requires Valid() && IsHandle(dir, d)
      ensures HandleFor(cat, dir, d) && 19 <= volume.geo.Per()
    {
      hide Volume.Valid, Consistent, HandleOf;
    }

    /** Create an empty file at `path`. */
    method CreateFile(path: seq<Name>) returns (r: Result<()>, ghost id: nat)
      requires Valid()
      modifies this, volume, volume.disk
      ensures Valid() && old(volume.trace) <= volume.trace
      ensures var d := old(ParentAt(path)); d.Err? ==>
        r == Err(d.error) && volume.vol == old(volume.vol) && cat == old(cat)
      ensures var d := old(ParentAt(path)); d.Ok? && old(NodeAt(path)).Ok? ==>
        r == Err(Invalid("already exists")) && volume.vol == old(volume.vol) && cat == old(cat)
      ensures old(ParentAt(path)).Ok? ==> (old(NodeAt(path)).Ok? <==> old(IsTaken(path)))
      ensures old(ParentAt(path)).Ok? ==> path != []
      ensures var d := old(ParentAt(path)); d.Ok? && old(NodeAt(path)).Err? ==>
        EntryMade(old(volume.vol), old(cat), old(volume.trace), volume.vol, cat, volume.trace, volume.geo, volume.bm, upcase,
                  d.value, id, path[|path| - 1], false, r)
      ensures var d := old(ParentAt(path)); d.Ok? ==> d.value in old(cat).chains
      ensures var d := old(ParentAt(path)); d.Ok? && r.Ok? ==> var leaf := path[|path| - 1];
        (FindIn(d.value, leaf) == Some(id) <==> !HoleAhead(old(volume.vol), old(cat).chains[d.value], volume.geo.Per(), SetSize(leaf)))
    {
      hide *;
      id := 0;
      NodeAtIs(path);
      NodeAtTaken(path);
      var dir, d := ResolveParent(path);
      if dir.Err? {
        return Err(dir.error), id;
      }
      HandleIs(dir.value, d);
      HandleParts(cat, dir.value, d);
      r, id := CreateEntry(dir.value, path[|path| - 1], false, d);
    }

    /** Create an empty directory at `path`. */
    method MakeDir(path: seq<Name>) returns (r: Result<()>, ghost id: nat)
      requires Valid()
      modifies this, volume, volume.disk
      ensures Valid() && old(volume.trace) <= volume.trace
      ensures var d := old(ParentAt(path)); d.Err? ==>
        r == Err(d.error) && volume.vol == old(volume.vol) && cat == old(cat)
      ensures var d := old(ParentAt(path)); d.Ok? && old(NodeAt(path)).Ok? ==>
        r == Err(Invalid("already exists")) && volume.vol == old(volume.vol) && cat == old(cat)
      ensures old(ParentAt(path)).Ok? ==> (old(NodeAt(path)).Ok? <==> old(IsTaken(path)))
      ensures old(ParentAt(path)).Ok? ==> path != []
      ensures var d := old(ParentAt(path)); d.Ok? && old(NodeAt(path)).Err? ==>
        EntryMade(old(volume.vol), old(cat), old(volume.trace), volume.vol, cat, volume.trace, volume.geo, volume.bm, upcase,
                  d.value, id, path[|path| - 1], true, r)
      ensures var d := old(ParentAt(path)); d.Ok? ==> d.value in old(cat).chains
      ensures var d := old(ParentAt(path)); d.Ok? && r.Ok? ==> var leaf := path[|path| - 1];
        (FindIn(d.value, leaf) == Some(id) <==> !HoleAhead(old(volume.vol), old(cat).chains[d.value], volume.geo.Per(), SetSize(leaf)))
    {
      hide *;
      id := 0;
      NodeAtIs(path);
      NodeAtTaken(path);
      var dir, d := ResolveParent(path);
      if dir.Err? {
        return Err(dir.error), id;
      }
      HandleIs(dir.value, d);
      HandleParts(cat, dir.value, d);
      r, id := CreateEntry(dir.value, path[|path| - 1], true, d);
    }

    lemma NodeAtIs(path: seq<Name>)
      ensures ParentAt(path).Ok? ==> path != []
      ensures ParentAt(path).Ok? ==> (NodeAt(path).Ok? <==> FindIn(ParentAt(path).value, path[|path| - 1]).Some?)
      ensures ParentAt(path).Err? ==> NodeAt(path).Err? && NodeAt(path).error == ParentAt(path).error
    {
      hide Find, Resolve;
    }

    /** Some visible node of the directory that a path leads to has the name the path ends in, as far as the up-case table
        can tell. */
    ghost predicate IsTaken(path: seq<Name>)
      reads this, volume
    {
      path != [] && ParentAt(path).Ok?
      && Taken(volume.vol, cat, volume.geo.Per(), upcase, ParentAt(path).value, path[|path| - 1])
    }

    /** `id` is the first such node. */
    ghost predicate IsFirst(path: seq<Name>, id: nat)
      reads this, volume
    {
      path != [] && ParentAt(path).Ok?
      && FirstToAnswer(volume.vol, cat, volume.geo.Per(), upcase, ParentAt(path).value, path[|path| - 1], id)
    }

    lemma NodeAtTaken(path: seq<Name>)
      requires Valid()
      ensures ParentAt(path).Ok? ==> (NodeAt(path).Ok? <==> IsTaken(path))
      ensures NodeAt(path).Ok? ==> IsFirst(path, NodeAt(path).value)
    {
      NodeAtIs(path);
      if ParentAt(path).Ok? {
        var d, leaf := ParentAt(path).value, path[|path| - 1];
        ParentKnown(path);
        WalkableIs(volume, cat, upcase, d);
        SearchFolds(volume.vol, cat, volume.geo.ClusterBytes(), volume.geo.Per(), upcase, d, leaf);
        hide Volume.Valid, Consistent, Geometry.ClusterBytes, Geometry.Per, Find, Resolve, Walkable, Taken, FirstToAnswer;
      }
    }

    /** Two paths whose components are the same names lead to the same directory and the same node: every operation takes
        one for the other. */
    lemma NodeAtFolds(p: seq<Name>, q: seq<Name>)
      requires PathsAlike(upcase, p, q)
      ensures ParentAt(p) == ParentAt(q) && NodeAt(p) == NodeAt(q) && (IsTaken(p) <==> IsTaken(q))
    {
      hide Taken, PathsAlike, NamesAlike, Find, Resolve;
      NamedFolds(volume.vol, cat, volume.geo.Per(), upcase, p, q);
      PathEnds(p, q);
      if p != [] && ParentAt(p).Ok? {
        TakenFolds(volume.vol, cat, volume.geo.Per(), upcase, ParentAt(p).value, p[|p| - 1], q[|q| - 1]);
      }
    }

    lemma PathEnds(p: seq<Name>, q: seq<Name>)
      requires PathsAlike(upcase, p, q)
      ensures |p| == |q| && (p != [] ==> NamesAlike(upcase, p[|p| - 1], q[|q| - 1]))
    {
      hide NamesAlike;
    }

    /** A node that can be removed: a file, or a directory that lists nothing. */
    ghost predicate Removable(id: nat)
      reads this, volume
    {
      id in cat.nodes && id in cat.chains &&
      (cat.nodes[id].facts.isDir ==> NodesFrom(volume.vol, cat, volume.geo.Per(), id, 0) == [])
    }

    /** Remove the file or empty directory at `path`. A directory counts as empty when it lists nothing; the
        volume stays consistent if and only if nothing is recorded in it behind an end-of-directory slot either. */
    method Remove(path: seq<Name>) returns (r: Result<()>)
      requires Valid()
      modifies this, volume, volume.disk
      ensures volume.Valid() && old(volume.trace) <= volume.trace
      ensures var t := old(NodeAt(path)); t.Err? ==>
        Valid() && r == Err(t.error) && volume.vol == old(volume.vol) && cat == old(cat)
      ensures var t := old(NodeAt(path)); t.Ok? ==> t.value in old(cat).nodes
      ensures var t := old(NodeAt(path)); t.Ok? && !old(Removable(t.value)) ==>
        Valid() && r == Err(Invalid("directory not empty")) && volume.vol == old(volume.vol) && cat == old(cat)
      ensures var t := old(NodeAt(path)); t.Ok? && old(Removable(t.value)) ==>
        && r.Ok? && cat == Without(old(cat), t.value)
        && Removed(old(volume.vol), old(cat), volume.vol, cat, t.value)
        && (Valid() <==> Childless(old(cat), t.value))
        && CrashSafe(old(volume.vol), volume.trace, |old(volume.trace)|, old(cat), volume.geo.ClusterBytes(), {t.value})
    {
      hide *;
      Parts();
      var loc, id := LocatePath(path);
      if loc.Err? {
        return Err(loc.error);
      }
      LocatedKind(id, loc.value);
      NodeChain(volume.vol, cat, volume.geo, volume.bm, upcase, id);
      RemovableIs(id);
      if loc.value.isDir {
        SubdirReady(id, loc.value);
        var empty := ListsNothing(volume, upcase, loc.value.firstCluster, cat, id);
        if !empty.value {
          return Err(Invalid("directory not empty"));
        }
      }
      r := RemoveLocated(volume, upcase, loc.value, cat, id);
      cat := Without(cat, id);
      ValidIff();
    }

    lemma RemovableIs(id: nat)
      requires id in cat.nodes && id in cat.chains
      ensures Removable(id) <==> (cat.nodes[id].facts.isDir ==> NodesFrom(volume.vol, cat, volume.geo.Per(), id, 0) == [])
    {
      hide NodesFrom;
    }

    lemma SubdirReady(id: nat, loc: EntryLoc)
      requires Valid() && id in cat.nodes && cat.nodes[id].facts.isDir && loc == LocOfNode(cat.nodes[id])
      ensures cat.IsDir(id) && id in cat.chains && cat.chains[id] != [] && loc.firstCluster == cat.chains[id][0]
    {
      FirstOfDir(id);
      hide Valid;
    }

    lemma ValidIff()
      requires volume.Valid() && MIN_CLUSTER <= volume.geo.ClusterBytes()
      ensures Valid() <==> Consistent(volume.vol, cat, volume.geo, volume.bm, upcase)
    {
      hide Volume.Valid, Consistent;
    }

    /** Move the file or directory at `src` to `dst`: a fresh entry over the same clusters, then the old entry
        cleared. Moving a directory into itself or its own subtree is not refused; the volume stays consistent if
        and only if the move does not grow the directory it moves. */
    method Rename(src: seq<Name>, dst: seq<Name>) returns (r: Result<()>)
      requires Valid()
      modifies this, volume, volume.disk
      ensures volume.Valid() && old(volume.trace) <= volume.trace
      ensures var t, d := old(NodeAt(src)), old(ParentAt(dst)); t.Err? || d.Err? ==>
        Valid() && r == Err(if t.Err? then t.error else d.error) && volume.vol == old(volume.vol) && cat == old(cat)
      ensures old(NodeAt(src)).Ok? && old(ParentAt(dst)).Ok? && old(NodeAt(dst)).Ok? ==>
        Valid() && r == Err(Invalid("destination exists")) && volume.vol == old(volume.vol) && cat == old(cat)
      ensures old(ParentAt(dst)).Ok? ==> (old(NodeAt(dst)).Ok? <==> old(IsTaken(dst)))
      ensures old(NodeAt(src)).Ok? ==> old(NodeAt(src)).value in old(cat).nodes
      ensures old(ParentAt(dst)).Ok? ==> dst != [] && old(ParentAt(dst)).value in old(cat).chains
      ensures var t, d := old(NodeAt(src)), old(ParentAt(dst)); t.Ok? && d.Ok? && old(NodeAt(dst)).Err? ==>
        && MoveMade(old(volume.vol), old(cat), old(volume.trace), volume.vol, cat, volume.trace, volume.geo, volume.bm, upcase,
                    d.value, t.value, dst[|dst| - 1], r)
        && (Valid() <==> r.Err? || MoveSound(old(volume.vol), old(cat), volume.geo.Per(), d.value, t.value, dst[|dst| - 1]))
      ensures var t, d := old(NodeAt(src)), old(ParentAt(dst)); t.Ok? && d.Ok? && r.Ok? && Valid() ==>
        var leaf := dst[|dst| - 1];
        (FindIn(d.value, leaf) == Some(t.value)) == !HoleAhead(old(volume.vol), old(cat).chains[d.value], volume.geo.Per(), SetSize(leaf))
    {
      hide *;
      Parts();
      NodeAtIs(dst);
      NodeAtTaken(dst);
      var from, id := LocatePath(src);
      if from.Err? {
        ParentKnown(dst);
        return Err(from.error);
      }
      var dir, d := ResolveParent(dst);
      if dir.Err? {
        return Err(dir.error);
      }
      var leaf := dst[|dst| - 1];
      HandleIs(dir.value, d);
      HandleParts(cat, dir.value, d);
      FindInIs(d, leaf);
      var found := LocateIn(dir.value, leaf, d);
      if found.value.Some? {
        return Err(Invalid("destination exists"));
      }
      WalkableIs(volume, cat, upcase, d);
      ghost var cat';
      r, cat' := MoveLocated(volume, upcase, from.value, dir.value, leaf, cat, id, d);
      MoveMadeConsistent(old(volume.vol), old(cat), old(volume.trace), volume.vol, cat', volume.trace, volume.geo, volume.bm, upcase,
                         d, id, leaf, r);
      cat := cat';
      ValidIff();
      if r.Ok? && MoveSound(old(volume.vol), old(cat), volume.geo.Per(), d, id, leaf) {
        FoundMoved(old(volume.vol), old(cat), old(volume.trace), d, id, leaf, r);
      }
    }

    lemma ParentKnown(path: seq<Name>)
      requires Valid()
      ensures ParentAt(path).Ok? ==> path != [] && ParentAt(path).value in cat.chains && cat.IsDir(ParentAt(path).value)
    {
      hide Volume.Valid, Consistent, Resolve, Geometry.Per;
      if path != [] {
        ResolvedIsDir(ROOT, path[..|path| - 1]);
      }
    }

    lemma {:induction false} ResolvedIsDir(d: nat, path: seq<Name>)
      requires Valid() && cat.IsDir(d)
      ensures var s := Resolve(volume.vol, cat, volume.geo.Per(), upcase, d, path);
        s.Ok? ==> s.value in cat.chains && cat.IsDir(s.value)
      decreases |path|
    {
      hide Volume.Valid, Consistent, Geometry.Per, Find;
      HandleReady(d);
      if path != [] {
        var found := FindIn(d, path[0]);
        if found.Some? && cat.IsDir(found.value) {
          ResolvedIsDir(found.value, path[1..]);
        }
      }
    }

    lemma FoundMoved(v0: Vol, cat0: Cat, t0: seq<Vol>, d: nat, id: nat, name: Name, r: Result<()>)
      requires Valid() && r.Ok? && cat0.IsDir(d) && d in cat0.chains && id in cat0.nodes
      requires MoveSound(v0, cat0, volume.geo.Per(), d, id, name)
      requires MoveMade(v0, cat0, t0, volume.vol, cat, volume.trace, volume.geo, volume.bm, upcase, d, id, name, r)
      requires Consistent(v0, cat0, volume.geo, volume.bm, upcase)
      requires Walkable(v0, cat0, volume.geo.ClusterBytes(), volume.geo.Per(), upcase, d)
      requires Find(v0, cat0, volume.geo.Per(), upcase, d, name).None?
      ensures FindIn(d, name) == Some(id) <==> !HoleAhead(v0, cat0.chains[d], volume.geo.Per(), SetSize(name))
    {
      hide *;
      Parts();
      MovedParts(v0, cat0, t0, volume.vol, cat, volume.trace, volume.geo, volume.bm, upcase, d, id, name, r);
      MovedDirs(v0, cat0, volume.vol, cat, d, id, name);
      WalkableIs(volume, cat, upcase, d);
      MovedIsFound(v0, cat0, t0, volume.vol, cat, volume.trace, volume.geo, volume.bm, upcase, d, id, name, r);
      FindInIs(d, name);
    }

    // ---- The read side -----------------------------------------------------------------------

    /** The entry at `path`; the empty path is the root, which has none. The reader finds exactly the node the
        writer's operations would act on. */
    method Lookup(path: seq<Name>) returns (r: Result<Option<Entry>>)
      requires Valid()
      ensures path == [] ==> r == Ok(None)
      ensures path != [] && NodeAt(path).Err? ==> r == Err(NotFound)
      ensures path != [] && NodeAt(path).Ok? ==> NodeAt(path).value in cat.nodes
      ensures path != [] && NodeAt(path).Ok? ==> r == Ok(Some(EntryOf(cat.nodes[NodeAt(path).value].facts)))
      ensures path != [] && ParentAt(path).Ok? ==> (r.Ok? <==> IsTaken(path))
      ensures path != [] && r.Ok? ==> NodeAt(path).Ok? && IsFirst(path, NodeAt(path).value)
    {
      hide *;
      Parts();
      NodeAtTaken(path);
      NodeAtIs(path);
      var cur: Option<Entry> := None;
      ghost var k := 0;
      LookupStart(path);
      for i := 0 to |path|
        invariant if i == 0 then cur == None && k == 0 else k in cat.nodes && cur == Some(EntryOf(cat.nodes[k].facts))
        invariant 0 < i ==> path != []
        invariant path != [] ==> (NodeAt(path).Ok? <==> Remaining(k, path[i..]).Some?)
        invariant path != [] && NodeAt(path).Ok? ==> Remaining(k, path[i..]) == Some(NodeAt(path).value)
      {
        RemainingStep(k, path, i);
        if cur.Some? {
          EntryKind(k);
          if !cur.value.isDir {
            return Err(NotFound);
          }
        }
        DirFacts(k, i == 0);
        var first := if cur.Some? then cur.value.firstCluster else volume.geo.rootFirstCluster;
        var len := if cur.Some? then cur.value.size else 0xFFFF_FFFF_FFFF_FFFF;
        var found := LookupStep(volume, upcase, first, len, path[i], cat, k);
        FindInIs(k, path[i]);
        match found {
          case Err(e) =>
            return Err(e);
          case Ok(e) =>
            cur := Some(e);
            k := FindIn(k, path[i]).value;
        }
      }
      RemainingEnd(k, path);
      return Ok(cur);
    }

    ghost function Remaining(k: nat, path: seq<Name>): Option<nat>
      reads this, volume
    {
      LookupFrom(volume.vol, cat, volume.geo.Per(), upcase, k, path)
    }

    lemma LookupStart(path: seq<Name>)
      ensures path != [] ==> (NodeAt(path).Ok? <==> Remaining(0, path[0..]).Some?)
      ensures path != [] && NodeAt(path).Ok? ==> Remaining(0, path[0..]) == Some(NodeAt(path).value)
    {
      hide Find, Resolve, LookupFrom, Geometry.Per;
      if path != [] {
        assert path[0..] == path;
        LookupIsNamed(volume.vol, cat, volume.geo.Per(), upcase, ROOT, path);
      }
    }

    lemma RemainingStep(k: nat, path: seq<Name>, i: nat)
      requires i < |path|
      ensures !cat.IsDir(k) ==> Remaining(k, path[i..]).None?
      ensures cat.IsDir(k) && FindIn(k, path[i]).None? ==> Remaining(k, path[i..]).None?
      ensures cat.IsDir(k) && FindIn(k, path[i]).Some? ==>
        Remaining(k, path[i..]) == Remaining(FindIn(k, path[i]).value, path[i + 1..])
    {
      hide Find, Geometry.Per;
      assert path[i..][0] == path[i] && path[i..][1..] == path[i + 1..];
    }

    lemma RemainingEnd(k: nat, path: seq<Name>)
      ensures Remaining(k, path[|path|..]) == Some(k)
    {
    }

    lemma EntryKind(k: nat)
      requires k in cat.nodes && Valid()
      ensures EntryOf(cat.nodes[k].facts).isDir == cat.nodes[k].facts.isDir
      ensures k != 0 && (cat.IsDir(k) <==> cat.nodes[k].facts.isDir)
    {
      RootCluster();
      hide Valid;
    }

    lemma DirFacts(k: nat, root: bool)
      requires Valid() && (if root then k == 0 else k in cat.nodes && cat.nodes[k].facts.isDir)
      ensures cat.IsDir(k) && k in cat.chains && cat.chains[k] != []
      ensures root ==> cat.chains[k][0] == volume.geo.rootFirstCluster && ListingBound(cat, k) == 0xFFFF_FFFF_FFFF_FFFF
      ensures !root ==> var e := EntryOf(cat.nodes[k].facts); cat.chains[k][0] == e.firstCluster && ListingBound(cat, k) == e.size
    {
      RootCluster();
      if !root {
        FirstOfDir(k);
      }
      hide Valid;
    }

    /** Read the file `id` describes, at `offset`, into `buf`: exactly its bytes there, the count short of the
        buffer only at the end of the file. */
    method ReadFileOf(entry: Entry, offset: nat, buf: array<byte>, ghost id: nat) returns (r: Result<nat>)
      requires Valid() && id in cat.nodes && entry == EntryOf(cat.nodes[id].facts)
      modifies buf
      ensures cat.nodes[id].facts.isDir ==> r.Err?
      ensures var c := FileContent(volume.vol, cat, id); !cat.nodes[id].facts.isDir ==>
        && |c| == entry.size
        && r == Ok(if offset < |c| then Min(buf.Length, |c| - offset) else 0)
        && (offset < |c| ==> buf[..r.value] == c[offset..offset + r.value])
      ensures r.Ok? ==> buf[r.value..] == old(buf[r.value..])
    {
      hide *;
      Parts();
      EntryKind(id);
      ChainOffBitmap(id, entry);
      if !cat.nodes[id].facts.isDir {
        ReadableFile(volume, cat, upcase, id);
        ContentIs(id, entry.size);
        ghost var ch, cb := cat.chains[id], volume.geo.ClusterBytes();
        BytesAreContent(volume.vol, entry, ch, cb, 0, entry.size);
        MinOf(buf.Length, entry.size - offset);
        if offset < entry.size {
          BytesAreContent(volume.vol, entry, ch, cb, offset, offset + Min(buf.Length, entry.size - offset));
        }
      }
      r := ReadFile(volume, entry, offset, buf);
    }

    lemma ContentIs(id: nat, len: nat)
      requires id in cat.nodes && id in cat.chains && len == cat.nodes[id].facts.len
      ensures FileContent(volume.vol, cat, id) == Content(volume.vol, cat.chains[id], len)
    {
      hide Content;
    }

    lemma MinOf(a: nat, b: int)
      ensures 0 < b ==> 0 <= Min(a, b) <= b
      ensures Min(a, b) == if a < b then a else b
    {
    }

    /** A read of a consistent volume's entry never goes through the bitmap's clusters. */
    lemma ChainOffBitmap(id: nat, entry: Entry)
      requires Valid() && id in cat.nodes && entry == EntryOf(cat.nodes[id].facts)
      ensures 0 < volume.geo.ClusterBytes()
      ensures var c := ReadClusters(volume.vol.fat, entry, volume.geo.ClusterBytes());
        c.Ok? ==> OffBitmap(volume.geo, volume.bm, c.value)
    {
      hide Volume.Valid, Geometry.ClusterBytes, Geometry.InBitmapRun, DivCeil;
      OwnedReads(volume, cat, upcase, id);
    }
  }
}
