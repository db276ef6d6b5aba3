/** Whole runs: any sequence of creations, writes, truncations, removals and renames, from any consistent volume. */
module Runs {
  import opened Alloc
  import opened Bytes
  import opened Catalogues
  import opened Creations
  import opened Disks
  import opened EntrySets
  import opened ExfatFileSystem
  import opened FileTruncates
  import opened FileWrites
  import opened Footprints
  import opened Geometries
  import opened Layouts
  import opened Listings
  import opened Lookups
  import opened Mounts
  import opened Outcomes
  import opened Placements
  import opened Removals
  import opened Renames
  import opened SlotWrites
  import opened Stabilities
  import opened Steps
  import opened Trees
  import opened UpcaseTables
  import opened Volumes

  datatype Op =
    | Create(path: seq<Name>)
    | MakeDirectory(path: seq<Name>)
    | Write(path: seq<Name>, offset: nat, buf: seq<byte>)
    | Truncate(path: seq<Name>, len: nat)
    | Delete(path: seq<Name>)
    | Move(src: seq<Name>, dst: seq<Name>)

  /** Sizes within what the format and the cluster count can express. */
  predicate InBounds(op: Op, cb: nat)
    requires 0 < cb
  {
    match op
    case Write(_, offset, buf) => offset + |buf| < 0x1_0000_0000_0000_0000 && DivCeil(offset + |buf|, cb) < 0x1_0000_0000
    case Truncate(_, len) => len < 0x1_0000_0000_0000_0000 && DivCeil(len, cb) < 0x1_0000_0000
    case _ => true
  }

  /** A volume and the account of who owns what. */
  datatype Moment = Moment(vol: Vol, cat: Cat)

  /** What stays the same during a run: where things are on the volume, and how names fold. */
  datatype Env = Env(geo: Geometry, bm: BitmapLoc, upcase: seq<u16>)
  {
    ghost function NodeAt(m: Moment, path: seq<Name>): Result<nat>
    {
      Named(m.vol, m.cat, geo.Per(), upcase, path)
    }

    ghost function ParentAt(m: Moment, path: seq<Name>): Result<nat>
    {
      ParentOf(m.vol, m.cat, geo.Per(), upcase, path)
    }

    ghost predicate InOrder(m: Moment)
    {
      Consistent(m.vol, m.cat, geo, bm, upcase) && 0 < geo.ClusterBytes()
    }
  }

  function EnvOf(fs: ExfatFs): Env { Env(fs.volume.geo, fs.volume.bm, fs.upcase) }

  ghost function Now(fs: ExfatFs): Moment
    reads fs, fs.volume
  {
    Moment(fs.volume.vol, fs.cat)
  }

  // ---- When an operation is sound ------------------------------------------------------------------

  /** A truncation to nothing frees a run that lies in the bitmap and meets nobody else's cluster; it does when
      the file's chain occupies that run. */
  ghost predicate MayTruncate(m: Moment, e: Env, path: seq<Name>, len: nat)
  {
    var t := e.NodeAt(m, path);
    len == 0 && t.Ok? && t.value in m.cat.chains ==>
      RunClear(m.cat, t.value) && InBitmap(e.bm, RunOf(m.cat.chains[t.value]))
  }

  /** Nothing lies hidden in a directory that lists nothing. */
  ghost predicate MayDelete(m: Moment, e: Env, path: seq<Name>)
  {
    var t := e.NodeAt(m, path);
    t.Ok? && Removable(m, e, t.value) ==> Childless(m.cat, t.value)
  }

  ghost predicate Removable(m: Moment, e: Env, id: nat)
  {
    id in m.cat.nodes && id in m.cat.chains
    && (m.cat.nodes[id].facts.isDir ==> NodesFrom(m.vol, m.cat, e.geo.Per(), id, 0) == [])
  }

  /** What is moved does not go into itself or below itself. */
  ghost predicate MayMove(m: Moment, e: Env, src: seq<Name>, dst: seq<Name>)
  {
    var t, d := e.NodeAt(m, src), e.ParentAt(m, dst);
    t.Ok? && d.Ok? && e.NodeAt(m, dst).Err? ==> !Under(m.cat, d.value, t.value)
  }

  /** What a caller has to see to, at the moment of the call, for the invariant to hold after it. */
  ghost predicate Guard(op: Op, m: Moment, e: Env)
  {
    match op
    case Truncate(path, len) => MayTruncate(m, e, path, len)
    case Delete(path) => MayDelete(m, e, path)
    case Move(src, dst) => MayMove(m, e, src, dst)
    case _ => true
  }

  // ---- What an operation does ------------------------------------------------------------------------

  ghost predicate EntryStep(m: Moment, m': Moment, e: Env, path: seq<Name>, isDir: bool)
  {
    var d := e.ParentAt(m, path);
    if d.Err? || e.NodeAt(m, path).Ok? then m' == m
    else path != [] && MadeEntry(m, m', e, d.value, path[|path| - 1], isDir)
  }

  /** The directory, the new node, the device writes and the result are those of one call. */
  ghost predicate MadeEntry(m: Moment, m': Moment, e: Env, d: nat, name: Name, isDir: bool)
  {
    exists t0, t, id, r :: EntryMade(m.vol, m.cat, t0, m'.vol, m'.cat, t, e.geo, e.bm, e.upcase, d, id, name, isDir, r)
  }

  ghost predicate WriteStep(m: Moment, m': Moment, e: Env, path: seq<Name>, offset: nat, buf: seq<byte>)
    requires 0 < e.geo.ClusterBytes()
  {
    var t := e.NodeAt(m, path);
    if buf == [] || t.Err? then m' == m
    else if t.value !in m.cat.nodes then false
    else if m.cat.nodes[t.value].facts.isDir then m' == m
    else if NeededClusters(m.cat.nodes[t.value].facts.len, offset + |buf|, e.geo.ClusterBytes()) <= |FreeSet(m.vol)| then
      && FileWritten(m.vol, m.cat, m'.vol, m'.cat, t.value, offset, buf)
      && SamePaths(m.vol, m.cat, m'.vol, m'.cat, e.geo.Per(), e.upcase)
    else SpaceRanOut(m.vol, m.cat, m'.vol, m'.cat)
  }

  ghost predicate TruncateStep(m: Moment, m': Moment, e: Env, path: seq<Name>, len: nat)
    requires 0 < e.geo.ClusterBytes()
  {
    var t := e.NodeAt(m, path);
    if t.Err? then m' == m
    else if t.value !in m.cat.nodes then false
    else if m.cat.nodes[t.value].facts.isDir then m' == m
    else if NeededClusters(m.cat.nodes[t.value].facts.len, len, e.geo.ClusterBytes()) <= |FreeSet(m.vol)| then
      && FileTruncated(m.vol, m.cat, m'.vol, m'.cat, t.value, len)
      && SamePaths(m.vol, m.cat, m'.vol, m'.cat, e.geo.Per(), e.upcase)
    else SpaceRanOut(m.vol, m.cat, m'.vol, m'.cat)
  }

  ghost predicate DeleteStep(m: Moment, m': Moment, e: Env, path: seq<Name>)
  {
    var t := e.NodeAt(m, path);
    if t.Err? then m' == m
    else if t.value !in m.cat.nodes then false
    else if Removable(m, e, t.value) then
      m'.cat == Without(m.cat, t.value) && Removed(m.vol, m.cat, m'.vol, m'.cat, t.value)
    else m' == m
  }

  ghost predicate MoveStep(m: Moment, m': Moment, e: Env, src: seq<Name>, dst: seq<Name>)
  {
    var t, d := e.NodeAt(m, src), e.ParentAt(m, dst);
    if t.Err? || d.Err? || e.NodeAt(m, dst).Ok? then m' == m
    else t.value in m.cat.nodes && dst != [] && MadeMove(m, m', e, d.value, t.value, dst[|dst| - 1])
  }

  ghost predicate MadeMove(m: Moment, m': Moment, e: Env, d: nat, id: nat, name: Name)
    requires id in m.cat.nodes
  {
    exists t0, t, r :: MoveMade(m.vol, m.cat, t0, m'.vol, m'.cat, t, e.geo, e.bm, e.upcase, d, id, name, r)
  }

  /** What one operation makes of a moment: all its contract says. */
  ghost predicate Step(op: Op, m: Moment, m': Moment, e: Env)
  {
    && e.InOrder(m')
    && match op
       case Create(path) => EntryStep(m, m', e, path, false)
       case MakeDirectory(path) => EntryStep(m, m', e, path, true)
       case Write(path, offset, buf) => WriteStep(m, m', e, path, offset, buf)
       case Truncate(path, len) => TruncateStep(m, m', e, path, len)
       case Delete(path) => DeleteStep(m, m', e, path)
       case Move(src, dst) => MoveStep(m, m', e, src, dst)
  }

  /** Successive moments of a run, one more than there are operations, each operation called when it is sound. */
  ghost predicate IsRun(ops: seq<Op>, ms: seq<Moment>, e: Env)
  {
    && |ms| == |ops| + 1 && e.InOrder(ms[0])
    && forall i :: 0 <= i < |ops| ==> Guard(ops[i], ms[i], e) && Step(ops[i], ms[i], ms[i + 1], e)
  }

  /** However the run from `m` goes, the next operation is called when it is sound. */
  ghost predicate AllGuarded(m: Moment, ops: seq<Op>, e: Env)
  {
    forall k, ms {:trigger IsRun(ops[..k], ms, e)} :: 0 <= k < |ops| && IsRun(ops[..k], ms, e) && ms[0] == m ==>
      Guard(ops[k], ms[k], e)
  }

  /** Creations, writes and truncations to more than nothing need no care. */
  lemma CarefreeIsGuarded(m: Moment, ops: seq<Op>, e: Env)
    requires forall i :: 0 <= i < |ops| ==> !ops[i].Delete? && !ops[i].Move? && (ops[i].Truncate? ==> 0 < ops[i].len)
    ensures AllGuarded(m, ops, e)
  {
  }

  // ---- Guards that hold of themselves ---------------------------------------------------------------

  /** Nothing lies in a file. */
  lemma FileIsChildless(m: Moment, e: Env, id: nat)
    requires e.InOrder(m) && id in m.cat.nodes && !m.cat.nodes[id].facts.isDir
    ensures Childless(m.cat, id)
  {
    InOrderParts(m, e);
    forall k | k in m.cat.nodes
      ensures m.cat.nodes[k].parent != id
    {
      ParentKind(m, e, k);
    }
  }

  lemma ParentKind(m: Moment, e: Env, k: nat)
    requires e.InOrder(m) && k in m.cat.nodes
    ensures m.cat.IsDir(m.cat.nodes[k].parent)
  {
    hide ChainsOwned, SlotsOwned, SystemOk, SetOnDisk, ChainSuits, Geometry.ClusterBytes;
    assert NodeOk(m.vol, m.cat, e.geo.ClusterBytes(), e.upcase, k);
  }

  /** Going up from a directory one meets directories only. */
  lemma {:induction false} DirsAbove(m: Moment, e: Env, d: nat, n: nat)
    requires e.InOrder(m) && m.cat.IsDir(d)
    ensures m.cat.IsDir(Up(m.cat, d, n))
    decreases n
  {
    hide Env.InOrder;
    if n > 0 && d in m.cat.nodes {
      ParentKind(m, e, d);
      DirsAbove(m, e, m.cat.nodes[d].parent, n - 1);
    }
  }

  /** A file may be removed, and may be moved anywhere: only directories call for care. */
  lemma FilesNeedNoCare(op: Op, m: Moment, e: Env)
    requires e.InOrder(m) && !op.Truncate?
    requires op.Delete? ==> var t := e.NodeAt(m, op.path); t.Ok? ==> t.value in m.cat.nodes && !m.cat.nodes[t.value].facts.isDir
    requires op.Move? ==> var t := e.NodeAt(m, op.src); t.Ok? ==> t.value in m.cat.nodes && !m.cat.nodes[t.value].facts.isDir
    ensures Guard(op, m, e)
  {
    InOrderParts(m, e);
    hide Env.InOrder, Env.NodeAt, Childless, Removable, ParentOf;
    if op.Delete? && e.NodeAt(m, op.path).Ok? {
      FileIsChildless(m, e, e.NodeAt(m, op.path).value);
    }
    if op.Move? && e.NodeAt(m, op.src).Ok? && e.ParentAt(m, op.dst).Ok? {
      ParentIsDir(m, e, op.dst);
      forall n: nat
        ensures Up(m.cat, e.ParentAt(m, op.dst).value, n) != e.NodeAt(m, op.src).value
      {
        DirsAbove(m, e, e.ParentAt(m, op.dst).value, n);
      }
    }
  }

  /** A file whose chain occupies a run of consecutive clusters may be truncated to nothing. */
  lemma UnfragmentedNeedsNoCare(m: Moment, e: Env, path: seq<Name>, len: nat, size: nat)
    requires e.InOrder(m) && e.geo.Fits(e.bm, size) && |m.vol.bits| == e.geo.clusterCount + 2
    requires var t := e.NodeAt(m, path); t.Ok? && t.value in m.cat.chains ==> OccupiesRun(m.cat.chains[t.value])
    ensures Guard(Truncate(path, len), m, e)
  {
    InOrderParts(m, e);
    ConsistentOwned(m.vol, m.cat, e.geo, e.bm, e.upcase);
    hide Env.InOrder, Env.NodeAt, RunClear, InBitmap, RunOf, OccupiesRun, Consistent, ChainsOwned, Geometry.Fits;
    var t := e.NodeAt(m, path);
    if t.Ok? && t.value in m.cat.chains {
      OccupiedIsClear(m.vol, m.cat, t.value);
      OccupiedInBitmap(m.vol, m.cat, e.geo, e.bm, size, t.value);
    }
  }

  // ---- Performing a run --------------------------------------------------------------------------------

  /** Performs the operations one after the other; those that fail are steps too. */
  method Execute(fs: ExfatFs, ops: seq<Op>) returns (ghost ms: seq<Moment>)
    requires fs.Valid() && 0 < fs.volume.geo.ClusterBytes()
    requires forall i :: 0 <= i < |ops| ==> InBounds(ops[i], fs.volume.geo.ClusterBytes())
    requires AllGuarded(Now(fs), ops, EnvOf(fs))
    modifies fs, fs.volume, fs.volume.disk
    ensures fs.Valid()
    ensures |ms| == |ops| + 1 && IsRun(ops, ms, EnvOf(fs)) && ms[0] == old(Now(fs)) && ms[|ops|] == Now(fs)
  {
    hide *;
    ms := [Now(fs)];
    NoSteps(fs, ms);
    assert ops[..0] == [];
    for i := 0 to |ops|
      invariant fs.Valid() && |ms| == i + 1
      invariant IsRun(ops[..i], ms, EnvOf(fs))
      invariant ms[0] == old(Now(fs)) && ms[i] == Now(fs)
    {
      NextGuarded(ops, i, ms, EnvOf(fs));
      Perform(fs, ops[i]);
      OneMore(ops, i, ms, Now(fs), EnvOf(fs));
      ms := ms + [Now(fs)];
    }
    assert ops[..|ops|] == ops;
  }

  lemma NoSteps(fs: ExfatFs, ms: seq<Moment>)
    requires fs.Valid() && ms == [Now(fs)]
    ensures IsRun([], ms, EnvOf(fs))
  {
    fs.Parts();
    hide Volume.Valid, Consistent;
  }

  lemma NextGuarded(ops: seq<Op>, i: nat, ms: seq<Moment>, e: Env)
    requires i < |ops| && |ms| == i + 1 && AllGuarded(ms[0], ops, e) && IsRun(ops[..i], ms, e)
    ensures Guard(ops[i], ms[i], e)
  {
    hide IsRun, Guard;
  }

  lemma OneMore(ops: seq<Op>, i: nat, ms: seq<Moment>, m: Moment, e: Env)
    requires i < |ops| && IsRun(ops[..i], ms, e) && |ms| == i + 1 && Guard(ops[i], ms[i], e) && Step(ops[i], ms[i], m, e)
    ensures IsRun(ops[..i + 1], ms + [m], e)
  {
    hide Step, Guard, Env.InOrder;
    var longer := ms + [m];
    forall j | 0 <= j < i + 1
      ensures Guard(ops[..i + 1][j], longer[j], e) && Step(ops[..i + 1][j], longer[j], longer[j + 1], e)
    {
      if j < i {
        assert ops[..i][j] == ops[..i + 1][j] && longer[j] == ms[j] && longer[j + 1] == ms[j + 1];
      }
    }
  }

  /** One operation, called when it is sound. */
  method Perform(fs: ExfatFs, op: Op)
    requires fs.Valid() && 0 < fs.volume.geo.ClusterBytes() && InBounds(op, fs.volume.geo.ClusterBytes())
    requires Guard(op, Now(fs), EnvOf(fs))
    modifies fs, fs.volume, fs.volume.disk
    ensures fs.Valid() && Step(op, old(Now(fs)), Now(fs), EnvOf(fs))
  {
    hide EntryStep, WriteStep, TruncateStep, DeleteStep, MoveStep, MayTruncate, MayDelete, MayMove, InBounds, Env.InOrder,
         ExfatFs.Valid, Volume.Valid, Geometry.ClusterBytes;
    match op {
      case Create(path) => PerformCreate(fs, path, false);
      case MakeDirectory(path) => PerformCreate(fs, path, true);
      case Write(path, offset, buf) => PerformWrite(fs, path, offset, buf);
      case Truncate(path, len) => PerformTruncate(fs, path, len);
      case Delete(path) => PerformDelete(fs, path);
      case Move(src, dst) => PerformMove(fs, src, dst);
    }
    InOrderIs(fs);
  }

  lemma InOrderIs(fs: ExfatFs)
    requires fs.Valid()
    ensures Env(fs.volume.geo, fs.volume.bm, fs.upcase).InOrder(Moment(fs.volume.vol, fs.cat))
  {
    fs.Parts();
    hide Volume.Valid, Consistent;
  }

  method PerformCreate(fs: ExfatFs, path: seq<Name>, isDir: bool)
    requires fs.Valid()
    modifies fs, fs.volume, fs.volume.disk
    ensures fs.Valid()
    ensures EntryStep(Moment(old(fs.volume.vol), old(fs.cat)), Moment(fs.volume.vol, fs.cat),
                      Env(fs.volume.geo, fs.volume.bm, fs.upcase), path, isDir)
  {
    hide *;
    ghost var m, e := Moment(fs.volume.vol, fs.cat), Env(fs.volume.geo, fs.volume.bm, fs.upcase);
    ghost var t0 := fs.volume.trace;
    PathMeans(fs, path);
    var r;
    ghost var id;
    if isDir {
      r, id := fs.MakeDir(path);
    } else {
      r, id := fs.CreateFile(path);
    }
    EntryStepIs(m, t0, Moment(fs.volume.vol, fs.cat), fs.volume.trace, e, path, id, isDir, r);
  }

  method PerformWrite(fs: ExfatFs, path: seq<Name>, offset: nat, buf: seq<byte>)
    requires fs.Valid() && 0 < fs.volume.geo.ClusterBytes()
    requires InBounds(Write(path, offset, buf), fs.volume.geo.ClusterBytes())
    modifies fs, fs.volume, fs.volume.disk
    ensures fs.Valid()
    ensures WriteStep(Moment(old(fs.volume.vol), old(fs.cat)), Moment(fs.volume.vol, fs.cat),
                      Env(fs.volume.geo, fs.volume.bm, fs.upcase), path, offset, buf)
  {
    hide *;
    ghost var m, e := Moment(fs.volume.vol, fs.cat), Env(fs.volume.geo, fs.volume.bm, fs.upcase);
    PathMeans(fs, path);
    WriteBounds(path, offset, buf, fs.volume.geo.ClusterBytes());
    var r := fs.WriteFile(path, offset, buf);
    WriteStepIs(m, Moment(fs.volume.vol, fs.cat), e, path, offset, buf);
  }

  method PerformTruncate(fs: ExfatFs, path: seq<Name>, len: nat)
    requires fs.Valid() && 0 < fs.volume.geo.ClusterBytes() && InBounds(Truncate(path, len), fs.volume.geo.ClusterBytes())
    requires MayTruncate(Moment(fs.volume.vol, fs.cat), Env(fs.volume.geo, fs.volume.bm, fs.upcase), path, len)
    modifies fs, fs.volume, fs.volume.disk
    ensures fs.Valid()
    ensures TruncateStep(Moment(old(fs.volume.vol), old(fs.cat)), Moment(fs.volume.vol, fs.cat),
                         Env(fs.volume.geo, fs.volume.bm, fs.upcase), path, len)
  {
    hide *;
    ghost var m, e := Moment(fs.volume.vol, fs.cat), Env(fs.volume.geo, fs.volume.bm, fs.upcase);
    ghost var t, t0 := fs.NodeAt(path), fs.volume.trace;
    PathMeans(fs, path);
    TruncateBounds(path, len, fs.volume.geo.ClusterBytes());
    var r := fs.TruncateFile(path, len);
    if t.Ok? && !m.cat.nodes[t.value].facts.isDir && len <= m.cat.nodes[t.value].facts.len {
      ShrunkMeans(fs, m, e, t0, path, t.value, len, r);
      NothingNeeded(m.cat.nodes[t.value].facts.len, len, fs.volume.geo.ClusterBytes());
      EmptyFits(m.vol);
    }
    TruncateStepIs(m, Moment(fs.volume.vol, fs.cat), e, path, len);
  }

  method PerformDelete(fs: ExfatFs, path: seq<Name>)
    requires fs.Valid()
    requires MayDelete(Moment(fs.volume.vol, fs.cat), Env(fs.volume.geo, fs.volume.bm, fs.upcase), path)
    modifies fs, fs.volume, fs.volume.disk
    ensures fs.Valid()
    ensures DeleteStep(Moment(old(fs.volume.vol), old(fs.cat)), Moment(fs.volume.vol, fs.cat),
                       Env(fs.volume.geo, fs.volume.bm, fs.upcase), path)
  {
    hide *;
    ghost var m, e := Moment(fs.volume.vol, fs.cat), Env(fs.volume.geo, fs.volume.bm, fs.upcase);
    ghost var t := fs.NodeAt(path);
    PathMeans(fs, path);
    MayDeleteIs(m, e, path);
    if t.Ok? {
      RemovableMeans(fs, t.value);
    }
    var r := fs.Remove(path);
    DeleteStepIs(m, Moment(fs.volume.vol, fs.cat), e, path);
  }

  method PerformMove(fs: ExfatFs, src: seq<Name>, dst: seq<Name>)
    requires fs.Valid()
    requires MayMove(Moment(fs.volume.vol, fs.cat), Env(fs.volume.geo, fs.volume.bm, fs.upcase), src, dst)
    modifies fs, fs.volume, fs.volume.disk
    ensures fs.Valid()
    ensures MoveStep(Moment(old(fs.volume.vol), old(fs.cat)), Moment(fs.volume.vol, fs.cat),
                     Env(fs.volume.geo, fs.volume.bm, fs.upcase), src, dst)
  {
    hide *;
    ghost var m, e := Moment(fs.volume.vol, fs.cat), Env(fs.volume.geo, fs.volume.bm, fs.upcase);
    ghost var t0, t, d := fs.volume.trace, fs.NodeAt(src), fs.ParentAt(dst);
    PathMeans(fs, src);
    PathMeans(fs, dst);
    MayMoveIs(m, e, src, dst);
    var r := fs.Rename(src, dst);
    if t.Ok? && d.Ok? && e.NodeAt(m, dst).Err? {
      OutsideIsSound(m.vol, m.cat, fs.volume.geo.Per(), d.value, t.value, dst[|dst| - 1]);
    }
    MoveStepIs(m, t0, Moment(fs.volume.vol, fs.cat), fs.volume.trace, e, src, dst, r);
  }

  // ---- Why each is its step --------------------------------------------------------------------------

  lemma PathMeans(fs: ExfatFs, path: seq<Name>)
    requires fs.Valid()
    ensures var m, e := Moment(fs.volume.vol, fs.cat), Env(fs.volume.geo, fs.volume.bm, fs.upcase);
      fs.ParentAt(path) == e.ParentAt(m, path) && fs.NodeAt(path) == e.NodeAt(m, path)
    ensures 0 < fs.volume.geo.ClusterBytes()
  {
    fs.Parts();
    hide Volume.Valid, Consistent, Resolve, Find;
  }

  lemma EntryStepIs(m: Moment, t0: seq<Vol>, m': Moment, t: seq<Vol>, e: Env, path: seq<Name>, id: nat, isDir: bool, r: Result<()>)
    requires e.ParentAt(m, path).Err? || e.NodeAt(m, path).Ok? ==> m' == m
    requires e.ParentAt(m, path).Ok? && e.NodeAt(m, path).Err? ==>
      (path != [] &&
       EntryMade(m.vol, m.cat, t0, m'.vol, m'.cat, t, e.geo, e.bm, e.upcase, e.ParentAt(m, path).value, id, path[|path| - 1], isDir, r))
    ensures EntryStep(m, m', e, path, isDir)
  {
    hide EntryMade, Env.ParentAt, Env.NodeAt;
  }

  lemma WriteBounds(path: seq<Name>, offset: nat, buf: seq<byte>, cb: nat)
    requires 0 < cb && InBounds(Write(path, offset, buf), cb)
    ensures offset + |buf| < 0x1_0000_0000_0000_0000 && DivCeil(offset + |buf|, cb) < U32
  {
    hide DivCeil;
  }

  lemma TruncateBounds(path: seq<Name>, len: nat, cb: nat)
    requires 0 < cb && InBounds(Truncate(path, len), cb)
    ensures len < 0x1_0000_0000_0000_0000 && DivCeil(len, cb) < U32
  {
    hide DivCeil;
  }

  lemma WriteStepIs(m: Moment, m': Moment, e: Env, path: seq<Name>, offset: nat, buf: seq<byte>)
    requires 0 < e.geo.ClusterBytes()
    requires buf == [] || e.NodeAt(m, path).Err? ==> m' == m
    requires buf != [] && e.NodeAt(m, path).Ok? ==> e.NodeAt(m, path).value in m.cat.nodes
    requires var t := e.NodeAt(m, path); buf != [] && t.Ok? && m.cat.nodes[t.value].facts.isDir ==> m' == m
    requires var t := e.NodeAt(m, path); buf != [] && t.Ok? && !m.cat.nodes[t.value].facts.isDir ==>
      if NeededClusters(m.cat.nodes[t.value].facts.len, offset + |buf|, e.geo.ClusterBytes()) <= |FreeSet(m.vol)|
      then FileWritten(m.vol, m.cat, m'.vol, m'.cat, t.value, offset, buf)
           && SamePaths(m.vol, m.cat, m'.vol, m'.cat, e.geo.Per(), e.upcase)
      else SpaceRanOut(m.vol, m.cat, m'.vol, m'.cat)
    ensures WriteStep(m, m', e, path, offset, buf)
  {
    hide FileWritten, SamePaths, SpaceRanOut, NeededClusters, FreeSet, Env.NodeAt, Geometry.ClusterBytes, Geometry.Per;
  }

  lemma TruncateStepIs(m: Moment, m': Moment, e: Env, path: seq<Name>, len: nat)
    requires 0 < e.geo.ClusterBytes()
    requires e.NodeAt(m, path).Err? ==> m' == m
    requires e.NodeAt(m, path).Ok? ==> e.NodeAt(m, path).value in m.cat.nodes
    requires var t := e.NodeAt(m, path); t.Ok? && m.cat.nodes[t.value].facts.isDir ==> m' == m
    requires var t := e.NodeAt(m, path); t.Ok? && !m.cat.nodes[t.value].facts.isDir ==>
      if NeededClusters(m.cat.nodes[t.value].facts.len, len, e.geo.ClusterBytes()) <= |FreeSet(m.vol)|
      then FileTruncated(m.vol, m.cat, m'.vol, m'.cat, t.value, len)
           && SamePaths(m.vol, m.cat, m'.vol, m'.cat, e.geo.Per(), e.upcase)
      else SpaceRanOut(m.vol, m.cat, m'.vol, m'.cat)
    ensures TruncateStep(m, m', e, path, len)
  {
    hide FileTruncated, SamePaths, SpaceRanOut, NeededClusters, FreeSet, Env.NodeAt, Geometry.ClusterBytes, Geometry.Per;
  }

  lemma NothingNeeded(have: nat, len: nat, cb: nat)
    requires 0 < cb && len <= have
    ensures NeededClusters(have, len, cb) == 0
  {
  }

  lemma EmptyFits(v: Vol)
    ensures 0 <= |FreeSet(v)|
  {
  }

  lemma ShrunkMeans(fs: ExfatFs, m: Moment, e: Env, t0: seq<Vol>, path: seq<Name>, id: nat, len: nat, r: Result<()>)
    requires id in m.cat.nodes && id in m.cat.chains && fs.Shrunk(m.vol, m.cat, t0, id, len, r)
    requires e == Env(fs.volume.geo, fs.volume.bm, fs.upcase) && MayTruncate(m, e, path, len) && e.NodeAt(m, path) == Ok(id)
    ensures fs.Valid() && FileTruncated(m.vol, m.cat, fs.volume.vol, fs.cat, id, len)
    ensures SamePaths(m.vol, m.cat, fs.volume.vol, fs.cat, fs.volume.geo.Per(), fs.upcase)
  {
    hide Volume.Valid, FileTruncated, SamePaths, RunClear, InBitmap, RunOf, StruckBy, BystandersSafe, LinksFreed, Env.NodeAt;
  }

  lemma MayDeleteIs(m: Moment, e: Env, path: seq<Name>)
    requires MayDelete(m, e, path)
    ensures var t := e.NodeAt(m, path); t.Ok? && Removable(m, e, t.value) ==> Childless(m.cat, t.value)
  {
    hide Removable, Childless, Env.NodeAt;
  }

  lemma RemovableMeans(fs: ExfatFs, id: nat)
    requires fs.Valid()
    ensures fs.Removable(id) == Removable(Moment(fs.volume.vol, fs.cat), Env(fs.volume.geo, fs.volume.bm, fs.upcase), id)
  {
    hide Volume.Valid, Consistent, NodesFrom;
  }

  lemma DeleteStepIs(m: Moment, m': Moment, e: Env, path: seq<Name>)
    requires e.NodeAt(m, path).Err? ==> m' == m
    requires e.NodeAt(m, path).Ok? ==> e.NodeAt(m, path).value in m.cat.nodes
    requires var t := e.NodeAt(m, path); t.Ok? && !Removable(m, e, t.value) ==> m' == m
    requires var t := e.NodeAt(m, path); t.Ok? && Removable(m, e, t.value) ==>
      m'.cat == Without(m.cat, t.value) && Removed(m.vol, m.cat, m'.vol, m'.cat, t.value)
    ensures DeleteStep(m, m', e, path)
  {
    hide Removed, Removable, Without, Env.NodeAt;
  }

  lemma MayMoveIs(m: Moment, e: Env, src: seq<Name>, dst: seq<Name>)
    requires MayMove(m, e, src, dst)
    ensures var t, d := e.NodeAt(m, src), e.ParentAt(m, dst);
      t.Ok? && d.Ok? && e.NodeAt(m, dst).Err? ==> !Under(m.cat, d.value, t.value)
  {
    hide Under, Env.NodeAt, Env.ParentAt;
  }

  lemma OutsideIsSound(v0: Vol, cat0: Cat, per: nat, d: nat, id: nat, name: Name)
    requires d in cat0.chains && !Under(cat0, d, id)
    ensures MoveSound(v0, cat0, per, d, id, name)
  {
    hide NoRun;
    assert Up(cat0, d, 0) == d;
  }

  lemma MoveStepIs(m: Moment, t0: seq<Vol>, m': Moment, t1: seq<Vol>, e: Env, src: seq<Name>, dst: seq<Name>, r: Result<()>)
    requires e.NodeAt(m, src).Err? || e.ParentAt(m, dst).Err? || e.NodeAt(m, dst).Ok? ==> m' == m
    requires var t, d := e.NodeAt(m, src), e.ParentAt(m, dst); t.Ok? && d.Ok? && e.NodeAt(m, dst).Err? ==>
      (t.value in m.cat.nodes && dst != [] &&
       MoveMade(m.vol, m.cat, t0, m'.vol, m'.cat, t1, e.geo, e.bm, e.upcase, d.value, t.value, dst[|dst| - 1], r))
    ensures MoveStep(m, m', e, src, dst)
  {
    hide MoveMade, Env.ParentAt, Env.NodeAt;
  }

  // ---- What a step leaves alone -----------------------------------------------------------------------

  /** The nodes an operation may touch: the file or directory a path names, and the directory that gets an entry. */
  ghost function NamedBy(op: Op, m: Moment, e: Env): set<nat>
  {
    match op
    case Create(path) => Values(e.ParentAt(m, path))
    case MakeDirectory(path) => Values(e.ParentAt(m, path))
    case Move(src, dst) => Values(e.NodeAt(m, src)) + Values(e.ParentAt(m, dst))
    case _ => Values(e.NodeAt(m, op.path))
  }

  function Values(r: Result<nat>): set<nat> { if r.Ok? then {r.value} else {} }

  /** Only what the operation names may differ, only a removal makes a node disappear, and every node still leads
      to the root. */
  lemma StepKeeps(op: Op, m: Moment, m': Moment, e: Env)
    requires e.InOrder(m) && Guard(op, m, e) && Step(op, m, m', e)
    ensures OthersKept(m.vol, m.cat, m'.vol, m'.cat, NamedBy(op, m, e))
    ensures !op.Delete? ==> m.cat.nodes.Keys <= m'.cat.nodes.Keys
    ensures Rooted(m.cat) ==> Rooted(m'.cat)
  {
    InOrderParts(m, e);
    hide EntryStep, WriteStep, TruncateStep, DeleteStep, MoveStep, Env.InOrder, Env.ParentAt, Env.NodeAt, MayTruncate, MayDelete, MayMove,
         OthersKept, Rooted;
    match op {
      case Create(path) => EntryKeeps(m, m', e, path, false);
      case MakeDirectory(path) => EntryKeeps(m, m', e, path, true);
      case Write(path, offset, buf) => WriteKeeps(m, m', e, path, offset, buf);
      case Truncate(path, len) => TruncateKeeps(m, m', e, path, len);
      case Delete(path) => DeleteKeeps(m, m', e, path);
      case Move(src, dst) => MoveKeeps(m, m', e, src, dst);
    }
  }

  lemma InOrderParts(m: Moment, e: Env)
    requires e.InOrder(m)
    ensures Consistent(m.vol, m.cat, e.geo, e.bm, e.upcase) && 0 < e.geo.ClusterBytes()
    ensures ROOT !in m.cat.nodes && m.cat.nodes.Keys <= m.cat.chains.Keys
  {
    NodesHaveChains(m.vol, m.cat, e.geo, e.bm, e.upcase);
    hide ChainsOwned, NodesOk, SlotsOwned;
  }

  /** Doing nothing keeps everything. */
  lemma NothingDiffers(m: Moment, named: set<nat>)
    requires m.cat.nodes.Keys <= m.cat.chains.Keys
    ensures OthersKept(m.vol, m.cat, m.vol, m.cat, named)
  {
    hide FileContent;
  }

  lemma OthersOfMore(v0: Vol, cat0: Cat, v: Vol, cat: Cat, a: set<nat>, b: set<nat>)
    requires OthersKept(v0, cat0, v, cat, a) && a <= b
    ensures OthersKept(v0, cat0, v, cat, b)
  {
    hide FileContent;
  }

  lemma SparesKeep(m: Moment, m': Moment, named: set<nat>)
    requires m'.cat == m.cat.(spare := m'.cat.spare) && OthersKept(m.vol, m.cat, m'.vol, m'.cat, {})
    ensures OthersKept(m.vol, m.cat, m'.vol, m'.cat, named)
    ensures m.cat.nodes.Keys <= m'.cat.nodes.Keys && (Rooted(m.cat) ==> Rooted(m'.cat))
  {
    OthersOfMore(m.vol, m.cat, m'.vol, m'.cat, {}, named);
    hide OthersKept;
    SameTreeRooted(m.cat, m'.cat);
  }

  lemma EntryKeeps(m: Moment, m': Moment, e: Env, path: seq<Name>, isDir: bool)
    requires EntryStep(m, m', e, path, isDir) && ROOT !in m.cat.nodes && m.cat.nodes.Keys <= m.cat.chains.Keys
    ensures OthersKept(m.vol, m.cat, m'.vol, m'.cat, Values(e.ParentAt(m, path)))
    ensures m.cat.nodes.Keys <= m'.cat.nodes.Keys && (Rooted(m.cat) ==> Rooted(m'.cat))
  {
    hide Env.NodeAt, EntryMade, OthersKept, Rooted, ParentOf;
    NothingDiffers(m, Values(e.ParentAt(m, path)));
    var d := e.ParentAt(m, path);
    if d.Ok? && e.NodeAt(m, path).Err? {
      ParentIsDir(m, e, path);
      var t0, t, id, r :| EntryMade(m.vol, m.cat, t0, m'.vol, m'.cat, t, e.geo, e.bm, e.upcase, d.value, id, path[|path| - 1], isDir, r);
      MadeKeeps(m, t0, m', t, e, d.value, id, path[|path| - 1], isDir, r);
    }
  }

  lemma MadeKeeps(m: Moment, t0: seq<Vol>, m': Moment, t: seq<Vol>, e: Env, d: nat, id: nat, name: Name, isDir: bool, r: Result<()>)
    requires m.cat.IsDir(d) && ROOT !in m.cat.nodes
    requires EntryMade(m.vol, m.cat, t0, m'.vol, m'.cat, t, e.geo, e.bm, e.upcase, d, id, name, isDir, r)
    ensures OthersKept(m.vol, m.cat, m'.vol, m'.cat, {d})
    ensures m.cat.nodes.Keys <= m'.cat.nodes.Keys && (Rooted(m.cat) ==> Rooted(m'.cat))
  {
    hide Consistent, CrashSafe, FileContent, Rooted, PlacedWhere, EntryClusters, OthersKept, Confined, AlwaysPublished, Blank, FreeSet;
    if r.Ok? {
      if Rooted(m.cat) {
        CreationKeepsTree(m.vol, m.cat, m'.vol, m'.cat, e.geo, d, id, name, isDir);
      }
    } else {
      SparesKeep(m, m', {d});
    }
  }

  lemma ParentIsDir(m: Moment, e: Env, path: seq<Name>)
    requires e.ParentAt(m, path).Ok?
    ensures m.cat.IsDir(e.ParentAt(m, path).value)
  {
    ResolvesToDir(m.vol, m.cat, e.geo.Per(), e.upcase, ROOT, path[..|path| - 1]);
  }

  lemma {:induction false} ResolvesToDir(v: Vol, cat: Cat, per: nat, upcase: seq<u16>, d: nat, path: seq<Name>)
    requires cat.IsDir(d) && Resolve(v, cat, per, upcase, d, path).Ok?
    ensures cat.IsDir(Resolve(v, cat, per, upcase, d, path).value)
    decreases |path|
  {
    hide Find;
    if path != [] {
      var next := Find(v, cat, per, upcase, d, path[0]).value;
      ResolvesToDir(v, cat, per, upcase, next, path[1..]);
    }
  }

  lemma WriteKeeps(m: Moment, m': Moment, e: Env, path: seq<Name>, offset: nat, buf: seq<byte>)
    requires 0 < e.geo.ClusterBytes() && WriteStep(m, m', e, path, offset, buf) && m.cat.nodes.Keys <= m.cat.chains.Keys
    ensures OthersKept(m.vol, m.cat, m'.vol, m'.cat, Values(e.NodeAt(m, path)))
    ensures m.cat.nodes.Keys <= m'.cat.nodes.Keys && (Rooted(m.cat) ==> Rooted(m'.cat))
  {
    hide Env.NodeAt, FileContent, Rooted, SamePaths, NeededClusters, FreeSet, Overwritten, Geometry.ClusterBytes, Geometry.Per;
    NothingDiffers(m, Values(e.NodeAt(m, path)));
    if OthersKept(m.vol, m.cat, m'.vol, m'.cat, {}) && m'.cat == m.cat.(spare := m'.cat.spare) {
      SparesKeep(m, m', Values(e.NodeAt(m, path)));
    } else if m' != m {
      SameTreeRooted(m.cat, m'.cat);
    }
  }

  lemma TruncateKeeps(m: Moment, m': Moment, e: Env, path: seq<Name>, len: nat)
    requires 0 < e.geo.ClusterBytes() && TruncateStep(m, m', e, path, len) && m.cat.nodes.Keys <= m.cat.chains.Keys
    ensures OthersKept(m.vol, m.cat, m'.vol, m'.cat, Values(e.NodeAt(m, path)))
    ensures m.cat.nodes.Keys <= m'.cat.nodes.Keys && (Rooted(m.cat) ==> Rooted(m'.cat))
  {
    hide Env.NodeAt, FileContent, Rooted, SamePaths, NeededClusters, FreeSet, Resized, SparesAfter,
         Geometry.ClusterBytes, Geometry.Per;
    NothingDiffers(m, Values(e.NodeAt(m, path)));
    if OthersKept(m.vol, m.cat, m'.vol, m'.cat, {}) && m'.cat == m.cat.(spare := m'.cat.spare) {
      SparesKeep(m, m', Values(e.NodeAt(m, path)));
    } else if m' != m {
      SameTreeRooted(m.cat, m'.cat);
    }
  }

  lemma DeleteKeeps(m: Moment, m': Moment, e: Env, path: seq<Name>)
    requires DeleteStep(m, m', e, path) && MayDelete(m, e, path) && ROOT !in m.cat.nodes && m.cat.nodes.Keys <= m.cat.chains.Keys
    ensures OthersKept(m.vol, m.cat, m'.vol, m'.cat, Values(e.NodeAt(m, path))) && (Rooted(m.cat) ==> Rooted(m'.cat))
  {
    hide Env.NodeAt, OthersKept, Rooted, Removable, Without, Childless, FreeSet, LeftUnused;
    NothingDiffers(m, Values(e.NodeAt(m, path)));
    var t := e.NodeAt(m, path);
    if t.Ok? && Removable(m, e, t.value) && Rooted(m.cat) {
      RemovalKeepsTree(m.cat, t.value);
    }
  }

  lemma MoveKeeps(m: Moment, m': Moment, e: Env, src: seq<Name>, dst: seq<Name>)
    requires MoveStep(m, m', e, src, dst) && MayMove(m, e, src, dst) && ROOT !in m.cat.nodes && m.cat.nodes.Keys <= m.cat.chains.Keys
    ensures OthersKept(m.vol, m.cat, m'.vol, m'.cat, Values(e.NodeAt(m, src)) + Values(e.ParentAt(m, dst)))
    ensures m.cat.nodes.Keys <= m'.cat.nodes.Keys && (Rooted(m.cat) ==> Rooted(m'.cat))
  {
    hide Env.NodeAt, Env.ParentAt, MoveMade, OthersKept, Rooted, Under;
    var t, d, named := e.NodeAt(m, src), e.ParentAt(m, dst), Values(e.NodeAt(m, src)) + Values(e.ParentAt(m, dst));
    NothingDiffers(m, named);
    if t.Ok? && d.Ok? && e.NodeAt(m, dst).Err? {
      ParentIsDir(m, e, dst);
      var t0, t1, r :| MoveMade(m.vol, m.cat, t0, m'.vol, m'.cat, t1, e.geo, e.bm, e.upcase, d.value, t.value, dst[|dst| - 1], r);
      MoveMadeKeeps(m, t0, m', t1, e, d.value, t.value, dst[|dst| - 1], r);
      assert named == {d.value, t.value};
    }
  }

  lemma MoveMadeKeeps(m: Moment, t0: seq<Vol>, m': Moment, t: seq<Vol>, e: Env, d: nat, id: nat, name: Name, r: Result<()>)
    requires id in m.cat.nodes && m.cat.IsDir(d) && ROOT !in m.cat.nodes && !Under(m.cat, d, id)
    requires MoveMade(m.vol, m.cat, t0, m'.vol, m'.cat, t, e.geo, e.bm, e.upcase, d, id, name, r)
    ensures OthersKept(m.vol, m.cat, m'.vol, m'.cat, {d, id})
    ensures m.cat.nodes.Keys <= m'.cat.nodes.Keys && (Rooted(m.cat) ==> Rooted(m'.cat))
  {
    hide Consistent, CrashSafe, FileContent, Rooted, PlacedWhere, OthersKept, Confined, AlwaysPublished, FreeSet, Under, NoRun, Stale,
         LeftUnused, MoveSound;
    if r.Ok? {
      if Rooted(m.cat) {
        RenameKeepsTree(m.vol, m.cat, m'.vol, m'.cat, d, id, name);
      }
    } else {
      SparesKeep(m, m', {d, id});
    }
  }

  /** With the same nodes under the same parents the tree is the same. */
  lemma SameTreeRooted(cat: Cat, cat': Cat)
    requires cat'.nodes.Keys == cat.nodes.Keys
    requires forall k :: k in cat.nodes ==> cat'.nodes[k].parent == cat.nodes[k].parent
    ensures Rooted(cat) ==> Rooted(cat')
  {
    if Rooted(cat) {
      forall k | k in cat'.nodes
        ensures exists n: nat :: Up(cat', k, n) == ROOT
      {
        var n: nat :| Up(cat, k, n) == ROOT;
        SameUp(cat, cat', k, n);
      }
    }
  }

  lemma {:induction false} SameUp(cat: Cat, cat': Cat, k: nat, n: nat)
    requires cat'.nodes.Keys == cat.nodes.Keys
    requires forall k :: k in cat.nodes ==> cat'.nodes[k].parent == cat.nodes[k].parent
    ensures Up(cat', k, n) == Up(cat, k, n)
    decreases n
  {
    if n > 0 && k in cat.nodes {
      SameUp(cat, cat', cat.nodes[k].parent, n - 1);
    }
  }

  // ---- What a run leaves alone ----------------------------------------------------------------------

  /** A file that no operation of a run names is there at the end, in the same place, with the same bytes,
      however many others were created, written, truncated, moved and removed around it; and what was a tree
      is one. */
  lemma {:induction false} UnnamedFileSurvives(ops: seq<Op>, ms: seq<Moment>, e: Env, k: nat)
    requires IsRun(ops, ms, e) && k in ms[0].cat.nodes
    requires forall i :: 0 <= i < |ops| ==> k !in NamedBy(ops[i], ms[i], e)
    ensures k in ms[|ops|].cat.nodes && ms[|ops|].cat.nodes[k] == ms[0].cat.nodes[k]
    ensures !ms[0].cat.nodes[k].facts.isDir ==>
      FileContent(ms[|ops|].vol, ms[|ops|].cat, k) == FileContent(ms[0].vol, ms[0].cat, k)
    decreases |ops|
  {
    hide NamedBy, FileContent, Guard, Step, Env.InOrder;
    if ops != [] {
      StepKeeps(ops[0], ms[0], ms[1], e);
      RunTail(ops, ms, e);
      assert forall i :: 0 <= i < |ops[1..]| ==> ops[1..][i] == ops[i + 1] && ms[1..][i] == ms[i + 1];
      UnnamedFileSurvives(ops[1..], ms[1..], e, k);
    }
  }

  /** At every moment of a run the invariant holds and, if it did at the start, every node leads to the root. */
  lemma {:induction false} RunKeepsTree(ops: seq<Op>, ms: seq<Moment>, e: Env, i: nat)
    requires IsRun(ops, ms, e) && i <= |ops|
    ensures e.InOrder(ms[i]) && (Rooted(ms[0].cat) ==> Rooted(ms[i].cat))
    decreases i
  {
    hide Guard, Step, Env.InOrder, Rooted;
    if 0 < i {
      RunKeepsTree(ops, ms, e, i - 1);
      assert Guard(ops[i - 1], ms[i - 1], e) && Step(ops[i - 1], ms[i - 1], ms[i - 1 + 1], e);
      StepInOrder(ops[i - 1], ms[i - 1], ms[i], e);
      StepKeeps(ops[i - 1], ms[i - 1], ms[i], e);
    }
  }

  /** From any volume without files or directories the run is guarded. */
  ghost predicate GuardedFromEmpty(ops: seq<Op>, e: Env)
  {
    forall m {:trigger AllGuarded(m, ops, e)} :: e.InOrder(m) && m.cat.nodes == map[] ==> AllGuarded(m, ops, e)
  }

  /** Formats a device, opens it and performs the operations: at every moment the invariant holds and every node
      leads to the root. */
  method FormatAndExecute(disk: Disk, totalBytes: nat, serial: nat, table: seq<byte>, ops: seq<Op>)
    returns (r: Result<ExfatFs>, ghost ms: seq<Moment>)
    requires disk.Valid() && |disk.bytes| == totalBytes && |table| == UPCASE_LEN
    requires Plan(totalBytes).Ok? && Plan(totalBytes).value.clusterCount <= 0xFFFF_FFF5
    requires 0 < Plan(totalBytes).value.Geo().ClusterBytes()
    requires forall i :: 0 <= i < |ops| ==> InBounds(ops[i], Plan(totalBytes).value.Geo().ClusterBytes())
    requires var x := Expand(Words(table), []);
      x.Ok? ==> GuardedFromEmpty(ops, Env(Plan(totalBytes).value.Geo(), Plan(totalBytes).value.Bitmap(), x.value))
    modifies disk
    ensures r.Ok? <==> Expand(Words(table), []).Ok?
    ensures r.Ok? ==> fresh(r.value) && fresh(r.value.volume) && r.value.volume.disk == disk && r.value.Valid()
    ensures r.Ok? ==> var e := EnvOf(r.value);
      && e.geo == Plan(totalBytes).value.Geo() && Ok(e.upcase) == Expand(Words(table), [])
      && |ms| == |ops| + 1 && IsRun(ops, ms, e) && ms[0].cat.nodes == map[] && ms[|ops|] == Now(r.value)
      && forall i :: 0 <= i <= |ops| ==> e.InOrder(ms[i]) && Rooted(ms[i].cat)
  {
    hide AllGuarded, IsRun, Env.InOrder, Rooted, ExfatFs.Valid, Volume.Valid, Disk.Valid, ListsEmpty, Expand, Words, Plan, InBounds,
         Layout.Geo, Layout.Bitmap, Geometry.ClusterBytes;
    ms := [];
    r := FormatAndOpen(disk, totalBytes, serial, table);
    if r.Err? {
      return;
    }
    var fs := r.value;
    NothingIsRooted(fs);
    ms := Execute(fs, ops);
    forall i | 0 <= i <= |ops|
      ensures EnvOf(fs).InOrder(ms[i]) && Rooted(ms[i].cat)
    {
      RunKeepsTree(ops, ms, EnvOf(fs), i);
    }
  }

  lemma NothingIsRooted(fs: ExfatFs)
    requires fs.Valid() && fs.cat.nodes == map[]
    ensures EnvOf(fs).InOrder(Now(fs)) && Rooted(Now(fs).cat)
  {
    InOrderIs(fs);
    hide ExfatFs.Valid, Env.InOrder;
  }

  lemma RunTail(ops: seq<Op>, ms: seq<Moment>, e: Env)
    requires IsRun(ops, ms, e) && ops != []
    ensures IsRun(ops[1..], ms[1..], e)
  {
    hide Step, Guard, Env.InOrder;
    assert Guard(ops[0], ms[0], e) && Step(ops[0], ms[0], ms[0 + 1], e);
    StepInOrder(ops[0], ms[0], ms[1], e);
  }

  lemma StepInOrder(op: Op, m: Moment, m': Moment, e: Env)
    requires Step(op, m, m', e)
    ensures e.InOrder(m')
  {
    hide Env.InOrder, EntryStep, WriteStep, TruncateStep, DeleteStep, MoveStep;
  }
}
