/** Opening a device: boot region, up-case table and bitmap, all read before anything is known to fit. */
module Openings {
  import opened Alloc
  import opened Boots
  import opened Bytes
  import opened Disks
  import opened EntrySets
  import opened Fats
  import opened FileData
  import opened Formats
  import opened FreshVolumes
  import opened Geometries
  import opened Layouts
  import opened UpcaseTables
  import opened Volumes

  // ---- Chains on a raw image ---------------------------------------------------------------------

  /** One FAT word of an image. */
  function RawEntry(img: seq<byte>, g: Geometry, c: nat): Result<nat>
  {
    if !g.InRange(c) then Err(Invalid("FAT index out of range"))
    else if g.FatBase() + 4 * c + 4 > |img| then Err(Io)
    else Ok(FatWord(img, g, c))
  }

  /** The walk of `Walk`, on an image whose FAT may lie outside it. */
  function RawWalk(img: seq<byte>, g: Geometry, cur: nat, cap: nat, known: bool): Result<seq<nat>>
    decreases cap
  {
    if cap == 0 then if known then Ok([]) else Err(Invalid("cluster chain loop"))
    else
      match RawEntry(img, g, cur)
      case Err(e) => Err(e)
      case Ok(next) =>
        if next == END_OF_CHAIN then Ok([cur])
        else if next == BAD_CLUSTER then Err(Invalid("chain hits bad cluster"))
        else Prepend([cur], RawWalk(img, g, next, cap - 1, known))
  }

  method ReadRawChain(disk: Disk, g: Geometry, first: nat, maxLen: Option<nat>) returns (r: Result<seq<nat>>)
    ensures r == match maxLen
                 case Some(n) => RawWalk(disk.bytes, g, first, n, true)
                 case None => RawWalk(disk.bytes, g, first, g.clusterCount, false)
  {
    hide FatWord, Prepend;
    var cap := if maxLen.Some? then maxLen.value else g.clusterCount;
    var chain, cur := [], first;
    PrependNothing([], RawWalk(disk.bytes, g, cur, cap, maxLen.Some?));
    while true
      invariant |chain| <= cap
      invariant Prepend(chain, RawWalk(disk.bytes, g, cur, cap - |chain|, maxLen.Some?))
             == RawWalk(disk.bytes, g, first, cap, maxLen.Some?)
      decreases cap - |chain|
    {
      if |chain| >= cap {
        PrependNothing(chain, Ok([]));
        PrependError(chain, Invalid("cluster chain loop"));
        return if maxLen.Some? then Ok(chain) else Err(Invalid("cluster chain loop"));
      }
      ghost var before := chain;
      chain := chain + [cur];
      var next := ReadEntry(disk, g, cur);
      if next.Err? {
        PrependError(before, next.error);
        return next.PropagateFailure();
      }
      PrependOk(before, [cur]);
      if next.value == END_OF_CHAIN {
        return Ok(chain);
      } else if next.value == BAD_CLUSTER {
        PrependError(before, Invalid("chain hits bad cluster"));
        return Err(Invalid("chain hits bad cluster"));
      }
      PrependTwice(before, [cur], RawWalk(disk.bytes, g, next.value, cap - |chain|, maxLen.Some?));
      cur := next.value;
    }
  }

  lemma PrependError(s: seq<nat>, e: Error)
    ensures Prepend(s, Err(e)) == Err(e)
  {
  }

  lemma PrependOk(s: seq<nat>, t: seq<nat>)
    ensures Prepend(s, Ok(t)) == Ok(s + t)
  {
  }

  method ReadEntry(disk: Disk, g: Geometry, c: nat) returns (r: Result<nat>)
    ensures r == RawEntry(disk.bytes, g, c)
  {
    if !g.InRange(c) {
      return Err(Invalid("FAT index out of range"));
    }
    var word := disk.ReadAt(g.FatBase() + 4 * c, 4);
    if word.Err? {
      return Err(Io);
    }
    return Ok(FromLe(word.value));
  }

  /** On a device that holds its FAT the two walks agree. */
  lemma {:induction false} RawWalkIsWalk(img: seq<byte>, g: Geometry, fat: seq<nat>, cur: nat, cap: nat, known: bool)
    requires |fat| == g.clusterCount + 2 && g.FatBase() + 4 * (g.clusterCount + 2) <= |img|
    requires forall c :: 2 <= c < |fat| ==> FatWord(img, g, c) == fat[c]
    ensures RawWalk(img, g, cur, cap, known) == Walk(fat, cur, cap, known)
    decreases cap
  {
    hide FatWord, Geometry.FatBase;
    if cap > 0 && g.InRange(cur) {
      EntryIs(img, g, fat, cur);
      RawWalkIsWalk(img, g, fat, fat[cur], cap - 1, known);
    }
  }

  lemma EntryIs(img: seq<byte>, g: Geometry, fat: seq<nat>, c: nat)
    requires |fat| == g.clusterCount + 2 && g.FatBase() + 4 * (g.clusterCount + 2) <= |img|
    requires 2 <= c < |fat| && FatWord(img, g, c) == fat[c]
    ensures RawEntry(img, g, c) == Ok(fat[c])
  {
  }

  // ---- System entries ------------------------------------------------------------------------------

  /** The first `n` bytes of a cluster. */
  function RawCluster(img: seq<byte>, g: Geometry, c: nat, n: nat): (r: Result<seq<byte>>)
    ensures r.Ok? ==> |r.value| == n
  {
    if !g.InRange(c) then Err(Invalid("cluster number out of range"))
    else if g.ClusterStart(c) + n > |img| then Err(Io)
    else Ok(img[g.ClusterStart(c)..g.ClusterStart(c) + n])
  }

  method ReadRawCluster(disk: Disk, g: Geometry, c: nat, n: nat) returns (r: Result<seq<byte>>)
    ensures r == RawCluster(disk.bytes, g, c, n)
  {
    var at := g.ClusterOffset(c);
    if at.Err? {
      return at.PropagateFailure();
    }
    r := disk.ReadAt(at.value, n);
  }

  /** What a run of slots says to a search: found, end of the directory, or look further. */
  datatype Scan = Hit(first: nat, len: nat) | End | Further

  /** A system entry of the kind sought; of bitmaps only the first, flag bit 0 clear. */
  predicate Wanted(slot: seq<byte>, kind: byte)
    requires |slot| == SLOT
  {
    slot[0] == kind && (kind == ENTRY_BITMAP ==> slot[1] % 2 == 0)
  }

  function ScanSlots(bytes: seq<byte>, kind: byte): Scan
    decreases |bytes|
  {
    if |bytes| < SLOT then Further
    else
      var slot := bytes[..SLOT];
      if slot[0] == 0 then End
      else if Wanted(slot, kind) then Hit(Field(slot, 20, 4), Field(slot, 24, 8))
      else ScanSlots(bytes[SLOT..], kind)
  }

  function ScanChain(img: seq<byte>, g: Geometry, chain: seq<nat>, kind: byte): Result<Scan>
  {
    if chain == [] then Ok(End)
    else
      match RawCluster(img, g, chain[0], g.ClusterBytes())
      case Err(e) => Err(e)
      case Ok(bytes) =>
        var scan := ScanSlots(bytes, kind);
        if scan.Further? then ScanChain(img, g, chain[1..], kind) else Ok(scan)
  }

  /** The place and length a system entry of the root records: the first one before the end mark. */
  function FindSystem(img: seq<byte>, g: Geometry, kind: byte): Result<Option<(nat, nat)>>
  {
    if g.rootFirstCluster == 0 then Ok(None)
    else
      match RawWalk(img, g, g.rootFirstCluster, g.clusterCount, false)
      case Err(e) => Err(e)
      case Ok(chain) =>
        match ScanChain(img, g, chain, kind)
        case Err(e) => Err(e)
        case Ok(scan) => Ok(if scan.Hit? then Some((scan.first, scan.len)) else None)
  }

  method ScanCluster(bytes: seq<byte>, kind: byte) returns (r: Scan)
    ensures r == ScanSlots(bytes, kind)
  {
    var i := 0;
    assert bytes[0..] == bytes;
    while i + SLOT <= |bytes|
      invariant i <= |bytes| && ScanSlots(bytes[i..], kind) == ScanSlots(bytes, kind)
    {
      var slot := bytes[i..i + SLOT];
      assert bytes[i..][..SLOT] == slot && bytes[i..][SLOT..] == bytes[i + SLOT..];
      if slot[0] == 0 {
        return End;
      }
      if Wanted(slot, kind) {
        return Hit(Field(slot, 20, 4), Field(slot, 24, 8));
      }
      i := i + SLOT;
    }
    return Further;
  }

  method FindSystemEntry(disk: Disk, g: Geometry, kind: byte) returns (r: Result<Option<(nat, nat)>>)
    ensures r == FindSystem(disk.bytes, g, kind)
  {
    hide RawWalk, ScanSlots, RawCluster;
    if g.rootFirstCluster == 0 {
      return Ok(None);
    }
    var chain := ReadRawChain(disk, g, g.rootFirstCluster, None);
    if chain.Err? {
      return chain.PropagateFailure();
    }
    var i := 0;
    assert chain.value[0..] == chain.value;
    while i < |chain.value|
      invariant i <= |chain.value|
      invariant ScanChain(disk.bytes, g, chain.value[i..], kind) == ScanChain(disk.bytes, g, chain.value, kind)
    {
      assert chain.value[i..][1..] == chain.value[i + 1..];
      var bytes := ReadRawCluster(disk, g, chain.value[i], g.ClusterBytes());
      if bytes.Err? {
        return bytes.PropagateFailure();
      }
      var scan := ScanCluster(bytes.value, kind);
      if scan.Hit? {
        return Ok(Some((scan.first, scan.len)));
      }
      if scan.End? {
        return Ok(None);
      }
      i := i + 1;
    }
    return Ok(None);
  }

  // ---- The up-case table --------------------------------------------------------------------------------

  /** `len` bytes from the clusters of a chain; what a short chain does not reach stays zero. */
  function Gather(img: seq<byte>, g: Geometry, chain: seq<nat>, len: nat): (r: Result<seq<byte>>)
    requires 0 < g.ClusterBytes()
    ensures r.Ok? ==> |r.value| == len
    decreases |chain|
  {
    if chain == [] || len == 0 then Ok(Zeros(len))
    else
      var n := Min(g.ClusterBytes(), len);
      match RawCluster(img, g, chain[0], n)
      case Err(e) => Err(e)
      case Ok(head) =>
        match Gather(img, g, chain[1..], len - n)
        case Err(e) => Err(e)
        case Ok(tail) => Ok(head + tail)
  }

  function LoadTable(img: seq<byte>, g: Geometry, first: nat, len: nat): Result<seq<u16>>
    requires 0 < g.ClusterBytes()
  {
    if len > 2 * 65536 * 2 then Err(Invalid("up-case table implausibly large"))
    else
      match RawWalk(img, g, first, DivCeil(len, g.ClusterBytes()), true)
      case Err(e) => Err(e)
      case Ok(chain) =>
        match Gather(img, g, chain, len)
        case Err(e) => Err(e)
        case Ok(raw) => Expand(Words(raw), [])
  }

  /** Copies clusters over a zeroed buffer, the last one cut to the length. */
  method GatherTable(disk: Disk, g: Geometry, chain: seq<nat>, len: nat) returns (r: Result<seq<byte>>)
    requires 0 < g.ClusterBytes()
    ensures r == Gather(disk.bytes, g, chain, len)
  {
    hide RawCluster, Splice;
    var cb := g.ClusterBytes();
    var raw, done, i := Zeros(len), 0, 0;
    assert chain[0..] == chain;
    NothingDone(raw, Gather(disk.bytes, g, chain, len));
    while i < |chain| && done < len
      invariant i <= |chain| && 0 <= done <= len && |raw| == len && raw[done..] == Zeros(len - done)
      invariant Over(raw[..done], Gather(disk.bytes, g, chain[i..], len - done)) == Gather(disk.bytes, g, chain, len)
      decreases |chain| - i
    {
      assert chain[i..][1..] == chain[i + 1..];
      var n := Min(cb, len - done);
      var part := ReadRawCluster(disk, g, chain[i], n);
      if part.Err? {
        OverError(raw[..done], part.error);
        return part;
      }
      OverMore(raw[..done], part.value, Gather(disk.bytes, g, chain[i + 1..], len - done - n));
      ZerosAfter(raw, done, part.value);
      raw := Splice(raw, done, part.value);
      done := done + n;
      i := i + 1;
    }
    OverZeros(raw, done);
    return Ok(raw);
  }

  /** Bytes already copied in front of what the rest gives. */
  function Over(done: seq<byte>, rest: Result<seq<byte>>): Result<seq<byte>>
  {
    match rest
    case Err(e) => Err(e)
    case Ok(t) => Ok(done + t)
  }

  lemma NothingDone(raw: seq<byte>, rest: Result<seq<byte>>)
    ensures Over(raw[..0], rest) == rest
  {
    if rest.Ok? {
      assert raw[..0] + rest.value == rest.value;
    }
  }

  lemma OverError(done: seq<byte>, e: Error)
    ensures Over(done, Err(e)) == Err(e)
  {
  }

  lemma OverMore(done: seq<byte>, part: seq<byte>, rest: Result<seq<byte>>)
    ensures Over(done, Over(part, rest)) == Over(done + part, rest)
  {
    if rest.Ok? {
      assert done + (part + rest.value) == done + part + rest.value;
    }
  }

  lemma ZerosAfter(raw: seq<byte>, done: nat, part: seq<byte>)
    requires done + |part| <= |raw| && raw[done..] == Zeros(|raw| - done)
    ensures Splice(raw, done, part)[..done + |part|] == raw[..done] + part
    ensures Splice(raw, done, part)[done + |part|..] == Zeros(|raw| - done - |part|)
  {
    var r := Splice(raw, done, part);
    forall i | done + |part| <= i < |raw|
      ensures r[i] == 0
    {
      SpliceAt(raw, done, part, i);
      assert raw[i] == raw[done..][i - done];
    }
    assert r[..done + |part|] == raw[..done] + part;
  }

  lemma OverZeros(raw: seq<byte>, done: nat)
    requires done <= |raw| && raw[done..] == Zeros(|raw| - done)
    ensures Over(raw[..done], Ok(Zeros(|raw| - done))) == Ok(raw)
  {
    assert raw == raw[..done] + raw[done..];
  }

  method LoadUpcase(disk: Disk, g: Geometry, first: nat, len: nat) returns (r: Result<seq<u16>>)
    requires 0 < g.ClusterBytes()
    ensures r == LoadTable(disk.bytes, g, first, len)
    ensures 262144 < len ==> r == Err(Invalid("up-case table implausibly large"))
  {
    hide RawWalk, Gather, Expand;
    if len > 2 * 65536 * 2 {
      return Err(Invalid("up-case table implausibly large"));
    }
    var chain := ReadRawChain(disk, g, first, Some(DivCeil(len, g.ClusterBytes())));
    if chain.Err? {
      return chain.PropagateFailure();
    }
    var raw := GatherTable(disk, g, chain.value, len);
    if raw.Err? {
      return raw.PropagateFailure();
    }
    r := Decompress(Words(raw.value));
  }

  // ---- Opening ------------------------------------------------------------------------------------------

  datatype Opening = Opening(geo: Geometry, upcase: seq<u16>, bitmap: Option<BitmapLoc>)

  lemma BootClusters(img: seq<byte>)
    requires BootGeometry(img).Ok?
    ensures 0 < BootGeometry(img).value.ClusterBytes()
  {
    hide CheckSector, VbrSum, Pow2;
    var bs := img[..BPS];
    MulLess(Pow2(bs[108]), Pow2(bs[109]));
  }

  /** What opening an image gives. Without an up-case entry names are compared as they are. */
  function Opened(img: seq<byte>): Result<Opening>
  {
    match BootGeometry(img)
    case Err(e) => Err(e)
    case Ok(g) =>
      BootClusters(img);
      match FindSystem(img, g, ENTRY_UPCASE)
      case Err(e) => Err(e)
      case Ok(table) =>
        match if table.Some? then LoadTable(img, g, table.value.0, table.value.1) else Ok([])
        case Err(e) => Err(e)
        case Ok(upcase) =>
          match FindSystem(img, g, ENTRY_BITMAP)
          case Err(e) => Err(e)
          case Ok(bm) => Ok(Opening(g, upcase, if bm.Some? then Some(BitmapLoc(bm.value.0, bm.value.1)) else None))
  }

  method Open(disk: Disk) returns (r: Result<Opening>)
    ensures r == Opened(disk.bytes)
  {
    hide BootGeometry, FindSystem, LoadTable;
    var geo := ReadBootRegion(disk);
    if geo.Err? {
      return geo.PropagateFailure();
    }
    BootClusters(disk.bytes);
    var table := FindSystemEntry(disk, geo.value, ENTRY_UPCASE);
    if table.Err? {
      return table.PropagateFailure();
    }
    var upcase: seq<u16> := [];
    if table.value.Some? {
      var loaded := LoadUpcase(disk, geo.value, table.value.value.0, table.value.value.1);
      if loaded.Err? {
        return loaded.PropagateFailure();
      }
      upcase := loaded.value;
    }
    var bm := FindSystemEntry(disk, geo.value, ENTRY_BITMAP);
    if bm.Err? {
      return bm.PropagateFailure();
    }
    return Ok(Opening(geo.value, upcase, if bm.value.Some? then Some(BitmapLoc(bm.value.value.0, bm.value.value.1)) else None));
  }

  // ---- Format, then open ----------------------------------------------------------------------------------

  /** A chain of consecutive clusters inside the image gathers as one stretch of it. */
  lemma {:induction false} GatherRun(img: seq<byte>, g: Geometry, first: nat, n: nat, len: nat)
    requires 0 < g.ClusterBytes() && 2 <= first && first + n <= g.clusterCount + 2
    requires len <= n * g.ClusterBytes() && g.ClusterStart(first) + len <= |img|
    ensures Gather(img, g, Run(first, n), len) == Ok(img[g.ClusterStart(first)..g.ClusterStart(first) + len])
    decreases n
  {
    hide Geometry.ClusterBytes, Geometry.HeapBase;
    var cb, at := g.ClusterBytes(), g.ClusterStart(first);
    if n == 0 || len == 0 {
      assert img[at..at + len] == Zeros(len);
    } else {
      var m := Min(cb, len);
      var run := Run(first, n);
      assert run[0] == first && run[1..] == Run(first + 1, n - 1);
      NextCluster(g, first, n);
      if len <= cb {
        assert img[at..at + m] + Zeros(0) == img[at..at + len];
      } else {
        GatherRun(img, g, first + 1, n - 1, len - m);
        assert img[at..at + m] + img[at + m..at + len] == img[at..at + len];
      }
    }
  }

  lemma NextCluster(g: Geometry, first: nat, n: nat)
    requires 2 <= first && 0 < n
    ensures g.ClusterStart(first + 1) == g.ClusterStart(first) + g.ClusterBytes()
    ensures (n - 1) * g.ClusterBytes() + g.ClusterBytes() == n * g.ClusterBytes()
  {
    var cb := g.ClusterBytes();
    assert (first - 1) * cb == (first - 2) * cb + cb;
  }

  /** The root of a formatted image is one cluster that ends its chain. */
  lemma FreshRootChain(totalBytes: nat, img: seq<byte>, l: Layout, serial: nat, table: seq<byte>, fat: seq<nat>)
    requires Plan(totalBytes) == Ok(l) && l.clusterCount <= 0xFFFF_FFF5
    requires |fat| == l.clusterCount + 2 && forall c :: 2 <= c < |fat| ==> fat[c] == FreshWord(l, c)
    requires 2 <= l.RootFirst() < l.clusterCount + 2 && 2 <= l.UpcaseFirst() < l.RootFirst()
    ensures Walk(fat, l.RootFirst(), l.clusterCount, false) == Ok([l.RootFirst()])
    ensures Walk(fat, l.UpcaseFirst(), l.upcaseClusters, true) == Ok(Run(l.UpcaseFirst(), l.upcaseClusters))
  {
    hide Plan, Spc;
    var run := Run(l.UpcaseFirst(), l.upcaseClusters);
    RunIsChain(fat, l.UpcaseFirst(), l.upcaseClusters);
    WalkOfChain(fat, run, l.upcaseClusters, true);
    OneCluster(fat, l.RootFirst());
    WalkOfChain(fat, [l.RootFirst()], l.clusterCount, false);
  }

  lemma SystemFields(head: seq<byte>, first: nat, len: nat)
    requires |head| == 20 && first < 0x1_0000_0000 && len < 0x1_0000_0000_0000_0000
    ensures var slot := head + Le(first, 4) + Le(len, 8);
            |slot| == SLOT && Field(slot, 20, 4) == first && Field(slot, 24, 8) == len
  {
    PowersOf256();
    FromLeOfLe(first, 4);
    FromLeOfLe(len, 8);
    hide Le, FromLe, Pow256;
    var slot := head + Le(first, 4) + Le(len, 8);
    assert slot[20..24] == Le(first, 4);
    assert slot[24..32] == Le(len, 8);
  }

  lemma ScanStep(slot: seq<byte>, rest: seq<byte>, kind: byte)
    requires |slot| == SLOT && slot[0] != 0
    ensures ScanSlots(slot + rest, kind)
         == if Wanted(slot, kind) then Hit(Field(slot, 20, 4), Field(slot, 24, 8)) else ScanSlots(rest, kind)
  {
    var bytes := slot + rest;
    assert bytes[..SLOT] == slot && bytes[SLOT..] == rest;
  }

  /** Searching the root of a formatted image finds both system entries. */
  lemma RootScan(l: Layout, table: seq<byte>)
    requires 3 * SLOT <= l.ClusterBytes() && |table| == UPCASE_LEN
    requires l.UpcaseFirst() < 0x1_0000_0000 && l.bitmapBytes < 0x1_0000_0000
    ensures ScanSlots(RootBytes(l, table), ENTRY_BITMAP) == Hit(2, l.bitmapBytes)
    ensures ScanSlots(RootBytes(l, table), ENTRY_UPCASE) == Hit(l.UpcaseFirst(), UPCASE_LEN)
  {
    var sum := TableSum(table, UPCASE_LEN);
    var a, b, c := LabelSlot(), BitmapSlot(2, l.bitmapBytes), UpcaseSlot(sum, l.UpcaseFirst(), UPCASE_LEN);
    var z := Zeros(l.ClusterBytes() - 3 * SLOT);
    SystemSlots(2, l.bitmapBytes, sum);
    SystemSlots(l.UpcaseFirst(), UPCASE_LEN, sum);
    SystemFields([ENTRY_BITMAP] + Zeros(19), 2, l.bitmapBytes);
    SystemFields([ENTRY_UPCASE, 0, 0, 0] + Le(sum, 4) + Zeros(12), l.UpcaseFirst(), UPCASE_LEN);
    RootIs(l, table);
    SlotsAre(2, l.bitmapBytes, sum);
    SlotsAre(l.UpcaseFirst(), UPCASE_LEN, sum);
    hide ScanSlots, LabelSlot, BitmapSlot, UpcaseSlot, TableSum, Field, Layout.ClusterBytes, Layout.UpcaseFirst, RootBytes, Le;
    ScanStep(a, b + (c + z), ENTRY_BITMAP);
    ScanStep(b, c + z, ENTRY_BITMAP);
    ScanStep(a, b + (c + z), ENTRY_UPCASE);
    ScanStep(b, c + z, ENTRY_UPCASE);
    ScanStep(c, z, ENTRY_UPCASE);
  }

  lemma Regroup<T>(a: seq<T>, b: seq<T>, c: seq<T>, d: seq<T>)
    ensures a + b + c + d == a + (b + (c + d))
  {
  }

  lemma RootIs(l: Layout, table: seq<byte>)
    requires 3 * SLOT <= l.ClusterBytes() && |table| == UPCASE_LEN
    ensures RootBytes(l, table)
         == LabelSlot() + (BitmapSlot(2, l.bitmapBytes)
                           + (UpcaseSlot(TableSum(table, UPCASE_LEN), l.UpcaseFirst(), UPCASE_LEN)
                              + Zeros(l.ClusterBytes() - 3 * SLOT)))
  {
    hide TableSum, LabelSlot, BitmapSlot, UpcaseSlot, Layout.ClusterBytes, Layout.UpcaseFirst;
    Regroup(LabelSlot(), BitmapSlot(2, l.bitmapBytes), UpcaseSlot(TableSum(table, UPCASE_LEN), l.UpcaseFirst(), UPCASE_LEN),
            Zeros(l.ClusterBytes() - 3 * SLOT));
  }

  lemma SlotsAre(first: nat, len: nat, sum: u32)
    ensures BitmapSlot(first, len) == [ENTRY_BITMAP] + Zeros(19) + Le(first, 4) + Le(len, 8)
    ensures UpcaseSlot(sum, first, len) == [ENTRY_UPCASE, 0, 0, 0] + Le(sum, 4) + Zeros(12) + Le(first, 4) + Le(len, 8)
  {
  }

  /** The FAT, root and table of a formatted image as opening reads them. */
  lemma FreshReads(totalBytes: nat, img: seq<byte>, l: Layout, serial: nat, table: seq<byte>)
    requires Plan(totalBytes) == Ok(l) && l.clusterCount <= 0xFFFF_FFF5 && |img| == totalBytes && |table| == UPCASE_LEN
    requires Formatted(img, l, serial, table)
    ensures RawWalk(img, l.Geo(), l.RootFirst(), l.clusterCount, false) == Ok([l.RootFirst()])
    ensures RawWalk(img, l.Geo(), l.UpcaseFirst(), l.upcaseClusters, true) == Ok(Run(l.UpcaseFirst(), l.upcaseClusters))
    ensures RawCluster(img, l.Geo(), l.RootFirst(), l.Geo().ClusterBytes()) == Ok(RootBytes(l, table))
  {
    hide *;
    var v := VolOf(img, l.Geo(), l.Bitmap());
    FreshFatSeq(totalBytes, img, l, serial, table);
    RawWalkIsWalk(img, l.Geo(), v.fat, l.RootFirst(), l.clusterCount, false);
    RawWalkIsWalk(img, l.Geo(), v.fat, l.UpcaseFirst(), l.upcaseClusters, true);
    FreshRootChain(totalBytes, img, l, serial, table, v.fat);
    FreshRoot(totalBytes, img, l, serial, table);
    RootLength(totalBytes, l, table);
    RootReads(img, l, RootBytes(l, table));
  }

  /** The FAT of a formatted image, as the view and as the words. */
  lemma FreshFatSeq(totalBytes: nat, img: seq<byte>, l: Layout, serial: nat, table: seq<byte>)
    requires Plan(totalBytes) == Ok(l) && l.clusterCount <= 0xFFFF_FFF5 && |img| == totalBytes && |table| == UPCASE_LEN
    requires Formatted(img, l, serial, table)
    ensures var fat := VolOf(img, l.Geo(), l.Bitmap()).fat;
      && |fat| == l.clusterCount + 2 == l.Geo().clusterCount + 2
      && (forall c :: 2 <= c < |fat| ==> fat[c] == FreshWord(l, c) && FatWord(img, l.Geo(), c) == fat[c])
    ensures l.Geo().FatBase() + 4 * (l.clusterCount + 2) <= |img| && l.Geo().rootFirstCluster == l.RootFirst()
    ensures 2 <= l.RootFirst() < l.clusterCount + 2 && 2 <= l.UpcaseFirst() < l.RootFirst()
  {
    FreshIsConsistent(totalBytes, img, l, serial, table, []);
    PlanFits(totalBytes);
    hide Plan, Formatted, FreshWord, FatWord, RootBytes, Spc, ClusterOf, BitOf;
    var g := l.Geo();
    MulNonNegative(g.clusterCount, g.ClusterBytes());
    var fat := VolOf(img, g, l.Bitmap()).fat;
    assert forall c :: 2 <= c < |fat| ==> FatWord(img, g, c) == fat[c];
  }

  lemma RootLength(totalBytes: nat, l: Layout, table: seq<byte>)
    requires Plan(totalBytes) == Ok(l) && l.clusterCount <= 0xFFFF_FFF5 && |table| == UPCASE_LEN
    ensures |RootBytes(l, table)| == l.ClusterBytes() && 3 * SLOT <= l.ClusterBytes() && 0 < l.ClusterBytes()
  {
    Regions(totalBytes);
    hide Plan, TableSum, LabelSlot, BitmapSlot, UpcaseSlot, Layout.ClusterBytes;
  }

  lemma RootReads(img: seq<byte>, l: Layout, bytes: seq<byte>)
    requires ClusterOf(img, l.Geo(), l.RootFirst()) == bytes && 2 <= l.RootFirst() < l.clusterCount + 2
    requires |bytes| == l.ClusterBytes() && 0 < l.ClusterBytes()
    ensures RawCluster(img, l.Geo(), l.RootFirst(), l.Geo().ClusterBytes()) == Ok(bytes)
  {
    hide Spc, Layout.RootFirst, Geometry.HeapBase;
  }

  lemma FindsSystem(img: seq<byte>, g: Geometry, root: nat, bytes: seq<byte>, kind: byte, first: nat, len: nat)
    requires g.rootFirstCluster == root >= 2 && RawWalk(img, g, root, g.clusterCount, false) == Ok([root])
    requires RawCluster(img, g, root, g.ClusterBytes()) == Ok(bytes) && ScanSlots(bytes, kind) == Hit(first, len)
    ensures FindSystem(img, g, kind) == Ok(Some((first, len)))
  {
    hide RawWalk, RawCluster, ScanSlots;
  }

  /** The table a formatted image holds is the one that was written. */
  lemma FreshTable(totalBytes: nat, img: seq<byte>, l: Layout, serial: nat, table: seq<byte>)
    requires Plan(totalBytes) == Ok(l) && l.clusterCount <= 0xFFFF_FFF5 && |img| == totalBytes && |table| == UPCASE_LEN
    requires Formatted(img, l, serial, table)
    ensures 0 < l.Geo().ClusterBytes()
    ensures LoadTable(img, l.Geo(), l.UpcaseFirst(), UPCASE_LEN) == Expand(Words(table), [])
  {
    hide *;
    FreshReads(totalBytes, img, l, serial, table);
    FreshFatSeq(totalBytes, img, l, serial, table);
    RootLength(totalBytes, l, table);
    PlanClusterUse(totalBytes, l);
    TableRun(totalBytes, img, l, serial, table);
    ClusterAt(l, l.bitmapClusters);
    LoadIs(img, l.Geo(), l.UpcaseFirst(), Run(l.UpcaseFirst(), l.upcaseClusters), table);
  }

  lemma PlanClusterUse(totalBytes: nat, l: Layout)
    requires Plan(totalBytes) == Ok(l)
    ensures l.upcaseClusters == DivCeil(UPCASE_LEN, l.ClusterBytes()) && UPCASE_LEN == 5836
  {
    PlanIs(totalBytes);
    hide Plan, DivCeil;
  }

  lemma LoadIs(img: seq<byte>, g: Geometry, first: nat, chain: seq<nat>, table: seq<byte>)
    requires 0 < g.ClusterBytes() && |table| == 5836 == UPCASE_LEN
    requires RawWalk(img, g, first, DivCeil(5836, g.ClusterBytes()), true) == Ok(chain)
    requires Gather(img, g, chain, 5836) == Ok(table)
    ensures LoadTable(img, g, first, UPCASE_LEN) == Expand(Words(table), [])
  {
    hide RawWalk, Gather, Expand, Words, DivCeil;
  }

  lemma TableRun(totalBytes: nat, img: seq<byte>, l: Layout, serial: nat, table: seq<byte>)
    requires Plan(totalBytes) == Ok(l) && l.clusterCount <= 0xFFFF_FFF5 && |img| == totalBytes && |table| == UPCASE_LEN
    requires Formatted(img, l, serial, table)
    ensures 0 < l.Geo().ClusterBytes() && UPCASE_LEN == 5836
    ensures Gather(img, l.Geo(), Run(l.UpcaseFirst(), l.upcaseClusters), 5836) == Ok(table)
  {
    hide *;
    Regions(totalBytes);
    PlanFits(totalBytes);
    PlanClusterUse(totalBytes, l);
    RootLength(totalBytes, l, table);
    FirstTable(l);
    ClusterAt(l, l.bitmapClusters);
    SizeIs(l, l.upcaseClusters);
    TableBytes(img, l, serial, table);
    GatherRun(img, l.Geo(), l.UpcaseFirst(), l.upcaseClusters, 5836);
  }

  lemma FirstTable(l: Layout)
    ensures l.UpcaseFirst() == 2 + l.bitmapClusters && l.Geo().clusterCount == l.clusterCount
    ensures l.Used() == l.bitmapClusters + l.upcaseClusters + 1
  {
  }

  lemma TableBytes(img: seq<byte>, l: Layout, serial: nat, table: seq<byte>)
    requires Formatted(img, l, serial, table) && |table| == UPCASE_LEN == 5836 <= Size(l, l.upcaseClusters)
    requires HeapAt(l, l.bitmapClusters) + Size(l, l.upcaseClusters) <= |img|
    ensures img[HeapAt(l, l.bitmapClusters)..HeapAt(l, l.bitmapClusters) + 5836] == table
  {
    hide BootOk, FatOk, BitmapOk, Size, HeapAt, RootBytes, Layout.ClusterBytes;
    var at, n := HeapAt(l, l.bitmapClusters), Size(l, l.upcaseClusters);
    assert img[at..at + n] == table + Zeros(n - 5836);
    SliceOfSlice(img, at, at + n, 0, 5836);
    assert (table + Zeros(n - 5836))[0..5836] == table;
  }

  lemma WordSizes(totalBytes: nat, l: Layout)
    requires Plan(totalBytes) == Ok(l) && l.clusterCount <= 0xFFFF_FFF5
    ensures l.UpcaseFirst() < 0x1_0000_0000 && l.bitmapBytes < 0x1_0000_0000
  {
    PlanIs(totalBytes);
    DivCeilBounds(l.clusterCount, 8);
    hide Plan, DivCeil, RoundUp, Spc;
  }

  /** Format then open, for every size of device the formatter accepts: opening returns the geometry of the
      layout, the place of its bitmap, and the table that was written. */
  lemma FormatThenOpen(totalBytes: nat, img: seq<byte>, l: Layout, serial: nat, table: seq<byte>)
    requires Plan(totalBytes) == Ok(l) && l.clusterCount <= 0xFFFF_FFF5 && |img| == totalBytes && |table| == UPCASE_LEN
    requires Formatted(img, l, serial, table)
    ensures Opened(img) ==
      match Expand(Words(table), [])
      case Err(e) => Err(e)
      case Ok(upcase) => Ok(Opening(l.Geo(), upcase, Some(l.Bitmap())))
  {
    hide *;
    FormatReadsBack(totalBytes, img, serial, table);
    FreshReads(totalBytes, img, l, serial, table);
    FreshFatSeq(totalBytes, img, l, serial, table);
    RootLength(totalBytes, l, table);
    WordSizes(totalBytes, l);
    RootScan(l, table);
    FindsSystem(img, l.Geo(), l.RootFirst(), RootBytes(l, table), ENTRY_BITMAP, 2, l.bitmapBytes);
    FindsSystem(img, l.Geo(), l.RootFirst(), RootBytes(l, table), ENTRY_UPCASE, l.UpcaseFirst(), UPCASE_LEN);
    FreshTable(totalBytes, img, l, serial, table);
    OpenedIs(img, l, Expand(Words(table), []));
  }

  lemma OpenedIs(img: seq<byte>, l: Layout, loaded: Result<seq<u16>>)
    requires BootGeometry(img) == Ok(l.Geo()) && 0 < l.Geo().ClusterBytes()
    requires FindSystem(img, l.Geo(), ENTRY_BITMAP) == Ok(Some((2, l.bitmapBytes)))
    requires FindSystem(img, l.Geo(), ENTRY_UPCASE) == Ok(Some((l.UpcaseFirst(), UPCASE_LEN)))
    requires LoadTable(img, l.Geo(), l.UpcaseFirst(), UPCASE_LEN) == loaded
    ensures Opened(img) ==
      match loaded
      case Err(e) => Err(e)
      case Ok(upcase) => Ok(Opening(l.Geo(), upcase, Some(l.Bitmap())))
  {
    hide BootGeometry, FindSystem, LoadTable, Layout.Geo, Layout.UpcaseFirst;
  }
}
