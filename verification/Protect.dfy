/** Protection of a hidden volume: a guard over the outer volume's view that refuses the first write
    into the hidden region and every write after it. */
module ProtectedDevices {
  import opened Bytes
  import opened VcTypes
  import opened Xts
  import opened DecryptedDevices
  import opened Containers

  function SaturatingAdd(a: u64, b: nat): u64
  {
    if a + b > U64_MAX then U64_MAX else a + b
  }

  /** The fixed part of a guarded volume: cipher, outer data area, protected range of the view. */
  datatype Guard = Guard(cipher: Layer, start: nat, size: u64, from: u64, to: u64)

  /** What changes: the container's bytes and the latch. */
  datatype State = State(bytes: seq<byte>, readOnly: bool)

  datatype Request = Request(offset: u64, data: seq<byte>)

  predicate Intersects(from: u64, to: u64, offset: u64, n: nat)
  {
    offset < to && SaturatingAdd(offset, n) > from
  }

  /** One write: the state it leaves and what it returns. */
  function Attempt(g: Guard, s: State, w: Request): (State, VcResult<()>)
    requires Inverse(g.cipher)
  {
    if s.readOnly then (s, Bad(HiddenVolumeProtected))
    else if w.data != [] && Intersects(g.from, g.to, w.offset, |w.data|) then (s.(readOnly := true), Bad(HiddenVolumeProtected))
    else
      (s.(bytes := Written(g.cipher, g.start, g.size, s.bytes, w.offset, w.data)),
       if Reaches(g.start, g.size, |s.bytes|, w.offset, |w.data|) then Good(()) else Bad(DeviceIo))
  }

  function Run(g: Guard, s: State, ws: seq<Request>): State
    requires Inverse(g.cipher)
    decreases |ws|
  {
    if ws == [] then s else Run(g, Attempt(g, s, ws[0]).0, ws[1..])
  }

  predicate Within(x: nat, lo: nat, hi: nat) { lo <= x < hi }

  /** The guard refuses exactly the writes that cover a byte of the protected range, until it has
      refused one; from then on it refuses all. An empty range is guarded as a point between bytes. */
  lemma RefusesExactly(g: Guard, s: State, w: Request)
    requires Inverse(g.cipher) && w.offset + |w.data| <= U64_MAX
    ensures Attempt(g, s, w).0.readOnly <==> Attempt(g, s, w).1 == Bad(HiddenVolumeProtected)
    ensures g.from < g.to ==> (Attempt(g, s, w).1 == Bad(HiddenVolumeProtected) <==>
      s.readOnly || exists x :: Within(x, w.offset, w.offset + |w.data|) && Within(x, g.from, g.to))
    ensures g.from == g.to ==> (Attempt(g, s, w).1 == Bad(HiddenVolumeProtected) <==>
      s.readOnly || Within(g.from, w.offset + 1, w.offset + |w.data|))
  {
    if w.data != [] && Intersects(g.from, g.to, w.offset, |w.data|) && g.from < g.to {
      var x := Max(w.offset, g.from);
      assert Within(x, w.offset, w.offset + |w.data|) && Within(x, g.from, g.to);
    }
  }

  /** The latch never opens again, and once it is closed no byte of the container changes. */
  lemma {:induction false} LatchedFreezes(g: Guard, s: State, ws: seq<Request>)
    requires Inverse(g.cipher) && s.readOnly
    ensures Run(g, s, ws) == s
  {
    if ws != [] {
      LatchedFreezes(g, s, ws[1..]);
    }
  }

  /** The guard the session builds for an outer and a hidden geometry. */
  function SessionGuard(c: Layer, outer: Geometry, hidden: Geometry): (g: Guard)
    requires TranslateRegion(outer, hidden).Good?
    ensures g.cipher == c
  {
    var from := TranslateRegion(outer, hidden).value;
    Guard(c, outer.areaStart, outer.areaSize, from, SaturatingAdd(from, hidden.areaSize))
  }

  predicate Aligned(hidden: Geometry)
  {
    hidden.areaStart % 512 == 0 && hidden.areaSize % 512 == 0
  }

  /** The hidden data area of a container. */
  function HiddenBytes(hidden: Geometry, bytes: seq<byte>): seq<byte>
    requires hidden.areaStart + hidden.areaSize <= |bytes|
  {
    bytes[hidden.areaStart..hidden.areaStart + hidden.areaSize]
  }

  lemma UnitsApart(x: nat, y: nat, edge: nat)
    requires edge % 512 == 0
    ensures y <= edge ==> UnitEnd(y) <= edge
    ensures edge <= x ==> edge <= UnitStart(x)
  {
    var k := edge / 512;
    assert edge == 512 * k;
  }

  lemma AlignedEnds(hidden: Geometry)
    requires Aligned(hidden)
    ensures hidden.areaStart % 512 == 0 && (hidden.areaStart + hidden.areaSize) % 512 == 0
  {
  }

  lemma StepKeepsHidden(c: Layer, outer: Geometry, hidden: Geometry, s: State, w: Request)
    requires Inverse(c) && TranslateRegion(outer, hidden).Good? && Aligned(hidden)
    requires hidden.areaStart + hidden.areaSize <= |s.bytes|
    ensures |Attempt(SessionGuard(c, outer, hidden), s, w).0.bytes| == |s.bytes|
    ensures HiddenBytes(hidden, Attempt(SessionGuard(c, outer, hidden), s, w).0.bytes) == HiddenBytes(hidden, s.bytes)
  {
    hide Inverse, Rewritten, UnitStart, UnitEnd;
    var g := SessionGuard(c, outer, hidden);
    var at, lo, hi := g.start + w.offset, hidden.areaStart, hidden.areaStart + hidden.areaSize;
    WrittenLength(c, g.start, g.size, s.bytes, w.offset, w.data);
    if !s.readOnly && w.data != [] && Reaches(g.start, g.size, |s.bytes|, w.offset, |w.data|)
       && !Intersects(g.from, g.to, w.offset, |w.data|) {
      AlignedEnds(hidden);
      UnitsApart(at, at + |w.data|, lo);
      UnitsApart(at, at + |w.data|, hi);
      RewriteSplices(c, s.bytes, at, w.data);
    }
  }

  /** Whatever the cipher and whatever the outer file system writes, in any order and number, every byte
      of a unit-aligned hidden area stays as it was. */
  lemma {:induction false} RunKeepsHidden(c: Layer, outer: Geometry, hidden: Geometry, s: State, ws: seq<Request>)
    requires Inverse(c) && TranslateRegion(outer, hidden).Good? && Aligned(hidden)
    requires hidden.areaStart + hidden.areaSize <= |s.bytes|
    ensures |Run(SessionGuard(c, outer, hidden), s, ws).bytes| == |s.bytes|
    ensures HiddenBytes(hidden, Run(SessionGuard(c, outer, hidden), s, ws).bytes) == HiddenBytes(hidden, s.bytes)
    decreases |ws|
  {
    hide Attempt, Inverse, HiddenBytes, Aligned, TranslateRegion;
    if ws != [] {
      StepKeepsHidden(c, outer, hidden, s, ws[0]);
      RunKeepsHidden(c, outer, hidden, Attempt(SessionGuard(c, outer, hidden), s, ws[0]).0, ws[1..]);
    }
  }

  // ---- Which created containers are safe ---------------------------------------------------------

  /** The hidden area consists of whole cipher blocks. */
  predicate InBlocks(hidden: Geometry)
  {
    hidden.areaStart % 16 == 0 && hidden.areaSize % 16 == 0
  }

  lemma BlocksApart(hidden: Geometry, at: nat, to: nat, j: nat)
    requires InBlocks(hidden) && hidden.areaStart <= 16 * j && 16 * j + 16 <= hidden.areaStart + hidden.areaSize
    requires to <= hidden.areaStart || hidden.areaStart + hidden.areaSize <= at
    ensures 16 * j + 16 <= at || to <= 16 * j
  {
  }

  /** Two images that agree on every block of a range of whole blocks agree on the range. */
  lemma SameInBlocks(s: seq<byte>, t: seq<byte>, lo: nat, hi: nat)
    requires |s| == |t| && lo % 16 == 0 && hi % 16 == 0 && lo <= hi <= |s|
    requires forall j: nat :: lo <= 16 * j && 16 * j + 16 <= hi ==> Block(s, j) == Block(t, j)
    ensures s[lo..hi] == t[lo..hi]
  {
    forall x | lo <= x < hi
      ensures s[x] == t[x]
    {
      var j := x / 16;
      ByteInBlock(lo, hi, x);
      assert s[x] == Block(s, j)[x - 16 * j] && t[x] == Block(t, j)[x - 16 * j];
    }
  }

  lemma ByteInBlock(lo: nat, hi: nat, x: nat)
    requires lo % 16 == 0 && hi % 16 == 0 && lo <= x < hi
    ensures lo <= 16 * (x / 16) <= x < 16 * (x / 16) + 16 <= hi
  {
  }

  lemma WriteKeepsHiddenBlocks(c: Layer, hidden: Geometry, bytes: seq<byte>, at: nat, data: seq<byte>)
    requires BlockLocal(c) && InBlocks(hidden) && hidden.areaStart + hidden.areaSize <= |bytes|
    requires UnitEnd(at + |data|) <= |bytes|
    requires at + |data| <= hidden.areaStart || hidden.areaStart + hidden.areaSize <= at
    ensures Inverse(c) && |Rewritten(c, bytes, at, data)| == |bytes|
    ensures HiddenBytes(hidden, Rewritten(c, bytes, at, data)) == HiddenBytes(hidden, bytes)
  {
    hide Block, BlockLocal, Rewritten, UnitEnd;
    LocalParts(c);
    var r, lo, hi := Rewritten(c, bytes, at, data), hidden.areaStart, hidden.areaStart + hidden.areaSize;
    RewriteOutside(c, bytes, at, data);
    forall j: nat | lo <= 16 * j && 16 * j + 16 <= hi
      ensures Block(r, j) == Block(bytes, j)
    {
      BlocksApart(hidden, at, at + |data|, j);
      RewriteKeepsBlocks(c, bytes, at, data, j);
    }
    SameInBlocks(r, bytes, lo, hi);
  }

  lemma StepKeepsHiddenBlocks(c: Layer, outer: Geometry, hidden: Geometry, s: State, w: Request)
    requires BlockLocal(c) && TranslateRegion(outer, hidden).Good? && InBlocks(hidden)
    requires hidden.areaStart + hidden.areaSize <= |s.bytes|
    ensures Inverse(c)
    ensures |Attempt(SessionGuard(c, outer, hidden), s, w).0.bytes| == |s.bytes|
    ensures HiddenBytes(hidden, Attempt(SessionGuard(c, outer, hidden), s, w).0.bytes) == HiddenBytes(hidden, s.bytes)
  {
    LocalParts(c);
    hide BlockLocal, Inverse, Rewritten, UnitStart, UnitEnd, HiddenBytes, InBlocks;
    var g := SessionGuard(c, outer, hidden);
    var at := g.start + w.offset;
    WrittenLength(c, g.start, g.size, s.bytes, w.offset, w.data);
    if !s.readOnly && w.data != [] && Reaches(g.start, g.size, |s.bytes|, w.offset, |w.data|)
       && !Intersects(g.from, g.to, w.offset, |w.data|) {
      WriteKeepsHiddenBlocks(c, hidden, s.bytes, at, w.data);
    }
  }

  /** Under every block-local cipher any run of outer writes leaves a hidden area of whole blocks as it was. */
  lemma {:induction false} RunKeepsHiddenBlocks(c: Layer, outer: Geometry, hidden: Geometry, s: State, ws: seq<Request>)
    requires BlockLocal(c) && TranslateRegion(outer, hidden).Good? && InBlocks(hidden)
    requires hidden.areaStart + hidden.areaSize <= |s.bytes|
    ensures Inverse(c) && |Run(SessionGuard(c, outer, hidden), s, ws).bytes| == |s.bytes|
    ensures HiddenBytes(hidden, Run(SessionGuard(c, outer, hidden), s, ws).bytes) == HiddenBytes(hidden, s.bytes)
    decreases |ws|
  {
    LocalParts(c);
    hide Attempt, Inverse, BlockLocal, HiddenBytes, InBlocks, TranslateRegion;
    if ws != [] {
      StepKeepsHiddenBlocks(c, outer, hidden, s, ws[0]);
      RunKeepsHiddenBlocks(c, outer, hidden, Attempt(SessionGuard(c, outer, hidden), s, ws[0]).0, ws[1..]);
    }
  }

  /** Hidden data survives every block-local cipher, every container content and every run of outer writes. */
  ghost predicate AlwaysKept(outer: Geometry, hidden: Geometry, len: nat)
    requires TranslateRegion(outer, hidden).Good? && hidden.areaStart + hidden.areaSize <= len
  {
    forall c: Layer, bytes: seq<byte>, latched: bool, ws: seq<Request> ::
      BlockLocal(c) && |bytes| == len ==> Kept(c, outer, hidden, State(bytes, latched), ws)
  }

  ghost predicate Kept(c: Layer, outer: Geometry, hidden: Geometry, s: State, ws: seq<Request>)
    requires Inverse(c) && TranslateRegion(outer, hidden).Good? && hidden.areaStart + hidden.areaSize <= |s.bytes|
  {
    var after := Run(SessionGuard(c, outer, hidden), s, ws).bytes;
    |after| == |s.bytes| && HiddenBytes(hidden, after) == HiddenBytes(hidden, s.bytes)
  }

  /** The place that byte `i` moves to when each whole block of `n` bytes is reversed. */
  function Opposite(n: nat, i: nat): nat
  {
    if i / 16 * 16 + 16 <= n then i / 16 * 16 + 15 - i % 16 else i
  }

  function Mirrored(s: seq<byte>): (r: seq<byte>)
    ensures |r| == |s|
  {
    seq(|s|, i requires 0 <= i < |s| => s[Opposite(|s|, i)])
  }

  /** A cipher that reverses each block of sixteen bytes. */
  function Mirror(): Layer
  {
    Layer((s, u) => Mirrored(s), (s, u) => Mirrored(s))
  }

  lemma OppositeTwice(n: nat, i: nat)
    requires i < n
    ensures Opposite(n, i) < n && Opposite(n, Opposite(n, i)) == i
    ensures i / 16 * 16 + 16 <= n ==> Opposite(n, i) / 16 == i / 16
  {
    var q, r := i / 16, i % 16;
    assert i == 16 * q + r;
    if q * 16 + 16 <= n {
      var o := 16 * q + (15 - r);
      assert o / 16 == q && o % 16 == 15 - r;
    }
  }

  lemma MirroredTwice(s: seq<byte>)
    ensures Mirrored(Mirrored(s)) == s
  {
    hide Opposite;
    var t := Mirrored(s);
    forall i | 0 <= i < |s|
      ensures Mirrored(t)[i] == s[i]
    {
      OppositeTwice(|s|, i);
    }
  }

  lemma MirroredBlock(s: seq<byte>, t: seq<byte>, j: nat)
    requires |s| == |t| && 16 * j + 16 <= |s| && Block(s, j) == Block(t, j)
    ensures Block(Mirrored(s), j) == Block(Mirrored(t), j)
  {
    var m, m' := Block(Mirrored(s), j), Block(Mirrored(t), j);
    forall x | 0 <= x < 16
      ensures m[x] == m'[x]
    {
      OppositeInBlock(|s|, j, x);
      assert m[x] == Block(s, j)[15 - x] && m'[x] == Block(t, j)[15 - x];
    }
  }

  lemma OppositeInBlock(n: nat, j: nat, x: nat)
    requires 16 * j + 16 <= n && x < 16
    ensures Opposite(n, 16 * j + x) == 16 * j + 15 - x
  {
    assert (16 * j + x) / 16 == j && (16 * j + x) % 16 == x;
  }

  lemma MirrorBlockLocal()
    ensures BlockLocal(Mirror())
  {
    hide Mirrored, Block;
    var c := Mirror();
    forall s: seq<byte>
      ensures Mirrored(Mirrored(s)) == s
    {
      MirroredTwice(s);
    }
    forall s: seq<byte>, t: seq<byte>, u: nat, j: nat |
      |s| == |t| && |s| % 16 == 0 && 16 * j + 16 <= |s| && Block(s, j) == Block(t, j)
      ensures Block(c.encrypt(s, u), j) == Block(c.encrypt(t, u), j)
      ensures Block(c.decrypt(s, u), j) == Block(c.decrypt(t, u), j)
    {
      MirroredBlock(s, t, j);
    }
  }

  /** One byte written at the start of a block of zeros changes the last byte of that block under the cipher that
      reverses blocks. */
  lemma MirrorMoves(len: nat, at: nat)
    requires at % 16 == 0 && UnitEnd(at + 1) <= len
    ensures BlockLocal(Mirror()) && Inverse(Mirror()) && at + 16 <= UnitEnd(at + 1)
    ensures |Rewritten(Mirror(), Fill(len, 0), at, [1])| == len
    ensures Rewritten(Mirror(), Fill(len, 0), at, [1])[at + 15] == 1
  {
    MirrorBlockLocal();
    LocalParts(Mirror());
    var lo := UnitStart(at);
    UnitOfByte(at);
    hide *;
    var bytes := Fill(len, 0 as byte);
    SpanBounds(at, at + 1, len);
    RewriteOutside(Mirror(), bytes, at, [1]);
    RewrittenIs(Mirror(), bytes, at, [1]);
    var window := Window(Mirror(), bytes, at, at + 1);
    var patched := Splice(window, at - lo, [1]);
    SpliceAt(window, at - lo, [1], at - lo);
    MirrorUnit(patched, lo / 512, at - lo);
    SpliceAt(bytes, lo, Area(Mirror().encrypt, patched, lo / 512), at + 15);
  }

  lemma UnitOfByte(at: nat)
    requires at % 16 == 0
    ensures UnitEnd(at + 1) == UnitStart(at) + 512 && UnitStart(at) <= at && at + 16 <= UnitStart(at) + 512
    ensures (at - UnitStart(at)) % 16 == 0
  {
    var q := at / 16;
    assert at == 16 * q;
    UnitAround(q);
    hide UnitStart, UnitEnd;
  }

  lemma UnitAround(q: nat)
    ensures UnitStart(16 * q) == 512 * (q / 32) && UnitEnd(16 * q + 1) == 512 * (q / 32) + 512
    ensures 16 * q == 512 * (q / 32) + 16 * (q % 32)
  {
    assert q == q / 32 * 32 + q % 32;
  }

  lemma MirrorUnit(s: seq<byte>, u: nat, k: nat)
    requires |s| == 512 && k % 16 == 0 && k + 16 <= 512 && Whole(s)
    ensures |Area(Mirror().encrypt, s, u)| == 512 && Area(Mirror().encrypt, s, u)[k + 15] == s[k]
  {
    OneUnit(Mirror().encrypt, s, u);
    OppositeInBlock(512, k / 16, 15);
  }

  /** A hidden area that starts inside a block of the outer area is not safe: some block-local cipher lets an
      outer write next to it, which the guard allows, change it. */
  lemma MisalignedLeaks(outer: Geometry, hidden: Geometry, len: nat)
    requires TranslateRegion(outer, hidden).Good? && hidden.areaStart + hidden.areaSize <= len
    requires hidden.areaStart % 16 != 0 && outer.areaStart <= hidden.areaStart / 16 * 16 && 512 <= hidden.areaSize
    ensures !AlwaysKept(outer, hidden, len)
  {
    var at := hidden.areaStart / 16 * 16;
    UnitOfByte(at);
    LeakAt(outer, hidden, len, at);
  }

  lemma LeakAt(outer: Geometry, hidden: Geometry, len: nat, at: nat)
    requires TranslateRegion(outer, hidden).Good? && hidden.areaStart + hidden.areaSize <= len
    requires at % 16 == 0 && outer.areaStart <= at < hidden.areaStart < at + 16
    requires at + 16 <= hidden.areaStart + hidden.areaSize && UnitEnd(at + 1) <= len
    ensures !AlwaysKept(outer, hidden, len)
  {
    hide *;
    MirrorMoves(len, at);
    var bytes := Fill(len, 0 as byte);
    var s := State(bytes, false);
    var w := Request(at - outer.areaStart, [1]);
    WriteNextTo(Mirror(), outer, hidden, s, w);
    if AlwaysKept(outer, hidden, len) {
      var after := Run(SessionGuard(Mirror(), outer, hidden), s, [w]).bytes;
      KeptMeans(Mirror(), outer, hidden, s, [w]);
      HiddenAt(hidden, after, at + 15);
      HiddenAt(hidden, bytes, at + 15);
      assert false;
    }
  }

  lemma KeptMeans(c: Layer, outer: Geometry, hidden: Geometry, s: State, ws: seq<Request>)
    requires BlockLocal(c) && Inverse(c)
    requires TranslateRegion(outer, hidden).Good? && hidden.areaStart + hidden.areaSize <= |s.bytes|
    requires AlwaysKept(outer, hidden, |s.bytes|)
    ensures |Run(SessionGuard(c, outer, hidden), s, ws).bytes| == |s.bytes|
    ensures HiddenBytes(hidden, Run(SessionGuard(c, outer, hidden), s, ws).bytes) == HiddenBytes(hidden, s.bytes)
  {
    assert Kept(c, outer, hidden, State(s.bytes, s.readOnly), ws);
  }

  lemma HiddenAt(hidden: Geometry, bytes: seq<byte>, k: nat)
    requires hidden.areaStart <= k < hidden.areaStart + hidden.areaSize <= |bytes|
    ensures HiddenBytes(hidden, bytes)[k - hidden.areaStart] == bytes[k]
  {
  }

  lemma WriteNextTo(c: Layer, outer: Geometry, hidden: Geometry, s: State, w: Request)
    requires Inverse(c) && TranslateRegion(outer, hidden).Good? && !s.readOnly
    requires |w.data| == 1 && outer.areaStart + w.offset < hidden.areaStart
    requires UnitEnd(outer.areaStart + w.offset + 1) <= |s.bytes|
    ensures Run(SessionGuard(c, outer, hidden), s, [w]).bytes
         == Rewritten(c, s.bytes, outer.areaStart + w.offset, w.data)
  {
    hide Rewritten, Inverse, UnitEnd;
    var g := SessionGuard(c, outer, hidden);
    var s' := Attempt(g, s, w).0;
    assert Run(g, s, [w]) == Run(g, s', [w][1..]) == s';
  }

  /** A container laid out by this crate keeps its hidden volume under every block-local cipher and every run of
      outer writes exactly when its size is a multiple of the cipher's block. */
  lemma CreatedHiddenSafeExactly(size: u64, outerSector: nat, hiddenSector: nat, hiddenSize: u64)
    requires OuterLayout(size, outerSector).Good?
    requires HiddenLayout(size, hiddenSector, hiddenSize).Good?
    ensures var outer := Recorded(OuterLayout(size, outerSector).value, outerSector, 0);
            var hidden := Recorded(HiddenLayout(size, hiddenSector, hiddenSize).value, hiddenSector, hiddenSize);
            && TranslateRegion(outer, hidden).Good?
            && hidden.areaStart + hidden.areaSize <= size
            && (AlwaysKept(outer, hidden, size) <==> size % 16 == 0)
  {
    CreatedLayoutTranslates(size, outerSector, hiddenSector, hiddenSize);
    var outer := Recorded(OuterLayout(size, outerSector).value, outerSector, 0);
    var hidden := Recorded(HiddenLayout(size, hiddenSector, hiddenSize).value, hiddenSector, hiddenSize);
    StartAligned(size, hiddenSector, hiddenSize);
    hide BlockLocal, Run;
    if size % 16 == 0 {
      forall c: Layer, bytes: seq<byte>, latched: bool, ws: seq<Request> | BlockLocal(c) && |bytes| == size
        ensures Inverse(c) && Kept(c, outer, hidden, State(bytes, latched), ws)
      {
        RunKeepsHiddenBlocks(c, outer, hidden, State(bytes, latched), ws);
      }
    } else {
      MisalignedLeaks(outer, hidden, size);
    }
  }

  lemma StartAligned(size: u64, sector: nat, hiddenSize: u64)
    requires 2 * 131072 <= size && HiddenLayout(size, sector, hiddenSize).Good?
    ensures hiddenSize % 16 == 0 && hiddenSize >= 512
    ensures HiddenLayout(size, sector, hiddenSize).value.0 % 16 == 0 <==> size % 16 == 0
    ensures 131072 <= HiddenLayout(size, sector, hiddenSize).value.0 / 16 * 16
  {
    SectorsInBlocks(hiddenSize, sector);
    BlocksFromEnd(size, hiddenSize);
  }

  lemma SectorsInBlocks(n: nat, sector: nat)
    requires (sector == 512 || sector == 4096) && n % sector == 0
    ensures n % 16 == 0
  {
    if sector == 4096 {
      InBlocksOf(n, n / 4096, 256);
    } else {
      InBlocksOf(n, n / 512, 32);
    }
  }

  lemma InBlocksOf(n: nat, q: nat, k: nat)
    requires n == q * (16 * k)
    ensures n % 16 == 0
  {
    assert n == q * k * 16 + 0;
    DivModUnique(q * k, 16, 0);
  }

  lemma BlocksFromEnd(size: nat, n: nat)
    requires n % 16 == 0 && 262144 + n <= size
    ensures (size - 262144 - n) % 16 == 0 <==> size % 16 == 0
    ensures 393216 + n <= size ==> 131072 <= (size - 262144 - n) / 16 * 16
  {
    var m := n / 16;
    assert size - 262144 - n == size - 16 * (16384 + m);
  }

  // ---- The device ------------------------------------------------------------------------------

  class ProtectedDevice {
    const inner: DecryptedDevice
    const protectedStart: u64
    const protectedEnd: u64
    var readOnly: bool

    ghost predicate Valid()
      reads inner.inner
    {
      inner.Valid() && inner.dataSize <= U64_MAX
    }

    ghost function Guarded(): Guard
      requires inner.dataSize <= U64_MAX
    {
      Guard(Cascade(inner.xts), inner.dataStart, inner.dataSize, protectedStart, protectedEnd)
    }

    ghost function Now(): State
      reads this, inner.inner
    {
      State(inner.inner.bytes, readOnly)
    }

    constructor (inner: DecryptedDevice, start: u64, len: u64)
      requires inner.Valid() && inner.dataSize <= U64_MAX
      ensures Valid() && this.inner == inner && !readOnly
      ensures protectedStart == start && protectedEnd == SaturatingAdd(start, len)
    {
      this.inner, protectedStart, protectedEnd := inner, start, SaturatingAdd(start, len);
      readOnly := false;
    }

    /** Reads pass through, before and after the latch closes. */
    method ReadAt(offset: nat, n: nat) returns (r: VcResult<seq<byte>>)
      requires Valid()
      ensures r.Good? <==> Reaches(inner.dataStart, inner.dataSize, |inner.inner.bytes|, offset, n)
      ensures r.Bad? ==> r.error == DeviceIo
      ensures r.Good? && n > 0 ==>
        inner.dataStart + offset + n <= |Plaintext(Cascade(inner.xts), inner.inner.bytes)|
      ensures r.Good? && n > 0 ==>
        r.value == Plaintext(Cascade(inner.xts), inner.inner.bytes)[inner.dataStart + offset..inner.dataStart + offset + n]
    {
      r := inner.ReadAt(offset, n);
    }

    /** A write refused by the guard closes the latch; any other write goes to the view. */
    method WriteAt(offset: u64, data: seq<byte>) returns (r: VcResult<()>)
      requires Valid()
      modifies this`readOnly, inner.inner
      ensures Valid() && Inverse(Cascade(inner.xts))
      ensures (Now(), r) == Attempt(Guarded(), old(Now()), Request(offset, data))
    {
      hide Inverse, Cascade, Written;
      CascadeInverse(inner.xts);
      if readOnly {
        return Bad(HiddenVolumeProtected);
      }
      if data != [] && Intersects(protectedStart, protectedEnd, offset, |data|) {
        readOnly := true;
        return Bad(HiddenVolumeProtected);
      }
      r := inner.WriteAt(offset, data);
    }
  }
}
