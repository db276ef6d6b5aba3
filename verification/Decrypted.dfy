/** The decrypted view of a container's data area: reads and writes at any offset and length, over a
    device that holds whole encrypted units. */
module DecryptedDevices {
  import opened Bytes
  import opened Disks
  import opened VcTypes
  import opened Xts

  /** The first byte of the unit that holds byte `x`. */
  function UnitStart(x: nat): nat { x / 512 * 512 }

  /** The first unit boundary at or after byte `x`. */
  function UnitEnd(x: nat): nat { (x + 511) / 512 * 512 }

  lemma UnitBounds(x: nat)
    ensures UnitStart(x) % 512 == 0 && UnitStart(x) <= x < UnitStart(x) + 512
    ensures UnitEnd(x) % 512 == 0 && x <= UnitEnd(x) < x + 512
  {
  }

  /** The plaintext of every whole unit of a container, units numbered from the container's start. */
  function Plaintext(c: Layer, bytes: seq<byte>): seq<byte>
  {
    Area(c.decrypt, bytes[..UnitStart(|bytes|)], 0)
  }

  /** The units that hold bytes `[from, to)`, decrypted. */
  function Window(c: Layer, bytes: seq<byte>, from: nat, to: nat): seq<byte>
    requires from <= to && UnitEnd(to) <= |bytes|
  {
    UnitBounds(from);
    UnitBounds(to);
    WholeSpan(UnitStart(from), UnitEnd(to));
    Area(c.decrypt, bytes[UnitStart(from)..UnitEnd(to)], UnitStart(from) / 512)
  }

  /** A container after `data` is laid over the plaintext from byte `at` on: the units it touches are
      decrypted, patched and encrypted again. */
  function Rewritten(c: Layer, bytes: seq<byte>, at: nat, data: seq<byte>): seq<byte>
    requires UnitEnd(at + |data|) <= |bytes| && Inverse(c)
  {
    UnitBounds(at);
    UnitBounds(at + |data|);
    WholeSpan(UnitStart(at), UnitEnd(at + |data|));
    AreaLength(c.decrypt, bytes[UnitStart(at)..UnitEnd(at + |data|)], UnitStart(at) / 512);
    var patched := Splice(Window(c, bytes, at, at + |data|), at - UnitStart(at), data);
    AreaLength(c.encrypt, patched, UnitStart(at) / 512);
    Splice(bytes, UnitStart(at), Area(c.encrypt, patched, UnitStart(at) / 512))
  }

  lemma UnitOrder(x: nat, y: nat)
    requires x <= y
    ensures UnitStart(x) <= UnitStart(y) && UnitEnd(x) <= UnitEnd(y)
    ensures UnitEnd(x) <= y ==> UnitEnd(x) <= UnitStart(y)
  {
  }

  /** The plaintext is as long as the whole units of the container. */
  lemma PlaintextLength(c: Layer, bytes: seq<byte>)
    requires Inverse(c)
    ensures |Plaintext(c, bytes)| == UnitStart(|bytes|) <= |bytes|
  {
    UnitBounds(|bytes|);
    AreaLength(c.decrypt, bytes[..UnitStart(|bytes|)], 0);
  }

  lemma TakeSlice<T>(s: seq<T>, n: nat, lo: nat, hi: nat)
    requires lo <= hi <= n <= |s|
    ensures s[..n][lo..hi] == s[lo..hi]
  {
  }

  /** Decrypting just the units of a span gives the plaintext of those units. */
  lemma WindowShows(c: Layer, bytes: seq<byte>, from: nat, to: nat)
    requires Inverse(c) && from <= to && UnitEnd(to) <= |bytes|
    ensures |Plaintext(c, bytes)| == UnitStart(|bytes|)
    ensures UnitStart(from) <= from && to <= UnitEnd(to) <= UnitStart(|bytes|)
    ensures Window(c, bytes, from, to) == Plaintext(c, bytes)[UnitStart(from)..UnitEnd(to)]
  {
    var n, lo, hi := UnitStart(|bytes|), UnitStart(from), UnitEnd(to);
    SpanBounds(from, to, |bytes|);
    PlaintextLength(c, bytes);
    hide *;
    WindowIs(c, bytes, from, to);
    PlaintextIs(c, bytes);
    InverseParts(c);
    WholeIs(bytes[..n]);
    AreaSlice(c.decrypt, bytes[..n], 0, lo, hi);
    TakeSlice(bytes, n, lo, hi);
  }

  lemma SpanBounds(from: nat, to: nat, n: nat)
    requires from <= to && UnitEnd(to) <= n
    ensures UnitStart(from) <= from <= to <= UnitEnd(to) <= UnitStart(n) <= n
    ensures UnitStart(from) % 512 == 0 && UnitEnd(to) % 512 == 0 && UnitStart(n) % 512 == 0
    ensures (UnitEnd(to) - UnitStart(from)) % 512 == 0
  {
    UnitBounds(from);
    UnitBounds(to);
    UnitBounds(n);
    UnitOrder(to, n);
    WholeSpan(UnitStart(from), UnitEnd(to));
  }

  lemma InverseParts(c: Layer)
    requires Inverse(c)
    ensures KeepsLength(c.encrypt) && KeepsLength(c.decrypt)
  {
  }

  lemma WholeIs(s: seq<byte>)
    requires |s| % 512 == 0
    ensures Whole(s)
  {
  }

  lemma PlaintextIs(c: Layer, bytes: seq<byte>)
    ensures UnitStart(|bytes|) <= |bytes| && Whole(bytes[..UnitStart(|bytes|)])
    ensures Plaintext(c, bytes) == Area(c.decrypt, bytes[..UnitStart(|bytes|)], 0)
  {
  }

  lemma WindowIs(c: Layer, bytes: seq<byte>, from: nat, to: nat)
    requires from <= to && UnitEnd(to) <= |bytes|
    ensures UnitStart(from) <= UnitEnd(to) && Whole(bytes[UnitStart(from)..UnitEnd(to)])
    ensures Window(c, bytes, from, to)
         == Area(c.decrypt, bytes[UnitStart(from)..UnitEnd(to)], UnitStart(from) / 512)
  {
    SpanBounds(from, to, |bytes|);
  }

  lemma RewrittenIs(c: Layer, bytes: seq<byte>, at: nat, data: seq<byte>)
    requires UnitEnd(at + |data|) <= |bytes| && Inverse(c)
    ensures UnitStart(at) <= at && at + |data| <= UnitEnd(at + |data|)
    ensures |Window(c, bytes, at, at + |data|)| == UnitEnd(at + |data|) - UnitStart(at)
    ensures var patched := Splice(Window(c, bytes, at, at + |data|), at - UnitStart(at), data);
            && Whole(patched)
            && |Area(c.encrypt, patched, UnitStart(at) / 512)| == |patched|
            && Rewritten(c, bytes, at, data)
               == Splice(bytes, UnitStart(at), Area(c.encrypt, patched, UnitStart(at) / 512))
  {
    SpanBounds(at, at + |data|, |bytes|);
    AreaLength(c.decrypt, bytes[UnitStart(at)..UnitEnd(at + |data|)], UnitStart(at) / 512);
    var patched := Splice(Window(c, bytes, at, at + |data|), at - UnitStart(at), data);
    AreaLength(c.encrypt, patched, UnitStart(at) / 512);
  }

  lemma SpliceOfSplice<T>(s: seq<T>, lo: nat, hi: nat, at: nat, d: seq<T>)
    requires lo <= at && at + |d| <= hi <= |s|
    ensures Splice(s, lo, Splice(s[lo..hi], at - lo, d)) == Splice(s, at, d)
  {
    var r, q := Splice(s, lo, Splice(s[lo..hi], at - lo, d)), Splice(s, at, d);
    forall i | 0 <= i < |s|
      ensures r[i] == q[i]
    {
      SpliceAt(s, at, d, i);
      SpliceAt(s, lo, Splice(s[lo..hi], at - lo, d), i);
      if lo <= i < hi {
        SpliceAt(s[lo..hi], at - lo, d, i - lo);
      }
    }
  }

  lemma TakeSplice<T>(s: seq<T>, n: nat, at: nat, d: seq<T>)
    requires at + |d| <= n <= |s|
    ensures Splice(s, at, d)[..n] == Splice(s[..n], at, d)
  {
  }

  lemma RewriteOutside(c: Layer, bytes: seq<byte>, at: nat, data: seq<byte>)
    requires Inverse(c) && UnitEnd(at + |data|) <= |bytes|
    ensures |Rewritten(c, bytes, at, data)| == |bytes|
    ensures forall lo, hi :: 0 <= lo <= hi <= |bytes| && (hi <= UnitStart(at) || UnitEnd(at + |data|) <= lo) ==>
      Rewritten(c, bytes, at, data)[lo..hi] == bytes[lo..hi]
  {
    hide *;
    var lo, hi := UnitStart(at), UnitEnd(at + |data|);
    RewrittenIs(c, bytes, at, data);
    var block := Area(c.encrypt, Splice(Window(c, bytes, at, at + |data|), at - lo, data), lo / 512);
    forall l, h | 0 <= l <= h <= |bytes| && (h <= lo || hi <= l)
      ensures Rewritten(c, bytes, at, data)[l..h] == bytes[l..h]
    {
      SliceOutside(bytes, lo, block, l, h);
    }
  }

  /** The write's effect on the view: it splices the plaintext at any offset and length, and no byte
      outside the units it touches changes. */
  lemma RewriteSplices(c: Layer, bytes: seq<byte>, at: nat, data: seq<byte>)
    requires Inverse(c) && UnitEnd(at + |data|) <= |bytes|
    ensures |Rewritten(c, bytes, at, data)| == |bytes|
    ensures at + |data| <= |Plaintext(c, bytes)|
    ensures Plaintext(c, Rewritten(c, bytes, at, data)) == Splice(Plaintext(c, bytes), at, data)
    ensures forall lo, hi :: 0 <= lo <= hi <= |bytes| && (hi <= UnitStart(at) || UnitEnd(at + |data|) <= lo) ==>
      Rewritten(c, bytes, at, data)[lo..hi] == bytes[lo..hi]
  {
    var to := at + |data|;
    var n, lo, hi := UnitStart(|bytes|), UnitStart(at), UnitEnd(to);
    SpanBounds(at, to, |bytes|);
    PlaintextLength(c, bytes);
    hide *;
    RewrittenIs(c, bytes, at, data);
    InverseParts(c);
    var window := Window(c, bytes, at, to);
    var patched := Splice(window, at - lo, data);
    var block := Area(c.encrypt, patched, lo / 512);
    var r := Rewritten(c, bytes, at, data);
    RewriteOutside(c, bytes, at, data);
    PlaintextIs(c, bytes);
    PlaintextIs(c, r);
    TakeSplice(bytes, n, lo, block);
    WholeIs(block);
    AreaSplice(c.decrypt, bytes[..n], lo, block);
    AreaInverse(c, patched, lo / 512);
    WindowShows(c, bytes, at, to);
    SpliceOfSplice(Plaintext(c, bytes), lo, hi, at, data);
  }

  /** Under a block-local cipher a write changes no block but those it overlaps: the other blocks of the units it
      touches are decrypted and come out of the encryption as they were. */
  lemma RewriteKeepsBlocks(c: Layer, bytes: seq<byte>, at: nat, data: seq<byte>, j: nat)
    requires BlockLocal(c) && UnitEnd(at + |data|) <= |bytes| && 16 * j + 16 <= |bytes|
    requires 16 * j + 16 <= at || at + |data| <= 16 * j
    ensures |Rewritten(c, bytes, at, data)| == |bytes|
    ensures Block(Rewritten(c, bytes, at, data), j) == Block(bytes, j)
  {
    hide *;
    LocalParts(c);
    SpanBounds(at, at + |data|, |bytes|);
    var lo, hi := UnitStart(at), UnitEnd(at + |data|);
    BlockSide(lo, hi, j);
    if 16 * j + 16 <= lo || hi <= 16 * j {
      UntouchedBlock(c, bytes, at, data, j);
    } else {
      TouchedBlock(c, bytes, at, data, lo, hi, j - lo / 16);
      BlockIsSlice(bytes, j);
      BlockIsSlice(Rewritten(c, bytes, at, data), j);
    }
  }

  lemma UntouchedBlock(c: Layer, bytes: seq<byte>, at: nat, data: seq<byte>, j: nat)
    requires Inverse(c) && UnitEnd(at + |data|) <= |bytes| && 16 * j + 16 <= |bytes|
    requires 16 * j + 16 <= UnitStart(at) || UnitEnd(at + |data|) <= 16 * j
    ensures |Rewritten(c, bytes, at, data)| == |bytes|
    ensures Block(Rewritten(c, bytes, at, data), j) == Block(bytes, j)
  {
    hide *;
    RewriteOutside(c, bytes, at, data);
    BlockIsSlice(bytes, j);
    BlockIsSlice(Rewritten(c, bytes, at, data), j);
    assert Rewritten(c, bytes, at, data)[16 * j..16 * j + 16] == bytes[16 * j..16 * j + 16];
  }

  lemma LocalParts(c: Layer)
    requires BlockLocal(c)
    ensures Inverse(c) && Blockwise(c.encrypt)
  {
  }

  lemma BlockIsSlice(s: seq<byte>, j: nat)
    requires 16 * j + 16 <= |s|
    ensures Block(s, j) == s[16 * j..16 * j + 16]
  {
  }

  lemma BlockSide(lo: nat, hi: nat, j: nat)
    requires lo % 512 == 0 && hi % 512 == 0
    ensures 16 * j + 16 <= lo || hi <= 16 * j || (lo <= 16 * j && 16 * j + 16 <= hi && lo / 16 <= j && 16 * (lo / 16) == lo)
  {
    BlockSides(lo / 512, hi / 512, j);
    assert lo == 512 * (lo / 512) && hi == 512 * (hi / 512);
  }

  lemma BlockSides(p: nat, q: nat, j: nat)
    ensures 16 * j + 16 <= 512 * p || 512 * q <= 16 * j
         || (512 * p <= 16 * j && 16 * j + 16 <= 512 * q && 512 * p / 16 == 32 * p && 32 * p <= j)
  {
  }

  /** Block `i` of the touched units. */
  lemma TouchedBlock(c: Layer, bytes: seq<byte>, at: nat, data: seq<byte>, lo: nat, hi: nat, i: nat)
    requires BlockLocal(c) && Inverse(c) && UnitEnd(at + |data|) <= |bytes|
    requires lo == UnitStart(at) && hi == UnitEnd(at + |data|) && lo % 512 == 0
    requires lo + 16 * i + 16 <= hi && (lo + 16 * i + 16 <= at || at + |data| <= lo + 16 * i)
    ensures |Rewritten(c, bytes, at, data)| == |bytes|
    ensures Rewritten(c, bytes, at, data)[lo + 16 * i..lo + 16 * i + 16] == bytes[lo + 16 * i..lo + 16 * i + 16]
  {
    hide *;
    LocalParts(c);
    SpanBounds(at, at + |data|, |bytes|);
    RewrittenIs(c, bytes, at, data);
    WindowIs(c, bytes, at, at + |data|);
    var old_ := bytes[lo..hi];
    var window := Window(c, bytes, at, at + |data|);
    var patched := Splice(window, at - lo, data);
    var block := Area(c.encrypt, patched, lo / 512);
    AreaInverse(c, old_, lo / 512);
    SliceOutside(window, at - lo, data, 16 * i, 16 * i + 16);
    BlockIsSlice(window, i);
    BlockIsSlice(patched, i);
    WholeAlso(old_, window);
    AreaBlocks(c.encrypt, patched, window, lo / 512, i);
    BlockIsSlice(block, i);
    BlockIsSlice(old_, i);
    SpliceShowsPart(bytes, lo, block, 16 * i, 16);
    SliceOfSlice(bytes, lo, hi, 16 * i, 16);
  }

  lemma WholeAlso(s: seq<byte>, t: seq<byte>)
    requires Whole(s) && |t| == |s|
    ensures Whole(t)
  {
  }

  lemma SpliceShowsPart<T>(s: seq<T>, at: nat, d: seq<T>, lo: nat, n: nat)
    requires at + |d| <= |s| && lo + n <= |d|
    ensures Splice(s, at, d)[at + lo..at + lo + n] == d[lo..lo + n]
  {
  }

  lemma WholeSplice<T>(s: seq<T>, d: seq<T>)
    requires |s| == |d|
    ensures Splice(s, 0, d) == d
  {
  }

  /** When both ends fall on unit boundaries the old plaintext does not matter: encrypting the new
      data alone is the same as reading, patching and encrypting. */
  lemma AlignedNeedsNoRead(c: Layer, bytes: seq<byte>, at: nat, data: seq<byte>)
    requires Inverse(c) && UnitEnd(at + |data|) <= |bytes|
    requires at % 512 == 0 && (at + |data|) % 512 == 0
    ensures Whole(data) && |Area(c.encrypt, data, at / 512)| == |data|
    ensures Rewritten(c, bytes, at, data) == Splice(bytes, at, Area(c.encrypt, data, at / 512))
  {
    assert UnitStart(at) == at && UnitEnd(at + |data|) == at + |data|;
    hide *;
    RewrittenIs(c, bytes, at, data);
    WholeSplice(Window(c, bytes, at, at + |data|), data);
  }

  // ---- The device --------------------------------------------------------------------------

  /** Whether a span lies in the data area and the units that hold it lie on a device of `len` bytes. */
  predicate Reaches(start: nat, size: nat, len: nat, offset: nat, n: nat)
  {
    offset + n <= size && (n == 0 || UnitEnd(start + offset + n) <= len)
  }

  /** The container after a write through the view; a refused or empty write changes nothing. */
  function Written(c: Layer, start: nat, size: nat, bytes: seq<byte>, offset: nat, data: seq<byte>): seq<byte>
    requires Inverse(c)
  {
    if Reaches(start, size, |bytes|, offset, |data|) && data != [] then Rewritten(c, bytes, start + offset, data)
    else bytes
  }

  /** What the view shows: the plaintext of the data area. */
  function View(c: Layer, start: nat, size: nat, bytes: seq<byte>): seq<byte>
    requires Inverse(c) && UnitEnd(start + size) <= |bytes|
  {
    SpanBounds(start, start + size, |bytes|);
    PlaintextLength(c, bytes);
    Plaintext(c, bytes)[start..start + size]
  }

  /** Byte `x` of the plaintext is the byte at its place of the decrypted unit it lies in, and the number of the unit
      is its place in the container. */
  lemma PlaintextByte(c: Layer, bytes: seq<byte>, x: nat)
    requires Inverse(c) && 512 * (x / 512) + 512 <= |bytes|
    ensures x < |Plaintext(c, bytes)|
    ensures var unit := bytes[512 * (x / 512)..512 * (x / 512) + 512];
      |c.decrypt(unit, x / 512)| == 512 && Plaintext(c, bytes)[x] == c.decrypt(unit, x / 512)[x % 512]
  {
    var q := x / 512;
    var whole := bytes[..UnitStart(|bytes|)];
    assert 512 * q + 512 <= |whole| && whole[512 * q..512 * q + 512] == bytes[512 * q..512 * q + 512];
    AreaUnit(c.decrypt, whole, 0, q);
    var area := Area(c.decrypt, whole, 0);
    assert area[x] == area[512 * q..512 * q + 512][x % 512];
  }

  /** Byte `i` of the view is byte `start + i` of the container's plaintext. */
  lemma ViewByte(c: Layer, start: nat, size: nat, bytes: seq<byte>, i: nat)
    requires Inverse(c) && UnitEnd(start + size) <= |bytes| && i < size
    ensures i < |View(c, start, size, bytes)|
    ensures var x := start + i;
      && 512 * (x / 512) + 512 <= |bytes| && |c.decrypt(bytes[512 * (x / 512)..512 * (x / 512) + 512], x / 512)| == 512
      && View(c, start, size, bytes)[i] == c.decrypt(bytes[512 * (x / 512)..512 * (x / 512) + 512], x / 512)[x % 512]
  {
    var x := start + i;
    SpanBounds(start, start + size, |bytes|);
    PlaintextLength(c, bytes);
    assert 512 * (x / 512) + 512 <= UnitEnd(start + size);
    PlaintextByte(c, bytes, x);
    hide Plaintext, Inverse;
  }

  /** The view is a flat array: a write that fits splices it at any offset and length, and one that
      does not fit leaves it alone. No container byte outside the touched units changes. */
  lemma WriteRefinesFlatArray(c: Layer, start: nat, size: nat, bytes: seq<byte>, offset: nat, data: seq<byte>)
    requires Inverse(c) && UnitEnd(start + size) <= |bytes|
    ensures |Written(c, start, size, bytes, offset, data)| == |bytes|
    ensures |View(c, start, size, bytes)| == size
    ensures View(c, start, size, Written(c, start, size, bytes, offset, data))
         == if offset + |data| <= size then Splice(View(c, start, size, bytes), offset, data)
            else View(c, start, size, bytes)
  {
    hide Plaintext, Rewritten, Inverse, UnitStart, UnitEnd, Splice;
    SpanBounds(start, start + size, |bytes|);
    PlaintextLength(c, bytes);
    if offset + |data| <= size {
      UnitOrder(start + offset + |data|, start + size);
      if data != [] {
        RewriteSplices(c, bytes, start + offset, data);
        SliceAround(Plaintext(c, bytes), start + offset, data, start, start + size);
      } else {
        NothingSpliced(View(c, start, size, bytes), offset);
      }
    }
  }

  lemma NothingSpliced<T>(s: seq<T>, at: nat)
    requires at <= |s|
    ensures Splice(s, at, []) == s
  {
  }

  lemma WrittenLength(c: Layer, start: nat, size: nat, bytes: seq<byte>, offset: nat, data: seq<byte>)
    requires Inverse(c)
    ensures |Written(c, start, size, bytes, offset, data)| == |bytes|
  {
    if Reaches(start, size, |bytes|, offset, |data|) && data != [] {
      RewriteSplices(c, bytes, start + offset, data);
    }
  }

  /** What the finished block must hold, with or without the read of the old units. */
  lemma BlockIs(c: Layer, bytes: seq<byte>, at: nat, data: seq<byte>, before: seq<byte>)
    requires Inverse(c) && UnitEnd(at + |data|) <= |bytes|
    requires |before| == UnitEnd(at + |data|) - UnitStart(at) && UnitStart(at) <= at
    requires at + |data| <= UnitEnd(at + |data|)
    requires if at % 512 == 0 && (at + |data|) % 512 == 0 then true else before == Window(c, bytes, at, at + |data|)
    ensures Whole(before) && Whole(Splice(before, at - UnitStart(at), data))
    ensures |Area(c.encrypt, Splice(before, at - UnitStart(at), data), UnitStart(at) / 512)| == |before|
    ensures Splice(bytes, UnitStart(at), Area(c.encrypt, Splice(before, at - UnitStart(at), data), UnitStart(at) / 512))
         == Rewritten(c, bytes, at, data)
  {
    SpanBounds(at, at + |data|, |bytes|);
    RewrittenIs(c, bytes, at, data);
    WholeIs(before);
    if at % 512 == 0 && (at + |data|) % 512 == 0 {
      assert UnitStart(at) == at && UnitEnd(at + |data|) == at + |data|;
      hide *;
      AlignedNeedsNoRead(c, bytes, at, data);
      WholeSplice(before, data);
    }
    hide *;
  }

  class DecryptedDevice {
    const inner: Disk
    const xts: seq<Layer>
    const dataStart: nat
    const dataSize: nat

    ghost predicate Valid()
      reads inner
    {
      inner.Valid() && AllInverse(xts)
    }

    constructor (inner: Disk, xts: seq<Layer>, geometry: Geometry)
      requires inner.Valid() && AllInverse(xts)
      ensures Valid() && this.inner == inner && this.xts == xts
      ensures dataStart == geometry.areaStart && dataSize == geometry.areaSize
    {
      this.inner, this.xts := inner, xts;
      dataStart, dataSize := geometry.areaStart, geometry.areaSize;
    }

    /** Reads any span of the data area: exactly the plaintext slice, whenever the units that hold it are
        on the device. */
    method ReadAt(offset: nat, n: nat) returns (r: VcResult<seq<byte>>)
      requires Valid()
      ensures r.Good? <==> Reaches(dataStart, dataSize, |inner.bytes|, offset, n)
      ensures r.Bad? ==> r.error == DeviceIo
      ensures r.Good? && n > 0 ==> dataStart + offset + n <= |Plaintext(Cascade(xts), inner.bytes)|
      ensures r.Good? && n > 0 ==>
        r.value == Plaintext(Cascade(xts), inner.bytes)[dataStart + offset..dataStart + offset + n]
      ensures r.Good? && n == 0 ==> r.value == []
    {
      hide Area, Cascade, Plaintext, Window, Inverse, Whole, UnitStart, UnitEnd;
      if offset + n > dataSize {
        return Bad(DeviceIo);
      }
      if n == 0 {
        return Good([]);
      }
      var abs := dataStart + offset;
      var from, to := UnitStart(abs), UnitEnd(abs + n);
      UnitBounds(abs);
      UnitBounds(abs + n);
      var got := inner.ReadAt(from, to - from);
      if got.Err? {
        return Bad(DeviceIo);
      }
      ghost var c := Cascade(xts);
      CascadeInverse(xts);
      WholeSpan(from, to);
      WindowIs(c, inner.bytes, abs, abs + n);
      WindowShows(c, inner.bytes, abs, abs + n);
      var block := new byte[to - from];
      Overwrite(block, got.value);
      DecryptUnits(xts, block, from / 512);
      var skip := abs - from;
      var plain := block[..];
      r := Good(plain[skip..skip + n]);
      SliceOfSlice(Plaintext(c, inner.bytes), from, to, skip, n);
    }

    /** Writes any span of the data area, reading the old units only when an end is not on a unit
        boundary. */
    method WriteAt(offset: nat, data: seq<byte>) returns (r: VcResult<()>)
      requires Valid()
      modifies inner
      ensures Valid() && Inverse(Cascade(xts))
      ensures r == if Reaches(dataStart, dataSize, |old(inner.bytes)|, offset, |data|) then Good(()) else Bad(DeviceIo)
      ensures inner.bytes == Written(Cascade(xts), dataStart, dataSize, old(inner.bytes), offset, data)
    {
      hide Area, Cascade, Rewritten, Window, Splice, Inverse, Whole, UnitStart, UnitEnd;
      CascadeInverse(xts);
      if offset + |data| > dataSize {
        return Bad(DeviceIo);
      }
      if data == [] {
        return Good(());
      }
      var abs := dataStart + offset;
      var from, to := UnitStart(abs), UnitEnd(abs + |data|);
      UnitBounds(abs);
      UnitBounds(abs + |data|);
      WholeSpan(from, to);
      var block := new byte[to - from](_ => 0);
      var skip := abs - from;
      ghost var c, bytes := Cascade(xts), inner.bytes;
      if skip != 0 || (abs + |data|) % 512 != 0 {
        var got := inner.ReadAt(from, to - from);
        if got.Err? {
          return Bad(DeviceIo);
        }
        Overwrite(block, got.value);
        WindowIs(c, bytes, abs, abs + |data|);
        DecryptUnits(xts, block, from / 512);
      }
      ghost var before := block[..];
      Patch(block, skip, data);
      EncryptUnits(xts, block, from / 512);
      if to <= |bytes| {
        BlockIs(c, bytes, abs, data, before);
      }
      var wrote := inner.WriteAt(from, block[..]);
      return if wrote.Ok? then Good(()) else Bad(DeviceIo);
    }
  }
}
