/** Reading the boot region back (sections 3.1 to 3.4). */
module Boots {
  import opened Bytes
  import opened Disks
  import opened EntrySets
  import opened FileData
  import opened Formats
  import opened Geometries
  import opened Layouts
  import opened RollingSums

  /** The geometry the boot sector describes, or the first complaint about it. */
  function ParseBoot(bs: seq<byte>): Result<Geometry>
    requires |bs| == BPS
  {
    if bs[3..11] != SIGNATURE then Err(Invalid("missing EXFAT signature"))
    else if bs[510] != 0x55 || bs[511] != 0xAA then Err(Invalid("missing boot signature"))
    else if bs[11..64] != Zeros(53) then Err(Invalid("MustBeZero region is not zero"))
    else if !(9 <= bs[108] <= 12) then Err(Invalid("BytesPerSectorShift out of range"))
    else if bs[109] > 25 - bs[108] then Err(Invalid("SectorsPerClusterShift out of range"))
    else
      var geo := Geometry(Pow2(bs[108]), Pow2(bs[109]), Field(bs, 80, 4), Field(bs, 84, 4), Field(bs, 88, 4),
                          Field(bs, 92, 4), Field(bs, 96, 4));
      if geo.fatOffsetSectors < 24 then Err(Invalid("FatOffset overlaps boot regions"))
      else if geo.rootFirstCluster < 2 || geo.rootFirstCluster >= geo.clusterCount + 2 then Err(Invalid("root cluster out of range"))
      else Ok(geo)
  }

  /** Every four-byte value of the sector is `checksum`. */
  predicate RepeatsSum(sector: seq<byte>, checksum: u32)
  {
    forall i: nat :: i < |sector| / 4 ==> WordAt(sector, i) == checksum
  }

  function CheckSector(sector: seq<byte>, checksum: u32): Result<()>
  {
    if RepeatsSum(sector, checksum) then Ok(()) else Err(Invalid("VBR checksum mismatch"))
  }

  /** Sector 11 repeats the rolling checksum of the bytes before it, other than those at 106, 107 and 112. */
  ghost predicate SumsHold(img: seq<byte>, bps: nat)
    requires 11 <= bps && 12 * bps <= |img|
  {
    forall i: nat :: i < bps / 4 ==> RollsTo(32, VbrBytes(img[..11 * bps]), SumWord(img, bps, i))
  }

  /** The `i`-th four-byte value of sector 11. */
  function SumWord(img: seq<byte>, bps: nat, i: nat): nat
    requires 12 * bps <= |img| && i < bps / 4
  {
    Value4(img, 11 * bps + 4 * i)
  }

  lemma WordIs(img: seq<byte>, at: nat, n: nat, i: nat)
    requires at + n <= |img| && i < n / 4
    ensures WordAt(img[at..at + n], i) == Value4(img, at + 4 * i)
  {
    FromLeIsValue4(img, at + 4 * i);
    SliceOfSlice(img, at, at + n, 4 * i, 4);
    hide FromLe, Value4;
  }

  lemma SumsHoldIs(img: seq<byte>, bps: nat)
    requires 11 <= bps && 12 * bps <= |img|
    ensures SumsHold(img, bps) <==> CheckSector(img[11 * bps..11 * bps + bps], VbrSum(img[..11 * bps], 11 * bps)).Ok?
  {
    hide RollsTo, VbrSum, VbrBytes, WordAt, SumWord;
    var kept, sum, sector := VbrBytes(img[..11 * bps]), VbrSum(img[..11 * bps], 11 * bps), img[11 * bps..11 * bps + bps];
    VbrSumRolls(img[..11 * bps]);
    forall i: nat | i < bps / 4
      ensures RollsTo(32, kept, SumWord(img, bps, i)) <==> WordAt(sector, i) == sum
    {
      WordIs(img, 11 * bps, bps, i);
      SumWordIs(img, bps, i);
      if RollsTo(32, kept, SumWord(img, bps, i)) {
        RollsUniquely(32, kept, sum, SumWord(img, bps, i));
      }
    }
  }

  lemma SumWordIs(img: seq<byte>, bps: nat, i: nat)
    requires 12 * bps <= |img| && i < bps / 4
    ensures SumWord(img, bps, i) == Value4(img, 11 * bps + 4 * i)
  {
  }

  /** The checksum of sectors 0 to 10 must be repeated through sector 11. */
  method VerifyVbrChecksum(disk: Disk, bps: nat) returns (r: Result<()>)
    ensures r == if 12 * bps <= |disk.bytes|
                 then CheckSector(disk.bytes[11 * bps..11 * bps + bps], VbrSum(disk.bytes[..11 * bps], 11 * bps))
                 else Err(Io)
    ensures 11 <= bps && 12 * bps <= |disk.bytes| ==> (r.Ok? <==> SumsHold(disk.bytes, bps))
  {
    hide VbrSum, SumsHold, WordAt;
    if 11 <= bps && 12 * bps <= |disk.bytes| {
      SumsHoldIs(disk.bytes, bps);
    }
    var region :- disk.ReadAt(0, 11 * bps);
    assert 11 * bps <= |disk.bytes| ==> disk.bytes[0..11 * bps] == disk.bytes[..11 * bps];
    var checksum := RollingVbr(region);
    var sector :- disk.ReadAt(11 * bps, bps);
    for i := 0 to |sector| / 4
      invariant forall j: nat :: j < i ==> WordAt(sector, j) == checksum
    {
      if WordAt(sector, i) != checksum {
        return Err(Invalid("VBR checksum mismatch"));
      }
    }
    return Ok(());
  }

  /** What reading the boot region of an image gives. */
  function BootGeometry(img: seq<byte>): Result<Geometry>
  {
    if |img| < BPS then Err(Io)
    else
      match ParseBoot(img[..BPS])
      case Err(e) => Err(e)
      case Ok(geo) =>
        if 12 * geo.bytesPerSector > |img| then Err(Io)
        else
          var n := geo.bytesPerSector;
          match CheckSector(img[11 * n..11 * n + n], VbrSum(img[..11 * n], 11 * n))
          case Err(e) => Err(e)
          case Ok(_) => Ok(geo)
  }

  /** Parse and validate the main boot region. */
  method ReadBootRegion(disk: Disk) returns (r: Result<Geometry>)
    ensures r == BootGeometry(disk.bytes)
  {
    hide ParseBoot, CheckSector, VbrSum;
    var bs :- disk.ReadAt(0, BPS);
    assert BPS <= |disk.bytes| ==> disk.bytes[0..BPS] == disk.bytes[..BPS];
    var geo :- ParseBoot(bs);
    var checked := VerifyVbrChecksum(disk, geo.bytesPerSector);
    if checked.Err? {
      return Err(checked.error);
    }
    return Ok(geo);
  }

  /** What the first sector of an accepted image holds, in numbers. */
  ghost predicate SoundSector(bs: seq<byte>)
    requires |bs| == 512
  {
    && bs[3..11] == [0x45, 0x58, 0x46, 0x41, 0x54, 0x20, 0x20, 0x20] && bs[510] == 0x55 && bs[511] == 0xAA
    && (forall i :: 11 <= i < 64 ==> bs[i] == 0)
    && 9 <= bs[108] <= 12 && bs[108] as nat + bs[109] as nat <= 25
    && 24 <= Value4(bs, 80) && 2 <= Value4(bs, 96) < Value4(bs, 92) + 2
  }

  function SectorGeometry(bs: seq<byte>): Geometry
    requires |bs| == 512
  {
    Geometry(Pow2(bs[108]), Pow2(bs[109]), Value4(bs, 80), Value4(bs, 84), Value4(bs, 88), Value4(bs, 92), Value4(bs, 96))
  }

  lemma ParsesSector(bs: seq<byte>)
    requires |bs| == 512
    ensures ParseBoot(bs).Ok? <==> SoundSector(bs)
    ensures ParseBoot(bs).Ok? ==> ParseBoot(bs).value == SectorGeometry(bs)
  {
    FromLeIsValue4(bs, 80);
    FromLeIsValue4(bs, 84);
    FromLeIsValue4(bs, 88);
    FromLeIsValue4(bs, 92);
    FromLeIsValue4(bs, 96);
    hide FromLe, Value4, Pow2;
    AllZero(bs, 11, 64);
  }

  lemma AllZero(bs: seq<byte>, lo: nat, hi: nat)
    requires lo <= hi <= |bs|
    ensures bs[lo..hi] == Zeros(hi - lo) <==> forall i :: lo <= i < hi ==> bs[i] == 0
  {
    if bs[lo..hi] == Zeros(hi - lo) {
      forall i | lo <= i < hi
        ensures bs[i] == 0
      {
        assert bs[i] == bs[lo..hi][i - lo];
      }
    }
  }

  lemma SectorSizes(shift: nat)
    requires 9 <= shift <= 12
    ensures Pow2(shift) == if shift == 9 then 512 else if shift == 10 then 1024 else if shift == 11 then 2048 else 4096
  {
    assert Pow2(9) == 512 && Pow2(10) == 1024 && Pow2(11) == 2048 && Pow2(12) == 4096 by {
      assert Pow2(3) == 8 && Pow2(5) == 4 * Pow2(3) && Pow2(7) == 4 * Pow2(5) && Pow2(9) == 4 * Pow2(7);
      assert Pow2(11) == 4 * Pow2(9);
    }
  }

  /** An image is accepted exactly when its first sector is sound and sector 11 holds the sums; the geometry is
      what the bytes at these places say. */
  lemma AcceptsBoot(img: seq<byte>)
    ensures BootGeometry(img).Ok? <==>
      && 512 <= |img| && SoundSector(img[..512])
      && 12 * Pow2(img[108]) <= |img| && 11 <= Pow2(img[108]) && SumsHold(img, Pow2(img[108]))
    ensures BootGeometry(img).Ok? ==> 512 <= |img| && BootGeometry(img).value == SectorGeometry(img[..512])
  {
    if 512 <= |img| {
      var bs := img[..512];
      ParsesSector(bs);
      assert bs[108] == img[108] && bs[109] == img[109];
      hide ParseBoot, SumsHold, VbrSum, CheckSector, Value4, Pow2;
      if SoundSector(bs) {
        SectorSizes(bs[108]);
        if 12 * Pow2(img[108]) <= |img| {
          SumsHoldIs(img, Pow2(img[108]));
        }
      }
    }
  }

  // ---- Round trip ------------------------------------------------------------------------------

  lemma SpcIsPower(shift: nat)
    requires shift == 3 || shift == 6 || shift == 8
    ensures Pow2(shift) == Spc(shift) && Pow2(BPS_SHIFT) == BPS
  {
    assert Pow2(3) == 8 && Pow2(5) == 4 * Pow2(3) && Pow2(6) == 2 * Pow2(5) && Pow2(8) == 4 * Pow2(6) && Pow2(9) == 2 * Pow2(8);
  }

  lemma Middle<T>(a: seq<T>, b: seq<T>, c: seq<T>, lo: nat, hi: nat)
    requires lo <= hi <= |b|
    ensures (a + b + c)[|a| + lo..|a| + hi] == b[lo..hi]
  {
  }

  lemma GeometryFieldsAre(l: Layout, serial: nat)
    ensures var f := GeometryFields(l, serial);
      && f[0..4] == Le(l.fatOffset, 4) && f[4..8] == Le(l.fatLength, 4) && f[8..12] == Le(l.heapOffset, 4)
      && f[12..16] == Le(l.clusterCount, 4) && f[16..20] == Le(l.RootFirst(), 4)
  {
    hide Le;
  }

  lemma BootSectorParts(l: Layout, serial: nat, percent: byte)
    requires l.spcShift < 256
    ensures var s := BootSector(l, serial, percent);
      && s[3..11] == SIGNATURE && s[510] == 0x55 && s[511] == 0xAA && s[11..64] == Zeros(53)
      && s[108] == BPS_SHIFT && s[109] == l.spcShift
      && s[80..104] == GeometryFields(l, serial)
  {
    hide Le, GeometryFields;
    var a := [0xEB, 0x76, 0x90] + SIGNATURE + Zeros(61) + Le(l.totalSectors, 8);
    var b := GeometryFields(l, serial);
    var c := [0, 1, 0, 0, BPS_SHIFT, l.spcShift % 256, 1, 0x80, percent] + Zeros(397) + [0x55, 0xAA];
    var s := a + b + c;
    assert s == BootSector(l, serial, percent);
    assert a[3..11] == SIGNATURE && a[11..64] == Zeros(53);
    assert s[3..11] == a[3..11] && s[11..64] == a[11..64];
    assert s[108] == c[4] && s[109] == c[5] && s[510] == c[406] && s[511] == c[407];
    Middle(a, b, c, 0, 24);
    assert b[0..24] == b;
  }

  lemma FieldOfPart(s: seq<byte>, at: nat, f: seq<byte>, k: nat, value: nat)
    requires at + |f| <= |s| && s[at..at + |f|] == f && k + 4 <= |f| && f[k..k + 4] == Le(value, 4) && value < 0x1_0000_0000
    ensures Field(s, at + k, 4) == value
  {
    PowersOf256();
    FromLeOfLe(value, 4);
    SliceOfSlice(s, at, at + |f|, k, 4);
  }

  /** The boot sector of a layout reads back as its geometry. */
  lemma BootSectorRoundTrip(l: Layout, serial: nat, percent: byte)
    requires l.spcShift == 3 || l.spcShift == 6 || l.spcShift == 8
    requires 24 <= l.fatOffset < 0x1_0000_0000 && l.fatLength < 0x1_0000_0000 && l.heapOffset < 0x1_0000_0000
    requires l.clusterCount < 0x1_0000_0000 && 2 <= l.RootFirst() < l.clusterCount + 2 && l.RootFirst() < 0x1_0000_0000
    ensures ParseBoot(BootSector(l, serial, percent)) == Ok(l.Geo())
  {
    var s, f := BootSector(l, serial, percent), GeometryFields(l, serial);
    BootSectorParts(l, serial, percent);
    GeometryFieldsAre(l, serial);
    SpcIsPower(l.spcShift);
    hide BootSector, GeometryFields, Field, Pow2, Spc, Layout.RootFirst, Le;
    FieldOfPart(s, 80, f, 0, l.fatOffset);
    FieldOfPart(s, 80, f, 4, l.fatLength);
    FieldOfPart(s, 80, f, 8, l.heapOffset);
    FieldOfPart(s, 80, f, 12, l.clusterCount);
    FieldOfPart(s, 80, f, 16, l.RootFirst());
  }

  lemma LeAt(s: seq<byte>, at: nat, value: nat)
    requires at + 4 <= |s| && s[at..at + 4] == Le(value, 4) && value < 0x1_0000_0000
    ensures Value4(s, at) == value
  {
    PowersOf256();
    FromLeOfLe(value, 4);
    FromLeIsValue4(s, at);
  }

  lemma LongAt(s: seq<byte>, at: nat, value: nat)
    requires at + 8 <= |s| && s[at..at + 8] == Le(value, 8) && value < 0x1_0000_0000_0000_0000
    ensures Value8(s, at) == value
  {
    PowersOf256();
    FromLeOfLe(value, 8);
    FromLeIsValue8(s, at);
  }

  /** The boot sector the formatter writes, in numbers. */
  lemma BootSectorBytes(l: Layout, serial: nat, percent: byte)
    requires l.spcShift < 256 && l.totalSectors < 0x1_0000_0000_0000_0000 && serial < 0x1_0000_0000
    requires l.fatOffset < 0x1_0000_0000 && l.fatLength < 0x1_0000_0000 && l.heapOffset < 0x1_0000_0000
    requires l.clusterCount < 0x1_0000_0000 && l.RootFirst() < 0x1_0000_0000
    ensures var s := BootSector(l, serial, percent);
      && s[..11] == [0xEB, 0x76, 0x90, 0x45, 0x58, 0x46, 0x41, 0x54, 0x20, 0x20, 0x20]
      && (forall i :: 11 <= i < 72 ==> s[i] == 0) && Value8(s, 72) == l.totalSectors
      && Value4(s, 80) == l.fatOffset && Value4(s, 84) == l.fatLength && Value4(s, 88) == l.heapOffset
      && Value4(s, 92) == l.clusterCount && Value4(s, 96) == 2 + l.bitmapClusters + l.upcaseClusters && Value4(s, 100) == serial
      && s[104..113] == [0, 1, 0, 0, 9, l.spcShift, 1, 0x80, percent]
      && (forall i :: 113 <= i < 510 ==> s[i] == 0) && s[510] == 0x55 && s[511] == 0xAA
  {
    var s, f := BootSector(l, serial, percent), GeometryFields(l, serial);
    hide Le, Value4, Value8, Layout.RootFirst;
    var a := [0xEB, 0x76, 0x90] + SIGNATURE + Zeros(61) + Le(l.totalSectors, 8);
    var c := [0, 1, 0, 0, BPS_SHIFT, l.spcShift % 256, 1, 0x80, percent] + Zeros(397) + [0x55, 0xAA];
    assert s == a + f + c;
    hide BootSector, GeometryFields;
    SectorEnds(l, percent, a, f, c);
    LongAt(s, 72, l.totalSectors);
    GeometryWords(l, serial, s);
  }

  lemma SectorEnds(l: Layout, percent: byte, a: seq<byte>, f: seq<byte>, c: seq<byte>)
    requires |f| == 24 && l.spcShift < 256
    requires a == [0xEB, 0x76, 0x90] + SIGNATURE + Zeros(61) + Le(l.totalSectors, 8)
    requires c == [0, 1, 0, 0, BPS_SHIFT, l.spcShift % 256, 1, 0x80, percent] + Zeros(397) + [0x55, 0xAA]
    ensures var s := a + f + c;
      && |s| == 512 && s[..11] == [0xEB, 0x76, 0x90, 0x45, 0x58, 0x46, 0x41, 0x54, 0x20, 0x20, 0x20]
      && (forall i :: 11 <= i < 72 ==> s[i] == 0) && s[72..80] == Le(l.totalSectors, 8) && s[80..104] == f
      && s[104..113] == [0, 1, 0, 0, 9, l.spcShift, 1, 0x80, percent]
      && (forall i :: 113 <= i < 510 ==> s[i] == 0) && s[510] == 0x55 && s[511] == 0xAA
  {
    hide Le;
    var s := a + f + c;
    assert s[..11] == a[..11] && s[72..80] == a[72..80] && s[104..113] == c[..9];
    assert forall i :: 11 <= i < 72 ==> s[i] == a[i];
    assert forall i :: 104 <= i < 512 ==> s[i] == c[i - 104];
  }

  lemma GeometryWords(l: Layout, serial: nat, s: seq<byte>)
    requires |s| == 512 && s[80..104] == GeometryFields(l, serial)
    requires serial < 0x1_0000_0000
    requires l.fatOffset < 0x1_0000_0000 && l.fatLength < 0x1_0000_0000 && l.heapOffset < 0x1_0000_0000
    requires l.clusterCount < 0x1_0000_0000 && l.RootFirst() < 0x1_0000_0000
    ensures Value4(s, 80) == l.fatOffset && Value4(s, 84) == l.fatLength && Value4(s, 88) == l.heapOffset
    ensures Value4(s, 92) == l.clusterCount && Value4(s, 96) == 2 + l.bitmapClusters + l.upcaseClusters && Value4(s, 100) == serial
  {
    hide Le, Value4;
    var f := GeometryFields(l, serial);
    GeometryFieldsAre(l, serial);
    assert f[20..24] == Le(serial, 4);
    SliceOfSlice(s, 80, 104, 0, 4);
    SliceOfSlice(s, 80, 104, 4, 4);
    SliceOfSlice(s, 80, 104, 8, 4);
    SliceOfSlice(s, 80, 104, 12, 4);
    SliceOfSlice(s, 80, 104, 16, 4);
    SliceOfSlice(s, 80, 104, 20, 4);
    LeAt(s, 80, l.fatOffset);
    LeAt(s, 84, l.fatLength);
    LeAt(s, 88, l.heapOffset);
    LeAt(s, 92, l.clusterCount);
    LeAt(s, 96, l.RootFirst());
    LeAt(s, 100, serial);
  }

  lemma RegionSlices(l: Layout, serial: nat, percent: byte, img: seq<byte>)
    requires Part(img, 0, 12 * BPS) == BootRegion(l, serial, percent)
    ensures 12 * BPS <= |img| && img[..BPS] == BootSector(l, serial, percent) && img[..11 * BPS] == BootBody(l, serial, percent)
    ensures img[11 * BPS..11 * BPS + BPS] == Repeated(128, Le(VbrSum(BootBody(l, serial, percent), 11 * BPS), 4))
  {
    hide Sectors, Repeated, VbrSum, BootSector, ExtendedSector, Le;
    var r, body := BootRegion(l, serial, percent), BootBody(l, serial, percent);
    assert |r| == 12 * BPS;
    assert img[0..12 * BPS] == r;
    assert img[..11 * BPS] == r[..11 * BPS] == body;
    assert img[11 * BPS..11 * BPS + BPS] == r[11 * BPS..12 * BPS];
    assert img[..BPS] == body[..BPS] == BootSector(l, serial, percent);
  }

  /** Format then read: a formatted device gives back the geometry of its layout, with a matching checksum. */
  lemma FormatReadsBack(totalBytes: nat, img: seq<byte>, serial: nat, table: seq<byte>)
    requires Plan(totalBytes).Ok? && Plan(totalBytes).value.clusterCount <= 0xFFFF_FFF5 && |img| == totalBytes
    requires Formatted(img, Plan(totalBytes).value, serial, table)
    ensures BootGeometry(img) == Ok(Plan(totalBytes).value.Geo())
  {
    var l := Plan(totalBytes).value;
    hide *;
    WordsOfLayout(totalBytes);
    var percent := BootOf(img, l, serial, table);
    RegionSlices(l, serial, percent, img);
    BootSectorRoundTrip(l, serial, percent);
    var sum := VbrSum(BootBody(l, serial, percent), 11 * BPS);
    forall i: nat | i < 128
      ensures WordAt(Repeated(128, Le(sum, 4)), i) == sum
    {
      RepeatedWords(128, sum, i);
    }
    GeometryIs(img, l, Repeated(128, Le(sum, 4)), sum);
  }

  lemma BootOf(img: seq<byte>, l: Layout, serial: nat, table: seq<byte>) returns (percent: byte)
    requires Formatted(img, l, serial, table)
    ensures InUse(l, percent)
    ensures Part(img, 0, 12 * BPS) == BootRegion(l, serial, percent) == Part(img, 12 * BPS, 12 * BPS)
  {
    hide Part, BootRegion, FatOk, BitmapOk, TableImage, RootBytes, InUse;
    percent :| InUse(l, percent) && Part(img, 0, 12 * BPS) == BootRegion(l, serial, percent) == Part(img, 12 * BPS, 12 * BPS);
  }

  /** The fields of an accepted layout fit the words they are stored in. */
  lemma WordsOfLayout(totalBytes: nat)
    requires Plan(totalBytes).Ok? && Plan(totalBytes).value.clusterCount <= 0xFFFF_FFF5
    ensures var l := Plan(totalBytes).value;
      && (l.spcShift == 3 || l.spcShift == 6 || l.spcShift == 8)
      && 24 <= l.fatOffset < 0x1_0000_0000 && l.fatLength < 0x1_0000_0000 && l.heapOffset < 0x1_0000_0000
      && l.clusterCount < 0x1_0000_0000 && 2 <= l.RootFirst() < l.clusterCount + 2 && l.RootFirst() < 0x1_0000_0000
  {
    PlanFits(totalBytes);
    Counts(Plan(totalBytes).value);
    FatIsSmall(totalBytes);
  }

  lemma FatIsSmall(totalBytes: nat)
    requires Plan(totalBytes).Ok? && Plan(totalBytes).value.clusterCount <= 0xFFFF_FFF5
    ensures var l := Plan(totalBytes).value; l.fatOffset <= 512 && l.fatLength < 0x4000_0000
  {
    hide *;
    PlanIs(totalBytes);
    var l := Plan(totalBytes).value;
    var spc := Spc(l.spcShift);
    var a, b := l.totalSectors - l.fatOffset, l.totalSectors - l.heapOffset;
    DivMod(a, spc);
    DivMod(b, spc);
    DivCeilBounds((a / spc + 2) * 4, 512);
    RoundUpBounds(DivCeil((a / spc + 2) * 4, 512), spc);
    RoundUpBounds(24, spc);
    Constants();
    SmallFat(spc, a, b, a / spc, b / spc, DivCeil((a / spc + 2) * 4, 512), l.fatLength);
  }

  lemma SmallFat(spc: nat, a: nat, b: nat, most: nat, count: nat, words: nat, len: nat)
    requires spc == 8 || spc == 64 || spc == 256
    requires most * spc <= a && b < count * spc + spc && a == b + len && count <= 0xFFFF_FFF5
    requires words * 512 < (most + 2) * 4 + 512 && len < words + spc
    ensures len < 0x4000_0000
  {
    if spc == 8 {
      assert most * 8 <= count * 8 + 8 + words + 8;
    } else if spc == 64 {
      assert most * 64 <= count * 64 + 64 + words + 64;
    } else {
      assert most * 256 <= count * 256 + 256 + words + 256;
    }
  }

  lemma GeometryIs(img: seq<byte>, l: Layout, last: seq<byte>, sum: u32)
    requires 12 * BPS <= |img| && ParseBoot(img[..BPS]) == Ok(l.Geo())
    requires img[11 * BPS..11 * BPS + BPS] == last && VbrSum(img[..11 * BPS], 11 * BPS) == sum
    requires forall i: nat :: i < 128 ==> WordAt(last, i) == sum
    ensures BootGeometry(img) == Ok(l.Geo())
  {
    hide ParseBoot, VbrSum, WordAt;
  }
}
