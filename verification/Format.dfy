/** The formatter: the bytes of a fresh, empty volume. */
module Formats {
  import opened Bytes
  import opened Disks
  import opened EntrySets
  import opened FileData
  import opened Geometries
  import opened Layouts
  import opened RollingSums

  const FAT_MEDIA := 0xFFFF_FFF8
  const ENTRY_LABEL: byte := 0x83
  const ENTRY_BITMAP: byte := 0x81
  const ENTRY_UPCASE: byte := 0x82

  // ---- The rolling checksum ------------------------------------------------------------------

  type u32 = n: int | 0 <= n < 0x1_0000_0000

  /** Rotate right on 32 bits, then add. */
  function Roll32(sum: u32, b: byte): u32
  {
    (sum % 2 * 0x8000_0000 + sum / 2 + b) % 0x1_0000_0000
  }

  /** The boot checksum skips VolumeFlags and PercentInUse. */
  predicate VbrSkips(i: nat) { i == 106 || i == 107 || i == 112 }

  function VbrSum(bs: seq<byte>, n: nat): u32
    requires n <= |bs|
  {
    if n == 0 then 0 else if VbrSkips(n - 1) then VbrSum(bs, n - 1) else Roll32(VbrSum(bs, n - 1), bs[n - 1])
  }

  lemma Roll32Turns(sum: u32, b: byte)
    ensures RollStep(32, sum, b, Roll32(sum, b))
  {
    Widths();
    StepIs(32, sum, b, Roll32(sum, b));
  }

  /** The bytes of a boot region that its checksum covers: all but those at 106, 107 and 112. */
  function VbrBytes(bs: seq<byte>): (kept: seq<byte>)
    requires 112 < |bs|
    ensures |kept| == |bs| - 3
  {
    seq(|bs| - 3, k requires 0 <= k < |bs| - 3 => bs[if k < 106 then k else if k < 110 then k + 2 else k + 3])
  }

  /** How many of the first `n` bytes are skipped. */
  function Skipped(n: nat): nat
  {
    if n <= 106 then 0 else if n == 107 then 1 else if n <= 112 then 2 else 3
  }

  function KeptBytes(bs: seq<byte>, n: nat): (kept: seq<byte>)
    requires n <= |bs|
  {
    if n == 0 then [] else if VbrSkips(n - 1) then KeptBytes(bs, n - 1) else KeptBytes(bs, n - 1) + [bs[n - 1]]
  }

  lemma {:induction false} KeptAt(bs: seq<byte>, n: nat)
    requires n <= |bs|
    ensures |KeptBytes(bs, n)| == n - Skipped(n)
    ensures forall k :: 0 <= k < n - Skipped(n) ==>
      KeptBytes(bs, n)[k] == bs[if k < 106 then k else if k < 110 then k + 2 else k + 3]
  {
    if n > 0 {
      KeptAt(bs, n - 1);
    }
  }

  lemma {:induction false} VbrRolls(bs: seq<byte>, n: nat)
    requires n <= |bs|
    ensures RollsTo(32, KeptBytes(bs, n), VbrSum(bs, n))
  {
    hide Roll32, RollsTo, RollStep;
    if n == 0 {
      RollsNothing(32);
    } else {
      VbrRolls(bs, n - 1);
      if !VbrSkips(n - 1) {
        Roll32Turns(VbrSum(bs, n - 1), bs[n - 1]);
        RollsMore(32, KeptBytes(bs, n - 1), VbrSum(bs, n - 1), bs[n - 1], VbrSum(bs, n));
      }
    }
  }

  /** The boot checksum is the rolling checksum of those bytes. */
  lemma VbrSumRolls(bs: seq<byte>)
    requires 112 < |bs|
    ensures RollsTo(32, VbrBytes(bs), VbrSum(bs, |bs|))
  {
    hide RollsTo, VbrSum;
    VbrRolls(bs, |bs|);
    KeptAt(bs, |bs|);
    assert KeptBytes(bs, |bs|) == VbrBytes(bs);
  }

  lemma {:induction false} VbrSumSame(a: seq<byte>, b: seq<byte>, n: nat)
    requires n <= |a| && n <= |b| && forall i :: 0 <= i < n && !VbrSkips(i) ==> a[i] == b[i]
    ensures VbrSum(a, n) == VbrSum(b, n)
  {
    if n > 0 {
      VbrSumSame(a, b, n - 1);
    }
  }

  method RollingVbr(bs: seq<byte>) returns (sum: u32)
    ensures sum == VbrSum(bs, |bs|)
    ensures 112 < |bs| ==> RollsTo(32, VbrBytes(bs), sum)
  {
    if 112 < |bs| {
      VbrSumRolls(bs);
    }
    hide RollsTo, VbrBytes, Roll32;
    sum := 0;
    for i := 0 to |bs|
      invariant sum == VbrSum(bs, i)
    {
      if VbrSkips(i) {
        continue;
      }
      sum := Roll32(sum, bs[i]);
    }
  }

  /** The checksum of the up-case table's entry covers every byte. */
  function TableSum(bs: seq<byte>, n: nat): u32
    requires n <= |bs|
  {
    if n == 0 then 0 else Roll32(TableSum(bs, n - 1), bs[n - 1])
  }

  /** The table's checksum is the rolling checksum of its bytes. */
  lemma {:induction false} TableRolls(bs: seq<byte>, n: nat)
    requires n <= |bs|
    ensures RollsTo(32, bs[..n], TableSum(bs, n))
  {
    hide Roll32, RollsTo, RollStep;
    if n == 0 {
      RollsNothing(32);
    } else {
      TableRolls(bs, n - 1);
      Roll32Turns(TableSum(bs, n - 1), bs[n - 1]);
      RollsMore(32, bs[..n - 1], TableSum(bs, n - 1), bs[n - 1], TableSum(bs, n));
      assert bs[..n] == bs[..n - 1] + [bs[n - 1]];
    }
  }

  method RollingTable(bs: seq<byte>) returns (sum: u32)
    ensures sum == TableSum(bs, |bs|)
    ensures RollsTo(32, bs, sum)
  {
    TableRolls(bs, |bs|);
    assert bs[..|bs|] == bs;
    hide RollsTo, Roll32;
    sum := 0;
    for i := 0 to |bs|
      invariant sum == TableSum(bs, i)
    {
      sum := Roll32(sum, bs[i]);
    }
  }

  // ---- The FAT -------------------------------------------------------------------------------

  function WordAt(fat: seq<byte>, i: nat): nat
  {
    if 4 * i + 4 <= |fat| then FromLe(fat[4 * i..4 * i + 4]) else 0
  }

  function WithWord(fat: seq<byte>, i: nat, value: nat): (r: seq<byte>)
    requires 4 * i + 4 <= |fat|
    ensures |r| == |fat|
  {
    Splice(fat, 4 * i, Le(value, 4))
  }

  lemma WordWritten(fat: seq<byte>, i: nat, value: nat, j: nat)
    requires 4 * i + 4 <= |fat| && value < 0x1_0000_0000
    ensures WordAt(WithWord(fat, i, value), j) == if j == i then value else WordAt(fat, j)
  {
    PowersOf256();
    FromLeOfLe(value, 4);
    var r := WithWord(fat, i, value);
    if 4 * j + 4 <= |fat| {
      if j == i {
        SliceAround(fat, 4 * i, Le(value, 4), 4 * i, 4 * i + 4);
        assert r[4 * i..4 * i + 4] == Le(value, 4);
      } else {
        SliceOutside(fat, 4 * i, Le(value, 4), 4 * j, 4 * j + 4);
      }
    }
  }

  /** The word of cluster `j` in a run that ends before `end`. */
  function RunWord(j: nat, end: nat): nat { if j + 1 == end then END_OF_CHAIN else j + 1 }

  /** Link `n` clusters from `first` on, and end the chain after them. */
  method ChainWords(fat0: seq<byte>, first: nat, n: nat) returns (fat: seq<byte>)
    requires 4 * (first + n) <= |fat0| && first + n < 0x1_0000_0000
    ensures |fat| == |fat0|
    ensures forall j: nat :: WordAt(fat, j) == if first <= j < first + n then RunWord(j, first + n) else WordAt(fat0, j)
  {
    hide WordAt, WithWord;
    fat := fat0;
    for i := 0 to n
      invariant |fat| == |fat0|
      invariant forall j: nat :: WordAt(fat, j) == if first <= j < first + i then RunWord(j, first + n) else WordAt(fat0, j)
    {
      ghost var before := fat;
      var value := RunWord(first + i, first + n);
      fat := WithWord(fat, first + i, value);
      forall j: nat
        ensures WordAt(fat, j) == if j == first + i then value else WordAt(before, j)
      {
        WordWritten(before, first + i, value, j);
      }
    }
  }

  /** The FAT word of a fresh volume: the media and end marks, and one chain for each metadata structure. */
  function FreshWord(l: Layout, j: nat): nat
  {
    if j == 0 then FAT_MEDIA
    else if j == 1 then END_OF_CHAIN
    else if j < l.UpcaseFirst() then RunWord(j, l.UpcaseFirst())
    else if j < l.RootFirst() then RunWord(j, l.RootFirst())
    else if j == l.RootFirst() then END_OF_CHAIN
    else 0
  }

  lemma ZeroWord(n: nat, j: nat)
    ensures WordAt(Zeros(n), j) == 0
  {
    if 4 * j + 4 <= n {
      var s := Zeros(n)[4 * j..4 * j + 4];
      assert s == [0, 0, 0, 0];
      ZeroFour();
    }
  }

  lemma ZeroFour()
    ensures FromLe([0, 0, 0, 0]) == 0
  {
    assert [0, 0, 0, 0][1..] == [0, 0, 0] && [0, 0, 0][1..] == [0, 0] && [0, 0][1..] == [0] && [0][1..] == [];
    assert FromLe([0]) == 0 && FromLe([0, 0]) == 0 && FromLe([0, 0, 0]) == 0;
  }

  method BuildFat(l: Layout) returns (fat: seq<byte>)
    requires 0 < l.bitmapClusters && 0 < l.upcaseClusters && l.RootFirst() < 0xFFFF_FFFF
    requires 4 * (l.RootFirst() + 1) <= BPS * l.fatLength
    ensures |fat| == BPS * l.fatLength && forall j: nat :: WordAt(fat, j) == FreshWord(l, j)
  {
    hide WordAt, WithWord;
    fat := Zeros(BPS * l.fatLength);
    forall j: nat
      ensures WordAt(fat, j) == 0
    {
      ZeroWord(BPS * l.fatLength, j);
    }
    ghost var zero := fat;
    fat := WithWord(fat, 0, FAT_MEDIA);
    forall j: nat
      ensures WordAt(fat, j) == if j == 0 then FAT_MEDIA else 0
    {
      WordWritten(zero, 0, FAT_MEDIA, j);
    }
    ghost var one := fat;
    fat := WithWord(fat, 1, END_OF_CHAIN);
    forall j: nat
      ensures WordAt(fat, j) == if j == 0 then FAT_MEDIA else if j == 1 then END_OF_CHAIN else 0
    {
      WordWritten(one, 1, END_OF_CHAIN, j);
    }
    fat := ChainWords(fat, 2, l.bitmapClusters);
    fat := ChainWords(fat, l.UpcaseFirst(), l.upcaseClusters);
    fat := ChainWords(fat, l.RootFirst(), 1);
  }

  // ---- The bitmap ----------------------------------------------------------------------------

  predicate BitAt(b: seq<byte>, k: nat) { k / 8 < |b| && BitSet(b[k / 8], k % 8) }

  /** The bits of the first `used` clusters set, all others clear. */
  method BuildBitmap(size: nat, used: nat) returns (b: seq<byte>)
    requires used <= 8 * size
    ensures |b| == size && forall k: nat :: k < 8 * size ==> (BitAt(b, k) <==> k < used)
  {
    b := Zeros(size);
    forall k: nat | k < 8 * size
      ensures !BitAt(b, k)
    {
      NoBit(k % 8);
    }
    for c := 0 to used
      invariant |b| == size && forall k: nat :: k < 8 * size ==> (BitAt(b, k) <==> k < c)
    {
      ghost var before := b;
      b := b[c / 8 := WithBitAt(b[c / 8], c % 8, true)];
      forall k: nat | k < 8 * size
        ensures BitAt(b, k) <==> k < c + 1
      {
        BitAfter(before, b, c, k);
      }
    }
  }

  lemma BitAfter(before: seq<byte>, b: seq<byte>, c: nat, k: nat)
    requires c / 8 < |before| && b == before[c / 8 := WithBitAt(before[c / 8], c % 8, true)]
    ensures BitAt(b, k) <==> k == c || BitAt(before, k)
  {
    hide WithBitAt;
    WithBitBits(before[c / 8], c % 8, true, k % 8);
    BitOfByte(before[c / 8], c % 8, k % 8);
    if k / 8 == c / 8 && k % 8 == c % 8 {
      assert k == 8 * (k / 8) + k % 8 && c == 8 * (c / 8) + c % 8;
    }
  }

  lemma BitOfByte(x: byte, j: nat, k: nat)
    requires j < 8
    ensures BitSet(WithBitAt(x, j, true), k) == if k == j then true else BitSet(x, k)
  {
    WithBitBits(x, j, true, k);
  }

  // ---- The root directory --------------------------------------------------------------------

  /** "VAULTPONY". */
  const LABEL: Name := [86, 65, 85, 76, 84, 80, 79, 78, 89]

  function LabelSlot(): (s: seq<byte>)
    ensures |s| == SLOT
  {
    [ENTRY_LABEL, 9] + UnitBytes(LABEL) + Zeros(12)
  }

  function BitmapSlot(first: nat, len: nat): (s: seq<byte>)
    ensures |s| == SLOT
  {
    [ENTRY_BITMAP] + Zeros(19) + Le(first, 4) + Le(len, 8)
  }

  function UpcaseSlot(sum: u32, first: nat, len: nat): (s: seq<byte>)
    ensures |s| == SLOT
  {
    [ENTRY_UPCASE, 0, 0, 0] + Le(sum, 4) + Zeros(12) + Le(first, 4) + Le(len, 8)
  }

  /** The root cluster: label, bitmap and up-case entries, then the end of the directory. */
  function RootImage(l: Layout, sum: u32): (s: seq<byte>)
    requires 3 * SLOT <= l.ClusterBytes()
    ensures |s| == l.ClusterBytes()
  {
    LabelSlot() + BitmapSlot(2, l.bitmapBytes) + UpcaseSlot(sum, l.UpcaseFirst(), UPCASE_LEN)
    + Zeros(l.ClusterBytes() - 3 * SLOT)
  }

  // ---- The boot region -----------------------------------------------------------------------

  /** The geometry fields, 24 bytes from offset 80 on. */
  function GeometryFields(l: Layout, serial: nat): (s: seq<byte>)
    ensures |s| == 24
  {
    Le(l.fatOffset, 4) + Le(l.fatLength, 4) + Le(l.heapOffset, 4) + Le(l.clusterCount, 4) + Le(l.RootFirst(), 4) + Le(serial, 4)
  }

  const SIGNATURE: seq<byte> := [69, 88, 70, 65, 84, 32, 32, 32]

  /** The boot sector (section 3.1). */
  function BootSector(l: Layout, serial: nat, percent: byte): (s: seq<byte>)
    ensures |s| == BPS
  {
    ([0xEB, 0x76, 0x90] + SIGNATURE + Zeros(61) + Le(l.totalSectors, 8))
    + GeometryFields(l, serial)
    + ([0, 1, 0, 0, BPS_SHIFT, l.spcShift % 256, 1, 0x80, percent] + Zeros(397) + [0x55, 0xAA])
  }

  /** An extended boot sector: zero but for its signature. */
  function ExtendedSector(): (s: seq<byte>)
    ensures |s| == BPS
  {
    Zeros(508) + [0, 0, 0x55, 0xAA]
  }

  function Sectors(n: nat, sector: seq<byte>): (s: seq<byte>)
    requires |sector| == BPS
    ensures |s| == BPS * n
  {
    if n == 0 then [] else sector + Sectors(n - 1, sector)
  }

  /** Sectors 0 to 10. */
  function BootBody(l: Layout, serial: nat, percent: byte): (s: seq<byte>)
    ensures |s| == 11 * BPS
  {
    BootSector(l, serial, percent) + Sectors(8, ExtendedSector()) + Zeros(2 * BPS)
  }

  /** A four-byte value repeated `n` times. */
  function Repeated(n: nat, four: seq<byte>): (s: seq<byte>)
    requires |four| == 4
    ensures |s| == 4 * n
  {
    if n == 0 then [] else four + Repeated(n - 1, four)
  }

  /** The twelve sectors: the body, then its checksum repeated through the last one (section 3.4). */
  function BootRegion(l: Layout, serial: nat, percent: byte): (s: seq<byte>)
    ensures |s| == 12 * BPS
  {
    BootBody(l, serial, percent) + Repeated(128, Le(VbrSum(BootBody(l, serial, percent), 11 * BPS), 4))
  }

  method RepeatFour(n: nat, four: seq<byte>) returns (s: seq<byte>)
    requires |four| == 4
    ensures s == Repeated(n, four)
  {
    hide Repeated;
    s := [];
    for i := 0 to n
      invariant s + Repeated(n - i, four) == Repeated(n, four)
    {
      RepeatedNext(s, n - i, four);
      s := s + four;
    }
    RepeatedNone(s, four);
  }

  lemma RepeatedNext(s: seq<byte>, n: nat, four: seq<byte>)
    requires |four| == 4 && 0 < n
    ensures s + Repeated(n, four) == s + four + Repeated(n - 1, four)
  {
    var rest := Repeated(n - 1, four);
    assert s + (four + rest) == s + four + rest;
  }

  lemma RepeatedNone(s: seq<byte>, four: seq<byte>)
    requires |four| == 4
    ensures s + Repeated(0, four) == s
  {
  }

  lemma {:induction false} RepeatedWords(n: nat, sum: u32, i: nat)
    requires i < n
    ensures WordAt(Repeated(n, Le(sum, 4)), i) == sum
  {
    PowersOf256();
    FromLeOfLe(sum, 4);
    hide Le, FromLe;
    var s, four := Repeated(n, Le(sum, 4)), Le(sum, 4);
    if i == 0 {
      assert s[0..4] == four;
    } else {
      RepeatedWords(n - 1, sum, i - 1);
      var t := Repeated(n - 1, four);
      assert s[4 * i..4 * i + 4] == t[4 * (i - 1)..4 * (i - 1) + 4];
    }
  }

  lemma RepeatsChecksum(body: seq<byte>, sum: u32, i: nat)
    requires |body| == 11 * BPS && i < 128
    ensures Value4(body + Repeated(128, Le(sum, 4)), 11 * BPS + 4 * i) == sum
  {
    var last := Repeated(128, Le(sum, 4));
    RepeatedWords(128, sum, i);
    FromLeIsValue4(body + last, 11 * BPS + 4 * i);
    hide FromLe, Value4, Repeated;
    assert (body + last)[11 * BPS + 4 * i..11 * BPS + 4 * i + 4] == last[4 * i..4 * i + 4];
  }

  /** Build the region as the formatter does: the checksum is taken over the eleven sectors before it. */
  method BuildBootRegion(l: Layout, serial: nat, percent: byte) returns (region: seq<byte>)
    ensures region == BootRegion(l, serial, percent)
    ensures forall i: nat :: i < 128 ==> RollsTo(32, VbrBytes(region[..11 * 512]), Value4(region, 11 * 512 + 4 * i))
  {
    hide BootBody, VbrSum, Repeated, VbrBytes, RollsTo, Value4, Le;
    var body := BootBody(l, serial, percent);
    var checksum := RollingVbr(body);
    var last := RepeatFour(128, Le(checksum, 4));
    forall i: nat | i < 128
      ensures Value4(body + last, 11 * BPS + 4 * i) == checksum
    {
      RepeatsChecksum(body, checksum, i);
    }
    assert (body + last)[..11 * 512] == body;
    return body + last;
  }

  // ---- The volume ----------------------------------------------------------------------------

  /** `n` bytes of an image from offset `at` on; nothing if they are not all there. */
  function Part(img: seq<byte>, at: nat, n: nat): (s: seq<byte>)
    ensures at + n <= |img| ==> |s| == n
  {
    if at + n <= |img| then img[at..at + n] else []
  }

  /** The bytes of `k` clusters. */
  function Size(l: Layout, k: nat): nat
  {
    MulNonNegative(k, l.ClusterBytes());
    k * l.ClusterBytes()
  }

  /** Offset of the `k`-th heap cluster. */
  function HeapAt(l: Layout, k: nat): nat { BPS * l.heapOffset + Size(l, k) }

  ghost predicate FatOk(fat: seq<byte>, l: Layout) { |fat| == BPS * l.fatLength && forall j: nat :: WordAt(fat, j) == FreshWord(l, j) }

  ghost predicate BitmapOk(b: seq<byte>, l: Layout)
  {
    |b| == Size(l, l.bitmapClusters) && forall k: nat :: k < 8 * |b| ==> (BitAt(b, k) <==> k < l.Used())
  }

  /** The up-case table, padded to whole clusters. */
  function TableImage(l: Layout, table: seq<byte>): seq<byte>
  {
    if UPCASE_LEN <= Size(l, l.upcaseClusters) then table + Zeros(Size(l, l.upcaseClusters) - UPCASE_LEN) else []
  }

  function RootBytes(l: Layout, table: seq<byte>): seq<byte>
  {
    if 3 * SLOT <= l.ClusterBytes() && |table| == UPCASE_LEN then RootImage(l, TableSum(table, UPCASE_LEN)) else []
  }

  /** The share of the heap that is in use, in whole percent. */
  ghost predicate InUse(l: Layout, percent: nat)
  {
    percent <= 100 && percent * l.clusterCount <= 100 * l.Used() && (percent < 100 ==> 100 * l.Used() < (percent + 1) * l.clusterCount)
  }

  /** Both copies of the boot region. */
  ghost predicate BootOk(img: seq<byte>, l: Layout, serial: nat)
  {
    exists percent: byte :: InUse(l, percent) &&
      Part(img, 0, 12 * BPS) == BootRegion(l, serial, percent) == Part(img, 12 * BPS, 12 * BPS)
  }

  /** What the parts of a formatted image hold. */
  ghost predicate Formatted(img: seq<byte>, l: Layout, serial: nat, table: seq<byte>)
  {
    && BootOk(img, l, serial)
    && FatOk(Part(img, BPS * l.fatOffset, BPS * l.fatLength), l)
    && BitmapOk(Part(img, HeapAt(l, 0), Size(l, l.bitmapClusters)), l)
    && Part(img, HeapAt(l, l.bitmapClusters), Size(l, l.upcaseClusters)) == TableImage(l, table)
    && Part(img, HeapAt(l, l.bitmapClusters + l.upcaseClusters), l.ClusterBytes()) == RootBytes(l, table)
  }

  lemma PartOfSplice(img: seq<byte>, at: nat, d: seq<byte>, lo: nat, n: nat)
    requires at + |d| <= |img|
    ensures |Splice(img, at, d)| == |img|
    ensures Part(Splice(img, at, d), at, |d|) == d
    ensures lo + n <= at || at + |d| <= lo ==> Part(Splice(img, at, d), lo, n) == Part(img, lo, n)
  {
    if lo + n <= |img| && (lo + n <= at || at + |d| <= lo) {
      SliceOutside(img, at, d, lo, lo + n);
    }
    SliceAround(img, at, d, at, at + |d|);
    assert Splice(img[at..at + |d|], 0, d) == d;
  }

  /** The regions follow one another, and the last ends inside the device. */
  lemma Regions(totalBytes: nat)
    requires Plan(totalBytes).Ok? && Plan(totalBytes).value.clusterCount <= 0xFFFF_FFF5
    ensures var l := Plan(totalBytes).value;
      && 24 * BPS <= BPS * l.fatOffset && BPS * l.fatOffset + BPS * l.fatLength == HeapAt(l, 0)
      && HeapAt(l, l.bitmapClusters) == HeapAt(l, 0) + Size(l, l.bitmapClusters)
      && HeapAt(l, l.bitmapClusters + l.upcaseClusters) == HeapAt(l, l.bitmapClusters) + Size(l, l.upcaseClusters)
      && HeapAt(l, l.bitmapClusters + l.upcaseClusters) + l.ClusterBytes() <= totalBytes
      && UPCASE_LEN <= Size(l, l.upcaseClusters) && 3 * SLOT <= l.ClusterBytes()
      && l.Used() <= 8 * Size(l, l.bitmapClusters) && 0 < l.bitmapClusters && 0 < l.upcaseClusters
      && l.RootFirst() < 0xFFFF_FFFF && 4 * (l.RootFirst() + 1) <= BPS * l.fatLength
      && 0 < l.clusterCount
  {
    hide *;
    PlanFits(totalBytes);
    var l := Plan(totalBytes).value;
    MoreBits(totalBytes, l);
    Counts(l);
    var cb, a, b, c := l.ClusterBytes(), l.bitmapClusters, l.upcaseClusters, l.clusterCount;
    MulMono(a + b + 1, c, cb);
    BlocksEnd(a, b, cb);
    BlocksEnd(a + b, 1, cb);
    RegionsIn(l, totalBytes);
  }

  /** The regions of a layout, counted in whole clusters. */
  lemma RegionsIn(l: Layout, totalBytes: nat)
    requires var cb, a, b, c := l.ClusterBytes(), l.bitmapClusters, l.upcaseClusters, l.clusterCount;
      && c * cb + BPS * l.heapOffset <= totalBytes && (a + b + 1) * cb <= c * cb
      && (a + b) * cb == a * cb + b * cb && (a + b + 1) * cb == (a + b) * cb + 1 * cb
      && a + b + 1 <= c && UPCASE_LEN <= b * cb
    requires 24 <= l.fatOffset && l.heapOffset == l.fatOffset + l.fatLength && l.clusterCount <= 0xFFFF_FFF5
    requires BPS * l.fatLength >= 4 * (l.clusterCount + 2) && l.RootFirst() == l.Used() + 1 && l.Used() <= l.clusterCount
    ensures 24 * BPS <= BPS * l.fatOffset && BPS * l.fatOffset + BPS * l.fatLength == HeapAt(l, 0)
    ensures HeapAt(l, l.bitmapClusters) == HeapAt(l, 0) + Size(l, l.bitmapClusters)
    ensures HeapAt(l, l.bitmapClusters + l.upcaseClusters) == HeapAt(l, l.bitmapClusters) + Size(l, l.upcaseClusters)
    ensures HeapAt(l, l.bitmapClusters + l.upcaseClusters) + l.ClusterBytes() <= totalBytes
    ensures UPCASE_LEN <= Size(l, l.upcaseClusters)
    ensures l.RootFirst() < 0xFFFF_FFFF && 4 * (l.RootFirst() + 1) <= BPS * l.fatLength && 0 < l.clusterCount
  {
    hide Spc, Layout.ClusterBytes, Layout.Used, Layout.RootFirst;
  }

  lemma MoreBits(totalBytes: nat, l: Layout)
    requires Plan(totalBytes) == Ok(l)
    ensures l.Used() <= 8 * Size(l, l.bitmapClusters) && 3 * SLOT <= l.ClusterBytes()
    ensures BOOT_SECTORS == 24
  {
    PlanClusters(totalBytes);
    SizesIs(l);
    hide Plan;
    DivCeilBounds(l.bitmapBytes, l.ClusterBytes());
    hide DivCeil;
  }

  lemma RootImageIs(l: Layout, table: seq<byte>, sum: u32)
    requires 3 * SLOT <= l.ClusterBytes() && |table| == UPCASE_LEN && sum == TableSum(table, |table|)
    ensures RootBytes(l, table) == RootImage(l, sum)
  {
    hide RootImage, TableSum;
  }

  lemma TableSize(l: Layout, table: seq<byte>)
    requires |table| == UPCASE_LEN && UPCASE_LEN <= Size(l, l.upcaseClusters)
    ensures |TableImage(l, table)| == Size(l, l.upcaseClusters)
  {
  }

  /** Six writes to regions apart from one another leave each region as written. */
  lemma SixWrites(i0: seq<byte>, i1: seq<byte>, i2: seq<byte>, i3: seq<byte>, i4: seq<byte>, i5: seq<byte>, i6: seq<byte>,
                  a: nat, fat: seq<byte>, b: nat, bitmap: seq<byte>, c: nat, table: seq<byte>, d: nat, root: seq<byte>,
                  boot: seq<byte>, n: nat)
    requires |boot| == n && 2 * n <= a && a + |fat| == b && b + |bitmap| == c && c + |table| == d && d + |root| <= |i0|
    requires i1 == Splice(i0, a, fat) && i2 == Splice(i1, b, bitmap) && i3 == Splice(i2, c, table) && i4 == Splice(i3, d, root)
    requires i5 == Splice(i4, 0, boot) && i6 == Splice(i5, n, boot)
    ensures Part(i6, a, |fat|) == fat && Part(i6, b, |bitmap|) == bitmap && Part(i6, c, |table|) == table
    ensures Part(i6, d, |root|) == root && Part(i6, 0, n) == boot && Part(i6, n, n) == boot
  {
    hide Splice, Part;
    PartOfSplice(i0, a, fat, a, |fat|);
    PartOfSplice(i1, b, bitmap, a, |fat|);
    PartOfSplice(i2, c, table, a, |fat|);
    PartOfSplice(i2, c, table, b, |bitmap|);
    PartOfSplice(i3, d, root, a, |fat|);
    PartOfSplice(i3, d, root, b, |bitmap|);
    PartOfSplice(i3, d, root, c, |table|);
    PartOfSplice(i4, 0, boot, a, |fat|);
    PartOfSplice(i4, 0, boot, b, |bitmap|);
    PartOfSplice(i4, 0, boot, c, |table|);
    PartOfSplice(i4, 0, boot, d, |root|);
    PartOfSplice(i5, n, boot, a, |fat|);
    PartOfSplice(i5, n, boot, b, |bitmap|);
    PartOfSplice(i5, n, boot, c, |table|);
    PartOfSplice(i5, n, boot, d, |root|);
    PartOfSplice(i5, n, boot, 0, n);
  }

  lemma FormatDone(img: seq<byte>, l: Layout, serial: nat, table: seq<byte>, fat: seq<byte>, bitmap: seq<byte>, percent: byte)
    requires Part(img, BPS * l.fatOffset, |fat|) == fat && |fat| == BPS * l.fatLength && forall j: nat :: WordAt(fat, j) == FreshWord(l, j)
    requires Part(img, HeapAt(l, 0), |bitmap|) == bitmap && |bitmap| == Size(l, l.bitmapClusters)
    requires forall k: nat :: k < 8 * |bitmap| ==> (BitAt(bitmap, k) <==> k < l.Used())
    requires |TableImage(l, table)| == Size(l, l.upcaseClusters)
    requires Part(img, HeapAt(l, l.bitmapClusters), |TableImage(l, table)|) == TableImage(l, table)
    requires |RootBytes(l, table)| == l.ClusterBytes()
    requires Part(img, HeapAt(l, l.bitmapClusters + l.upcaseClusters), |RootBytes(l, table)|) == RootBytes(l, table)
    requires InUse(l, percent) && Part(img, 0, 12 * BPS) == BootRegion(l, serial, percent) == Part(img, 12 * BPS, 12 * BPS)
    ensures Formatted(img, l, serial, table)
  {
    hide Part, WordAt, FreshWord, BitAt, TableImage, RootBytes, BootRegion, HeapAt, Size, Layout.ClusterBytes, Layout.Used, InUse;
  }

  /** Lay down an empty volume on a device of `totalBytes`. The precondition keeps the cluster count within the
      32 bits it is stored in. */
  method Format(disk: Disk, totalBytes: nat, serial: nat, table: seq<byte>) returns (r: Result<()>)
    requires disk.Valid() && |disk.bytes| == totalBytes && |table| == UPCASE_LEN
    requires Plan(totalBytes).Ok? ==> Plan(totalBytes).value.clusterCount <= 0xFFFF_FFF5
    modifies disk
    ensures disk.Valid() && |disk.bytes| == totalBytes
    ensures r.Ok? <==> 32768 <= totalBytes
    ensures Plan(totalBytes).Err? ==> r.Err? && r.error == Plan(totalBytes).error && disk.bytes == old(disk.bytes)
    ensures Plan(totalBytes).Ok? ==> r == Ok(()) && Formatted(disk.bytes, Plan(totalBytes).value, serial, table)
  {
    hide *;
    PlanAccepts(totalBytes);
    var plan := Plan(totalBytes);
    if plan.Err? {
      return Err(plan.error);
    }
    var l := plan.value;
    Regions(totalBytes);
    ghost var i0 := disk.bytes;
    var fat := BuildFat(l);
    var _ := disk.WriteAt(BPS * l.fatOffset, fat);
    ghost var i1 := disk.bytes;
    var bitmap := BuildBitmap(Size(l, l.bitmapClusters), l.Used());
    var _ := disk.WriteAt(HeapAt(l, 0), bitmap);
    ghost var i2 := disk.bytes;
    var _ := disk.WriteAt(HeapAt(l, l.bitmapClusters), TableImage(l, table));
    ghost var i3 := disk.bytes;
    var sum := RollingTable(table);
    var _ := disk.WriteAt(HeapAt(l, l.bitmapClusters + l.upcaseClusters), RootImage(l, sum));
    ghost var i4 := disk.bytes;
    var percent := Percent(l);
    PercentIs(l);
    var boot := BuildBootRegion(l, serial, percent);
    var _ := disk.WriteAt(0, boot);
    ghost var i5 := disk.bytes;
    var _ := disk.WriteAt(12 * BPS, boot);
    RootImageIs(l, table, sum);
    TableSize(l, table);
    SixWrites(i0, i1, i2, i3, i4, i5, disk.bytes, BPS * l.fatOffset, fat, HeapAt(l, 0), bitmap, HeapAt(l, l.bitmapClusters),
              TableImage(l, table), HeapAt(l, l.bitmapClusters + l.upcaseClusters), RootImage(l, sum), boot, 12 * BPS);
    FormatDone(disk.bytes, l, serial, table, fat, bitmap, percent);
    return Ok(());
  }

  function Percent(l: Layout): byte
    requires 0 < l.clusterCount
  {
    Min(l.Used() * 100 / l.clusterCount, 100)
  }

  lemma PercentIs(l: Layout)
    requires 0 < l.clusterCount
    ensures InUse(l, Percent(l))
  {
    hide Layout.Used;
    var x, n := l.Used() * 100, l.clusterCount;
    DivMod(x, n);
    BlocksEnd(x / n, 1, n);
    if x / n > 100 {
      MulMono(100, x / n, n);
    }
  }
}
