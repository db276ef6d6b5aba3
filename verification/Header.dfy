/** The decrypted volume header: how it is built and how it is read back. CRC-32 is an arbitrary function
    of the bytes it covers. */
module Headers {
  import opened Bytes
  import opened VcTypes
  import opened Containers

  type u32 = n: int | 0 <= n < 0x1_0000_0000
  type Crc = seq<byte> -> u32

  /** "VERA". */
  const MAGIC: seq<byte> := [0x56, 0x45, 0x52, 0x41]

  datatype Header = Header(version: nat, minVersion: nat, flags: nat, geometry: Geometry, position: Position,
                           keys: seq<byte>)

  // ---- Big-endian numbers -----------------------------------------------------------------------

  function Be(n: nat, k: nat): (s: seq<byte>)
    ensures |s| == k
  {
    if k == 0 then [] else Be(n / 256, k - 1) + [n % 256]
  }

  function FromBe(s: seq<byte>): nat
  {
    if s == [] then 0 else 256 * FromBe(s[..|s| - 1]) + s[|s| - 1]
  }

  lemma {:induction false} FromBeOfBe(n: nat, k: nat)
    requires n < Pow256(k)
    ensures FromBe(Be(n, k)) == n
  {
    if k > 0 {
      FromBeOfBe(n / 256, k - 1);
      assert Be(n, k)[..k - 1] == Be(n / 256, k - 1);
    }
  }

  lemma {:induction false} FromBeBound(s: seq<byte>)
    ensures FromBe(s) < Pow256(|s|)
  {
    if s != [] {
      FromBeBound(s[..|s| - 1]);
    }
  }

  /** The number in `s[at..at + 8]`. */
  function Be64(s: seq<byte>, at: nat): u64
    requires at + 8 <= |s|
  {
    FromBeBound(s[at..at + 8]);
    PowersOf256();
    FromBe(s[at..at + 8])
  }

  // ---- Reading a header -----------------------------------------------------------------------------

  /** Reads a candidate decrypted header. No magic means a wrong key; anything wrong after the magic is
      reported as what it is. */
  function Parse(crc: Crc, d: seq<byte>, position: Position): VcResult<Header>
    requires |d| == 448
  {
    if d[0..4] != MAGIC then Bad(NotFoundOrWrongPassword)
    else if crc(d[..188]) != FromBe(d[188..192]) then Bad(HeaderDamaged)
    else if crc(d[192..448]) != FromBe(d[8..12]) then Bad(HeaderDamaged)
    else
      var version, minVersion := FromBe(d[4..6]), FromBe(d[6..8]);
      if version < 5 || minVersion > 0x010b then Bad(VersionTooNew(minVersion))
      else if FromBe(d[60..64]) % 2 == 1 then Bad(SystemVolume)
      else if !SectorSize(FromBe(d[64..68])) then Bad(HeaderDamaged)
      else Good(Header(version, minVersion, FromBe(d[60..64]),
                       Geometry(Be64(d, 36), Be64(d, 44), Be64(d, 52), FromBe(d[64..68]), Be64(d, 28)),
                       position, d[192..448]))
  }

  // ---- Building a header ------------------------------------------------------------------------------

  datatype Field = Field(at: nat, bytes: seq<byte>)

  predicate Apart(f: Field, g: Field)
  {
    f.at + |f.bytes| <= g.at || g.at + |g.bytes| <= f.at
  }

  ghost predicate Separate(fs: seq<Field>, n: nat)
  {
    && (forall i :: 0 <= i < |fs| ==> fs[i].at + |fs[i].bytes| <= n)
    && (forall i, j :: 0 <= i < j < |fs| ==> Apart(fs[i], fs[j]))
  }

  /** `s` with the fields laid over it one after the other. */
  function Laid(s: seq<byte>, fs: seq<Field>): (r: seq<byte>)
    requires forall i :: 0 <= i < |fs| ==> fs[i].at + |fs[i].bytes| <= |s|
    ensures |r| == |s|
    decreases |fs|
  {
    if fs == [] then s else Laid(Splice(s, fs[0].at, fs[0].bytes), fs[1..])
  }

  /** A stretch that no field meets keeps its bytes. */
  lemma {:induction false} LaidOutside(s: seq<byte>, fs: seq<Field>, lo: nat, hi: nat)
    requires forall i :: 0 <= i < |fs| ==> fs[i].at + |fs[i].bytes| <= |s|
    requires lo <= hi <= |s|
    requires forall i :: 0 <= i < |fs| ==> hi <= fs[i].at || fs[i].at + |fs[i].bytes| <= lo
    ensures Laid(s, fs)[lo..hi] == s[lo..hi]
    decreases |fs|
  {
    if fs != [] {
      SliceOutside(s, fs[0].at, fs[0].bytes, lo, hi);
      LaidOutside(Splice(s, fs[0].at, fs[0].bytes), fs[1..], lo, hi);
    }
  }

  /** Each of a set of separate fields reads back as it was laid. */
  lemma {:induction false} LaidField(s: seq<byte>, fs: seq<Field>, k: nat)
    requires Separate(fs, |s|) && k < |fs|
    ensures Laid(s, fs)[fs[k].at..fs[k].at + |fs[k].bytes|] == fs[k].bytes
    decreases |fs|
  {
    var s' := Splice(s, fs[0].at, fs[0].bytes);
    if k == 0 {
      forall i | 0 <= i < |fs[1..]|
        ensures Apart(fs[1..][i], fs[0])
      {
        assert Apart(fs[0], fs[i + 1]);
      }
      LaidOutside(s', fs[1..], fs[0].at, fs[0].at + |fs[0].bytes|);
      SpliceShows(s, fs[0].at, fs[0].bytes);
    } else {
      LaidField(s', fs[1..], k - 1);
    }
  }

  lemma LaidStep(s: seq<byte>, fs: seq<Field>, k: nat)
    requires (forall i :: 0 <= i < |fs| ==> fs[i].at + |fs[i].bytes| <= |s|) && k < |fs|
    ensures Laid(s, fs[k..]) == Laid(Splice(s, fs[k].at, fs[k].bytes), fs[k + 1..])
  {
    assert fs[k..][1..] == fs[k + 1..];
  }

  /** The fields of a header, but for its two checksums. */
  function PlainFields(start: u64, size: u64, hiddenSize: u64, sectorSize: u32, keys: seq<byte>): seq<Field>
  {
    [Field(0, MAGIC), Field(4, Be(5, 2)), Field(6, Be(0x010b, 2)), Field(28, Be(hiddenSize, 8)), Field(36, Be(size, 8)),
     Field(44, Be(start, 8)), Field(52, Be(size, 8)), Field(60, Be(0, 4)), Field(64, Be(sectorSize, 4)),
     Field(192, keys)]
  }

  lemma PlainSeparate(start: u64, size: u64, hiddenSize: u64, sectorSize: u32, keys: seq<byte>)
    requires |keys| == 256
    ensures Separate(PlainFields(start, size, hiddenSize, sectorSize, keys), 448)
  {
  }

  /** The header before its checksums. */
  function Unsealed(start: u64, size: u64, hiddenSize: u64, sectorSize: u32, keys: seq<byte>): (s: seq<byte>)
    requires |keys| == 256
    ensures |s| == 448
  {
    PlainSeparate(start, size, hiddenSize, sectorSize, keys);
    Laid(Fill(448, 0), PlainFields(start, size, hiddenSize, sectorSize, keys))
  }

  /** The checksum of the keys goes in first, then that of the bytes before it. */
  function Sealed(crc: Crc, h: seq<byte>): (s: seq<byte>)
    requires |h| == 448
    ensures |s| == 448
  {
    var k := Splice(h, 8, Be(crc(h[192..448]), 4));
    Splice(k, 188, Be(crc(k[..188]), 4))
  }

  /** Outside its two checksum fields a sealed header is the unsealed one. */
  lemma SealedKeeps(crc: Crc, h: seq<byte>, lo: nat, hi: nat)
    requires |h| == 448 && lo <= hi <= 448
    requires hi <= 8 || 12 <= lo
    requires hi <= 188 || 192 <= lo
    ensures Sealed(crc, h)[lo..hi] == h[lo..hi]
  {
    var k := Splice(h, 8, Be(crc(h[192..448]), 4));
    SliceOutside(h, 8, Be(crc(h[192..448]), 4), lo, hi);
    SliceOutside(k, 188, Be(crc(k[..188]), 4), lo, hi);
  }

  /** Both checksums of a sealed header match what they cover. */
  lemma SealedChecks(crc: Crc, h: seq<byte>)
    requires |h| == 448
    ensures FromBe(Sealed(crc, h)[8..12]) == crc(Sealed(crc, h)[192..448])
    ensures FromBe(Sealed(crc, h)[188..192]) == crc(Sealed(crc, h)[..188])
  {
    var keySum := crc(h[192..448]);
    var k := Splice(h, 8, Be(keySum, 4));
    var sum := crc(k[..188]);
    var r := Splice(k, 188, Be(sum, 4));
    PowersOf256();
    FromBeOfBe(keySum, 4);
    FromBeOfBe(sum, 4);
    SpliceShows(h, 8, Be(keySum, 4));
    SpliceShows(k, 188, Be(sum, 4));
    SliceOutside(k, 188, Be(sum, 4), 8, 12);
    SliceOutside(k, 188, Be(sum, 4), 0, 188);
    SealedKeeps(crc, h, 192, 448);
    hide *;
    SealedIs(crc, h);
    assert r[..188] == r[0..188] == k[0..188] == k[..188];
  }

  lemma SealedIs(crc: Crc, h: seq<byte>)
    requires |h| == 448
    ensures Sealed(crc, h) == Splice(Splice(h, 8, Be(crc(h[192..448]), 4)), 188,
                                     Be(crc(Splice(h, 8, Be(crc(h[192..448]), 4))[..188]), 4))
  {
  }

  /** The whole plaintext header. */
  function HeaderBytes(crc: Crc, start: u64, size: u64, hiddenSize: u64, sectorSize: u32, keys: seq<byte>): (s: seq<byte>)
    requires |keys| == 256
    ensures |s| == 448
  {
    Sealed(crc, Unsealed(start, size, hiddenSize, sectorSize, keys))
  }

  lemma HeaderField(crc: Crc, start: u64, size: u64, hiddenSize: u64, sectorSize: u32, keys: seq<byte>, k: nat)
    requires |keys| == 256 && k < 10
    ensures var f := PlainFields(start, size, hiddenSize, sectorSize, keys)[k];
            f.at + |f.bytes| <= 448
            && HeaderBytes(crc, start, size, hiddenSize, sectorSize, keys)[f.at..f.at + |f.bytes|] == f.bytes
  {
    hide Laid, Sealed;
    PlainSeparate(start, size, hiddenSize, sectorSize, keys);
    var fs := PlainFields(start, size, hiddenSize, sectorSize, keys);
    LaidField(Fill(448, 0), fs, k);
    SealedKeeps(crc, Unsealed(start, size, hiddenSize, sectorSize, keys), fs[k].at, fs[k].at + |fs[k].bytes|);
  }

  /** A numeric field of the built header reads back as its number. */
  lemma HeaderNumber(crc: Crc, start: u64, size: u64, hiddenSize: u64, sectorSize: u32, keys: seq<byte>, k: nat,
                     at: nat, n: nat, width: nat)
    requires |keys| == 256 && k < 10 && at + width <= 448 && n < Pow256(width)
    requires PlainFields(start, size, hiddenSize, sectorSize, keys)[k] == Field(at, Be(n, width))
    ensures FromBe(HeaderBytes(crc, start, size, hiddenSize, sectorSize, keys)[at..at + width]) == n
  {
    hide HeaderBytes, PlainFields, FromBe, Pow256;
    HeaderField(crc, start, size, hiddenSize, sectorSize, keys, k);
    FromBeOfBe(n, width);
  }

  lemma HeaderNumbers(crc: Crc, start: u64, size: u64, hiddenSize: u64, sectorSize: u32, keys: seq<byte>)
    requires |keys| == 256
    ensures var d := HeaderBytes(crc, start, size, hiddenSize, sectorSize, keys);
            && FromBe(d[4..6]) == 5 && FromBe(d[6..8]) == 0x010b && FromBe(d[60..64]) == 0
            && FromBe(d[64..68]) == sectorSize && FromBe(d[28..36]) == hiddenSize && FromBe(d[36..44]) == size
            && FromBe(d[44..52]) == start && FromBe(d[52..60]) == size
  {
    PowersOf256();
    FieldsAre(start, size, hiddenSize, sectorSize, keys);
    hide *;
    HeaderNumber(crc, start, size, hiddenSize, sectorSize, keys, 1, 4, 5, 2);
    HeaderNumber(crc, start, size, hiddenSize, sectorSize, keys, 2, 6, 0x010b, 2);
    HeaderNumber(crc, start, size, hiddenSize, sectorSize, keys, 3, 28, hiddenSize, 8);
    HeaderNumber(crc, start, size, hiddenSize, sectorSize, keys, 4, 36, size, 8);
    HeaderNumber(crc, start, size, hiddenSize, sectorSize, keys, 5, 44, start, 8);
    HeaderNumber(crc, start, size, hiddenSize, sectorSize, keys, 6, 52, size, 8);
    HeaderNumber(crc, start, size, hiddenSize, sectorSize, keys, 7, 60, 0, 4);
    HeaderNumber(crc, start, size, hiddenSize, sectorSize, keys, 8, 64, sectorSize, 4);
  }

  /** A header built for any data area parses back to that data area and those keys, whatever the
      checksum function. */
  lemma BuildThenParse(crc: Crc, start: u64, size: u64, hiddenSize: u64, sectorSize: u32, keys: seq<byte>,
                       position: Position)
    requires |keys| == 256 && SectorSize(sectorSize)
    ensures Parse(crc, HeaderBytes(crc, start, size, hiddenSize, sectorSize, keys), position)
         == Good(Header(5, 0x010b, 0, Recorded((start, size), sectorSize, hiddenSize), position, keys))
  {
    hide Be, FromBe, Sealed, Laid;
    var d := HeaderBytes(crc, start, size, hiddenSize, sectorSize, keys);
    SealedChecks(crc, Unsealed(start, size, hiddenSize, sectorSize, keys));
    HeaderNumbers(crc, start, size, hiddenSize, sectorSize, keys);
    HeaderField(crc, start, size, hiddenSize, sectorSize, keys, 0);
    HeaderField(crc, start, size, hiddenSize, sectorSize, keys, 9);
  }

  /** Fills a zeroed buffer field by field, the two checksums last. */
  method BuildHeader(crc: Crc, start: u64, size: u64, hiddenSize: u64, sectorSize: u32, keys: seq<byte>)
    returns (h: array<byte>)
    requires |keys| == 256
    ensures fresh(h) && h[..] == HeaderBytes(crc, start, size, hiddenSize, sectorSize, keys)
  {
    hide *;
    h := new byte[448](_ => 0);
    assert h[..] == Fill(448, 0 as byte);
    FillPlain(h, start, size, hiddenSize, sectorSize, keys);
    Seal(crc, h);
    HeaderIs(crc, start, size, hiddenSize, sectorSize, keys);
  }

  method FillPlain(h: array<byte>, start: u64, size: u64, hiddenSize: u64, sectorSize: u32, keys: seq<byte>)
    requires |keys| == 256 && h.Length == 448 && h[..] == Fill(448, 0 as byte)
    modifies h
    ensures h[..] == Unsealed(start, size, hiddenSize, sectorSize, keys)
  {
    hide *;
    ghost var fs := PlainFields(start, size, hiddenSize, sectorSize, keys);
    ghost var goal := Unsealed(start, size, hiddenSize, sectorSize, keys);
    FieldsAre(start, size, hiddenSize, sectorSize, keys);
    UnsealedIs(start, size, hiddenSize, sectorSize, keys);
    assert fs[0..] == fs;
    Put(h, 0, [0x56, 0x45, 0x52, 0x41], fs, 0, goal);
    Put(h, 4, Be(5, 2), fs, 1, goal);
    Put(h, 6, Be(0x010b, 2), fs, 2, goal);
    PutGeometry(h, start, size, hiddenSize, fs, goal);
    Put(h, 60, Be(0, 4), fs, 7, goal);
    Put(h, 64, Be(sectorSize, 4), fs, 8, goal);
    Put(h, 192, keys, fs, 9, goal);
    NoneLeft(h[..], fs);
  }

  /** The size of the hidden volume, of the volume, and the start and size of the data area. */
  method PutGeometry(h: array<byte>, start: u64, size: u64, hiddenSize: u64, ghost fs: seq<Field>, ghost goal: seq<byte>)
    requires h.Length == 448 && |fs| == 10 && (forall i :: 0 <= i < |fs| ==> fs[i].at + |fs[i].bytes| <= 448)
    requires fs[3] == Field(28, Be(hiddenSize, 8)) && fs[4] == Field(36, Be(size, 8))
    requires fs[5] == Field(44, Be(start, 8)) && fs[6] == Field(52, Be(size, 8))
    requires Laid(h[..], fs[3..]) == goal
    modifies h
    ensures Laid(h[..], fs[7..]) == goal
  {
    hide *;
    Put(h, 28, Be(hiddenSize, 8), fs, 3, goal);
    Put(h, 36, Be(size, 8), fs, 4, goal);
    Put(h, 44, Be(start, 8), fs, 5, goal);
    Put(h, 52, Be(size, 8), fs, 6, goal);
  }

  lemma FieldsAre(start: u64, size: u64, hiddenSize: u64, sectorSize: u32, keys: seq<byte>)
    requires |keys| == 256
    ensures PlainFields(start, size, hiddenSize, sectorSize, keys) ==
      [Field(0, [0x56, 0x45, 0x52, 0x41]), Field(4, Be(5, 2)), Field(6, Be(0x010b, 2)), Field(28, Be(hiddenSize, 8)),
       Field(36, Be(size, 8)), Field(44, Be(start, 8)), Field(52, Be(size, 8)), Field(60, Be(0, 4)),
       Field(64, Be(sectorSize, 4)), Field(192, keys)]
    ensures var fs := PlainFields(start, size, hiddenSize, sectorSize, keys);
            forall i :: 0 <= i < |fs| ==> fs[i].at + |fs[i].bytes| <= 448
  {
    PlainSeparate(start, size, hiddenSize, sectorSize, keys);
  }

  lemma UnsealedIs(start: u64, size: u64, hiddenSize: u64, sectorSize: u32, keys: seq<byte>)
    requires |keys| == 256
    ensures forall i :: 0 <= i < |PlainFields(start, size, hiddenSize, sectorSize, keys)| ==>
      PlainFields(start, size, hiddenSize, sectorSize, keys)[i].at
      + |PlainFields(start, size, hiddenSize, sectorSize, keys)[i].bytes| <= 448
    ensures Unsealed(start, size, hiddenSize, sectorSize, keys)
         == Laid(Fill(448, 0 as byte), PlainFields(start, size, hiddenSize, sectorSize, keys))
  {
    PlainSeparate(start, size, hiddenSize, sectorSize, keys);
  }

  lemma HeaderIs(crc: Crc, start: u64, size: u64, hiddenSize: u64, sectorSize: u32, keys: seq<byte>)
    requires |keys| == 256
    ensures HeaderBytes(crc, start, size, hiddenSize, sectorSize, keys)
         == Sealed(crc, Unsealed(start, size, hiddenSize, sectorSize, keys))
  {
  }

  method Seal(crc: Crc, h: array<byte>)
    requires h.Length == 448
    modifies h
    ensures h[..] == Sealed(crc, old(h[..]))
  {
    hide Splice, Sealed;
    SealedIs(crc, h[..]);
    assert h[192..448] == h[..][192..448];
    Patch(h, 8, Be(crc(h[192..448]), 4));
    assert h[..188] == h[..][..188];
    Patch(h, 188, Be(crc(h[..188]), 4));
  }

  lemma NoneLeft(s: seq<byte>, fs: seq<Field>)
    requires |fs| == 10
    ensures fs[10..] == [] && Laid(s, fs[10..]) == s
  {
  }

  /** Copies field `k`; laying the remaining fields over the buffer still gives the finished header. */
  method Put(h: array<byte>, at: nat, d: seq<byte>, ghost fs: seq<Field>, ghost k: nat, ghost goal: seq<byte>)
    requires h.Length == 448 && (forall i :: 0 <= i < |fs| ==> fs[i].at + |fs[i].bytes| <= 448)
    requires k < |fs| && fs[k] == Field(at, d) && Laid(h[..], fs[k..]) == goal
    modifies h
    ensures Laid(h[..], fs[k + 1..]) == goal
  {
    LaidStep(h[..], fs, k);
    Patch(h, at, d);
  }
}
