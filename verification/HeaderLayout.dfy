/** The volume header byte by byte: what is refused and why, and where the numbers of an accepted one stand. */
module HeaderLayouts {
  import opened Bytes
  import opened Headers
  import opened VcTypes

  /** Big-endian numbers, written out for the widths that occur. */
  function Big2(s: seq<byte>, at: nat): nat
    requires at + 2 <= |s|
  {
    var hi: nat := s[at];
    var lo: nat := s[at + 1];
    0x100 * hi + lo
  }

  function Big4(s: seq<byte>, at: nat): nat
    requires at + 4 <= |s|
  {
    0x1_0000 * Big2(s, at) + Big2(s, at + 2)
  }

  function Big8(s: seq<byte>, at: nat): (n: u64)
    requires at + 8 <= |s|
  {
    0x1_0000_0000 * Big4(s, at) + Big4(s, at + 4)
  }

  lemma {:induction false} FromBeAppend(a: seq<byte>, b: seq<byte>)
    ensures FromBe(a + b) == FromBe(a) * Pow256(|b|) + FromBe(b)
    decreases |b|
  {
    if b == [] {
      assert a + b == a;
    } else {
      var front, last := b[..|b| - 1], b[|b| - 1];
      FromBeAppend(a, front);
      assert (a + b)[..|a + b| - 1] == a + front;
      Scales(FromBe(a), Pow256(|front|), FromBe(front));
    }
  }

  lemma Scales(x: nat, p: nat, y: nat)
    ensures 256 * (x * p + y) == x * (256 * p) + 256 * y
  {
    assert 256 * (x * p) == x * (256 * p);
  }

  lemma FromBeSplits(s: seq<byte>, at: nat, n: nat, m: nat)
    requires at + n + m <= |s|
    ensures FromBe(s[at..at + n + m]) == FromBe(s[at..at + n]) * Pow256(m) + FromBe(s[at + n..at + n + m])
  {
    assert s[at..at + n + m] == s[at..at + n] + s[at + n..at + n + m];
    FromBeAppend(s[at..at + n], s[at + n..at + n + m]);
  }

  lemma FromBeIsBig2(s: seq<byte>, at: nat)
    requires at + 2 <= |s|
    ensures FromBe(s[at..at + 2]) == Big2(s, at)
  {
    FromBeSplits(s, at, 1, 1);
    assert s[at..at + 1] == [s[at]] && s[at + 1..at + 2] == [s[at + 1]];
    assert FromBe([s[at]]) == s[at] && FromBe([s[at + 1]]) == s[at + 1];
  }

  lemma FromBeIsBig4(s: seq<byte>, at: nat)
    requires at + 4 <= |s|
    ensures FromBe(s[at..at + 4]) == Big4(s, at)
  {
    FromBeSplits(s, at, 2, 2);
    FromBeIsBig2(s, at);
    FromBeIsBig2(s, at + 2);
    PowersOf256();
    hide FromBe, Big2;
  }

  lemma FromBeIsBig8(s: seq<byte>, at: nat)
    requires at + 8 <= |s|
    ensures FromBe(s[at..at + 8]) == Big8(s, at) == Be64(s, at)
  {
    FromBeSplits(s, at, 4, 4);
    FromBeIsBig4(s, at);
    FromBeIsBig4(s, at + 4);
    PowersOf256();
    hide FromBe, Big4;
  }

  /** The numbers of a header. */
  lemma BigFields(d: seq<byte>)
    requires |d| == 448
    ensures FromBe(d[4..6]) == Big2(d, 4) && FromBe(d[6..8]) == Big2(d, 6)
    ensures FromBe(d[8..12]) == Big4(d, 8) && FromBe(d[188..192]) == Big4(d, 188)
    ensures FromBe(d[60..64]) == Big4(d, 60) && FromBe(d[64..68]) == Big4(d, 64)
    ensures FromBe(d[28..36]) == Big8(d, 28) == Be64(d, 28) && FromBe(d[36..44]) == Big8(d, 36) == Be64(d, 36)
    ensures FromBe(d[44..52]) == Big8(d, 44) == Be64(d, 44) && FromBe(d[52..60]) == Big8(d, 52) == Be64(d, 52)
  {
    hide FromBe, Be64, Big2, Big4, Big8;
    FromBeIsBig4(d, 188);
    FromBeIsBig4(d, 8);
    FromBeIsBig2(d, 4);
    FromBeIsBig2(d, 6);
    FromBeIsBig4(d, 60);
    FromBeIsBig4(d, 64);
    FromBeIsBig8(d, 28);
    FromBeIsBig8(d, 36);
    FromBeIsBig8(d, 44);
    FromBeIsBig8(d, 52);
  }

  // ---- Reading ---------------------------------------------------------------------------------

  /** "VERA" at the start. */
  predicate Marked(d: seq<byte>)
    requires |d| == 448
  {
    d[0] == 0x56 && d[1] == 0x45 && d[2] == 0x52 && d[3] == 0x41
  }

  /** Both checksums hold: of the fields before theirs, and of the master keys. */
  predicate Checked(crc: Crc, d: seq<byte>)
    requires |d| == 448
  {
    crc(d[..188]) == Big4(d, 188) && crc(d[192..448]) == Big4(d, 8)
  }

  /** Format version 5 or later, and readable by this version. */
  predicate Supported(d: seq<byte>)
    requires |d| == 448
  {
    5 <= Big2(d, 4) && Big2(d, 6) <= 0x010b
  }

  predicate KnownSector(d: seq<byte>)
    requires |d| == 448
  {
    Big4(d, 64) == 512 || Big4(d, 64) == 4096
  }

  /** The reader's verdict on every candidate, in the order of its checks, and the fields of an accepted one. */
  lemma ParsesExactly(crc: Crc, d: seq<byte>, position: Position)
    requires |d| == 448
    ensures Parse(crc, d, position) ==
      if !Marked(d) then Bad(NotFoundOrWrongPassword)
      else if !Checked(crc, d) then Bad(HeaderDamaged)
      else if !Supported(d) then Bad(VersionTooNew(Big2(d, 6)))
      else if d[63] % 2 == 1 then Bad(SystemVolume)
      else if !KnownSector(d) then Bad(HeaderDamaged)
      else Good(Header(Big2(d, 4), Big2(d, 6), Big4(d, 60),
                       Geometry(Big8(d, 36), Big8(d, 44), Big8(d, 52), Big4(d, 64), Big8(d, 28)), position, d[192..448]))
  {
    assert d[0..4] == [d[0], d[1], d[2], d[3]];
    BigFields(d);
    LowestBit(d);
    hide FromBe, Be64, Big2, Big4, Big8;
  }

  lemma LowestBit(d: seq<byte>)
    requires |d| == 448
    ensures Big4(d, 60) % 2 == d[63] % 2
  {
  }

  // ---- Writing ---------------------------------------------------------------------------------

  /** The header a builder makes, in numbers: it is marked, checked and supported, and its fields are these. */
  lemma BuildsExactly(crc: Crc, start: u64, size: u64, hiddenSize: u64, sectorSize: u32, keys: seq<byte>)
    requires |keys| == 256
    ensures var d := HeaderBytes(crc, start, size, hiddenSize, sectorSize, keys);
      && Marked(d) && Checked(crc, d) && Big2(d, 4) == 5 && Big2(d, 6) == 0x010b
      && Big8(d, 28) == hiddenSize && Big8(d, 36) == size && Big8(d, 44) == start && Big8(d, 52) == size
      && Big4(d, 60) == 0 && Big4(d, 64) == sectorSize && d[192..448] == keys
  {
    var d := HeaderBytes(crc, start, size, hiddenSize, sectorSize, keys);
    HeaderNumbers(crc, start, size, hiddenSize, sectorSize, keys);
    SealedChecks(crc, Unsealed(start, size, hiddenSize, sectorSize, keys));
    HeaderField(crc, start, size, hiddenSize, sectorSize, keys, 0);
    HeaderField(crc, start, size, hiddenSize, sectorSize, keys, 9);
    BigFields(d);
    HeaderIs(crc, start, size, hiddenSize, sectorSize, keys);
    hide FromBe, Be64, Be, Big2, Big4, Big8, Sealed, Unsealed, HeaderBytes;
    assert d[0..4] == [d[0], d[1], d[2], d[3]];
  }
}
