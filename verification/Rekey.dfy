/** Writing headers: a password change, and the headers of new volumes. */
module Rekeying {
  import opened Bytes
  import opened Disks
  import opened VcTypes
  import opened Xts
  import opened Containers
  import opened Headers
  import opened HeaderSearch

  // ---- Header copies ----------------------------------------------------------------------------

  function SlotKey(k: Suite, prf: Prf, secret: Secret, salt: seq<byte>, scheme: Scheme): (key: seq<byte>)
    requires Stretches(k)
    ensures |key| == KeyBytes(scheme)
  {
    assert |k.stretch(prf, secret.passphrase, salt, Iterations(prf, secret.pim), KeyBytes(scheme))| == KeyBytes(scheme);
    k.stretch(prf, secret.passphrase, salt, Iterations(prf, secret.pim), KeyBytes(scheme))
  }

  /** What the header slot at `at` decrypts to. */
  function SlotPlain(k: Suite, bytes: seq<byte>, at: nat, secret: Secret, prf: Prf, scheme: Scheme): (d: seq<byte>)
    requires Stretches(k) && SoundScheme(scheme) && at + 512 <= |bytes|
    ensures |d| == 448
  {
    Opened(scheme, SlotKey(k, prf, secret, bytes[at..at + 64], scheme), bytes[at + 64..at + 512])
  }

  function Enclosed(scheme: Scheme, key: seq<byte>, plain: seq<byte>): (e: seq<byte>)
    requires SoundScheme(scheme) && |key| == KeyBytes(scheme)
    ensures |e| == |plain|
  {
    KeyingIsSound(scheme, key);
    CascadeInverse(Keying(scheme, key).value);
    Cascade(Keying(scheme, key).value).encrypt(plain, 0)
  }

  lemma OpenedEnclosed(scheme: Scheme, key: seq<byte>, plain: seq<byte>)
    requires SoundScheme(scheme) && |key| == KeyBytes(scheme)
    ensures Opened(scheme, key, Enclosed(scheme, key, plain)) == plain
  {
    KeyingIsSound(scheme, key);
    CascadeInverse(Keying(scheme, key).value);
  }

  /** One header region: the salt and the plaintext encrypted under the key derived with it. */
  function HeaderCopy(k: Suite, secret: Secret, prf: Prf, scheme: Scheme, salt: seq<byte>, plain: seq<byte>): (r: seq<byte>)
    requires Stretches(k) && SoundScheme(scheme) && |salt| == 64 && |plain| == 448
    ensures |r| == 512
  {
    salt + Enclosed(scheme, SlotKey(k, prf, secret, salt, scheme), plain)
  }

  /** A copy laid anywhere decrypts to the plaintext it was made of. */
  lemma CopyHolds(k: Suite, bytes: seq<byte>, at: nat, secret: Secret, prf: Prf, scheme: Scheme, salt: seq<byte>,
                  plain: seq<byte>)
    requires Stretches(k) && SoundScheme(scheme) && |salt| == 64 && |plain| == 448 && at + 512 <= |bytes|
    requires bytes[at..at + 512] == HeaderCopy(k, secret, prf, scheme, salt, plain)
    ensures SlotPlain(k, bytes, at, secret, prf, scheme) == plain
  {
    var copy := bytes[at..at + 512];
    assert bytes[at..at + 64] == copy[..64] == salt;
    assert bytes[at + 64..at + 512] == copy[64..];
    OpenedEnclosed(scheme, SlotKey(k, prf, secret, salt, scheme), plain);
  }

  /** Derives a key with the salt, encrypts a copy of the plaintext and writes both. */
  method WriteHeaderCopy(dev: Disk, at: nat, plain: seq<byte>, k: Suite, secret: Secret, prf: Prf, scheme: Scheme,
                         salt: seq<byte>)
    returns (r: VcResult<()>)
    requires dev.Valid() && Stretches(k) && SoundScheme(scheme) && |salt| == 64 && |plain| == 448
    modifies dev
    ensures dev.Valid()
    ensures r.Good? <==> k.known(prf) && at + 512 <= |old(dev.bytes)|
    ensures r.Bad? ==> dev.bytes == old(dev.bytes) && dev.images == old(dev.images)
    ensures r.Good? ==> dev.bytes == Splice(old(dev.bytes), at, HeaderCopy(k, secret, prf, scheme, salt, plain))
    ensures r.Good? ==> dev.images == old(dev.images) + [dev.bytes]
  {
    hide Stretches, SoundScheme, Cascade, Keying, Splice;
    var key := Derive(k, prf, secret, salt, KeyBytes(scheme));
    if key.Bad? {
      return Bad(key.error);
    }
    StretchedLength(k, secret, prf, scheme, salt);
    KeyingIsSound(scheme, key.value);
    var buf := new byte[|plain|];
    Overwrite(buf, plain);
    EncryptHeader(Keying(scheme, key.value).value, buf);
    var wrote := dev.WriteAt(at, salt + buf[..]);
    return if wrote.Ok? then Good(()) else Bad(DeviceIo);
  }

  lemma StretchedLength(k: Suite, secret: Secret, prf: Prf, scheme: Scheme, salt: seq<byte>)
    requires Stretches(k) && k.known(prf)
    ensures Derive(k, prf, secret, salt, KeyBytes(scheme)) == Good(SlotKey(k, prf, secret, salt, scheme))
  {
  }

  // ---- What a successful search found -------------------------------------------------------------

  /** A decided search that found a header was decided by one of its candidates. */
  lemma {:induction false} HuntFound(k: Suite, secret: Secret, ts: seq<Triple>, finding: Option<VcError>) returns (i: nat)
    requires Stretches(k) && SoundTriples(ts)
    requires Conclude(Hunt(k, secret, ts, finding)).Good?
    ensures i < |ts| && Judge(k, secret, ts[i]).Valid?
    ensures Conclude(Hunt(k, secret, ts, finding))
         == Good(Found(Judge(k, secret, ts[i]).header, ts[i].scheme, ts[i].prf))
    decreases |ts|
  {
    hide Judge;
    var verdict := Judge(k, secret, ts[0]);
    if verdict.Valid? {
      i := 0;
    } else {
      i := HuntFound(k, secret, ts[1..], if verdict.Finding? then Some(verdict.error) else finding);
      i := i + 1;
    }
  }

  lemma {:induction false} OfPrfMember(prf: Prf, slots: seq<Slot>, schemes: seq<Scheme>, i: nat) returns (b: nat, c: nat)
    requires i < |OfPrf(prf, slots, schemes)|
    ensures b < |slots| && c < |schemes| && OfPrf(prf, slots, schemes)[i] == Triple(prf, slots[b], schemes[c])
  {
    if i < |schemes| {
      b, c := 0, i;
    } else {
      b, c := OfPrfMember(prf, slots[1..], schemes, i - |schemes|);
      b := b + 1;
    }
  }

  lemma {:induction false} TriplesMember(prfs: seq<Prf>, slots: seq<Slot>, schemes: seq<Scheme>, i: nat)
    returns (a: nat, b: nat, c: nat)
    requires i < |Triples(prfs, slots, schemes)|
    ensures a < |prfs| && b < |slots| && c < |schemes|
    ensures Triples(prfs, slots, schemes)[i] == Triple(prfs[a], slots[b], schemes[c])
  {
    var first := OfPrf(prfs[0], slots, schemes);
    if i < |first| {
      a := 0;
      b, c := OfPrfMember(prfs[0], slots, schemes, i);
    } else {
      a, b, c := TriplesMember(prfs[1..], slots, schemes, i - |first|);
      a := a + 1;
    }
  }

  lemma {:induction false} OfPrfHolds(prf: Prf, slots: seq<Slot>, schemes: seq<Scheme>, b: nat, c: nat) returns (i: nat)
    requires b < |slots| && c < |schemes|
    ensures i < |OfPrf(prf, slots, schemes)| && OfPrf(prf, slots, schemes)[i] == Triple(prf, slots[b], schemes[c])
  {
    if b == 0 {
      i := c;
    } else {
      i := OfPrfHolds(prf, slots[1..], schemes, b - 1, c);
      i := i + |schemes|;
    }
  }

  lemma {:induction false} TriplesHold(prfs: seq<Prf>, slots: seq<Slot>, schemes: seq<Scheme>, a: nat, b: nat, c: nat)
    returns (i: nat)
    requires a < |prfs| && b < |slots| && c < |schemes|
    ensures i < |Triples(prfs, slots, schemes)|
    ensures Triples(prfs, slots, schemes)[i] == Triple(prfs[a], slots[b], schemes[c])
  {
    if a == 0 {
      i := OfPrfHolds(prfs[0], slots, schemes, b, c);
    } else {
      i := TriplesHold(prfs[1..], slots, schemes, a - 1, b, c);
      i := i + |OfPrf(prfs[0], slots, schemes)|;
    }
  }

  /** A slot that was read is the salt and ciphertext at its position. */
  lemma {:induction false} SlotRead(bytes: seq<byte>, positions: seq<Position>, b: nat)
    requires |bytes| <= U64_MAX && ReadSlots(bytes, positions).Good?
    requires b < |ReadSlots(bytes, positions).value|
    ensures var slot := ReadSlots(bytes, positions).value[b];
            var at := PositionOffset(slot.position, |bytes|);
            && at.Some? && at.value + 512 <= |bytes|
            && slot.salt == bytes[at.value..at.value + 64] && slot.enc == bytes[at.value + 64..at.value + 512]
  {
    var at := PositionOffset(positions[0], |bytes|);
    if at.None? {
      SlotRead(bytes, positions[1..], b);
    } else if b > 0 {
      SlotRead(bytes, positions[1..], b - 1);
    }
  }

  lemma {:induction false} SlotFor(bytes: seq<byte>, positions: seq<Position>, j: nat) returns (b: nat)
    requires |bytes| <= U64_MAX && ReadSlots(bytes, positions).Good?
    requires j < |positions| && PositionOffset(positions[j], |bytes|).Some?
    ensures b < |ReadSlots(bytes, positions).value|
    ensures ReadSlots(bytes, positions).value[b].position == positions[j]
  {
    var at := PositionOffset(positions[0], |bytes|);
    if j == 0 {
      b := 0;
    } else {
      b := SlotFor(bytes, positions[1..], j - 1);
      b := if at.None? then b else b + 1;
    }
  }

  /** The order in which a search without further instructions tries the slots. */
  function AllPositions(): (ps: seq<Position>)
    ensures ps == [Primary, Hidden, BackupPrimary, BackupHidden]
  {
    [Primary, Hidden, BackupPrimary, BackupHidden]
  }

  /** A slot opens: it decrypts, under that secret, function and scheme, to a header that parses. */
  ghost predicate Opens(k: Suite, bytes: seq<byte>, p: Position, secret: Secret, prf: Prf, scheme: Scheme, header: Header)
    requires Stretches(k) && SoundScheme(scheme) && |bytes| <= U64_MAX
  {
    var at := PositionOffset(p, |bytes|);
    && at.Some? && at.value + 512 <= |bytes|
    && k.known(prf)
    && Parse(k.crc, SlotPlain(k, bytes, at.value, secret, prf, scheme), p) == Good(header)
  }

  /** A header the search returns really is in the container: the slot at its position opens to it. */
  lemma SearchedOpens(k: Suite, secret: Secret, bytes: seq<byte>, positions: seq<Position>)
    requires SoundSuite(k) && |bytes| <= U64_MAX && Searched(k, secret, bytes, positions).Good?
    ensures var f := Searched(k, secret, bytes, positions).value;
            && SoundScheme(f.scheme) && (exists c :: 0 <= c < |k.schemes| && k.schemes[c] == f.scheme)
            && (exists a :: 0 <= a < |k.prfs| && k.prfs[a] == f.prf)
            && Opens(k, bytes, f.header.position, secret, f.prf, f.scheme, f.header)
  {
    hide Hunt, Triples, Parse;
    SearchedIs(k, secret, bytes, positions);
    var slots := ReadSlots(bytes, positions).value;
    var ts := Triples(k.prfs, slots, k.schemes);
    var i := HuntFound(k, secret, ts, None);
    var a, b, c := TriplesMember(k.prfs, slots, k.schemes, i);
    SlotRead(bytes, positions, b);
    JudgedOpens(k, secret, bytes, k.prfs[a], slots[b], k.schemes[c]);
    assert k.schemes[c] == ts[i].scheme && k.prfs[a] == ts[i].prf;
  }

  lemma ParsedPosition(crc: Crc, d: seq<byte>, p: Position)
    requires |d| == 448 && Parse(crc, d, p).Good?
    ensures Parse(crc, d, p).value.position == p
  {
  }

  lemma JudgedOpens(k: Suite, secret: Secret, bytes: seq<byte>, prf: Prf, slot: Slot, scheme: Scheme)
    requires Stretches(k) && SoundScheme(scheme) && |bytes| <= U64_MAX && |slot.enc| == 448
    requires PositionOffset(slot.position, |bytes|).Some?
    requires PositionOffset(slot.position, |bytes|).value + 512 <= |bytes|
    requires var at := PositionOffset(slot.position, |bytes|).value;
             slot.salt == bytes[at..at + 64] && slot.enc == bytes[at + 64..at + 512]
    ensures Judge(k, secret, Triple(prf, slot, scheme)).Valid? ==>
      var header := Judge(k, secret, Triple(prf, slot, scheme)).header;
      header.position == slot.position && Opens(k, bytes, slot.position, secret, prf, scheme, header)
    ensures forall header :: Opens(k, bytes, slot.position, secret, prf, scheme, header) ==>
      Judge(k, secret, Triple(prf, slot, scheme)) == Valid(header)
  {
    hide Parse, Opened;
    if k.known(prf) {
      var at := PositionOffset(slot.position, |bytes|).value;
      var d := SlotPlain(k, bytes, at, secret, prf, scheme);
      if Parse(k.crc, d, slot.position).Good? {
        ParsedPosition(k.crc, d, slot.position);
      }
    }
  }

  /** With a validating candidate at `n` and none that breaks, the first validating candidate decides. */
  lemma {:induction false} HuntFirst(k: Suite, secret: Secret, ts: seq<Triple>, finding: Option<VcError>, n: nat)
    returns (i: nat)
    requires Stretches(k) && SoundTriples(ts) && n < |ts| && Judge(k, secret, ts[n]).Valid?
    requires forall j :: 0 <= j < |ts| ==> !Judge(k, secret, ts[j]).Broken?
    ensures i <= n && Judge(k, secret, ts[i]).Valid? && forall j :: 0 <= j < i ==> !Judge(k, secret, ts[j]).Valid?
    ensures Conclude(Hunt(k, secret, ts, finding))
         == Good(Found(Judge(k, secret, ts[i]).header, ts[i].scheme, ts[i].prf))
    decreases |ts|
  {
    hide Judge;
    var verdict := Judge(k, secret, ts[0]);
    if verdict.Valid? {
      i := 0;
    } else {
      i := HuntFirst(k, secret, ts[1..], if verdict.Finding? then Some(verdict.error) else finding, n - 1);
      i := i + 1;
    }
  }

  lemma {:induction false} AllReadable(bytes: seq<byte>, positions: seq<Position>)
    requires 512 <= |bytes| <= U64_MAX
    ensures ReadSlots(bytes, positions).Good?
  {
    if positions != [] {
      AllReadable(bytes, positions[1..]);
    }
  }

  ghost predicate AllKnown(k: Suite)
  {
    forall a :: 0 <= a < |k.prfs| ==> k.known(k.prfs[a])
  }

  lemma NotBroken(k: Suite, secret: Secret, t: Triple)
    requires Stretches(k) && SoundTriple(t) && k.known(t.prf)
    ensures !Judge(k, secret, t).Broken?
  {
  }

  /** The candidates of a search, in order. */
  ghost function Candidates(k: Suite, bytes: seq<byte>, positions: seq<Position>): (ts: seq<Triple>)
    requires SoundSuite(k) && 512 <= |bytes| <= U64_MAX
    ensures Stretches(k) && SoundTriples(ts)
  {
    AllReadable(bytes, positions);
    SlotsWhole(bytes, positions);
    TriplesSound(k.prfs, ReadSlots(bytes, positions).value, k.schemes);
    Triples(k.prfs, ReadSlots(bytes, positions).value, k.schemes)
  }

  /** The search returns candidate `i`, the first that validates, and candidate `n` is one that validates to
      `header` in that slot. */
  ghost predicate Returns(k: Suite, secret: Secret, bytes: seq<byte>, positions: seq<Position>, i: nat, n: nat,
                          p: Position, prf: Prf, scheme: Scheme, header: Header)
    requires SoundSuite(k) && 512 <= |bytes| <= U64_MAX
  {
    var ts := Candidates(k, bytes, positions);
    && i <= n < |ts|
    && ts[n].slot.position == p && ts[n].prf == prf && ts[n].scheme == scheme
    && Judge(k, secret, ts[n]) == Valid(header)
    && Judge(k, secret, ts[i]).Valid? && (forall j :: 0 <= j < i ==> !Judge(k, secret, ts[j]).Valid?)
    && Searched(k, secret, bytes, positions) == Good(Found(Judge(k, secret, ts[i]).header, ts[i].scheme, ts[i].prf))
  }

  /** When some slot opens, a search over its position returns that slot's header or that of an earlier candidate
      that validates. */
  lemma OpensFound(k: Suite, secret: Secret, bytes: seq<byte>, positions: seq<Position>, j: nat, a: nat, c: nat,
                   header: Header)
    returns (i: nat, n: nat)
    requires SoundSuite(k) && AllKnown(k) && MaxKey(k.schemes) > 0 && 512 <= |bytes| <= U64_MAX
    requires j < |positions| && a < |k.prfs| && c < |k.schemes|
    requires Opens(k, bytes, positions[j], secret, k.prfs[a], k.schemes[c], header)
    ensures Searched(k, secret, bytes, positions).Good?
    ensures Returns(k, secret, bytes, positions, i, n, positions[j], k.prfs[a], k.schemes[c], header)
  {
    hide Hunt, Triples, Parse, Searched, Opens, Judge;
    AllReadable(bytes, positions);
    SearchedIs(k, secret, bytes, positions);
    var slots := ReadSlots(bytes, positions).value;
    var ts := Triples(k.prfs, slots, k.schemes);
    OpensReadable(k, bytes, positions[j], secret, k.prfs[a], k.schemes[c], header);
    var b := SlotFor(bytes, positions, j);
    SlotRead(bytes, positions, b);
    n := TriplesHold(k.prfs, slots, k.schemes, a, b, c);
    JudgedOpens(k, secret, bytes, k.prfs[a], slots[b], k.schemes[c]);
    forall i' | 0 <= i' < |ts|
      ensures !Judge(k, secret, ts[i']).Broken?
    {
      var a', b', c' := TriplesMember(k.prfs, slots, k.schemes, i');
      NotBroken(k, secret, ts[i']);
    }
    i := HuntFirst(k, secret, ts, None, n);
  }

  lemma OpensReadable(k: Suite, bytes: seq<byte>, p: Position, secret: Secret, prf: Prf, scheme: Scheme, header: Header)
    requires Stretches(k) && SoundScheme(scheme) && |bytes| <= U64_MAX
    requires Opens(k, bytes, p, secret, prf, scheme, header)
    ensures PositionOffset(p, |bytes|).Some?
  {
  }

  // ---- Changing a password --------------------------------------------------------------------------

  /** The two slots of the volume that a position belongs to. */
  function PrimaryOffset(p: Position): nat
  {
    if IsHidden(p) then 65536 else 0
  }

  /** The offset of the second slot, subtracted in 64 bits: on a container that is too small it wraps round. */
  function BackupOffset(p: Position, len: u64): nat
  {
    var fromEnd := if IsHidden(p) then 65536 else 131072;
    (len - fromEnd) % 0x1_0000_0000_0000_0000
  }

  /** The two slots are one, or do not overlap. */
  predicate SlotsApart(p: Position, len: u64)
  {
    var at, at' := PrimaryOffset(p), BackupOffset(p, len);
    at == at' || at + 512 <= at' || at' + 512 <= at
  }

  /** A stretch that does not meet the header region at `at`. */
  predicate Clear(lo: nat, hi: nat, at: nat)
  {
    hi <= at || at + 512 <= lo
  }

  /** Every stretch of bytes that meets neither slot of the volume is the same. */
  ghost predicate SameOutside(p: Position, bytes: seq<byte>, bytes': seq<byte>)
    requires |bytes| <= U64_MAX
  {
    && |bytes'| == |bytes|
    && forall lo, hi :: (0 <= lo <= hi <= |bytes| && Clear(lo, hi, PrimaryOffset(p))
                         && Clear(lo, hi, BackupOffset(p, |bytes|))) ==> bytes'[lo..hi] == bytes[lo..hi]
  }

  /** The slot at `at` is there and decrypts to `plain`. */
  ghost predicate HeldAt(k: Suite, bytes: seq<byte>, at: nat, secret: Secret, prf: Prf, scheme: Scheme, plain: seq<byte>)
    requires Stretches(k) && SoundScheme(scheme)
  {
    at + 512 <= |bytes| && SlotPlain(k, bytes, at, secret, prf, scheme) == plain
  }

  /** Both slots of the volume decrypt to `plain`. */
  ghost predicate BothHold(k: Suite, bytes: seq<byte>, p: Position, secret: Secret, prf: Prf, scheme: Scheme,
                           plain: seq<byte>)
    requires Stretches(k) && SoundScheme(scheme) && |bytes| <= U64_MAX
  {
    && HeldAt(k, bytes, PrimaryOffset(p), secret, prf, scheme, plain)
    && HeldAt(k, bytes, BackupOffset(p, |bytes|), secret, prf, scheme, plain)
  }

  lemma SlotsInRange(p: Position, len: u64)
    ensures 131584 <= len ==>
      PrimaryOffset(p) + 512 <= BackupOffset(p, len) && BackupOffset(p, len) + 512 <= len && SlotsApart(p, len)
    ensures PrimaryOffset(p) == if IsHidden(p) then 65536 else 0
    ensures var fromEnd := if IsHidden(p) then 65536 else 131072;
      BackupOffset(p, len) == if fromEnd <= len then len - fromEnd else len - fromEnd + 0x1_0000_0000_0000_0000
  {
    var fromEnd := if IsHidden(p) then 65536 else 131072;
    if len < fromEnd {
      assert len - fromEnd + 0x1_0000_0000_0000_0000 < 0x1_0000_0000_0000_0000;
    }
  }

  /** The header region at `at`. */
  function RegionAt(bytes: seq<byte>, at: nat): seq<byte>
    requires at + 512 <= |bytes|
  {
    bytes[at..at + 512]
  }

  /** A header copy written at one slot. */
  lemma OneWritten(k: Suite, bytes: seq<byte>, p: Position, at: nat, secret: Secret, prf: Prf, scheme: Scheme,
                   salt: seq<byte>, plain: seq<byte>)
    requires Stretches(k) && SoundScheme(scheme) && |salt| == 64 && |plain| == 448 && |bytes| <= U64_MAX
    requires (at == PrimaryOffset(p) || at == BackupOffset(p, |bytes|)) && at + 512 <= |bytes|
    ensures var once := Splice(bytes, at, HeaderCopy(k, secret, prf, scheme, salt, plain));
            && SameOutside(p, bytes, once) && HeldAt(k, once, at, secret, prf, scheme, plain)
            && forall x: nat :: x + 512 <= |bytes| && (x + 512 <= at || at + 512 <= x) ==> RegionAt(once, x) == RegionAt(bytes, x)
  {
    hide HeaderCopy, SlotPlain, PrimaryOffset, BackupOffset, Splice, Stretches, SoundScheme;
    var copy := HeaderCopy(k, secret, prf, scheme, salt, plain);
    var once := Splice(bytes, at, copy);
    forall lo, hi | 0 <= lo <= hi <= |bytes| && (hi <= at || at + 512 <= lo)
      ensures once[lo..hi] == bytes[lo..hi]
    {
      SliceOutside(bytes, at, copy, lo, hi);
    }
    SpliceShows(bytes, at, copy);
    CopyHolds(k, once, at, secret, prf, scheme, salt, plain);
  }

  lemma SameTwice(p: Position, a: seq<byte>, b: seq<byte>, c: seq<byte>)
    requires |a| <= U64_MAX && SameOutside(p, a, b) && |b| == |a| && SameOutside(p, b, c)
    ensures SameOutside(p, a, c)
  {
    hide PrimaryOffset, BackupOffset, Clear;
  }

  lemma HeldStays(k: Suite, bytes: seq<byte>, bytes': seq<byte>, at: nat, secret: Secret, prf: Prf, scheme: Scheme,
                  plain: seq<byte>)
    requires Stretches(k) && SoundScheme(scheme) && HeldAt(k, bytes, at, secret, prf, scheme, plain)
    requires |bytes'| == |bytes| && at + 512 <= |bytes| && RegionAt(bytes', at) == RegionAt(bytes, at)
    ensures HeldAt(k, bytes', at, secret, prf, scheme, plain)
  {
    SlotPlainSame(k, bytes, bytes', at, secret, prf, scheme);
  }

  lemma SlotPlainSame(k: Suite, bytes: seq<byte>, bytes': seq<byte>, at: nat, secret: Secret, prf: Prf, scheme: Scheme)
    requires Stretches(k) && SoundScheme(scheme) && at + 512 <= |bytes| == |bytes'|
    requires bytes'[at..at + 512] == bytes[at..at + 512]
    ensures SlotPlain(k, bytes', at, secret, prf, scheme) == SlotPlain(k, bytes, at, secret, prf, scheme)
  {
    hide Opened, SlotKey, Stretches, SoundScheme;
    SliceOfSlice(bytes, at, at + 512, 0, 64);
    SliceOfSlice(bytes', at, at + 512, 0, 64);
    SliceOfSlice(bytes, at, at + 512, 64, 448);
    SliceOfSlice(bytes', at, at + 512, 64, 448);
  }

  /** Two header copies, one after the other, at the slots of a volume. */
  lemma BothWritten(k: Suite, bytes: seq<byte>, p: Position, secret: Secret, prf: Prf, scheme: Scheme,
                    salt: seq<byte>, salt': seq<byte>, plain: seq<byte>)
    requires Stretches(k) && SoundScheme(scheme) && |salt| == 64 == |salt'| && |plain| == 448 && |bytes| <= U64_MAX
    requires PrimaryOffset(p) + 512 <= |bytes| && BackupOffset(p, |bytes|) + 512 <= |bytes|
    ensures var once := Splice(bytes, PrimaryOffset(p), HeaderCopy(k, secret, prf, scheme, salt, plain));
            var twice := Splice(once, BackupOffset(p, |bytes|), HeaderCopy(k, secret, prf, scheme, salt', plain));
            && SameOutside(p, bytes, once) && SameOutside(p, bytes, twice)
            && HeldAt(k, twice, BackupOffset(p, |bytes|), secret, prf, scheme, plain)
            && (SlotsApart(p, |bytes|) ==> BothHold(k, twice, p, secret, prf, scheme, plain))
  {
    hide HeaderCopy, HeldAt, PrimaryOffset, BackupOffset, Splice, Stretches, SoundScheme, SameOutside;
    var at, at' := PrimaryOffset(p), BackupOffset(p, |bytes|);
    var once := Splice(bytes, at, HeaderCopy(k, secret, prf, scheme, salt, plain));
    var twice := Splice(once, at', HeaderCopy(k, secret, prf, scheme, salt', plain));
    OneWritten(k, bytes, p, at, secret, prf, scheme, salt, plain);
    OneWritten(k, once, p, at', secret, prf, scheme, salt', plain);
    SameTwice(p, bytes, once, twice);
    if at + 512 <= at' || at' + 512 <= at {
      HeldStays(k, once, twice, at, secret, prf, scheme, plain);
    }
  }

  /** The first 64 bytes of the slot at `at` are the salt. */
  predicate SaltAt(bytes: seq<byte>, at: nat, salt: seq<byte>)
  {
    at + 64 <= |bytes| && bytes[at..at + 64] == salt
  }

  /** The volume's second slot stands under the second salt, and a first slot apart from it under the first. */
  predicate Salted(bytes: seq<byte>, p: Position, salt: seq<byte>, salt': seq<byte>)
    requires |bytes| <= U64_MAX
  {
    var at, at' := PrimaryOffset(p), BackupOffset(p, |bytes|);
    && SaltAt(bytes, at', salt')
    && (at + 512 <= at' || at' + 512 <= at ==> SaltAt(bytes, at, salt))
  }

  lemma SaltWritten(k: Suite, bytes: seq<byte>, at: nat, secret: Secret, prf: Prf, scheme: Scheme, salt: seq<byte>,
                    plain: seq<byte>)
    requires Stretches(k) && SoundScheme(scheme) && |salt| == 64 && |plain| == 448 && at + 512 <= |bytes|
    ensures SaltAt(Splice(bytes, at, HeaderCopy(k, secret, prf, scheme, salt, plain)), at, salt)
  {
    hide Splice, Stretches, SoundScheme;
    var copy := HeaderCopy(k, secret, prf, scheme, salt, plain);
    var once := Splice(bytes, at, copy);
    SpliceShows(bytes, at, copy);
    SliceOfSlice(once, at, at + 512, 0, 64);
    assert once[at..at + 64] == copy[..64] == salt;
  }

  lemma SaltsWritten(k: Suite, bytes: seq<byte>, p: Position, secret: Secret, prf: Prf, scheme: Scheme,
                     salt: seq<byte>, salt': seq<byte>, plain: seq<byte>)
    requires Stretches(k) && SoundScheme(scheme) && |salt| == 64 == |salt'| && |plain| == 448 && |bytes| <= U64_MAX
    requires PrimaryOffset(p) + 512 <= |bytes| && BackupOffset(p, |bytes|) + 512 <= |bytes|
    ensures var once := Splice(bytes, PrimaryOffset(p), HeaderCopy(k, secret, prf, scheme, salt, plain));
            Salted(Splice(once, BackupOffset(p, |bytes|), HeaderCopy(k, secret, prf, scheme, salt', plain)), p, salt, salt')
  {
    hide HeaderCopy, PrimaryOffset, BackupOffset, Splice, Stretches, SoundScheme;
    var at, at' := PrimaryOffset(p), BackupOffset(p, |bytes|);
    var once := Splice(bytes, at, HeaderCopy(k, secret, prf, scheme, salt, plain));
    SaltWritten(k, bytes, at, secret, prf, scheme, salt, plain);
    SaltWritten(k, once, at', secret, prf, scheme, salt', plain);
    if at + 512 <= at' || at' + 512 <= at {
      SliceOutside(once, at', HeaderCopy(k, secret, prf, scheme, salt', plain), at, at + 64);
    }
  }

  /** Re-keys the volume that the old secret opens: reads back its exact header plaintext, checks it, and
      writes it to both slots under new salts. A search that fails touches nothing. Otherwise both writes are
      made exactly when both slots lie in the container; the container is then as `Rekeyed` says, and after the
      first write already holds the header under the new secret. */
  method ChangePassword(dev: Disk, k: Suite, old_: Secret, new_: Secret, salt: seq<byte>, salt': seq<byte>)
    returns (r: VcResult<()>)
    requires dev.Valid() && SoundSuite(k) && |salt| == 64 == |salt'| && |dev.bytes| <= U64_MAX
    modifies dev
    ensures dev.Valid() && |dev.bytes| == |old(dev.bytes)|
    ensures var s := Searched(k, old_, old(dev.bytes), AllPositions()); s.Bad? ==>
      r == Bad(s.error) && dev.bytes == old(dev.bytes) && dev.images == old(dev.images)
    ensures var s := Searched(k, old_, old(dev.bytes), AllPositions()); s.Good? ==>
      var f, len, p := s.value, |dev.bytes|, s.value.header.position;
      && SoundScheme(f.scheme) && SameOutside(p, old(dev.bytes), dev.bytes)
      && (r.Good? <==> PrimaryOffset(p) + 512 <= len && BackupOffset(p, len) + 512 <= len)
      && (r.Good? ==> Salted(dev.bytes, p, salt, salt'))
      && (r.Good? ==> Rekeyed(k, old(dev.bytes), dev.bytes, f, old_, new_) && |dev.images| == |old(dev.images)| + 2
                      && Midway(k, old(dev.bytes), dev.images[|dev.images| - 2], f, old_, new_))
      && (PrimaryOffset(p) + 512 > len ==> dev.bytes == old(dev.bytes))
      && (r.Bad? && PrimaryOffset(p) + 512 <= len ==> Midway(k, old(dev.bytes), dev.bytes, f, old_, new_))
  {
    hide *;
    ghost var bytes := dev.bytes;
    ParamsSound(k);
    LargestWord();
    var found, log := FindHeaderAt(dev, k, old_, AllPositions());
    if found.Bad? {
      return Bad(found.error);
    }
    SearchedOpens(k, old_, bytes, AllPositions());
    var f := found.value;
    var p := f.header.position;
    OpensMeans(k, bytes, p, old_, f.prf, f.scheme, f.header);
    var at := PositionOffset(p, |dev.bytes|).value;
    var salt0 := dev.ReadAt(at, 64);
    var enc := dev.ReadAt(at + 64, 448);
    var key := Derive(k, f.prf, old_, salt0.value, KeyBytes(f.scheme));
    StretchedLength(k, old_, f.prf, f.scheme, salt0.value);
    var plain := OpenSlot(f.scheme, key.value, enc.value);
    var again := Parse(k.crc, plain, p);
    SlotPlainIs(k, bytes, at, old_, f.prf, f.scheme);
    if again.Bad? {
      return again.PropagateFailure();
    }
    var primary, backup := PrimaryOffset(p), BackupOffset(p, |dev.bytes|);
    SameAgain(p, bytes);
    r := WriteHeaderCopy(dev, primary, plain, k, new_, f.prf, f.scheme, salt);
    if r.Bad? {
      return;
    }
    OneWritten(k, bytes, p, primary, new_, f.prf, f.scheme, salt, plain);
    MidwayIs(k, bytes, dev.bytes, f, old_, new_, plain);
    r := WriteHeaderCopy(dev, backup, plain, k, new_, f.prf, f.scheme, salt');
    if r.Bad? {
      return;
    }
    BothWritten(k, bytes, p, new_, f.prf, f.scheme, salt, salt', plain);
    SaltsWritten(k, bytes, p, new_, f.prf, f.scheme, salt, salt', plain);
    RekeyedIs(k, bytes, dev.bytes, f, old_, new_, plain);
  }

  lemma SameAgain(p: Position, bytes: seq<byte>)
    requires |bytes| <= U64_MAX
    ensures SameOutside(p, bytes, bytes)
  {
  }

  /** The header plaintext that a found header was read from. */
  ghost predicate ReadFrom(k: Suite, bytes: seq<byte>, f: Found, secret: Secret, plain: seq<byte>)
    requires Stretches(k) && SoundScheme(f.scheme) && |bytes| <= U64_MAX
  {
    var at := PositionOffset(f.header.position, |bytes|);
    && at.Some? && HeldAt(k, bytes, at.value, secret, f.prf, f.scheme, plain)
    && |plain| == 448 && Parse(k.crc, plain, f.header.position) == Good(f.header)
  }

  /** The container after a password change, against the one before: the header's exact plaintext is in both slots
      under the new secret, unless the slots overlap, when the later one holds it. Nothing else differs. */
  ghost predicate Rekeyed(k: Suite, bytes: seq<byte>, bytes': seq<byte>, f: Found, old_: Secret, new_: Secret)
    requires Stretches(k) && SoundScheme(f.scheme) && |bytes| <= U64_MAX && |bytes'| == |bytes|
  {
    var p := f.header.position;
    exists plain :: ReadFrom(k, bytes, f, old_, plain) && SameOutside(p, bytes, bytes')
      && HeldAt(k, bytes', BackupOffset(p, |bytes|), new_, f.prf, f.scheme, plain)
      && (SlotsApart(p, |bytes|) ==> BothHold(k, bytes', p, new_, f.prf, f.scheme, plain))
  }

  /** The container after the first write: the header's plaintext is in the first slot under the new secret, and a
      second slot apart from it is as it was. */
  ghost predicate Midway(k: Suite, bytes: seq<byte>, mid: seq<byte>, f: Found, old_: Secret, new_: Secret)
    requires Stretches(k) && SoundScheme(f.scheme) && |bytes| <= U64_MAX
  {
    var p, at, at' := f.header.position, PrimaryOffset(f.header.position), BackupOffset(f.header.position, |bytes|);
    SameOutside(p, bytes, mid)
    && (exists plain :: ReadFrom(k, bytes, f, old_, plain) && HeldAt(k, mid, at, new_, f.prf, f.scheme, plain))
    && (at' + 512 <= |bytes| && (at + 512 <= at' || at' + 512 <= at) ==>
          RegionAt(mid, at') == RegionAt(bytes, at'))
  }

  lemma MidwayIs(k: Suite, bytes: seq<byte>, mid: seq<byte>, f: Found, old_: Secret, new_: Secret, plain: seq<byte>)
    requires Stretches(k) && SoundScheme(f.scheme) && |bytes| <= U64_MAX && |mid| == |bytes|
    requires ReadFrom(k, bytes, f, old_, plain) && SameOutside(f.header.position, bytes, mid)
    requires HeldAt(k, mid, PrimaryOffset(f.header.position), new_, f.prf, f.scheme, plain)
    requires var at := PrimaryOffset(f.header.position);
      forall x: nat :: x + 512 <= |bytes| && (x + 512 <= at || at + 512 <= x) ==> RegionAt(mid, x) == RegionAt(bytes, x)
    ensures Midway(k, bytes, mid, f, old_, new_)
  {
    hide ReadFrom, HeldAt, PrimaryOffset, BackupOffset;
  }

  lemma RekeyedIs(k: Suite, bytes: seq<byte>, bytes': seq<byte>, f: Found, old_: Secret, new_: Secret, plain: seq<byte>)
    requires Stretches(k) && SoundScheme(f.scheme) && |bytes| <= U64_MAX && |bytes'| == |bytes|
    requires ReadFrom(k, bytes, f, old_, plain) && SameOutside(f.header.position, bytes, bytes')
    requires HeldAt(k, bytes', BackupOffset(f.header.position, |bytes|), new_, f.prf, f.scheme, plain)
    requires SlotsApart(f.header.position, |bytes|) ==> BothHold(k, bytes', f.header.position, new_, f.prf, f.scheme, plain)
    ensures Rekeyed(k, bytes, bytes', f, old_, new_)
  {
    hide ReadFrom, HeldAt, BothHold, SameOutside;
  }

  lemma ParamsSound(k: Suite)
    requires SoundSuite(k)
    ensures Stretches(k)
  {
  }

  lemma OpensMeans(k: Suite, bytes: seq<byte>, p: Position, secret: Secret, prf: Prf, scheme: Scheme, header: Header)
    requires Stretches(k) && SoundScheme(scheme) && |bytes| <= U64_MAX && header.position == p
    requires Opens(k, bytes, p, secret, prf, scheme, header)
    ensures PositionOffset(p, |bytes|).Some? && PositionOffset(p, |bytes|).value + 512 <= |bytes| && k.known(prf)
    ensures ReadFrom(k, bytes, Found(header, scheme, prf), secret,
                     SlotPlain(k, bytes, PositionOffset(p, |bytes|).value, secret, prf, scheme))
    ensures Parse(k.crc, SlotPlain(k, bytes, PositionOffset(p, |bytes|).value, secret, prf, scheme), p) == Good(header)
  {
    hide Parse, SlotPlain;
  }

  lemma SlotPlainIs(k: Suite, bytes: seq<byte>, at: nat, secret: Secret, prf: Prf, scheme: Scheme)
    requires Stretches(k) && SoundScheme(scheme) && at + 512 <= |bytes|
    ensures SlotPlain(k, bytes, at, secret, prf, scheme)
         == Opened(scheme, SlotKey(k, prf, secret, bytes[at..at + 64], scheme), bytes[at + 64..at + 512])
  {
  }

  /** A plaintext that parses at one position parses at any other, but for the position it records. */
  lemma ParseElsewhere(crc: Crc, d: seq<byte>, p: Position, q: Position)
    requires |d| == 448 && Parse(crc, d, p).Good?
    ensures Parse(crc, d, q) == Good(Parse(crc, d, p).value.(position := q))
  {
  }

  /** A slot of the same volume that holds the plaintext opens to the same header, but for its position. */
  lemma OpensBy(k: Suite, bytes: seq<byte>, q: Position, secret: Secret, f: Found, plain: seq<byte>)
    requires Stretches(k) && SoundScheme(f.scheme) && |bytes| <= U64_MAX && k.known(f.prf)
    requires |plain| == 448 && Parse(k.crc, plain, f.header.position) == Good(f.header)
    requires PositionOffset(q, |bytes|).Some?
    requires HeldAt(k, bytes, PositionOffset(q, |bytes|).value, secret, f.prf, f.scheme, plain)
    ensures Opens(k, bytes, q, secret, f.prf, f.scheme, f.header.(position := q))
  {
    hide Parse, SlotPlain;
    ParseElsewhere(k.crc, plain, f.header.position, q);
  }

  /** The position of a volume's second slot, and its index in the search. */
  function BackupPosition(p: Position): Position { if IsHidden(p) then BackupHidden else BackupPrimary }

  function FirstPosition(p: Position): Position { if IsHidden(p) then Hidden else Primary }

  lemma PositionsLie(p: Position, len: u64)
    ensures PrimaryOffset(p) + 512 <= len ==> PositionOffset(FirstPosition(p), len) == Some(PrimaryOffset(p))
    ensures BackupOffset(p, len) + 512 <= len ==> PositionOffset(BackupPosition(p), len) == Some(BackupOffset(p, len))
    ensures (p == BackupPosition(p) && PositionOffset(p, len).Some?) ==> PositionOffset(p, len) == Some(BackupOffset(p, len))
    ensures AllPositions()[if IsHidden(p) then 1 else 0] == FirstPosition(p)
    ensures AllPositions()[if IsHidden(p) then 3 else 2] == BackupPosition(p)
  {
    SlotsInRange(p, len);
  }

  lemma FoundFacts(k: Suite, bytes: seq<byte>, f: Found, secret: Secret) returns (a: nat, c: nat)
    requires SoundSuite(k) && |bytes| <= U64_MAX && Searched(k, secret, bytes, AllPositions()) == Good(f)
    ensures a < |k.prfs| && c < |k.schemes| && k.prfs[a] == f.prf && k.schemes[c] == f.scheme
    ensures Stretches(k) && SoundScheme(f.scheme) && MaxKey(k.schemes) > 0
    ensures Opens(k, bytes, f.header.position, secret, f.prf, f.scheme, f.header) && 512 <= |bytes| && k.known(f.prf)
  {
    hide Searched, Hunt, Triples, Parse, MaxKey;
    SearchedIs(k, secret, bytes, AllPositions());
    SearchedOpens(k, secret, bytes, AllPositions());
    a :| 0 <= a < |k.prfs| && k.prfs[a] == f.prf;
    c :| 0 <= c < |k.schemes| && k.schemes[c] == f.scheme;
  }

  /** After a password change a search with the new secret returns the re-keyed header, keys and geometry and all,
      from the volume's first slot (its second, if the two overlap), unless an earlier candidate validates, whose
      header it then returns. */
  lemma RekeyedReopens(k: Suite, bytes: seq<byte>, bytes': seq<byte>, f: Found, old_: Secret, new_: Secret)
    returns (i: nat, n: nat)
    requires SoundSuite(k) && AllKnown(k) && |bytes| <= U64_MAX && |bytes'| == |bytes|
    requires Searched(k, old_, bytes, AllPositions()) == Good(f) && SoundScheme(f.scheme)
    requires Rekeyed(k, bytes, bytes', f, old_, new_)
    ensures Searched(k, new_, bytes', AllPositions()).Good? && 512 <= |bytes'|
    ensures var q := if SlotsApart(f.header.position, |bytes|) then FirstPosition(f.header.position)
                     else BackupPosition(f.header.position);
      Returns(k, new_, bytes', AllPositions(), i, n, q, f.prf, f.scheme, f.header.(position := q))
  {
    hide Hunt, Triples, Parse, Searched, Opens, Judge, SlotPlain, SameOutside, MaxKey, Stretches, SoundScheme, Returns,
         PrimaryOffset, BackupOffset, SlotsApart, PositionOffset;
    var a, c := FoundFacts(k, bytes, f, old_);
    var p := f.header.position;
    PositionsLie(p, |bytes|);
    var plain :| ReadFrom(k, bytes, f, old_, plain) && SameOutside(p, bytes, bytes')
      && HeldAt(k, bytes', BackupOffset(p, |bytes|), new_, f.prf, f.scheme, plain)
      && (SlotsApart(p, |bytes|) ==> BothHold(k, bytes', p, new_, f.prf, f.scheme, plain));
    var q := if SlotsApart(p, |bytes|) then FirstPosition(p) else BackupPosition(p);
    OpensBy(k, bytes', q, new_, f, plain);
    var j := if SlotsApart(p, |bytes|) then if IsHidden(p) then 1 else 0 else if IsHidden(p) then 3 else 2;
    i, n := OpensFound(k, new_, bytes', AllPositions(), j, a, c, f.header.(position := q));
  }

  /** A power cut between the two writes leaves a container that opens with the new secret, and, when it was the
      second slot that the old secret had opened and the slots are apart, with the old one too. */
  lemma MidwayReopens(k: Suite, bytes: seq<byte>, mid: seq<byte>, f: Found, old_: Secret, new_: Secret)
    requires SoundSuite(k) && AllKnown(k) && |bytes| <= U64_MAX
    requires Searched(k, old_, bytes, AllPositions()) == Good(f) && SoundScheme(f.scheme)
    requires Midway(k, bytes, mid, f, old_, new_)
    ensures |mid| == |bytes| && Searched(k, new_, mid, AllPositions()).Good?
    ensures var p := f.header.position;
      p == BackupPosition(p) && SlotsApart(p, |bytes|) && PrimaryOffset(p) != BackupOffset(p, |bytes|) ==>
      Searched(k, old_, mid, AllPositions()).Good?
  {
    hide Hunt, Triples, Parse, Searched, Judge, SlotPlain, MaxKey, Stretches, SoundScheme, Returns, PrimaryOffset,
         BackupOffset, PositionOffset;
    var a, c := FoundFacts(k, bytes, f, old_);
    var p := f.header.position;
    PositionsLie(p, |bytes|);
    var plain :| ReadFrom(k, bytes, f, old_, plain) && HeldAt(k, mid, PrimaryOffset(p), new_, f.prf, f.scheme, plain);
    OpensBy(k, mid, FirstPosition(p), new_, f, plain);
    var _, _ := OpensFound(k, new_, mid, AllPositions(), if IsHidden(p) then 1 else 0, a, c,
                           f.header.(position := FirstPosition(p)));
    if p == BackupPosition(p) && SlotsApart(p, |bytes|) && PrimaryOffset(p) != BackupOffset(p, |bytes|) {
      HeldStays(k, bytes, mid, BackupOffset(p, |bytes|), old_, f.prf, f.scheme, plain);
      OpensBy(k, mid, p, old_, f, plain);
      var _, _ := OpensFound(k, old_, mid, AllPositions(), if IsHidden(p) then 3 else 2, a, c, f.header.(position := p));
    }
  }
}
