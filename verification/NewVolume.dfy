/** Creation of standard and hidden volumes. The randomness they draw is a parameter. */
module NewVolumes {
  import opened Bytes
  import opened Disks
  import opened VcTypes
  import opened Xts
  import opened Containers
  import opened Headers
  import opened HeaderSearch
  import opened Keyfiles
  import opened Rekeying

  datatype Params = Params(scheme: Scheme, prf: Prf, passphrase: seq<byte>, pim: nat, keyfiles: seq<seq<byte>>,
                           size: u64, sectorSize: u32)

  /** The secret keys are derived from: passphrase and keyfiles together. */
  function EffectiveSecret(params: Params): Secret
  {
    Secret(Effective(params.passphrase, params.keyfiles), params.pim)
  }

  /** Random bytes: the master keys, one region for each slot, and a salt for each header copy. */
  datatype Random = Random(keys: seq<byte>, fills: seq<seq<byte>>, salt: seq<byte>, salt': seq<byte>)

  ghost predicate Enough(random: Random)
  {
    && |random.keys| == 256 && |random.salt| == 64 == |random.salt'|
    && |random.fills| == 4 && forall i :: 0 <= i < 4 ==> |random.fills[i]| == 512
  }

  /** The bytes between the leading and the trailing 128 KiB of headers. */
  function DataArea(bytes: seq<byte>): seq<byte>
    requires 262144 <= |bytes|
  {
    bytes[131072..|bytes| - 131072]
  }

  /** A volume's header as its two slots must hold it. */
  function NewHeader(k: Suite, area: (nat, nat), hiddenSize: u64, params: Params, keys: seq<byte>): seq<byte>
    requires |keys| == 256 && area.0 <= U64_MAX && area.1 <= U64_MAX
  {
    HeaderBytes(k.crc, area.0, area.1, hiddenSize, params.sectorSize, keys)
  }

  /** Derives the secret and writes both copies of a header, the first slot first. */
  method WriteBoth(dev: Disk, p: Position, plain: seq<byte>, k: Suite, params: Params, random: Random)
    returns (r: VcResult<()>)
    requires dev.Valid() && Stretches(k) && SoundScheme(params.scheme) && |plain| == 448
    requires |random.salt| == 64 == |random.salt'| && 131584 <= |dev.bytes| <= U64_MAX
    modifies dev
    ensures dev.Valid() && |dev.bytes| == |old(dev.bytes)|
    ensures r.Good? <==> k.known(params.prf)
    ensures SameOutside(p, old(dev.bytes), dev.bytes)
    ensures r.Good? ==> BothHold(k, dev.bytes, p, EffectiveSecret(params), params.prf, params.scheme, plain)
    ensures r.Good? ==> Salted(dev.bytes, p, random.salt, random.salt')
  {
    hide *;
    ghost var bytes := dev.bytes;
    var secret := ApplyKeyfiles(params.passphrase, params.keyfiles);
    SecretIs(params);
    LargestWord();
    SlotsInRange(p, |dev.bytes|);
    SameAsBefore(p, bytes);
    r := WriteHeaderCopy(dev, PrimaryOffset(p), plain, k, Secret(secret, params.pim), params.prf, params.scheme, random.salt);
    if r.Bad? {
      return;
    }
    secret := ApplyKeyfiles(params.passphrase, params.keyfiles);
    r := WriteHeaderCopy(dev, BackupOffset(p, |dev.bytes|), plain, k, Secret(secret, params.pim), params.prf, params.scheme,
                         random.salt');
    BothWritten(k, bytes, p, EffectiveSecret(params), params.prf, params.scheme, random.salt, random.salt', plain);
    SaltsWritten(k, bytes, p, EffectiveSecret(params), params.prf, params.scheme, random.salt, random.salt', plain);
  }

  lemma SecretIs(params: Params)
    ensures EffectiveSecret(params) == Secret(Effective(params.passphrase, params.keyfiles), params.pim)
  {
  }

  lemma SameAsBefore(p: Position, bytes: seq<byte>)
    requires |bytes| <= U64_MAX
    ensures SameOutside(p, bytes, bytes)
  {
  }

  /** The slot offsets that are filled with random bytes. */
  function SlotOffsets(size: nat): (s: seq<nat>)
    requires 131072 <= size
    ensures s == [0, 65536, size - 131072, size - 65536]
  {
    [0, 65536, size - 131072, size - 65536]
  }

  /** The bytes between two offsets are the same unless the range meets one of the four slots. */
  ghost predicate SameOffSlots(bytes: seq<byte>, bytes': seq<byte>)
    requires 131072 <= |bytes|
  {
    && |bytes'| == |bytes|
    && forall lo, hi :: 0 <= lo <= hi <= |bytes| && OffSlots(lo, hi, |bytes|) ==> bytes'[lo..hi] == bytes[lo..hi]
  }

  predicate OffSlots(lo: nat, hi: nat, size: nat)
    requires 131072 <= size
  {
    Clear(lo, hi, 0) && Clear(lo, hi, 65536) && Clear(lo, hi, size - 131072) && Clear(lo, hi, size - 65536)
  }

  /** The first `n` slots hold their fillings. */
  ghost predicate Filled(bytes: seq<byte>, fills: seq<seq<byte>>, n: nat)
    requires 262656 <= |bytes| && n <= 4 <= |fills|
  {
    forall i :: 0 <= i < n ==>
      (SlotOffsets(|bytes|)[i] + 512 <= |bytes|
       && bytes[SlotOffsets(|bytes|)[i]..SlotOffsets(|bytes|)[i] + 512] == fills[i])
  }

  lemma FillOne(bytes: seq<byte>, was: seq<byte>, fills: seq<seq<byte>>, n: nat)
    requires 262656 <= |was| && SameOffSlots(was, bytes) && n < 4 == |fills| && |fills[n]| == 512
    requires Filled(bytes, fills, n)
    ensures var at := SlotOffsets(|was|)[n];
      at + 512 <= |bytes|
      && SameOffSlots(was, Splice(bytes, at, fills[n])) && Filled(Splice(bytes, at, fills[n]), fills, n + 1)
  {
    hide Splice;
    var offsets := SlotOffsets(|was|);
    var at := offsets[n];
    var next := Splice(bytes, at, fills[n]);
    forall lo, hi | 0 <= lo <= hi <= |was| && OffSlots(lo, hi, |was|)
      ensures next[lo..hi] == was[lo..hi]
    {
      SliceOutside(bytes, at, fills[n], lo, hi);
    }
    forall i | 0 <= i < n
      ensures next[offsets[i]..offsets[i] + 512] == fills[i]
    {
      SliceOutside(bytes, at, fills[n], offsets[i], offsets[i] + 512);
    }
    SliceAround(bytes, at, fills[n], at, at + 512);
    WholeSplice(bytes[at..at + 512], fills[n]);
  }

  lemma WholeSplice(s: seq<byte>, d: seq<byte>)
    requires |s| == |d|
    ensures Splice(s, 0, d) == d
  {
  }

  /** Overwrites every slot with random bytes and nothing else. */
  method FillSlots(dev: Disk, fills: seq<seq<byte>>)
    requires dev.Valid() && 262656 <= |dev.bytes|
    requires |fills| == 4 && forall i :: 0 <= i < 4 ==> |fills[i]| == 512
    modifies dev
    ensures dev.Valid() && |dev.bytes| == |old(dev.bytes)|
    ensures SameOffSlots(old(dev.bytes), dev.bytes) && Filled(dev.bytes, fills, 4)
  {
    hide Splice, SameOffSlots, Filled;
    var offsets := SlotOffsets(|dev.bytes|);
    var i := 0;
    NothingFilled(dev.bytes, fills);
    while i < 4
      invariant 0 <= i <= 4 && dev.Valid() && |dev.bytes| == |old(dev.bytes)|
      invariant SameOffSlots(old(dev.bytes), dev.bytes) && Filled(dev.bytes, fills, i)
    {
      FillOne(dev.bytes, old(dev.bytes), fills, i);
      var wrote := dev.WriteAt(offsets[i], fills[i]);
      i := i + 1;
    }
  }

  lemma NothingFilled(bytes: seq<byte>, fills: seq<seq<byte>>)
    requires 262656 <= |bytes| && 4 <= |fills|
    ensures SameOffSlots(bytes, bytes) && Filled(bytes, fills, 0)
  {
  }

  /** After the headers are written: the two hidden slots hold their fillings, and all else is as it was. */
  lemma FillingStays(was: seq<byte>, filled: seq<byte>, bytes: seq<byte>, fills: seq<seq<byte>>)
    requires 262656 <= |was| <= U64_MAX && SameOffSlots(was, filled) && |fills| == 4 && Filled(filled, fills, 4)
    requires |filled| == |was| && SameOutside(Primary, filled, bytes)
    ensures SameOffSlots(was, bytes) && bytes[65536..66048] == fills[1]
    ensures bytes[|bytes| - 65536..|bytes| - 65024] == fills[3]
  {
    var n := |was|;
    assert PrimaryOffset(Primary) == 0 && BackupOffset(Primary, n) == n - 131072;
    assert SlotOffsets(n)[1] == 65536 && SlotOffsets(n)[3] == n - 65536;
    assert bytes[65536..66048] == filled[65536..66048];
    assert bytes[n - 65536..n - 65024] == filled[n - 65536..n - 65024];
    forall lo, hi | 0 <= lo <= hi <= n && OffSlots(lo, hi, n)
      ensures bytes[lo..hi] == was[lo..hi]
    {
    }
  }

  lemma DataAreaOffSlots(was: seq<byte>, bytes: seq<byte>)
    requires 262144 <= |was| && SameOffSlots(was, bytes)
    ensures DataArea(bytes) == DataArea(was)
  {
    assert OffSlots(131072, |was| - 131072, |was|);
  }

  /** Creates a standard volume on a device of the given size: random bytes in all four slots, then the
      header in the first slot and its backup. Both copies decrypt to a header that records the data area,
      and the data area itself is not touched. */
  method CreateVolume(dev: Disk, k: Suite, params: Params, random: Random) returns (r: VcResult<(nat, nat)>)
    requires dev.Valid() && SoundSuite(k) && SoundScheme(params.scheme) && Enough(random)
    requires |dev.bytes| == params.size
    modifies dev
    ensures dev.Valid() && |dev.bytes| == |old(dev.bytes)|
    ensures OuterLayout(params.size, params.sectorSize).Bad? ==>
      r == OuterLayout(params.size, params.sectorSize) && dev.bytes == old(dev.bytes)
    ensures OuterLayout(params.size, params.sectorSize).Good?
       <==> (params.sectorSize == 512 || params.sectorSize == 4096) && 262656 <= params.size
    ensures OuterLayout(params.size, params.sectorSize).Good? ==>
      (r.Good? <==> k.known(params.prf)) && DataArea(dev.bytes) == DataArea(old(dev.bytes))
    ensures OuterLayout(params.size, params.sectorSize).Good? ==>
      && SameOffSlots(old(dev.bytes), dev.bytes)
      && dev.bytes[65536..66048] == random.fills[1]
      && dev.bytes[params.size - 65536..params.size - 65024] == random.fills[3]
    ensures r.Good? ==>
      r == OuterLayout(params.size, params.sectorSize) && r.value == (131072, params.size - 262144)
      && BothHold(k, dev.bytes, Primary, EffectiveSecret(params), params.prf, params.scheme,
                  NewHeader(k, r.value, 0, params, random.keys))
    ensures r.Good? ==> Salted(dev.bytes, Primary, random.salt, random.salt')
  {
    hide Splice, BothHold, Salted, SameOutside, HeaderBytes, Stretches, DataArea, EffectiveSecret, SoundScheme, SameOffSlots, Filled;
    var layout := OuterLayout(params.size, params.sectorSize);
    if layout.Bad? {
      return layout;
    }
    var area := layout.value;
    var h := BuildHeader(k.crc, area.0, area.1, 0, params.sectorSize, random.keys);
    FillSlots(dev, random.fills);
    ghost var filled := dev.bytes;
    var wrote := WriteBoth(dev, Primary, h[..], k, params, random);
    FillingStays(old(dev.bytes), filled, dev.bytes, random.fills);
    DataAreaOffSlots(old(dev.bytes), dev.bytes);
    return if wrote.Good? then Good(area) else Bad(wrote.error);
  }

  /** Creates a hidden volume in a container that already holds a standard one: its header goes in the two
      hidden slots, and no other byte of the container changes. */
  method CreateHidden(dev: Disk, k: Suite, params: Params, hiddenSize: u64, random: Random)
    returns (r: VcResult<(nat, nat)>)
    requires dev.Valid() && SoundSuite(k) && SoundScheme(params.scheme) && Enough(random)
    requires |dev.bytes| == params.size && 262656 <= params.size
    modifies dev
    ensures dev.Valid() && |dev.bytes| == |old(dev.bytes)|
    ensures SameOutside(Hidden, old(dev.bytes), dev.bytes)
    ensures HiddenLayout(params.size, params.sectorSize, hiddenSize).Bad? ==>
      r == HiddenLayout(params.size, params.sectorSize, hiddenSize) && dev.bytes == old(dev.bytes)
    ensures r.Good? <==> HiddenLayout(params.size, params.sectorSize, hiddenSize).Good? && k.known(params.prf)
    ensures HiddenLayout(params.size, params.sectorSize, hiddenSize).Good?
       <==> (params.sectorSize == 512 || params.sectorSize == 4096) && params.sectorSize <= hiddenSize
            && hiddenSize % params.sectorSize == 0 && hiddenSize + 131072 + 262144 <= params.size
    ensures r.Good? ==>
      r == HiddenLayout(params.size, params.sectorSize, hiddenSize) && r.value == (params.size - 262144 - hiddenSize, hiddenSize)
      && BothHold(k, dev.bytes, Hidden, EffectiveSecret(params), params.prf, params.scheme,
                  NewHeader(k, r.value, hiddenSize, params, random.keys))
    ensures r.Good? ==> Salted(dev.bytes, Hidden, random.salt, random.salt')
  {
    hide Splice, BothHold, Salted, SameOutside, HeaderBytes, Stretches, EffectiveSecret, SoundScheme;
    SameAsBefore(Hidden, dev.bytes);
    var layout := HiddenLayout(params.size, params.sectorSize, hiddenSize);
    if layout.Bad? {
      return layout;
    }
    var area := layout.value;
    var h := BuildHeader(k.crc, area.0, area.1, hiddenSize, params.sectorSize, random.keys);
    var wrote := WriteBoth(dev, Hidden, h[..], k, params, random);
    return if wrote.Good? then Good(area) else Bad(wrote.error);
  }

  /** A container whose slots hold a new header opens with the secret it was made with, and the slot reads
      as the geometry and keys that were put in. */
  lemma NewVolumeOpens(k: Suite, bytes: seq<byte>, hidden: bool, area: (nat, nat), hiddenSize: u64, params: Params,
                       keys: seq<byte>, positions: seq<Position>, j: nat, a: nat, c: nat)
    requires SoundSuite(k) && AllKnown(k) && MaxKey(k.schemes) > 0 && 131584 <= |bytes| <= U64_MAX && |keys| == 256
    requires area.0 <= U64_MAX && area.1 <= U64_MAX && SectorSize(params.sectorSize)
    requires a < |k.prfs| && c < |k.schemes| && k.prfs[a] == params.prf && k.schemes[c] == params.scheme
    requires BothHold(k, bytes, if hidden then Hidden else Primary, EffectiveSecret(params), params.prf, params.scheme,
                      NewHeader(k, area, hiddenSize, params, keys))
    requires j < |positions| && IsHidden(positions[j]) == hidden
    ensures Opens(k, bytes, positions[j], EffectiveSecret(params), params.prf, params.scheme,
                  Header(5, 0x010b, 0, Recorded(area, params.sectorSize, hiddenSize), positions[j], keys))
    ensures Searched(k, EffectiveSecret(params), bytes, positions).Good?
  {
    hide Searched, Parse, HeaderBytes, SlotPlain, EffectiveSecret, Stretches;
    BuildThenParse(k.crc, area.0, area.1, hiddenSize, params.sectorSize, keys, positions[j]);
    SlotsInRange(positions[j], |bytes|);
    var _, _ := OpensFound(k, EffectiveSecret(params), bytes, positions, j, a, c,
                           Header(5, 0x010b, 0, Recorded(area, params.sectorSize, hiddenSize), positions[j], keys));
  }
}
