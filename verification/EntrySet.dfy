/** Directory entry sets (sections 6.3, 7.4, 7.6 and 7.7): how a file or directory is recorded in 32-byte
    slots, a File slot, a Stream Extension slot and one to seventeen File Name slots. */
module EntrySets {
  import opened Bytes
  import opened Geometries
  import opened RollingSums
  import opened Timestamps

  type u16 = n: int | 0 <= n < 0x1_0000
  type Name = seq<u16>

  const ENTRY_END: byte := 0x00
  const ENTRY_FILE: byte := 0x85
  const ENTRY_STREAM: byte := 0xC0
  const ENTRY_NAME: byte := 0xC1
  const DIR_ATTR := 0x10
  const ARCHIVE_ATTR := 0x20
  /** 2024-01-01 00:00:00. */
  const FIXED_TS := 0x5821_0000
  const NAME_UNITS := 15

  /** What an entry set records. ValidDataLength equals DataLength in everything this crate writes. */
  datatype Facts = Facts(name: Name, isDir: bool, first: nat, len: nat, flags: byte)
  {
    predicate Recordable()
    {
      1 <= |name| <= 255 && first < 0x1_0000_0000 && len < 0x1_0000_0000_0000_0000
    }
  }

  /** A directory entry as the read side reports it. */
  datatype Entry = Entry(name: Name, isDir: bool, size: nat, validSize: nat, firstCluster: nat,
                         noFatChain: bool, mtimeMs: Option<int>)

  // ---- Case folding --------------------------------------------------------------------

  /** A unit past the end of the table maps to itself. */
  function UpUnit(upcase: seq<u16>, u: u16): u16 { if u < |upcase| then upcase[u] else u }

  function UpName(upcase: seq<u16>, name: Name): (r: Name)
    ensures |r| == |name|
  {
    seq(|name|, i requires 0 <= i < |name| => UpUnit(upcase, name[i]))
  }

  /** One step of the NameHash and, on 16 bits, of the set checksum: rotate right, then add. */
  function Roll(sum: u16, b: byte): u16
  {
    (sum % 2 * 0x8000 + sum / 2 + b) % 0x1_0000
  }

  function NameHash(upcase: seq<u16>, name: Name): u16
  {
    if name == [] then 0
    else
      var n := |name| - 1;
      var up := UpUnit(upcase, name[n]);
      Roll(Roll(NameHash(upcase, name[..n]), up % 256), up / 256)
  }

  /** A step is the bitwise one on 16 bits. */
  lemma RollTurns(sum: u16, b: byte)
    ensures RollStep(16, sum, b, Roll(sum, b))
  {
    Widths();
    StepIs(16, sum, b, Roll(sum, b));
  }

  /** The bytes of the folded name, low byte first; a unit past the end of the table stays as it is. */
  function FoldedBytes(upcase: seq<u16>, name: Name): (bs: seq<byte>)
    ensures |bs| == 2 * |name|
  {
    seq(2 * |name|, k requires 0 <= k < 2 * |name| =>
      var u := if name[k / 2] < |upcase| then upcase[name[k / 2]] else name[k / 2];
      if k % 2 == 0 then u % 256 else u / 256)
  }

  /** The NameHash is the rolling checksum of the folded name. */
  lemma {:induction false} HashRolls(upcase: seq<u16>, name: Name)
    ensures RollsTo(16, FoldedBytes(upcase, name), NameHash(upcase, name))
  {
    if name == [] {
      RollsNothing(16);
      assert FoldedBytes(upcase, []) == [];
    } else {
      var n := |name| - 1;
      HashRolls(upcase, name[..n]);
      FoldedMore(upcase, name);
      hide Roll, FoldedBytes, RollsTo, RollStep;
      var before, up := NameHash(upcase, name[..n]), UpUnit(upcase, name[n]);
      RollTurns(before, up % 256);
      RollsMore(16, FoldedBytes(upcase, name[..n]), before, up % 256, Roll(before, up % 256));
      RollTurns(Roll(before, up % 256), up / 256);
      RollsMore(16, FoldedBytes(upcase, name[..n]) + [up % 256], Roll(before, up % 256), up / 256, NameHash(upcase, name));
    }
  }

  lemma FoldedMore(upcase: seq<u16>, name: Name)
    requires name != []
    ensures var n, up := |name| - 1, UpUnit(upcase, name[|name| - 1]);
      FoldedBytes(upcase, name) == FoldedBytes(upcase, name[..n]) + [up % 256] + [up / 256]
  {
    var n, up := |name| - 1, UpUnit(upcase, name[|name| - 1]);
    var l, r := FoldedBytes(upcase, name), FoldedBytes(upcase, name[..n]) + [up % 256] + [up / 256];
    forall k | 0 <= k < 2 * |name|
      ensures l[k] == r[k]
    {
      if k < 2 * n {
        assert k / 2 < n;
      }
    }
  }

  // ---- The set checksum ----------------------------------------------------------------

  function RollAll(sum: u16, bs: seq<byte>): u16
    decreases |bs|
  {
    if bs == [] then sum else RollAll(Roll(sum, bs[0]), bs[1..])
  }

  /** Every byte of the set but the two of its own checksum field. */
  function Covered(set_: seq<seq<byte>>): seq<byte>
    requires set_ != [] && |set_[0]| == SLOT
  {
    set_[0][..2] + set_[0][4..] + Flat(set_[1..])
  }

  function Checksum(set_: seq<seq<byte>>): u16
    requires set_ != [] && |set_[0]| == SLOT
  {
    RollAll(0, Covered(set_))
  }

  lemma {:induction false} RollAllAppend(sum: u16, a: seq<byte>, b: seq<byte>)
    ensures RollAll(sum, a + b) == RollAll(RollAll(sum, a), b)
    decreases |a|
  {
    hide Roll;
    if a == [] {
      assert a + b == b;
    } else {
      RollAllAppend(Roll(sum, a[0]), a[1..], b);
      assert (a + b)[1..] == a[1..] + b;
    }
  }

  lemma {:induction false} RollAllRolls(bs: seq<byte>)
    ensures RollsTo(16, bs, RollAll(0, bs))
  {
    hide Roll, RollsTo, RollStep;
    if bs == [] {
      RollsNothing(16);
    } else {
      var front, last := bs[..|bs| - 1], bs[|bs| - 1];
      RollAllRolls(front);
      assert bs == front + [last];
      RollAllAppend(0, front, [last]);
      assert RollAll(RollAll(0, front), [last]) == Roll(RollAll(0, front), last);
      RollTurns(RollAll(0, front), last);
      RollsMore(16, front, RollAll(0, front), last, RollAll(0, bs));
    }
  }

  /** The bytes of a set in order, all but the two of its checksum field. */
  function SetBytes(set_: seq<seq<byte>>): (bs: seq<byte>)
    requires set_ != [] && Slots(set_)
    ensures |bs| == 32 * |set_| - 2
  {
    seq(32 * |set_| - 2, k requires 0 <= k < 32 * |set_| - 2 =>
      var j := if k < 2 then k else k + 2;
      set_[j / 32][j % 32])
  }

  lemma {:induction false} FlatAt(set_: seq<seq<byte>>, j: nat)
    requires Slots(set_) && j < 32 * |set_|
    ensures |Flat(set_)| == 32 * |set_| && Flat(set_)[j] == set_[j / 32][j % 32]
  {
    if j < 32 {
      FlatSize(set_[1..]);
    } else {
      FlatAt(set_[1..], j - 32);
      assert (j - 32) / 32 == j / 32 - 1 && (j - 32) % 32 == j % 32;
    }
  }

  lemma {:induction false} FlatSize(set_: seq<seq<byte>>)
    requires Slots(set_)
    ensures |Flat(set_)| == 32 * |set_|
  {
    if set_ != [] {
      FlatSize(set_[1..]);
    }
  }

  lemma CoveredIs(set_: seq<seq<byte>>)
    requires set_ != [] && Slots(set_)
    ensures Covered(set_) == SetBytes(set_)
  {
    FlatSize(set_[1..]);
    var l, r := Covered(set_), SetBytes(set_);
    forall k | 0 <= k < |l|
      ensures l[k] == r[k]
    {
      var j := if k < 2 then k else k + 2;
      if j >= 32 {
        FlatAt(set_[1..], j - 32);
        assert (j - 32) / 32 == j / 32 - 1 && (j - 32) % 32 == j % 32;
      } else {
        assert j / 32 == 0 && j % 32 == j;
      }
    }
  }

  /** The checksum of a set is the rolling checksum of its bytes without those of the field. */
  lemma ChecksumRolls(set_: seq<seq<byte>>)
    requires set_ != [] && Slots(set_)
    ensures RollsTo(16, SetBytes(set_), Checksum(set_))
  {
    hide RollAll, RollsTo, Checksum, Covered, SetBytes;
    CoveredIs(set_);
    RollAllRolls(Covered(set_));
    ChecksumIs(set_);
  }

  lemma ChecksumIs(set_: seq<seq<byte>>)
    requires set_ != [] && Slots(set_)
    ensures |set_[0]| == SLOT && Checksum(set_) == RollAll(0, Covered(set_))
  {
    hide RollAll, Covered;
  }

  ghost predicate Slots(set_: seq<seq<byte>>)
  {
    forall i :: 0 <= i < |set_| ==> |set_[i]| == SLOT
  }

  /** The running sum after the first `n` bytes of slot `s`, checksum field skipped if it is the first. */
  ghost function SlotSum(sum: u16, s: seq<byte>, n: nat, first: bool): u16
    requires n <= |s|
  {
    if first && 2 <= n then RollAll(sum, s[..2] + s[Min(n, 4)..n]) else RollAll(sum, s[..n])
  }

  lemma SlotSumStep(sum: u16, s: seq<byte>, n: nat, first: bool)
    requires n < |s|
    ensures SlotSum(sum, s, n + 1, first)
         == if first && (n == 2 || n == 3) then SlotSum(sum, s, n, first) else Roll(SlotSum(sum, s, n, first), s[n])
  {
    hide Roll;
    assert RollAll(RollAll(sum, s[..n]), [s[n]]) == Roll(RollAll(sum, s[..n]), s[n]);
    if first && 4 <= n {
      var p := s[..2] + s[4..n];
      assert s[..2] + s[4..n + 1] == p + [s[n]];
      RollAllAppend(sum, p, [s[n]]);
      assert RollAll(RollAll(sum, p), [s[n]]) == Roll(RollAll(sum, p), s[n]);
    } else if first && 2 <= n {
      assert s[..2] + s[Min(n, 4)..n] == s[..2] && s[..2] + s[Min(n + 1, 4)..n + 1] == s[..2];
    } else {
      assert s[..n + 1] == s[..n] + [s[n]];
      RollAllAppend(sum, s[..n], [s[n]]);
      if first && n + 1 == 2 {
        assert s[..2] + s[2..2] == s[..n + 1];
      }
    }
  }

  ghost function SetSum(set_: seq<seq<byte>>, n: nat): u16
    requires n <= |set_| && Slots(set_)
  {
    if n == 0 then 0 else SlotSum(SetSum(set_, n - 1), set_[n - 1], SLOT, n == 1)
  }

  lemma {:induction false} SetSumIsChecksum(set_: seq<seq<byte>>, n: nat)
    requires 0 < n <= |set_| && Slots(set_)
    ensures SetSum(set_, n) == RollAll(0, set_[0][..2] + set_[0][4..] + Flat(set_[1..n]))
  {
    hide Roll, RollAll;
    if n == 1 {
      assert set_[0][..2] + set_[0][4..] + [] == set_[0][..2] + set_[0][4..SLOT];
    } else {
      SetSumIsChecksum(set_, n - 1);
      var p, s := set_[0][..2] + set_[0][4..] + Flat(set_[1..n - 1]), set_[n - 1];
      assert s[..SLOT] == s;
      assert set_[1..n] == set_[1..n - 1] + [s];
      FlatAppend(set_[1..n - 1], [s]);
      assert Flat([s]) == s;
      assert set_[0][..2] + set_[0][4..] + Flat(set_[1..n]) == p + s;
      RollAllAppend(0, p, s);
    }
  }

  /** The entry-set checksum, slot by slot and byte by byte. Writer and reader use the same one. */
  method SetChecksum(entries: seq<seq<byte>>) returns (cs: u16)
    requires entries != [] && Slots(entries)
    ensures cs == Checksum(entries)
    ensures RollsTo(16, SetBytes(entries), cs)
  {
    ChecksumRolls(entries);
    hide RollsTo, SetBytes;
    cs := 0;
    for idx := 0 to |entries|
      invariant cs == SetSum(entries, idx)
    {
      ghost var before := cs;
      var e := entries[idx];
      for i := 0 to SLOT
        invariant cs == SlotSum(before, e, i, idx == 0)
      {
        SlotSumStep(before, e, i, idx == 0);
        if idx == 0 && (i == 2 || i == 3) {
          continue;
        }
        cs := Roll(cs, e[i]);
      }
    }
    SetSumIsChecksum(entries, |entries|);
    assert entries[1..|entries|] == entries[1..];
  }

  // ---- Slots ---------------------------------------------------------------------------

  function FileSlot(secondary: byte, checksum: u16, isDir: bool): (s: seq<byte>)
    ensures |s| == SLOT
  {
    [ENTRY_FILE, secondary] + [checksum % 256, checksum / 256]
    + [if isDir then DIR_ATTR else ARCHIVE_ATTR, 0, 0, 0]
    + Le(FIXED_TS, 4) + Le(FIXED_TS, 4) + Le(FIXED_TS, 4) + Fill(12, 0)
  }

  function StreamSlot(flags: byte, nameLen: byte, hash: u16, valid: nat, first: nat, len: nat): (s: seq<byte>)
    ensures |s| == SLOT
  {
    [ENTRY_STREAM, flags, 0, nameLen, hash % 256, hash / 256, 0, 0]
    + Le(valid, 8) + [0, 0, 0, 0] + Le(first, 4) + Le(len, 8)
  }

  function UnitBytes(units: Name): (s: seq<byte>)
    ensures |s| == 2 * |units|
  {
    if units == [] then [] else [units[0] % 256, units[0] / 256] + UnitBytes(units[1..])
  }

  function NameSlot(chunk: Name): (s: seq<byte>)
    requires |chunk| <= NAME_UNITS
    ensures |s| == SLOT
  {
    [ENTRY_NAME, 0] + UnitBytes(chunk) + Fill(30 - 2 * |chunk|, 0)
  }

  /** The File Name slots of `name`, fifteen units to a slot. */
  function NameSlots(name: Name): (s: seq<seq<byte>>)
    ensures |s| == DivCeil(|name|, NAME_UNITS) && Slots(s)
  {
    if name == [] then []
    else if |name| <= NAME_UNITS then [NameSlot(name)]
    else [NameSlot(name[..NAME_UNITS])] + NameSlots(name[NAME_UNITS..])
  }

  /** Slots of a set: the File slot, the Stream slot and the File Name slots. */
  function SetSize(name: Name): nat { 2 + DivCeil(|name|, NAME_UNITS) }

  function Unsummed(f: Facts, upcase: seq<u16>, checksum: u16): (s: seq<seq<byte>>)
    requires f.Recordable()
    ensures |s| == SetSize(f.name) && Slots(s)
  {
    [FileSlot(SetSize(f.name) - 1, checksum, f.isDir),
     StreamSlot(f.flags, |f.name|, NameHash(upcase, f.name), f.len, f.first, f.len)]
    + NameSlots(f.name)
  }

  /** The slots that record `f`. */
  function Encode(f: Facts, upcase: seq<u16>): (s: seq<seq<byte>>)
    requires f.Recordable()
    ensures |s| == SetSize(f.name) && Slots(s)
  {
    Unsummed(f, upcase, Checksum(Unsummed(f, upcase, 0)))
  }

  lemma {:induction false} NameSlotsStep(name: Name, i: nat)
    requires i < |name|
    ensures NameSlots(name[i..]) == [NameSlot(name[i..Min(i + NAME_UNITS, |name|)])] + NameSlots(name[Min(i + NAME_UNITS, |name|)..])
  {
    var t := name[i..];
    if |t| <= NAME_UNITS {
      assert t == name[i..|name|] && name[|name|..] == [];
      assert NameSlots([]) == [];
    } else {
      assert t[..NAME_UNITS] == name[i..i + NAME_UNITS] && t[NAME_UNITS..] == name[i + NAME_UNITS..];
    }
  }

  /** The hash of the folded name, unit by unit. */
  method HashName(upcase: seq<u16>, name: Name) returns (hash: u16)
    ensures hash == NameHash(upcase, name)
    ensures RollsTo(16, FoldedBytes(upcase, name), hash)
  {
    HashRolls(upcase, name);
    hide RollsTo, FoldedBytes;
    hash := 0;
    for i := 0 to |name|
      invariant hash == NameHash(upcase, name[..i])
    {
      var up := UpUnit(upcase, name[i]);
      assert name[..i + 1][..i] == name[..i];
      hash := Roll(Roll(hash, up % 256), up / 256);
    }
    assert name[..|name|] == name;
  }

  /** The File Name slots, fifteen units at a time. */
  method NameEntries(name: Name) returns (names: seq<seq<byte>>)
    ensures names == NameSlots(name)
  {
    hide NameSlot;
    var i := 0;
    names := [];
    assert name[0..] == name;
    while i < |name|
      invariant i <= |name| && names + NameSlots(name[i..]) == NameSlots(name)
    {
      NameSlotsStep(name, i);
      var end := Min(i + NAME_UNITS, |name|);
      ghost var rest := NameSlots(name[end..]);
      assert names + ([NameSlot(name[i..end])] + rest) == names + [NameSlot(name[i..end])] + rest;
      names := names + [NameSlot(name[i..end])];
      i := end;
    }
    assert name[i..] == [] && NameSlots([]) == [];
  }

  /** Assemble the slots of an entry set, the checksum last. */
  method BuildSet(f: Facts, upcase: seq<u16>) returns (entries: seq<seq<byte>>)
    requires f.Recordable()
    ensures entries == Encode(f, upcase)
  {
    hide Checksum, FileSlot, StreamSlot, NameHash, NameSlots, PatchFile;
    var secondary := 1 + DivCeil(|f.name|, NAME_UNITS);
    SecondaryFits(f.name);
    var hash := HashName(upcase, f.name);
    var names := NameEntries(f.name);
    var file := FileSlot(secondary, 0, f.isDir);
    entries := [file, StreamSlot(f.flags, |f.name|, hash, f.len, f.first, f.len)] + names;
    assert entries == Unsummed(f, upcase, 0);
    var cs := SetChecksum(entries);
    PatchedFile(secondary, 0, f.isDir, cs);
    entries := [PatchFile(file, cs)] + entries[1..];
  }

  lemma SecondaryFits(name: Name)
    requires 1 <= |name| <= 255
    ensures 1 + DivCeil(|name|, NAME_UNITS) == SetSize(name) - 1 && 3 <= SetSize(name) <= 19
  {
    DivCeilBounds(|name|, NAME_UNITS);
  }

  /** The checksum does not depend on the two bytes that hold it. */
  lemma ChecksumIgnoresItsField(f: Facts, upcase: seq<u16>, c: u16, c': u16)
    requires f.Recordable()
    ensures Checksum(Unsummed(f, upcase, c)) == Checksum(Unsummed(f, upcase, c'))
  {
    hide RollAll, StreamSlot, NameSlots, NameHash;
    var a, b := Unsummed(f, upcase, c), Unsummed(f, upcase, c');
    assert a[0][..2] == b[0][..2] && a[0][4..] == b[0][4..] && a[1..] == b[1..];
  }

  // ---- Decoding ------------------------------------------------------------------------

  function Field(slot: seq<byte>, at: nat, n: nat): nat
    requires at + n <= |slot|
  {
    FromLe(slot[at..at + n])
  }

  function Word(lo: byte, hi: byte): u16
  {
    var n: int := lo;
    n + 256 * hi
  }

  /** The units a File Name slot holds. */
  function UnitsOf(slot: seq<byte>): (u: Name)
    requires |slot| == SLOT
    ensures |u| == NAME_UNITS
  {
    seq(NAME_UNITS, k requires 0 <= k < NAME_UNITS => Word(slot[2 + 2 * k], slot[3 + 2 * k]))
  }

  /** Up to `want` units from the File Name slots at the head of `slots`. */
  function CollectUnits(slots: seq<seq<byte>>, want: nat): (u: Name)
    requires Slots(slots)
    ensures |u| <= want
  {
    if slots == [] || slots[0][0] != ENTRY_NAME then []
    else
      var n := Min(NAME_UNITS, want);
      UnitsOf(slots[0])[..n] + CollectUnits(slots[1..], want - n)
  }

  /** What the reader makes of one entry set: the checks of the directory reader, in its order. */
  function DecodeSet(set_: seq<seq<byte>>): Result<Entry>
    requires |set_| >= 3 && Slots(set_)
  {
    var file, stream := set_[0], set_[1];
    if Checksum(set_) != Field(file, 2, 2) then Err(Invalid("entry set checksum mismatch"))
    else if stream[0] != ENTRY_STREAM then Err(Invalid("first secondary is not a stream entry"))
    else
      var units := CollectUnits(set_[2..], stream[3]);
      if |units| < stream[3] then Err(Invalid("file name entries shorter than NameLength"))
      else
        Ok(Entry(units, BitSet(file[4], 4), Field(stream, 24, 8), Field(stream, 8, 8), Field(stream, 20, 4),
                 BitSet(stream[1], 1), TimestampMs(Field(file, 12, 4), file[22], file[24])))
  }

  /** What the reader reports of a set that records `f`. */
  function EntryOf(f: Facts): Entry
  {
    Entry(f.name, f.isDir, f.len, f.len, f.first, BitSet(f.flags, 1), TimestampMs(FIXED_TS, 0, 0))
  }

  lemma TwoBytes(lo: byte, hi: byte)
    ensures FromLe([lo, hi]) == lo + 256 * hi
  {
    assert [lo, hi][1..] == [hi] && [hi][1..] == [];
    assert FromLe([hi]) == hi;
  }

  lemma FileFields(secondary: byte, checksum: u16, isDir: bool)
    ensures var s := FileSlot(secondary, checksum, isDir);
            && s[0] == ENTRY_FILE && s[1] == secondary
            && Field(s, 2, 2) == checksum
            && BitSet(s[4], 4) == isDir
            && Field(s, 12, 4) == FIXED_TS && s[22] == 0 && s[24] == 0
  {
    var s := FileSlot(secondary, checksum, isDir);
    assert s[2..4] == [checksum % 256, checksum / 256];
    TwoBytes(checksum % 256, checksum / 256);
    assert s[12..16] == Le(FIXED_TS, 4);
    PowersOf256();
    FromLeOfLe(FIXED_TS, 4);
    DirectoryBit();
  }

  lemma DirectoryBit()
    ensures BitSet(DIR_ATTR, 4) && !BitSet(ARCHIVE_ATTR, 4)
  {
    assert BitSet(16, 4) == BitSet(8, 3) == BitSet(4, 2) == BitSet(2, 1) == BitSet(1, 0);
    assert BitSet(32, 4) == BitSet(16, 3) == BitSet(8, 2) == BitSet(4, 1) == BitSet(2, 0);
  }

  lemma StreamParts(head: seq<byte>, valid: seq<byte>, first: seq<byte>, len: seq<byte>)
    requires |head| == 8 == |valid| && |first| == 4 && |len| == 8
    ensures var s := head + valid + [0, 0, 0, 0] + first + len;
            s[8..16] == valid && s[20..24] == first && s[24..32] == len
  {
  }

  lemma StreamFields(flags: byte, nameLen: byte, hash: u16, valid: nat, first: nat, len: nat)
    requires valid < 0x1_0000_0000_0000_0000 && first < 0x1_0000_0000 && len < 0x1_0000_0000_0000_0000
    ensures var s := StreamSlot(flags, nameLen, hash, valid, first, len);
            && s[0] == ENTRY_STREAM && s[1] == flags && s[3] == nameLen
            && Field(s, 8, 8) == valid && Field(s, 20, 4) == first && Field(s, 24, 8) == len
  {
    var s := StreamSlot(flags, nameLen, hash, valid, first, len);
    PowersOf256();
    FromLeOfLe(valid, 8);
    FromLeOfLe(first, 4);
    FromLeOfLe(len, 8);
    hide Le, FromLe, Pow256;
    StreamParts([ENTRY_STREAM, flags, 0, nameLen, hash % 256, hash / 256, 0, 0], Le(valid, 8), Le(first, 4), Le(len, 8));
  }

  lemma {:induction false} UnitBytesAt(units: Name, k: nat)
    requires k < |units|
    ensures UnitBytes(units)[2 * k] == units[k] % 256 && UnitBytes(units)[2 * k + 1] == units[k] / 256
  {
    if k > 0 {
      UnitBytesAt(units[1..], k - 1);
    }
  }

  lemma NameSlotUnits(chunk: Name)
    requires |chunk| <= NAME_UNITS
    ensures NameSlot(chunk)[0] == ENTRY_NAME
    ensures UnitsOf(NameSlot(chunk))[..|chunk|] == chunk
  {
    var s := NameSlot(chunk);
    forall k | 0 <= k < |chunk|
      ensures UnitsOf(s)[k] == chunk[k]
    {
      UnitBytesAt(chunk, k);
      assert s[2 + 2 * k] == UnitBytes(chunk)[2 * k] && s[3 + 2 * k] == UnitBytes(chunk)[2 * k + 1];
    }
  }

  lemma CollectMore(slot: seq<byte>, rest: seq<seq<byte>>, want: nat)
    requires |slot| == SLOT && Slots(rest) && slot[0] == ENTRY_NAME
    ensures Slots([slot] + rest)
    ensures CollectUnits([slot] + rest, want)
         == UnitsOf(slot)[..Min(NAME_UNITS, want)] + CollectUnits(rest, want - Min(NAME_UNITS, want))
  {
    hide UnitsOf;
    assert ([slot] + rest)[1..] == rest;
  }

  lemma {:induction false} NameRoundTrip(name: Name)
    ensures CollectUnits(NameSlots(name), |name|) == name
  {
    hide UnitsOf, NameSlot, CollectUnits;
    if name == [] {
      NoUnits();
    } else if |name| <= NAME_UNITS {
      NameSlotUnits(name);
      CollectMore(NameSlot(name), [], |name|);
      NoUnits();
      assert [NameSlot(name)] + [] == NameSlots(name);
      assert name + [] == name;
    } else {
      var head, rest := name[..NAME_UNITS], name[NAME_UNITS..];
      NameSlotUnits(head);
      NameRoundTrip(rest);
      CollectMore(NameSlot(head), NameSlots(rest), |name|);
      assert name == head + rest;
    }
  }

  lemma NoUnits()
    ensures CollectUnits([], 0) == []
  {
  }

  /** The set written for any recordable facts passes every check of the reader and reads back as those
      facts. */
  lemma EntrySetRoundTrip(f: Facts, upcase: seq<u16>)
    requires f.Recordable()
    ensures DecodeSet(Encode(f, upcase)) == Ok(EntryOf(f))
  {
    var cs := Checksum(Unsummed(f, upcase, 0));
    var set_ := Encode(f, upcase);
    hide Checksum, FileSlot, StreamSlot, NameSlots, CollectUnits, BitSet, TimestampMs, NameHash;
    ChecksumIgnoresItsField(f, upcase, 0, cs);
    FileFields(SetSize(f.name) - 1, cs, f.isDir);
    StreamFields(f.flags, |f.name|, NameHash(upcase, f.name), f.len, f.first, f.len);
    NameRoundTrip(f.name);
    assert set_[2..] == NameSlots(f.name);
  }

  // ---- Rewriting in place --------------------------------------------------------------

  /** A Stream slot with new flags, lengths and first cluster. */
  function PatchStream(s: seq<byte>, flags: byte, valid: nat, first: nat, len: nat): (r: seq<byte>)
    requires |s| == SLOT
    ensures |r| == SLOT
  {
    Splice(Splice(Splice(Splice(s, 1, [flags]), 8, Le(valid, 8)), 20, Le(first, 4)), 24, Le(len, 8))
  }

  /** A File slot with a new checksum. */
  function PatchFile(s: seq<byte>, checksum: u16): (r: seq<byte>)
    requires |s| == SLOT
    ensures |r| == SLOT
  {
    Splice(s, 2, [checksum % 256, checksum / 256])
  }

  lemma PatchedStream(flags: byte, nameLen: byte, hash: u16, valid: nat, first: nat, len: nat,
                      flags': byte, valid': nat, first': nat, len': nat)
    ensures PatchStream(StreamSlot(flags, nameLen, hash, valid, first, len), flags', valid', first', len')
         == StreamSlot(flags', nameLen, hash, valid', first', len')
  {
    hide Splice, Le;
    SpliceFour([ENTRY_STREAM], [flags], [0, nameLen, hash % 256, hash / 256, 0, 0], Le(valid, 8), [0, 0, 0, 0],
               Le(first, 4), Le(len, 8), [flags'], Le(valid', 8), Le(first', 4), Le(len', 8));
    assert [ENTRY_STREAM, flags, 0, nameLen, hash % 256, hash / 256, 0, 0]
        == [ENTRY_STREAM] + [flags] + [0, nameLen, hash % 256, hash / 256, 0, 0];
    assert [ENTRY_STREAM, flags', 0, nameLen, hash % 256, hash / 256, 0, 0]
        == [ENTRY_STREAM] + [flags'] + [0, nameLen, hash % 256, hash / 256, 0, 0];
  }

  lemma SpliceFour(a: seq<byte>, b: seq<byte>, c: seq<byte>, d: seq<byte>, e: seq<byte>, x: seq<byte>, y: seq<byte>,
                   b': seq<byte>, d': seq<byte>, x': seq<byte>, y': seq<byte>)
    requires |a| == |b| == |b'| == 1 && |c| == 6 && |d| == |d'| == 8 && |e| == 4
    requires |x| == |x'| == 4 && |y| == |y'| == 8
    ensures Splice(Splice(Splice(Splice(a + b + c + d + e + x + y, 1, b'), 8, d'), 20, x'), 24, y')
         == a + b' + c + d' + e + x' + y'
  {
    hide Splice;
    var s0 := a + b + c + d + e + x + y;
    var s1 := Splice(s0, 1, b');
    var s2 := Splice(s1, 8, d');
    var s3 := Splice(s2, 20, x');
    var s4 := Splice(s3, 24, y');
    var t := a + b' + c + d' + e + x' + y';
    forall i | 0 <= i < 32
      ensures s4[i] == t[i]
    {
      SpliceAt(s0, 1, b', i);
      SpliceAt(s1, 8, d', i);
      SpliceAt(s2, 20, x', i);
      SpliceAt(s3, 24, y', i);
    }
  }

  lemma PatchedFile(secondary: byte, c: u16, isDir: bool, c': u16)
    ensures PatchFile(FileSlot(secondary, c, isDir), c') == FileSlot(secondary, c', isDir)
  {
    hide Splice, Le, Fill;
    var rest := [if isDir then DIR_ATTR else ARCHIVE_ATTR, 0, 0, 0]
                + Le(FIXED_TS, 4) + Le(FIXED_TS, 4) + Le(FIXED_TS, 4) + Fill(12, 0);
    assert FileSlot(secondary, c, isDir) == [ENTRY_FILE, secondary] + [c % 256, c / 256] + rest;
    SpliceMiddle([ENTRY_FILE, secondary], [c % 256, c / 256], rest, [c' % 256, c' / 256]);
    assert FileSlot(secondary, c', isDir) == [ENTRY_FILE, secondary] + [c' % 256, c' / 256] + rest;
  }

  /** The slots a rewrite of `set_` leaves, computed as the writer does: the checksum is taken over the old
      File slot and the new Stream slot. */
  function Rewritten(set_: seq<seq<byte>>, flags: byte, valid: nat, first: nat, len: nat): (r: seq<seq<byte>>)
    requires |set_| >= 2 && Slots(set_)
    ensures |r| == |set_| && Slots(r)
  {
    var stream := PatchStream(set_[1], flags, valid, first, len);
    var cs := Checksum([set_[0], stream] + set_[2..]);
    [PatchFile(set_[0], cs), stream] + set_[2..]
  }

  /** Rewriting the set of one state of an entry gives exactly the set of the next state, however often it
      is done. */
  lemma RewriteReencodes(f: Facts, f': Facts, upcase: seq<u16>)
    requires f.Recordable() && f'.Recordable() && f'.name == f.name && f'.isDir == f.isDir
    ensures Rewritten(Encode(f, upcase), f'.flags, f'.len, f'.first, f'.len) == Encode(f', upcase)
  {
    hide FileSlot, StreamSlot, PatchFile, PatchStream, Checksum, NameSlots, NameHash;
    var s, h := Encode(f, upcase), NameHash(upcase, f.name);
    var c := Checksum(Unsummed(f, upcase, 0));
    PatchedStream(f.flags, |f.name|, h, f.len, f.first, f.len, f'.flags, f'.len, f'.first, f'.len);
    assert s[2..] == NameSlots(f.name);
    var stream := PatchStream(s[1], f'.flags, f'.len, f'.first, f'.len);
    assert [s[0], stream] + s[2..] == Unsummed(f', upcase, c);
    ChecksumIgnoresItsField(f', upcase, c, 0);
    PatchedFile(SetSize(f.name) - 1, c, f.isDir, Checksum(Unsummed(f', upcase, c)));
  }

  /** Between the two writes of a rewrite the File slot carries the next checksum and the Stream slot the
      old contents: the reader reports the old entry or an error. */
  lemma TornRewriteReadsOld(f: Facts, upcase: seq<u16>, c: u16)
    requires f.Recordable()
    ensures var torn := [FileSlot(SetSize(f.name) - 1, c, f.isDir)] + Encode(f, upcase)[1..];
            DecodeSet(torn).Err? || DecodeSet(torn) == Ok(EntryOf(f))
  {
    var s := Encode(f, upcase);
    hide Checksum, FileSlot, StreamSlot, NameSlots, CollectUnits, BitSet, TimestampMs, NameHash, Field, DecodeSet;
    FileFields(SetSize(f.name) - 1, c, f.isDir);
    StreamFields(f.flags, |f.name|, NameHash(upcase, f.name), f.len, f.first, f.len);
    NameRoundTrip(f.name);
    var file := FileSlot(SetSize(f.name) - 1, c, f.isDir);
    assert s[2..] == NameSlots(f.name);
    assert [file] + s[1..] == [file, s[1]] + s[2..];
    ReadsAs(file, s[1], s[2..], f);
  }

  /** A set whose fields are those of `f` decodes to `f` unless its checksum is wrong. */
  lemma ReadsAs(file: seq<byte>, stream: seq<byte>, names: seq<seq<byte>>, f: Facts)
    requires |file| == SLOT == |stream| && Slots(names) && names != [] && |f.name| <= 255
    requires BitSet(file[4], 4) == f.isDir && Field(file, 12, 4) == FIXED_TS && file[22] == 0 && file[24] == 0
    requires stream[1] == f.flags && stream[3] == |f.name|
    requires Field(stream, 8, 8) == f.len && Field(stream, 20, 4) == f.first && Field(stream, 24, 8) == f.len
    requires CollectUnits(names, |f.name|) == f.name
    ensures Slots([file, stream] + names)
    ensures DecodeSet([file, stream] + names).Err? || DecodeSet([file, stream] + names) == Ok(EntryOf(f))
  {
    hide Checksum, CollectUnits, BitSet, TimestampMs, Field;
    var set_ := [file, stream] + names;
    assert set_[2..] == names;
  }

  // ---- Torn sets -----------------------------------------------------------------------

  /** A slot the writer may claim: end of directory, or not in use. */
  predicate Usable(slot: seq<byte>)
    requires |slot| == SLOT
  {
    slot[0] < 0x80
  }

  lemma {:induction false} TornName(name: Name, m: nat, rest: seq<seq<byte>>)
    requires m < DivCeil(|name|, NAME_UNITS) && Slots(rest)
    requires rest != [] ==> rest[0][0] != ENTRY_NAME
    ensures |CollectUnits(NameSlots(name)[..m] + rest, |name|)| < |name|
    decreases m
  {
    hide UnitsOf, NameSlot;
    DivCeilBounds(|name|, NAME_UNITS);
    if 0 < |name| <= NAME_UNITS {
      DivCeilIs(|name|, NAME_UNITS, 1);
    }
    if m == 0 {
      assert NameSlots(name)[..0] + rest == rest;
    } else {
      var tail := name[NAME_UNITS..];
      assert NameSlots(name)[..m] + rest
          == [NameSlot(name[..NAME_UNITS])] + (NameSlots(tail)[..m - 1] + rest);
      NameSlotUnits(name[..NAME_UNITS]);
      TornName(tail, m - 1, rest);
      assert (NameSlots(name)[..m] + rest)[1..] == NameSlots(tail)[..m - 1] + rest;
    }
  }

  /** However far the writes of a new set got, short of all of them, the reader rejects what is there:
      whatever the checksums are, a slot that was not yet written is neither a Stream nor a File Name slot. */
  lemma TornSetRejected(f: Facts, upcase: seq<u16>, old_: seq<seq<byte>>, j: nat)
    requires f.Recordable() && |old_| == SetSize(f.name) && Slots(old_)
    requires 1 <= j < |old_|
    requires forall i :: j <= i < |old_| ==> Usable(old_[i])
    ensures DecodeSet(Encode(f, upcase)[..j] + old_[j..]).Err?
  {
    var set_ := Encode(f, upcase);
    var torn := set_[..j] + old_[j..];
    EncodeParts(f, upcase);
    hide *;
    SecondaryFits(f.name);
    if j == 1 {
      assert torn[1] == old_[1];
      NoStream(torn);
    } else {
      assert torn[1] == set_[1];
      assert torn[2..] == set_[2..][..j - 2] + old_[j..];
      NotNames(old_, j);
      TornName(f.name, j - 2, old_[j..]);
      Rejects(torn, f.name);
    }
  }

  lemma EncodeParts(f: Facts, upcase: seq<u16>)
    requires f.Recordable()
    ensures var s := Encode(f, upcase);
      |s| == SetSize(f.name) && s[1][0] == ENTRY_STREAM && s[1][3] == |f.name| && s[2..] == NameSlots(f.name)
  {
    hide Checksum, FileSlot, NameSlots, NameHash, Le;
  }

  lemma NotNames(slots: seq<seq<byte>>, j: nat)
    requires Slots(slots) && j <= |slots| && forall i :: j <= i < |slots| ==> Usable(slots[i])
    ensures Slots(slots[j..]) && (slots[j..] != [] ==> slots[j..][0][0] != ENTRY_NAME)
  {
  }

  lemma NoStream(set_: seq<seq<byte>>)
    requires |set_| >= 3 && Slots(set_) && Usable(set_[1])
    ensures DecodeSet(set_).Err?
  {
    hide Checksum, CollectUnits, BitSet, TimestampMs, Field;
  }

  /** The reader rejects a set without a Stream slot, or with too few name units. */
  lemma Rejects(set_: seq<seq<byte>>, name: Name)
    requires |set_| >= 3 && Slots(set_)
    requires set_[1][0] != ENTRY_STREAM || (set_[1][3] == |name| && |CollectUnits(set_[2..], |name|)| < |name|)
    ensures DecodeSet(set_).Err?
  {
    hide Checksum, CollectUnits, BitSet, TimestampMs, Field;
  }
}
