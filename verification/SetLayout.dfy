/** The bytes of an entry set, position by position, as they are written and as they are read. */
module SetLayouts {
  import opened Bytes
  import opened EntrySets
  import opened RollingSums
  import opened Timestamps

  lemma FieldIs(s: seq<byte>, at: nat)
    requires at <= |s|
    ensures at + 2 <= |s| ==> Field(s, at, 2) == Value2(s, at)
    ensures at + 4 <= |s| ==> Field(s, at, 4) == Value4(s, at)
    ensures at + 8 <= |s| ==> Field(s, at, 8) == Value8(s, at)
  {
    hide FromLe, Value2, Value4, Value8;
    if at + 2 <= |s| {
      FromLeIsValue2(s, at);
    }
    if at + 4 <= |s| {
      FromLeIsValue4(s, at);
    }
    if at + 8 <= |s| {
      FromLeIsValue8(s, at);
    }
  }

  // ---- Reading ---------------------------------------------------------------------------------

  /** The File Name slots that `want` units call for are there. */
  ghost predicate NamesWhole(slots: seq<seq<byte>>, want: nat)
    requires Slots(slots)
  {
    (want + 14) / 15 <= |slots| && forall i :: 0 <= i < (want + 14) / 15 ==> slots[i][0] == 0xC1
  }

  /** The reader has all units exactly when those slots are there. */
  lemma {:induction false} CollectedWhole(slots: seq<seq<byte>>, want: nat)
    requires Slots(slots)
    ensures |CollectUnits(slots, want)| == want <==> NamesWhole(slots, want)
    decreases |slots|
  {
    hide UnitsOf;
    if slots != [] && slots[0][0] == 0xC1 {
      var n := Min(15, want);
      CollectedWhole(slots[1..], want - n);
      if want > 15 {
        assert (want - n + 14) / 15 == (want + 14) / 15 - 1;
        assert forall i :: 0 <= i < |slots| - 1 ==> slots[1..][i] == slots[i + 1];
        assert forall i :: 1 <= i < |slots| ==> slots[i] == slots[1..][i - 1];
      }
    }
  }

  /** Unit `k` lies in the `k / 15`-th slot, after the two bytes at its head, low byte first. */
  lemma {:induction false} CollectedAt(slots: seq<seq<byte>>, want: nat, k: nat)
    requires Slots(slots) && k < |CollectUnits(slots, want)|
    ensures k / 15 < |slots| && CollectUnits(slots, want)[k] == Value2(slots[k / 15], 2 + 2 * (k % 15))
    decreases |slots|
  {
    hide UnitsOf, Value2;
    var n := Min(15, want);
    if k < n {
      UnitsAt(slots[0], k);
    } else {
      CollectedAt(slots[1..], want - n, k - n);
      assert (k - n) / 15 == k / 15 - 1 && (k - n) % 15 == k % 15;
    }
  }

  lemma UnitsAt(slot: seq<byte>, k: nat)
    requires |slot| == 32 && k < 15
    ensures UnitsOf(slot)[k] == Value2(slot, 2 + 2 * k)
  {
  }

  /** The sum that the first slot holds is the rolling checksum of the set. */
  ghost predicate SumHolds(set_: seq<seq<byte>>)
    requires set_ != [] && Slots(set_)
  {
    RollsTo(16, SetBytes(set_), Value2(set_[0], 2))
  }

  lemma SumHoldsIs(set_: seq<seq<byte>>)
    requires set_ != [] && Slots(set_)
    ensures SumHolds(set_) <==> Checksum(set_) == Field(set_[0], 2, 2)
  {
    hide RollsTo, SetBytes, Checksum, Field, Value2;
    FieldIs(set_[0], 2);
    ChecksumRolls(set_);
    if SumHolds(set_) {
      RollsUniquely(16, SetBytes(set_), Checksum(set_), Value2(set_[0], 2));
    }
  }

  /** The reader accepts a set exactly when its sum holds, a Stream slot follows the File slot and the File Name
      slots are there. Written by whomever, its fields are the bytes at these places. */
  lemma DecodesBytes(set_: seq<seq<byte>>)
    requires |set_| >= 3 && Slots(set_)
    ensures DecodeSet(set_).Ok? <==> SumHolds(set_) && set_[1][0] == 0xC0 && NamesWhole(set_[2..], set_[1][3])
    ensures !SumHolds(set_) ==> DecodeSet(set_) == Err(Invalid("entry set checksum mismatch"))
    ensures DecodeSet(set_).Ok? ==> var e, file, stream := DecodeSet(set_).value, set_[0], set_[1];
      && |e.name| == stream[3]
      && (forall k :: 0 <= k < |e.name| ==> k / 15 < |set_| - 2 && e.name[k] == Value2(set_[2 + k / 15], 2 + 2 * (k % 15)))
      && e.isDir == (file[4] / 16 % 2 == 1)
      && e.validSize == Value8(stream, 8) && e.firstCluster == Value4(stream, 20) && e.size == Value8(stream, 24)
      && e.noFatChain == (stream[1] / 2 % 2 == 1)
      && e.mtimeMs == TimestampMs(Value4(file, 12), file[22], file[24])
  {
    var file, stream := set_[0], set_[1];
    SumHoldsIs(set_);
    CollectedWhole(set_[2..], stream[3]);
    forall k | 0 <= k < |CollectUnits(set_[2..], stream[3])|
      ensures k / 15 < |set_| - 2 && CollectUnits(set_[2..], stream[3])[k] == Value2(set_[2 + k / 15], 2 + 2 * (k % 15))
    {
      CollectedAt(set_[2..], stream[3], k);
    }
    FieldIs(stream, 8);
    FieldIs(stream, 20);
    FieldIs(stream, 24);
    FieldIs(file, 12);
    BitSetCounts(file[4], 4);
    BitSetCounts(stream[1], 1);
    assert Pow2(4) == 16 && Pow2(1) == 2;
    hide Checksum, SumHolds, CollectUnits, BitSet, Field, TimestampMs, Value2, Value4, Value8, NamesWhole;
  }

  // ---- Writing ---------------------------------------------------------------------------------

  /** A File slot: type, number of secondaries, checksum, attributes, three timestamps of 2024-01-01, zeros. */
  ghost predicate FileBytesAre(s: seq<byte>, secondaries: nat, isDir: bool)
    requires |s| == 32
  {
    && s[0] == 0x85 && s[1] == secondaries && Value2(s, 4) == (if isDir then 0x10 else 0x20) && Value2(s, 6) == 0
    && Value4(s, 8) == Value4(s, 12) == Value4(s, 16) == 44 * 0x200_0000 + 1 * 0x20_0000 + 1 * 0x1_0000
    && forall i :: 20 <= i < 32 ==> s[i] == 0
  }

  /** A Stream slot: type, flags, name length, hash, valid length, first cluster, length. */
  ghost predicate StreamBytesAre(s: seq<byte>, f: Facts, upcase: seq<u16>)
    requires |s| == 32
  {
    && s[0] == 0xC0 && s[1] == f.flags && s[2] == 0 && s[3] == |f.name|
    && RollsTo(16, FoldedBytes(upcase, f.name), Value2(s, 4)) && Value2(s, 6) == 0
    && Value8(s, 8) == f.len && Value4(s, 16) == 0 && Value4(s, 20) == f.first && Value8(s, 24) == f.len
  }

  /** The `i`-th File Name slot: type, no flags, fifteen units low byte first, zeros after the end of the name. */
  ghost predicate NameBytesAre(s: seq<byte>, name: Name, i: nat)
    requires |s| == 32
  {
    && s[0] == 0xC1 && s[1] == 0
    && forall j :: 0 <= j < 15 ==> Value2(s, 2 + 2 * j) == if 15 * i + j < |name| then name[15 * i + j] else 0
  }

  /** Three equal numbers after the first eight bytes. */
  lemma ThreeStamps(head: seq<byte>, stamp: nat, rest: seq<byte>, s: seq<byte>)
    requires |head| == 8 && stamp < 0x1_0000_0000 && s == head + Le(stamp, 4) + Le(stamp, 4) + Le(stamp, 4) + rest
    ensures Value4(s, 8) == Value4(s, 12) == Value4(s, 16) == stamp
    ensures s[..8] == head && s[20..] == rest
  {
    PowersOf256();
    FromLeOfLe(stamp, 4);
    FromLeIsValue4(s, 8);
    FromLeIsValue4(s, 12);
    FromLeIsValue4(s, 16);
    hide Le, FromLe, Value4;
    ThreeParts(head, Le(stamp, 4), rest, s);
  }

  lemma ThreeParts(head: seq<byte>, x: seq<byte>, rest: seq<byte>, s: seq<byte>)
    requires |head| == 8 && |x| == 4 && s == head + x + x + x + rest
    ensures s[8..12] == x && s[12..16] == x && s[16..20] == x && s[..8] == head && s[20..] == rest
  {
  }

  lemma FileBytes(secondary: byte, checksum: u16, isDir: bool)
    ensures FileBytesAre(FileSlot(secondary, checksum, isDir), secondary, isDir)
    ensures Value2(FileSlot(secondary, checksum, isDir), 2) == checksum
  {
    var s := FileSlot(secondary, checksum, isDir);
    hide Le, Value4;
    var head := [0x85, secondary, checksum % 256, checksum / 256, if isDir then 0x10 else 0x20, 0, 0, 0];
    assert s == head + Le(FIXED_TS, 4) + Le(FIXED_TS, 4) + Le(FIXED_TS, 4) + Fill(12, 0);
    ThreeStamps(head, FIXED_TS, Fill(12, 0), s);
    assert forall i :: 0 <= i < 8 ==> s[i] == s[..8][i];
    assert forall i :: 20 <= i < 32 ==> s[i] == s[20..][i - 20];
  }

  lemma StreamBytes(f: Facts, upcase: seq<u16>, s: seq<byte>)
    requires f.Recordable() && s == StreamSlot(f.flags, |f.name|, NameHash(upcase, f.name), f.len, f.first, f.len)
    ensures StreamBytesAre(s, f, upcase)
  {
    HashRolls(upcase, f.name);
    StreamFields(f.flags, |f.name|, NameHash(upcase, f.name), f.len, f.first, f.len);
    FieldIs(s, 8);
    FieldIs(s, 20);
    FieldIs(s, 24);
    hide *;
    StreamHead(f.flags, |f.name|, NameHash(upcase, f.name), f.len, f.first, f.len, s);
    StreamIs(s, f, upcase, NameHash(upcase, f.name));
  }

  lemma StreamHead(flags: byte, nameLen: byte, hash: u16, valid: nat, first: nat, len: nat, s: seq<byte>)
    requires s == StreamSlot(flags, nameLen, hash, valid, first, len)
    ensures |s| == 32 && s[0] == 0xC0 && s[1] == flags && s[2] == 0 && s[3] == nameLen
    ensures Value2(s, 4) == hash && Value2(s, 6) == 0 && Value4(s, 16) == 0
  {
    hide Le;
    var head := [0xC0, flags, 0, nameLen, hash % 256, hash / 256, 0, 0];
    ReservedZero(head, Le(valid, 8), Le(first, 4) + Le(len, 8), s);
    assert forall i :: 0 <= i < 8 ==> s[i] == s[..8][i];
  }

  lemma StreamIs(s: seq<byte>, f: Facts, upcase: seq<u16>, hash: u16)
    requires |s| == 32 && s[0] == 0xC0 && s[1] == f.flags && s[2] == 0 && s[3] == |f.name|
    requires Value2(s, 4) == hash && Value2(s, 6) == 0 && Value4(s, 16) == 0
    requires RollsTo(16, FoldedBytes(upcase, f.name), hash)
    requires Value8(s, 8) == f.len && Value4(s, 20) == f.first && Value8(s, 24) == f.len
    ensures StreamBytesAre(s, f, upcase)
  {
  }

  lemma ReservedZero(head: seq<byte>, valid: seq<byte>, rest: seq<byte>, s: seq<byte>)
    requires |head| == 8 == |valid| && |rest| == 12 && s == head + valid + [0, 0, 0, 0] + rest
    ensures Value4(s, 16) == 0 && s[..8] == head
  {
  }

  lemma {:induction false} NameBytes(name: Name, i: nat)
    requires i < DivCeil(|name|, NAME_UNITS)
    ensures NameBytesAre(NameSlots(name)[i], name, i)
  {
    hide NameSlot;
    if |name| <= 15 {
      DivCeilBounds(|name|, 15);
      OneNameSlot(name);
    } else if i == 0 {
      OneNameSlot(name[..15]);
    } else {
      DivCeilMinus(|name|);
      NameBytes(name[15..], i - 1);
    }
  }

  lemma DivCeilMinus(n: nat)
    requires 15 < n
    ensures DivCeil(n - 15, NAME_UNITS) == DivCeil(n, NAME_UNITS) - 1
  {
  }

  lemma OneNameSlot(chunk: Name)
    requires |chunk| <= 15
    ensures NameBytesAre(NameSlot(chunk), chunk, 0)
  {
    var s := NameSlot(chunk);
    forall j | 0 <= j < 15
      ensures Value2(s, 2 + 2 * j) == if j < |chunk| then chunk[j] else 0
    {
      if j < |chunk| {
        UnitBytesAt(chunk, j);
        assert s[2 + 2 * j] == UnitBytes(chunk)[2 * j] && s[3 + 2 * j] == UnitBytes(chunk)[2 * j + 1];
      }
    }
  }

  /** What is written for an entry, byte by byte. The sum in the first slot holds. */
  lemma EncodesBytes(f: Facts, upcase: seq<u16>)
    requires f.Recordable()
    ensures var s := Encode(f, upcase);
      && |s| == 2 + (|f.name| + 14) / 15 && SumHolds(s)
      && FileBytesAre(s[0], |s| - 1, f.isDir) && StreamBytesAre(s[1], f, upcase)
      && forall i :: 2 <= i < |s| ==> NameBytesAre(s[i], f.name, i - 2)
  {
    var cs := Checksum(Unsummed(f, upcase, 0));
    var s := Encode(f, upcase);
    hide Checksum, FileSlot, StreamSlot, NameSlots, NameHash, FileBytesAre, StreamBytesAre, NameBytesAre, SumHolds, Field,
         Value2;
    SecondaryFits(f.name);
    FileBytes(SetSize(f.name) - 1, cs, f.isDir);
    FieldIs(s[0], 2);
    ChecksumIgnoresItsField(f, upcase, 0, cs);
    SumHoldsIs(s);
    StreamBytes(f, upcase, s[1]);
    forall i | 2 <= i < |s|
      ensures NameBytesAre(s[i], f.name, i - 2)
    {
      NameBytes(f.name, i - 2);
    }
  }
}
