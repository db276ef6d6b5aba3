/** Directory writes: claiming slots, writing, rewriting and clearing entry sets. */
module SlotWrites {
  import opened Bytes
  import opened Directories
  import opened EntrySets
  import opened FileData
  import opened Footprints
  import opened Geometries
  import opened Volumes

  // ---- Finding room --------------------------------------------------------------------

  /** `k` consecutive usable slots of cluster `c` start at `s`. */
  ghost predicate RunAt(v: Vol, c: nat, per: nat, k: nat, s: nat)
  {
    s + k <= per && forall j: nat :: s <= j < s + k ==> |v.Slot(SlotAddr(c, j))| == SLOT && Usable(v.Slot(SlotAddr(c, j)))
  }

  /** The first run of `k` usable slots of a cluster, if there is one. */
  method ScanCluster(v: Volume, c: nat, k: nat) returns (r: Result<Option<nat>>)
    requires v.Valid() && 0 < v.geo.ClusterBytes() && v.geo.InRange(c) && !v.geo.InBitmapRun(v.bm, c) && 0 < k
    ensures r.Ok?
    ensures r.value.Some? ==> RunAt(v.vol, c, v.geo.Per(), k, r.value.value)
    ensures forall s: nat {:trigger RunAt(v.vol, c, v.geo.Per(), k, s)} ::
      r.value.None? || s < r.value.value ==> !RunAt(v.vol, c, v.geo.Per(), k, s)
  {
    hide Volume.Valid, Geometry.Per, Geometry.ClusterBytes, Geometry.InBitmapRun, RunAt, Scanned;
    var per := v.geo.Per();
    var runStart: Option<nat> := None;
    NothingScanned(v.vol, c, per, k);
    for s := 0 to per
      invariant runStart.Some? ==> runStart.value < s
      invariant Scanned(v.vol, c, per, k, s, if runStart.Some? then runStart.value else s)
    {
      var raw := v.ReadSlot(SlotAddr(c, s));
      var rs := if runStart.Some? then runStart.value else s;
      if Usable(raw.value) {
        RunGrows(v.vol, c, per, k, s, rs);
        if s - rs + 1 >= k {
          return Ok(Some(rs));
        }
        runStart := Some(rs);
      } else {
        RunBreaks(v.vol, c, per, k, s, rs);
        runStart := None;
      }
    }
    NoneBefore(v.vol, c, per, k, per, if runStart.Some? then runStart.value else per);
    return Ok(None);
  }

  /** The slots below `s` hold no run of `k`; those from `rs` on are usable, and the one ahead of them is not. */
  ghost predicate Scanned(v: Vol, c: nat, per: nat, k: nat, s: nat, rs: nat)
  {
    && rs <= s <= per && s < rs + k && RunAt(v, c, per, s - rs, rs)
    && (0 < rs ==> |v.Slot(SlotAddr(c, rs - 1))| == SLOT && !Usable(v.Slot(SlotAddr(c, rs - 1))))
    && forall s': nat :: s' + k <= s ==> !RunAt(v, c, per, k, s')
  }

  lemma NothingScanned(v: Vol, c: nat, per: nat, k: nat)
    requires 0 < k
    ensures Scanned(v, c, per, k, 0, 0)
  {
  }

  /** A run of `k` would have to start at `rs` or later. */
  lemma NoneEarlier(v: Vol, c: nat, per: nat, k: nat, s: nat, rs: nat, s': nat)
    requires Scanned(v, c, per, k, s, rs) && s' < rs && s < s' + k
    ensures !RunAt(v, c, per, k, s')
  {
    assert s' <= rs - 1 < s' + k;
  }

  lemma RunGrows(v: Vol, c: nat, per: nat, k: nat, s: nat, rs: nat)
    requires Scanned(v, c, per, k, s, rs) && s < per
    requires |v.Slot(SlotAddr(c, s))| == SLOT && Usable(v.Slot(SlotAddr(c, s)))
    ensures s - rs + 1 < k ==> Scanned(v, c, per, k, s + 1, rs)
    ensures s - rs + 1 >= k ==> RunAt(v, c, per, k, rs)
    ensures s - rs + 1 >= k ==> forall s': nat {:trigger RunAt(v, c, per, k, s')} :: s' < rs ==> !RunAt(v, c, per, k, s')
  {
    hide Usable, Vol.Slot;
    forall s': nat | s' < rs && s < s' + k
      ensures !RunAt(v, c, per, k, s')
    {
      NoneEarlier(v, c, per, k, s, rs, s');
    }
  }

  lemma RunBreaks(v: Vol, c: nat, per: nat, k: nat, s: nat, rs: nat)
    requires Scanned(v, c, per, k, s, rs) && s < per && 0 < k
    requires |v.Slot(SlotAddr(c, s))| == SLOT && !Usable(v.Slot(SlotAddr(c, s)))
    ensures Scanned(v, c, per, k, s + 1, s + 1)
  {
    hide Usable, Vol.Slot;
    forall s': nat | s' + k <= s + 1
      ensures !RunAt(v, c, per, k, s')
    {
      if s' + k == s + 1 {
        assert s' <= s < s' + k;
      }
    }
  }

  lemma NoneBefore(v: Vol, c: nat, per: nat, k: nat, s: nat, rs: nat)
    requires Scanned(v, c, per, k, s, rs) && s == per
    ensures forall s': nat {:trigger RunAt(v, c, per, k, s')} :: !RunAt(v, c, per, k, s')
  {
  }

  /** The `i`-th cluster of the directory holds a run at `s`, and nothing earlier in the walk does. */
  ghost predicate FirstRun(v: Vol, ch: seq<nat>, per: nat, k: nat, i: nat, s: nat)
  {
    && i < |ch| && RunAt(v, ch[i], per, k, s)
    && (forall s': nat :: s' < s ==> !RunAt(v, ch[i], per, k, s'))
    && NoRun(v, ch[..i], per, k)
  }

  ghost predicate NoRun(v: Vol, ch: seq<nat>, per: nat, k: nat)
  {
    forall i, s: nat :: 0 <= i < |ch| ==> !RunAt(v, ch[i], per, k, s)
  }

  /** The first place in a directory where `k` slots fit inside one cluster. */
  method FindSlotRun(v: Volume, ch: seq<nat>, k: nat) returns (r: Result<Option<(nat, nat)>>)
    requires v.Valid() && 0 < v.geo.ClusterBytes() && DirClusters(v, ch) && 0 < k
    ensures r.Ok?
    ensures r.value.Some? ==> FirstRun(v.vol, ch, v.geo.Per(), k, r.value.value.0, r.value.value.1)
    ensures r.value.None? ==> NoRun(v.vol, ch, v.geo.Per(), k)
  {
    hide Volume.Valid, Geometry.Per, Geometry.ClusterBytes, Geometry.InBitmapRun, RunAt;
    for ci := 0 to |ch|
      invariant NoRun(v.vol, ch[..ci], v.geo.Per(), k)
    {
      var run := ScanCluster(v, ch[ci], k);
      if run.value.Some? {
        return Ok(Some((ci, run.value.value)));
      }
      assert ch[..ci + 1] == ch[..ci] + [ch[ci]];
    }
    assert ch[..|ch|] == ch;
    return Ok(None);
  }

  // ---- Writing slots in order ----------------------------------------------------------

  /** `v` is `v0` with the first `j` of `slots` written at the first `j` of `addrs`. */
  ghost predicate SlotsWritten(v0: Vol, v: Vol, addrs: seq<SlotAddr>, slots: seq<seq<byte>>, j: nat)
    requires j <= |addrs| == |slots|
  {
    && v.fat == v0.fat && v.bits == v0.bits && |v.data| == |v0.data|
    && (forall i :: 0 <= i < j ==> v.Slot(addrs[i]) == slots[i])
    && (forall a :: a !in addrs[..j] ==> v.Slot(a) == v0.Slot(a))
    && (forall c :: 0 <= c < |v.data| && (forall i :: 0 <= i < j ==> addrs[i].cluster != c) ==> v.data[c] == v0.data[c])
  }

  /** From index `n` on the trace writes `slots` at `addrs` one by one. */
  ghost predicate SlotTrace(v0: Vol, trace: seq<Vol>, n: nat, addrs: seq<SlotAddr>, slots: seq<seq<byte>>)
    requires |addrs| == |slots|
  {
    forall k :: n <= k < |trace| && k < n + |addrs| ==> SlotsWritten(v0, trace[k], addrs, slots, k - n + 1)
  }

  lemma NoSlotsWritten(v0: Vol, addrs: seq<SlotAddr>, slots: seq<seq<byte>>)
    requires |addrs| == |slots|
    ensures SlotsWritten(v0, v0, addrs, slots, 0)
  {
  }

  lemma SlotsWrittenConfined(v0: Vol, v: Vol, addrs: seq<SlotAddr>, slots: seq<seq<byte>>, j: nat)
    requires j <= |addrs| == |slots| && SlotsWritten(v0, v, addrs, slots, j)
    ensures Confined(v0, v, SlotsOf(Elems(addrs)))
  {
    forall c | 0 <= c < |v.data| && c !in Homes(Elems(addrs))
      ensures v.data[c] == v0.data[c]
    {
      assert forall i :: 0 <= i < j ==> addrs[i].cluster in Homes(Elems(addrs));
    }
  }

  /** Write `slots` at `addrs`, one device write each, in order. */
  method WriteSlots(v: Volume, addrs: seq<SlotAddr>, slots: seq<seq<byte>>)
    requires v.Valid() && 0 < v.geo.ClusterBytes() && DirAddrs(v, addrs)
    requires |addrs| == |slots| && Slots(slots) && Distinct(addrs)
    modifies v, v.disk
    ensures v.Valid() && old(v.trace) <= v.trace
    ensures SlotsWritten(old(v.vol), v.vol, addrs, slots, |addrs|)
    ensures |v.trace| == |old(v.trace)| + |addrs|
    ensures SlotTrace(old(v.vol), v.trace, |old(v.trace)|, addrs, slots)
    ensures addrs != [] ==> v.trace[|v.trace| - 1] == v.vol
  {
    hide Volume.Valid, Geometry.Per, Geometry.ClusterBytes, Geometry.InBitmapRun, SlotsWritten, Distinct, Vol.Slot;
    ghost var v0, n := v.vol, |v.trace|;
    NoSlotsWritten(v0, addrs, slots);
    for i := 0 to |addrs|
      invariant v.Valid() && old(v.trace) <= v.trace && |v.trace| == n + i
      invariant SlotsWritten(v0, v.vol, addrs, slots, i)
      invariant SlotTrace(v0, v.trace, n, addrs, slots)
      invariant 0 < i ==> v.trace[|v.trace| - 1] == v.vol
    {
      ghost var v1 := v.vol;
      var _ := v.WriteSlot(addrs[i], slots[i]);
      OneMoreSlot(v0, v1, v.vol, addrs, slots, i);
    }
  }

  lemma OneMoreSlot(v0: Vol, v1: Vol, v2: Vol, addrs: seq<SlotAddr>, slots: seq<seq<byte>>, i: nat)
    requires i < |addrs| == |slots| && Distinct(addrs)
    requires SlotsWritten(v0, v1, addrs, slots, i)
    requires v2.fat == v1.fat && v2.bits == v1.bits && |v2.data| == |v1.data|
    requires forall c :: 0 <= c < |v2.data| && c != addrs[i].cluster ==> v2.data[c] == v1.data[c]
    requires forall a :: v2.Slot(a) == if a == addrs[i] then slots[i] else v1.Slot(a)
    ensures SlotsWritten(v0, v2, addrs, slots, i + 1)
  {
    hide Vol.Slot;
    assert addrs[..i + 1] == addrs[..i] + [addrs[i]];
    forall c | 0 <= c < |v2.data| && (forall j :: 0 <= j < i + 1 ==> addrs[j].cluster != c)
      ensures v2.data[c] == v0.data[c]
    {
      assert addrs[i].cluster != c;
    }
  }

  // ---- Rewriting and clearing ----------------------------------------------------------

  /** Rewrite a set's Stream slot and its File slot's checksum in place: two device writes, the File slot
      first. */
  method RewriteStream(v: Volume, entry: EntryLoc, first: nat, len: nat, valid: nat, flags: byte)
    requires v.Valid() && 0 < v.geo.ClusterBytes() && DirAddrs(v, entry.offsets)
    requires 2 <= |entry.offsets| && Distinct(entry.offsets)
    modifies v, v.disk
    ensures v.Valid() && old(v.trace) <= v.trace && |v.trace| == |old(v.trace)| + 2
    ensures Slots(SlotsAt(old(v.vol), entry.offsets))
    ensures var next := Rewritten(SlotsAt(old(v.vol), entry.offsets), flags, valid, first, len);
      && SlotsWritten(old(v.vol), v.trace[|old(v.trace)|], entry.offsets[..2], next[..2], 1)
      && SlotsWritten(old(v.vol), v.vol, entry.offsets[..2], next[..2], 2)
      && v.trace[|old(v.trace)| + 1] == v.vol
  {
    hide Volume.Valid, Geometry.Per, Geometry.ClusterBytes, Geometry.InBitmapRun, SlotsWritten, PatchFile, PatchStream, Checksum;
    ghost var all := SlotsAt(v.vol, entry.offsets);
    var before := ReadAll(v, entry.offsets);
    var stream := PatchStream(before[1], flags, valid, first, len);
    var cs := SetChecksum([before[0], stream] + before[2..]);
    assert Rewritten(all, flags, valid, first, len)[..2] == [PatchFile(before[0], cs), stream];
    WriteSlots(v, entry.offsets[..2], [PatchFile(before[0], cs), stream]);
  }

  /** The slots at `addrs`, in order. */
  method ReadAll(v: Volume, addrs: seq<SlotAddr>) returns (slots: seq<seq<byte>>)
    requires v.Valid() && 0 < v.geo.ClusterBytes() && DirAddrs(v, addrs)
    ensures slots == SlotsAt(v.vol, addrs) && Slots(slots)
  {
    hide Volume.Valid, Geometry.Per, Geometry.ClusterBytes, Geometry.InBitmapRun, Vol.Slot;
    slots := [];
    for i := 0 to |addrs|
      invariant slots == SlotsAt(v.vol, addrs)[..i] && Slots(slots)
    {
      var s := v.ReadSlot(addrs[i]);
      slots := slots + [s.value];
    }
  }

  /** A slot with its in-use bit cleared. */
  function Cleared(s: seq<byte>): (r: seq<byte>)
    requires |s| == SLOT
    ensures |r| == SLOT && Usable(r)
  {
    s[0 := s[0] % 128]
  }

  /** The slots that a new set may take: those whose in-use bit is clear. */
  lemma UsableBit(s: seq<byte>)
    requires |s| == SLOT
    ensures Usable(s) <==> !BitSet(s[0], 7)
  {
    assert Pow2(7) == 128 by {
      assert Pow2(3) == 8 && Pow2(5) == 4 * Pow2(3);
    }
    BitSetCounts(s[0], 7);
    hide BitSet, Pow2;
  }

  /** Clearing a slot takes the in-use bit off its type and leaves every other bit and byte. */
  lemma ClearedBits(s: seq<byte>, k: nat)
    requires |s| == SLOT && k < 8
    ensures BitSet(Cleared(s)[0], k) <==> k != 7 && BitSet(s[0], k)
    ensures Cleared(s)[1..] == s[1..]
  {
    assert Pow2(7) == 128 by {
      assert Pow2(3) == 8 && Pow2(5) == 4 * Pow2(3);
    }
    LowBits(s[0], 7, k);
    if k == 7 {
      hide BitSet, Pow2;
    }
  }

  function ClearedAll(slots: seq<seq<byte>>): (r: seq<seq<byte>>)
    requires Slots(slots)
    ensures |r| == |slots| && Slots(r)
    ensures forall i :: 0 <= i < |r| ==> r[i] == Cleared(slots[i])
  {
    seq(|slots|, i requires 0 <= i < |slots| => Cleared(slots[i]))
  }

  /** Clear the in-use bit of each slot of a set, in order. */
  method ClearSet(v: Volume, addrs: seq<SlotAddr>)
    requires v.Valid() && 0 < v.geo.ClusterBytes() && DirAddrs(v, addrs) && Distinct(addrs)
    modifies v, v.disk
    ensures v.Valid() && old(v.trace) <= v.trace
    ensures Slots(SlotsAt(old(v.vol), addrs))
    ensures var cleared := ClearedAll(SlotsAt(old(v.vol), addrs));
      && SlotsWritten(old(v.vol), v.vol, addrs, cleared, |addrs|)
      && |v.trace| == |old(v.trace)| + |addrs|
      && SlotTrace(old(v.vol), v.trace, |old(v.trace)|, addrs, cleared)
  {
    hide Volume.Valid, Geometry.Per, Geometry.ClusterBytes, Geometry.InBitmapRun, SlotsWritten, Distinct, Vol.Slot, Cleared;
    WholeSlots(v, addrs);
    ghost var v0, n, cleared := v.vol, |v.trace|, ClearedAll(SlotsAt(v.vol, addrs));
    NoSlotsWritten(v0, addrs, cleared);
    for i := 0 to |addrs|
      invariant v.Valid() && old(v.trace) <= v.trace && |v.trace| == n + i
      invariant SlotsWritten(v0, v.vol, addrs, cleared, i)
      invariant SlotTrace(v0, v.trace, n, addrs, cleared)
    {
      ghost var v1 := v.vol;
      SlotNotYet(v0, v1, addrs, cleared, i);
      var raw := v.ReadSlot(addrs[i]);
      var _ := v.WriteSlot(addrs[i], Cleared(raw.value));
      OneMoreSlot(v0, v1, v.vol, addrs, cleared, i);
    }
  }

  lemma SlotNotYet(v0: Vol, v: Vol, addrs: seq<SlotAddr>, slots: seq<seq<byte>>, i: nat)
    requires i < |addrs| == |slots| && Distinct(addrs) && SlotsWritten(v0, v, addrs, slots, i)
    ensures v.Slot(addrs[i]) == v0.Slot(addrs[i])
  {
    assert addrs[i] !in addrs[..i];
  }

  /** Zero a freshly allocated directory cluster: every slot then ends the directory. */
  method ZeroCluster(v: Volume, c: nat)
    requires v.Valid() && 0 < v.geo.ClusterBytes() && v.geo.InRange(c) && !v.geo.InBitmapRun(v.bm, c)
    modifies v, v.disk
    ensures v.Valid() && v.trace == old(v.trace) + [v.vol]
    ensures OnlyData(old(v.vol), v.vol, {c})
    ensures forall s :: 0 <= s < v.geo.Per() ==> v.vol.Slot(SlotAddr(c, s)) == Zeros(SLOT)
  {
    v.Sizes();
    hide Volume.Valid, Geometry.ClusterBytes, Geometry.InBitmapRun;
    var zero := Zeros(v.geo.ClusterBytes());
    var _ := v.WriteCluster(c, 0, zero);
    assert v.vol.data[c] == zero;
    forall s | 0 <= s < v.geo.Per()
      ensures v.vol.Slot(SlotAddr(c, s)) == Zeros(SLOT)
    {
      assert v.vol.Slot(SlotAddr(c, s)) == zero[SLOT * s..SLOT * s + SLOT];
    }
  }
}
