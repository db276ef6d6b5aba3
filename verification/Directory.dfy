/** Directories on disk: the slots of a cluster chain, the writer's search and the reader's listing. */
module Directories {
  import opened Bytes
  import opened EntrySets
  import opened Fats
  import opened FileData
  import opened Geometries
  import opened SlotLists
  import opened Timestamps
  import opened Volumes

  /** A located, in-use entry set. */
  datatype EntryLoc = EntryLoc(offsets: seq<SlotAddr>, firstCluster: nat, dataLen: nat, isDir: bool, flags: byte)

  // ---- Slot addresses ------------------------------------------------------------------

  function ClusterAddrs(c: nat, per: nat): (a: seq<SlotAddr>)
    ensures |a| == per && forall s :: 0 <= s < per ==> a[s] == SlotAddr(c, s)
  {
    seq(per, s requires 0 <= s < per => SlotAddr(c, s))
  }

  /** `n` consecutive slots of cluster `c`, from index `s` on. */
  function SlotRun(c: nat, s: nat, n: nat): (a: seq<SlotAddr>)
    ensures |a| == n && forall j :: 0 <= j < n ==> a[j] == SlotAddr(c, s + j)
  {
    seq(n, j requires 0 <= j < n => SlotAddr(c, s + j))
  }

  /** The slots of a directory whose clusters are `ch`, in walking order. */
  function Addrs(ch: seq<nat>, per: nat): seq<SlotAddr>
  {
    if ch == [] then [] else ClusterAddrs(ch[0], per) + Addrs(ch[1..], per)
  }

  function SlotsAt(v: Vol, addrs: seq<SlotAddr>): (s: seq<seq<byte>>)
    ensures |s| == |addrs| && forall i :: 0 <= i < |addrs| ==> s[i] == v.Slot(addrs[i])
  {
    seq(|addrs|, i requires 0 <= i < |addrs| => v.Slot(addrs[i]))
  }

  lemma {:induction false} AddrsSize(ch: seq<nat>, per: nat)
    ensures |Addrs(ch, per)| == |ch| * per
  {
    if ch != [] {
      AddrsSize(ch[1..], per);
      BlocksEnd(1, |ch| - 1, per);
    }
  }

  /** The position of slot `s` of the `i`-th cluster. */
  lemma {:induction false} AddrsAt(ch: seq<nat>, per: nat, i: nat, s: nat)
    requires i < |ch| && s < per
    ensures i * per + s < |Addrs(ch, per)| && Addrs(ch, per)[i * per + s] == SlotAddr(ch[i], s)
  {
    if i > 0 {
      AddrsAt(ch[1..], per, i - 1, s);
      BlocksEnd(1, i - 1, per);
    } else {
      assert i * per == 0;
    }
  }

  lemma AddrsIndex(ch: seq<nat>, per: nat, k: nat)
    requires 0 < per && k < |Addrs(ch, per)|
    ensures k / per < |ch| && k % per < per && k == k / per * per + k % per
    ensures Addrs(ch, per)[k] == SlotAddr(ch[k / per], k % per)
  {
    AddrsSize(ch, per);
    BlockIndex(k, per, |ch|);
    AddrsAt(ch, per, k / per, k % per);
  }

  /** Slots that follow one another inside a cluster follow one another in the walk. */
  lemma AddrsRun(ch: seq<nat>, per: nat, i: nat, s: nat, n: nat)
    requires i < |ch| && s + n <= per
    ensures i * per + s + n <= |Addrs(ch, per)|
    ensures Addrs(ch, per)[i * per + s..i * per + s + n] == SlotRun(ch[i], s, n)
  {
    AddrsSize(ch, per);
    MulMono(i + 1, |ch|, per);
    BlocksEnd(i, 1, per);
    var pos := i * per + s;
    var l, r := Addrs(ch, per)[pos..pos + n], SlotRun(ch[i], s, n);
    forall j | 0 <= j < n
      ensures l[j] == r[j]
    {
      AddrsAt(ch, per, i, s + j);
    }
  }

  lemma {:induction false} AddrsAppend(a: seq<nat>, b: seq<nat>, per: nat)
    ensures Addrs(a + b, per) == Addrs(a, per) + Addrs(b, per)
  {
    hide ClusterAddrs;
    if a == [] {
      assert a + b == b;
    } else {
      AddrsAppend(a[1..], b, per);
      assert (a + b)[0] == a[0] && (a + b)[1..] == a[1..] + b;
      Associates(ClusterAddrs(a[0], per), Addrs(a[1..], per), Addrs(b, per));
    }
  }

  lemma AddrsFrom(ch: seq<nat>, per: nat, i: nat)
    requires i < |ch|
    ensures Addrs(ch[i..], per) == ClusterAddrs(ch[i], per) + Addrs(ch[i + 1..], per)
  {
    assert ch[i..][0] == ch[i] && ch[i..][1..] == ch[i + 1..];
  }

  /** Slots the directory code may read and write. */
  ghost predicate DirAddrs(v: Volume, addrs: seq<SlotAddr>)
    requires 0 < v.geo.ClusterBytes()
  {
    forall i :: 0 <= i < |addrs| ==>
      && v.geo.InRange(addrs[i].cluster) && !v.geo.InBitmapRun(v.bm, addrs[i].cluster)
      && addrs[i].index < v.geo.Per()
  }

  lemma WholeSlots(v: Volume, addrs: seq<SlotAddr>)
    requires v.Valid() && 0 < v.geo.ClusterBytes() && DirAddrs(v, addrs)
    ensures Slots(SlotsAt(v.vol, addrs))
  {
    v.Sizes();
    hide Volume.Valid;
    forall i | 0 <= i < |addrs|
      ensures |SlotsAt(v.vol, addrs)[i]| == SLOT
    {
      assert v.geo.InRange(addrs[i].cluster) && !v.geo.InBitmapRun(v.bm, addrs[i].cluster);
    }
  }

  ghost predicate DirClusters(v: Volume, ch: seq<nat>)
    requires 0 < v.geo.ClusterBytes()
  {
    forall i :: 0 <= i < |ch| ==> v.geo.InRange(ch[i]) && !v.geo.InBitmapRun(v.bm, ch[i])
  }

  lemma ClustersToAddrs(v: Volume, ch: seq<nat>)
    requires 0 < v.geo.ClusterBytes() && DirClusters(v, ch)
    ensures DirAddrs(v, Addrs(ch, v.geo.Per()))
  {
    var per := v.geo.Per();
    hide Geometry.Per, Geometry.ClusterBytes, Addrs, Geometry.InBitmapRun;
    AddrsSize(ch, per);
    if per == 0 {
      assert |ch| * per == 0;
    }
    forall k | 0 <= k < |Addrs(ch, per)|
      ensures && v.geo.InRange(Addrs(ch, per)[k].cluster)
              && !v.geo.InBitmapRun(v.bm, Addrs(ch, per)[k].cluster)
              && Addrs(ch, per)[k].index < per
    {
      AddrsIndex(ch, per, k);
    }
  }

  /** The chain of a directory, as every directory operation reads it. */
  function DirChain(v: Vol, first: nat, clusterCount: nat): Result<seq<nat>>
  {
    Walk(v.fat, first, clusterCount, false)
  }

  /** The slots of a directory: its chain and the address of every slot, in chain order. */
  method DirSlots(v: Volume, first: nat) returns (r: Result<(seq<nat>, seq<SlotAddr>)>)
    requires v.Valid()
    ensures r == match DirChain(v.vol, first, v.geo.clusterCount)
                 case Ok(ch) => Ok((ch, Addrs(ch, v.geo.Per())))
                 case Err(e) => Err(e)
  {
    hide Volume.Valid, Walk, Geometry.Per, ClusterAddrs, Addrs;
    var chain :- ReadChain(v, first, None);
    var per := v.geo.Per();
    var offsets := [];
    NoAddrs(per);
    for i := 0 to |chain|
      invariant offsets + Addrs(chain[i..], per) == Addrs(chain, per)
    {
      AddrsFrom(chain, per, i);
      var cluster := ClusterSlots(chain[i], per);
      assert offsets + (cluster + Addrs(chain[i + 1..], per)) == offsets + cluster + Addrs(chain[i + 1..], per);
      offsets := offsets + cluster;
    }
    assert chain[|chain|..] == [];
    NoAddrs(per);
    assert offsets + [] == offsets;
    return Ok((chain, offsets));
  }

  lemma NoAddrs(per: nat)
    ensures Addrs([], per) == []
  {
  }

  method ClusterSlots(c: nat, per: nat) returns (a: seq<SlotAddr>)
    ensures a == ClusterAddrs(c, per)
  {
    a := [];
    for s := 0 to per
      invariant a == ClusterAddrs(c, per)[..s]
    {
      a := a + [SlotAddr(c, s)];
    }
  }

  // ---- The writer's search -------------------------------------------------------------

  /** The search indexes a set's second slot before it knows there is one, so it relies on every File slot
      announcing at least one more. */
  ghost predicate NoBareFile(slots: seq<seq<byte>>)
    requires Slots(slots)
  {
    forall i :: 0 <= i < |slots| && slots[i][0] == ENTRY_FILE ==> 1 <= slots[i][1]
  }

  function LocOf(addrs: seq<SlotAddr>, h: Option<Hit>): Option<EntryLoc>
  {
    match h
    case None => None
    case Some(x) =>
      if x.pos + x.count <= |addrs|
      then Some(EntryLoc(addrs[x.pos..x.pos + x.count], x.first, x.len, x.isDir, x.flags))
      else None
  }

  lemma CollectFrom(slots: seq<seq<byte>>, i: nat, want: nat)
    requires Slots(slots) && i < |slots|
    ensures CollectUnits(slots[i..], want)
         == if slots[i][0] != ENTRY_NAME then []
            else UnitsOf(slots[i])[..Min(NAME_UNITS, want)] + CollectUnits(slots[i + 1..], want - Min(NAME_UNITS, want))
  {
    hide UnitsOf;
    assert slots[i..][0] == slots[i] && slots[i..][1..] == slots[i + 1..];
  }

  /** The name units of the File Name slots at `addrs`. */
  method ReadUnits(v: Volume, addrs: seq<SlotAddr>, nameLen: nat) returns (units: Name)
    requires v.Valid() && 0 < v.geo.ClusterBytes() && DirAddrs(v, addrs)
    requires Slots(SlotsAt(v.vol, addrs))
    ensures units == CollectUnits(SlotsAt(v.vol, addrs), nameLen)
  {
    hide Volume.Valid, Geometry.Per, Geometry.InBitmapRun, Geometry.ClusterBytes, UnitsOf, CollectUnits, SlotsAt, Vol.Slot;
    units := [];
    ghost var slots := SlotsAt(v.vol, addrs);
    for i := 0 to |addrs|
      invariant |units| <= nameLen
      invariant units + CollectUnits(slots[i..], nameLen - |units|) == CollectUnits(slots, nameLen)
    {
      var ne := v.ReadSlot(addrs[i]);
      assert ne.value == slots[i];
      CollectFrom(slots, i, nameLen - |units|);
      if ne.value[0] != ENTRY_NAME {
        assert units + [] == units;
        return;
      }
      var n := Min(NAME_UNITS, nameLen - |units|);
      ghost var rest := CollectUnits(slots[i + 1..], nameLen - |units| - n);
      assert units + (UnitsOf(ne.value)[..n] + rest) == units + UnitsOf(ne.value)[..n] + rest;
      units := units + UnitsOf(ne.value)[..n];
    }
    CollectNone(nameLen - |units|);
    assert slots[|addrs|..] == [];
    assert units + [] == units;
  }

  lemma CollectNone(want: nat)
    ensures CollectUnits([], want) == []
  {
  }

  lemma ShiftedTwice(h: Option<Hit>, a: nat, b: nat)
    ensures Shifted(Shifted(h, a), b) == Shifted(h, a + b)
    ensures Shifted(h, 0) == h
  {
  }

  lemma LocateFrom(upcase: seq<u16>, slots: seq<seq<byte>>, i: nat, want: Name)
    requires Slots(slots) && i < |slots| && (slots[i][0] == ENTRY_FILE ==> 1 <= slots[i][1])
    ensures LocateIn(upcase, slots[i..], want)
         == if slots[i][0] == ENTRY_END then None
            else if slots[i][0] != ENTRY_FILE then Shifted(LocateIn(upcase, slots[i + 1..], want), 1)
            else
              var n := 1 + slots[i][1] as nat;
              if i + n > |slots| then None
              else if UpName(upcase, NameIn(slots[i..i + n])) == want then Some(HitOf(slots[i..i + n]))
              else Shifted(LocateIn(upcase, slots[i + n..], want), n)
  {
    hide UpName, NameIn, HitOf;
    var t := slots[i..];
    assert t[0] == slots[i] && t[1..] == slots[i + 1..];
    if slots[i][0] == ENTRY_FILE {
      var n := 1 + slots[i][1] as nat;
      if i + n <= |slots| {
        assert t[..n] == slots[i..i + n] && t[n..] == slots[i + n..];
      }
    }
  }

  lemma LocateNothing(upcase: seq<u16>, want: Name)
    ensures LocateIn(upcase, [], want) == None
  {
  }

  /** The directory's slots as the search reads them. */
  ghost predicate Searchable(v: Volume, ch: seq<nat>)
    requires v.Valid() && 0 < v.geo.ClusterBytes()
    reads v, v.disk
  {
    DirClusters(v, ch) && Slots(SlotsAt(v.vol, Addrs(ch, v.geo.Per()))) && NoBareFile(SlotsAt(v.vol, Addrs(ch, v.geo.Per())))
  }

  /** What `Locate` returns for the directory whose clusters are `ch`. */
  function Located(v: Vol, upcase: seq<u16>, ch: seq<nat>, per: nat, name: Name): Option<EntryLoc>
    requires Slots(SlotsAt(v, Addrs(ch, per)))
  {
    LocOf(Addrs(ch, per), LocateIn(upcase, SlotsAt(v, Addrs(ch, per)), UpName(upcase, name)))
  }

  /** Locate an in-use file or directory by name, ignoring case. */
  method Locate(v: Volume, upcase: seq<u16>, dirFirst: nat, name: Name) returns (r: Result<Option<EntryLoc>>)
    requires v.Valid() && 0 < v.geo.ClusterBytes()
    requires var c := DirChain(v.vol, dirFirst, v.geo.clusterCount); c.Ok? ==> Searchable(v, c.value)
    ensures r == match DirChain(v.vol, dirFirst, v.geo.clusterCount)
                 case Ok(ch) => Ok(Located(v.vol, upcase, ch, v.geo.Per(), name))
                 case Err(e) => Err(e)
  {
    hide Volume.Valid, Walk, Geometry.Per, Geometry.ClusterBytes, Geometry.InBitmapRun, Addrs, LocateIn, UpName, NameIn, HitOf;
    var dir :- DirSlots(v, dirFirst);
    var addrs := dir.1;
    ClustersToAddrs(v, dir.0);
    r := Search(v, upcase, addrs, UpName(upcase, name));
  }

  /** The search proper, over the slots at `addrs`. */
  method Search(v: Volume, upcase: seq<u16>, addrs: seq<SlotAddr>, want: Name) returns (r: Result<Option<EntryLoc>>)
    requires v.Valid() && 0 < v.geo.ClusterBytes() && DirAddrs(v, addrs)
    requires Slots(SlotsAt(v.vol, addrs)) && NoBareFile(SlotsAt(v.vol, addrs))
    ensures r == Ok(LocOf(addrs, LocateIn(upcase, SlotsAt(v.vol, addrs), want)))
  {
    hide Volume.Valid, Geometry.Per, Geometry.ClusterBytes, Geometry.InBitmapRun, LocateIn, UpName, NameIn, HitOf,
         SlotsAt, Shifted;
    ghost var slots := SlotsAt(v.vol, addrs);
    var i := 0;
    assert slots[0..] == slots;
    ShiftedTwice(LocateIn(upcase, slots, want), 0, 0);
    while i < |addrs|
      invariant i <= |addrs|
      invariant LocateIn(upcase, slots, want) == Shifted(LocateIn(upcase, slots[i..], want), i)
    {
      var raw := v.ReadSlot(addrs[i]);
      LocateFrom(upcase, slots, i, want);
      if raw.value[0] == ENTRY_END {
        ShiftedNone(i);
        return Ok(None);
      }
      if raw.value[0] != ENTRY_FILE {
        ShiftedTwice(LocateIn(upcase, slots[i + 1..], want), 1, i);
        i := i + 1;
        continue;
      }
      var n := 1 + raw.value[1] as nat;
      if i + n > |addrs| {
        ShiftedNone(i);
        return Ok(None);
      }
      var loc, have := ReadSet(v, addrs[i..i + n]);
      assert SlotsAt(v.vol, addrs[i..i + n]) == slots[i..i + n] by { SubSlots(v.vol, addrs, i, i + n); }
      if UpName(upcase, have) == want {
        FoundAt(slots[i..i + n], addrs, i, n);
        return Ok(Some(loc));
      }
      ShiftedTwice(LocateIn(upcase, slots[i + n..], want), n, i);
      i := i + n;
    }
    assert slots[i..] == [];
    LocateNothing(upcase, want);
    ShiftedNone(i);
    return Ok(None);
  }

  lemma ShiftedNone(i: nat)
    ensures Shifted(None, i) == None
  {
  }

  lemma SubSlots(v: Vol, addrs: seq<SlotAddr>, lo: nat, hi: nat)
    requires lo <= hi <= |addrs|
    ensures SlotsAt(v, addrs[lo..hi]) == SlotsAt(v, addrs)[lo..hi]
  {
  }

  lemma FoundAt(set_: seq<seq<byte>>, addrs: seq<SlotAddr>, i: nat, n: nat)
    requires 2 <= n == |set_| && Slots(set_) && i + n <= |addrs|
    ensures var h := HitOf(set_);
            LocOf(addrs, Shifted(Some(h), i)) == Some(EntryLoc(addrs[i..i + n], h.first, h.len, h.isDir, h.flags))
  {
  }

  /** One entry set: its location and its name units. */
  method ReadSet(v: Volume, offs: seq<SlotAddr>) returns (loc: EntryLoc, units: Name)
    requires v.Valid() && 0 < v.geo.ClusterBytes() && 2 <= |offs| && DirAddrs(v, offs)
    requires Slots(SlotsAt(v.vol, offs))
    ensures var h := HitOf(SlotsAt(v.vol, offs));
            loc == EntryLoc(offs, h.first, h.len, h.isDir, h.flags)
    ensures units == NameIn(SlotsAt(v.vol, offs))
  {
    hide Volume.Valid, Geometry.Per, Geometry.ClusterBytes, Geometry.InBitmapRun, Field, BitSet;
    ghost var set_ := SlotsAt(v.vol, offs);
    var raw := v.ReadSlot(offs[0]);
    var stream := v.ReadSlot(offs[1]);
    SubSlots(v.vol, offs, 2, |offs|);
    assert set_[2..|offs|] == set_[2..] && offs[2..|offs|] == offs[2..];
    units := ReadUnits(v, offs[2..], stream.value[3]);
    loc := EntryLoc(offs, Field(stream.value, 20, 4), Field(stream.value, 24, 8), BitSet(raw.value[4], 4), stream.value[1]);
  }

  // ---- The reader's listing ------------------------------------------------------------

  /** The slots a walk bounded by `dataLen` bytes goes through. */
  function Bounded(slots: seq<seq<byte>>, dataLen: nat): seq<seq<byte>>
  {
    slots[..Min(DivCeil(dataLen, SLOT), |slots|)]
  }

  lemma BeforeEndStop(slots: seq<seq<byte>>, k: nat)
    requires Slots(slots) && k <= |slots| && NoEnd(slots[..k])
    requires k < |slots| ==> slots[k][0] == ENTRY_END
    ensures BeforeEnd(slots) == slots[..k]
  {
    BeforeEndAppend(slots[..k], slots[k..]);
    assert slots == slots[..k] + slots[k..];
    if k < |slots| {
      assert slots[k..][0] == slots[k];
    }
  }

  lemma SeenEnough(k: nat, dataLen: nat)
    ensures SLOT * k >= dataLen <==> k >= DivCeil(dataLen, SLOT)
  {
    DivCeilBounds(dataLen, SLOT);
  }

  /** One cluster of a directory, cut into slots. */
  method ClusterRaws(v: Volume, c: nat) returns (raws: seq<seq<byte>>)
    requires v.Valid() && 0 < v.geo.ClusterBytes() && v.geo.InRange(c) && !v.geo.InBitmapRun(v.bm, c)
    ensures raws == SlotsAt(v.vol, ClusterAddrs(c, v.geo.Per())) && Slots(raws)
  {
    v.Sizes();
    hide Volume.Valid, Geometry.Per, Geometry.ClusterBytes, Geometry.InBitmapRun;
    var buf := v.ReadCluster(c, 0, v.geo.ClusterBytes());
    assert buf.value == v.vol.data[c];
    raws := [];
    for s := 0 to v.geo.Per()
      invariant |raws| == s && Slots(raws)
      invariant forall i :: 0 <= i < s ==> raws[i] == v.vol.Slot(SlotAddr(c, i))
    {
      raws := raws + [buf.value[SLOT * s..SLOT * s + SLOT]];
    }
  }

  /** Walk a FAT-chained directory's raw slots in order, up to its end or to `dataLen` bytes. */
  method WalkRawEntries(v: Volume, first: nat, dataLen: nat) returns (r: Result<seq<seq<byte>>>)
    requires v.Valid() && 0 < v.geo.ClusterBytes()
    requires var c := DirChain(v.vol, first, v.geo.clusterCount); c.Ok? ==> DirClusters(v, c.value)
    ensures first == 0 ==> r == Ok([])
    ensures first != 0 ==> match DirChain(v.vol, first, v.geo.clusterCount)
      case Err(e) => r == Err(e)
      case Ok(ch) =>
        var slots := Bounded(SlotsAt(v.vol, Addrs(ch, v.geo.Per())), dataLen);
        Slots(slots) && r == Ok(BeforeEnd(slots))
  {
    hide Volume.Valid, Walk, Geometry.Per, Geometry.ClusterBytes, Geometry.InBitmapRun, Addrs, BeforeEnd, SlotsAt, DivCeil;
    if first == 0 {
      return Ok([]);
    }
    var chain :- ReadChain(v, first, None);
    var per := v.geo.Per();
    ghost var all := SlotsAt(v.vol, Addrs(chain, per));
    ClustersToAddrs(v, chain);
    WholeSlots(v, Addrs(chain, per));
    AddrsSize(chain, per);
    ghost var slots := Bounded(all, dataLen);
    var raws, seen := [], 0;
    for idx := 0 to |chain|
      invariant seen == SLOT * |raws| && |raws| == idx * per
      invariant |raws| <= |slots| && raws == slots[..|raws|] && NoEnd(raws)
    {
      SeenEnough(|raws|, dataLen);
      if seen >= dataLen {
        BeforeEndStop(slots, |raws|);
        return Ok(raws);
      }
      var cluster := ClusterRaws(v, chain[idx]);
      WalkedCluster(v.vol, chain, per, idx);
      for s := 0 to per
        invariant seen == SLOT * |raws| && |raws| == idx * per + s
        invariant |raws| <= |slots| && raws == slots[..|raws|] && NoEnd(raws)
      {
        SeenEnough(|raws|, dataLen);
        if seen >= dataLen {
          BeforeEndStop(slots, |raws|);
          return Ok(raws);
        }
        var raw := cluster[s];
        assert raw == all[idx * per + s] == slots[|raws|];
        seen := seen + SLOT;
        if raw[0] == ENTRY_END {
          BeforeEndStop(slots, |raws|);
          return Ok(raws);
        }
        raws := raws + [raw];
      }
      BlocksEnd(idx, 1, per);
    }
    BeforeEndStop(slots, |raws|);
    return Ok(raws);
  }

  /** The slots of the `i`-th cluster, among all slots of the directory. */
  lemma WalkedCluster(v: Vol, ch: seq<nat>, per: nat, i: nat)
    requires i < |ch|
    ensures i * per + per <= |SlotsAt(v, Addrs(ch, per))|
    ensures forall s :: 0 <= s < per ==> SlotsAt(v, Addrs(ch, per))[i * per + s] == SlotsAt(v, ClusterAddrs(ch[i], per))[s]
  {
    AddrsSize(ch, per);
    MulMono(i + 1, |ch|, per);
    BlocksEnd(i, 1, per);
    forall s | 0 <= s < per
      ensures SlotsAt(v, Addrs(ch, per))[i * per + s] == SlotsAt(v, ClusterAddrs(ch[i], per))[s]
    {
      AddrsAt(ch, per, i, s);
    }
  }

  /** Check and decode one entry set. */
  method DecodeOne(set_: seq<seq<byte>>) returns (r: Result<Entry>)
    requires |set_| >= 3 && Slots(set_)
    ensures r == DecodeSet(set_)
  {
    hide CollectUnits, Checksum, TimestampMs, BitSet, Field;
    var stored := Field(set_[0], 2, 2);
    var sum := SetChecksum(set_);
    if sum != stored {
      return Err(Invalid("entry set checksum mismatch"));
    }
    var stream := set_[1];
    if stream[0] != ENTRY_STREAM {
      return Err(Invalid("first secondary is not a stream entry"));
    }
    var nameLen := stream[3];
    var units := CollectUnits(set_[2..], nameLen);
    if |units| < nameLen {
      return Err(Invalid("file name entries shorter than NameLength"));
    }
    return Ok(Entry(units, BitSet(set_[0][4], 4), Field(stream, 24, 8), Field(stream, 8, 8), Field(stream, 20, 4),
                    BitSet(stream[1], 1), TimestampMs(Field(set_[0], 12, 4), set_[0][22], set_[0][24])));
  }

  lemma ParseFrom(raw: seq<seq<byte>>, i: nat)
    requires Slots(raw) && i < |raw|
    ensures ParseSets(raw[i..])
         == if raw[i][0] != ENTRY_FILE then ParseSets(raw[i + 1..])
            else
              var n := 1 + raw[i][1] as nat;
              if raw[i][1] < 2 || i + n > |raw| then Err(Invalid("file entry set truncated"))
              else
                match DecodeSet(raw[i..i + n])
                case Err(e) => Err(e)
                case Ok(entry) => Cons(entry, ParseSets(raw[i + n..]))
  {
    hide DecodeSet;
    var t := raw[i..];
    assert t[0] == raw[i] && t[1..] == raw[i + 1..];
    if raw[i][0] == ENTRY_FILE {
      var n := 1 + raw[i][1] as nat;
      if i + n <= |raw| {
        assert t[..n] == raw[i..i + n] && t[n..] == raw[i + n..];
      }
    }
  }

  lemma JoinCons(out: seq<Entry>, e: Entry, r: Result<seq<Entry>>)
    ensures Joined(out, Cons(e, r)) == Joined(out + [e], r)
  {
    if r.Ok? {
      assert out + ([e] + r.value) == (out + [e]) + r.value;
    }
  }

  lemma JoinNothing(out: seq<Entry>, r: Result<seq<Entry>>)
    ensures Joined([], r) == r
    ensures Joined(out, Ok([])) == Ok(out)
  {
    if r.Ok? {
      assert [] + r.value == r.value;
    }
    assert out + [] == out;
  }

  lemma ParseNothing()
    ensures ParseSets([]) == Ok([])
  {
  }

  /** What listing a directory bounded by `dataLen` bytes gives. */
  function Listing(v: Vol, ch: seq<nat>, per: nat, dataLen: nat): Result<seq<Entry>>
    requires Slots(SlotsAt(v, Addrs(ch, per)))
  {
    ReadSlots(Bounded(SlotsAt(v, Addrs(ch, per)), dataLen))
  }

  /** Read a directory into entries, validating each set. */
  method ReadDirectory(v: Volume, first: nat, dataLen: nat) returns (r: Result<seq<Entry>>)
    requires v.Valid() && 0 < v.geo.ClusterBytes()
    requires var c := DirChain(v.vol, first, v.geo.clusterCount); c.Ok? ==> DirClusters(v, c.value)
    ensures first == 0 ==> r == Ok([])
    ensures first != 0 ==> match DirChain(v.vol, first, v.geo.clusterCount)
      case Err(e) => r == Err(e)
      case Ok(ch) =>
        Slots(SlotsAt(v.vol, Addrs(ch, v.geo.Per()))) && r == Listing(v.vol, ch, v.geo.Per(), dataLen)
  {
    hide Volume.Valid, Walk, Geometry.Per, Geometry.ClusterBytes, Geometry.InBitmapRun, Addrs, SlotsAt, BeforeEnd, ParseSets,
         DirClusters, DecodeSet;
    ghost var c := DirChain(v.vol, first, v.geo.clusterCount);
    if first != 0 && c.Ok? {
      ClustersToAddrs(v, c.value);
      WholeSlots(v, Addrs(c.value, v.geo.Per()));
    }
    var raw :- WalkRawEntries(v, first, dataLen);
    ParseNothing();
    r := ParseRaw(raw);
  }

  /** The sets of a list of raw slots, decoded one after the other. */
  method ParseRaw(raw: seq<seq<byte>>) returns (r: Result<seq<Entry>>)
    requires Slots(raw)
    ensures r == ParseSets(raw)
  {
    hide ParseSets, DecodeSet;
    var out, i := [], 0;
    assert raw[0..] == raw;
    JoinNothing([], ParseSets(raw));
    while i < |raw|
      invariant i <= |raw|
      invariant ParseSets(raw) == Joined(out, ParseSets(raw[i..]))
    {
      ParseFrom(raw, i);
      if raw[i][0] != ENTRY_FILE {
        i := i + 1;
        continue;
      }
      var n := 1 + raw[i][1] as nat;
      if raw[i][1] < 2 || i + n > |raw| {
        return Err(Invalid("file entry set truncated"));
      }
      var entry :- DecodeOne(raw[i..i + n]);
      JoinCons(out, entry, ParseSets(raw[i + n..]));
      out := out + [entry];
      i := i + n;
    }
    assert raw[i..] == [];
    ParseNothing();
    JoinNothing(out, Ok([]));
    return Ok(out);
  }
}
