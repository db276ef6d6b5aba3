/** What a directory of a consistent volume lists: the nodes recorded in it, up to its first end-of-directory
    slot, to the writer's search and to the reader alike. */
module Listings {
  import opened Bytes
  import opened Catalogues
  import opened Directories
  import opened EntrySets
  import opened Geometries
  import opened Lookups
  import opened Outcomes
  import opened SlotLists
  import opened Volumes

  /** The node whose set starts at position `i` of directory `d`. */
  ghost predicate NodeStarts(v: Vol, cat: Cat, per: nat, d: nat, i: nat)
    requires d in cat.chains
  {
    var addrs := Addrs(cat.chains[d], per);
    i < |addrs| && |v.Slot(addrs[i])| == SLOT && v.Slot(addrs[i])[0] == ENTRY_FILE
    && addrs[i] in cat.slotOwn && cat.slotOwn[addrs[i]] in cat.nodes
  }

  /** The nodes a walk of directory `d` from position `i` passes, in order, before the end of the directory. */
  ghost function NodesFrom(v: Vol, cat: Cat, per: nat, d: nat, i: nat): seq<nat>
    requires d in cat.chains
    decreases |Addrs(cat.chains[d], per)| - i
  {
    var addrs := Addrs(cat.chains[d], per);
    if i >= |addrs| || |v.Slot(addrs[i])| != SLOT || v.Slot(addrs[i])[0] == ENTRY_END then []
    else if NodeStarts(v, cat, per, d, i) then
      var k := cat.slotOwn[addrs[i]];
      [k] + NodesFrom(v, cat, per, d, i + cat.nodes[k].Count())
    else NodesFrom(v, cat, per, d, i + 1)
  }

  /** What the walks rely on: a directory of a consistent volume, every slot whole. */
  ghost predicate Walkable(v: Vol, cat: Cat, cb: nat, per: nat, upcase: seq<u16>, d: nat)
  {
    && 0 < cb && 0 < per == cb / SLOT && Placed(cat) && NodesOk(v, cat, cb, upcase) && SlotsOwned(v, cat, per)
    && d in cat.chains && cat.IsDir(d) && Slots(SlotsAt(v, Addrs(cat.chains[d], per)))
  }

  /** A File slot met on the walk starts the whole set of a node. */
  lemma StartIsNode(v: Vol, cat: Cat, cb: nat, per: nat, upcase: seq<u16>, d: nat, i: nat)
    requires Walkable(v, cat, cb, per, upcase, d) && d in cat.chains && i < |Addrs(cat.chains[d], per)|
    requires |SlotsAt(v, Addrs(cat.chains[d], per))[i]| > 0 && SlotsAt(v, Addrs(cat.chains[d], per))[i][0] == ENTRY_FILE
    ensures NodeStarts(v, cat, per, d, i)
    ensures var addrs, slots := Addrs(cat.chains[d], per), SlotsAt(v, Addrs(cat.chains[d], per));
      var n := cat.nodes[cat.slotOwn[addrs[i]]];
      && n.parent == d && n.facts.Recordable() && 3 <= n.Count() && i + n.Count() <= |addrs|
      && n.Count() == 1 + slots[i][1] as nat
      && addrs[i..i + n.Count()] == n.SetAddrs() && slots[i..i + n.Count()] == Encode(n.facts, upcase)
  {
    hide NodesOk, SlotsOwned, Placed, Addrs, Encode;
    HitIsNode(v, cat, cb, per, upcase, d, i);
    DivCeilBounds(|cat.nodes[cat.slotOwn[Addrs(cat.chains[d], per)[i]]].facts.name|, NAME_UNITS);
  }

  lemma SlotsFrom(slots: seq<seq<byte>>, i: nat)
    requires Slots(slots) && i < |slots|
    ensures BeforeEnd(slots[i..]) == if slots[i][0] == ENTRY_END then [] else [slots[i]] + BeforeEnd(slots[i + 1..])
  {
    assert slots[i..][0] == slots[i] && slots[i..][1..] == slots[i + 1..];
  }

  // ---- The reader --------------------------------------------------------------------------

  /** What the reader reports of a list of nodes. */
  ghost function EntriesOf(cat: Cat, ks: seq<nat>): seq<Entry>
    requires forall i :: 0 <= i < |ks| ==> ks[i] in cat.nodes
  {
    seq(|ks|, i requires 0 <= i < |ks| => EntryOf(cat.nodes[ks[i]].facts))
  }

  lemma {:induction false} ListedAreNodes(v: Vol, cat: Cat, per: nat, d: nat, i: nat)
    requires d in cat.chains
    ensures forall j :: 0 <= j < |NodesFrom(v, cat, per, d, i)| ==> NodesFrom(v, cat, per, d, i)[j] in cat.nodes
    decreases |Addrs(cat.chains[d], per)| - i
  {
    hide Addrs, Vol.Slot;
    var addrs := Addrs(cat.chains[d], per);
    if i < |addrs| && |v.Slot(addrs[i])| == SLOT && v.Slot(addrs[i])[0] != ENTRY_END {
      if NodeStarts(v, cat, per, d, i) {
        ListedAreNodes(v, cat, per, d, i + cat.nodes[cat.slotOwn[addrs[i]]].Count());
      } else {
        ListedAreNodes(v, cat, per, d, i + 1);
      }
    }
  }

  lemma ReadFrom(slots: seq<seq<byte>>, i: nat)
    requires Slots(slots) && i < |slots|
    ensures slots[i][0] == ENTRY_END ==> ReadSlots(slots[i..]) == Ok([])
    ensures slots[i][0] != ENTRY_END && slots[i][0] != ENTRY_FILE ==> ReadSlots(slots[i..]) == ReadSlots(slots[i + 1..])
  {
    SlotsFrom(slots, i);
    var b := BeforeEnd(slots[i..]);
    if slots[i][0] != ENTRY_END {
      assert b[1..] == BeforeEnd(slots[i + 1..]);
    }
  }

  lemma ReadSetFrom(slots: seq<seq<byte>>, i: nat, f: Facts, upcase: seq<u16>)
    requires Slots(slots) && f.Recordable() && i + SetSize(f.name) <= |slots|
    requires slots[i..i + SetSize(f.name)] == Encode(f, upcase)
    ensures ReadSlots(slots[i..]) == Cons(EntryOf(f), ReadSlots(slots[i + SetSize(f.name)..]))
  {
    hide Encode, SetSize, ReadSlots, DecodeSet, ParseSets, BeforeEnd;
    var n, set_ := SetSize(f.name), Encode(f, upcase);
    assert slots[i..] == set_ + slots[i + n..];
    NewSetListed([], f, upcase, slots[i + n..]) by {
      EmptyParse();
    }
    EmptyParse();
    assert [] + (set_ + slots[i + n..]) == slots[i..];
    JoinOne(EntryOf(f), ReadSlots(slots[i + n..]));
  }

  lemma EmptyParse()
    ensures ParseSets([]) == Ok([]) && NoEnd([])
  {
  }

  lemma JoinOne(e: Entry, r: Result<seq<Entry>>)
    ensures Joined([], Joined([e], r)) == Cons(e, r)
  {
    if r.Ok? {
      assert [] + ([e] + r.value) == [e] + r.value;
    }
  }

  /** Listing a directory of a consistent volume succeeds, and reports the nodes of the walk in order. */
  lemma {:induction false} ListingFrom(v: Vol, cat: Cat, cb: nat, per: nat, upcase: seq<u16>, d: nat, i: nat)
    requires Walkable(v, cat, cb, per, upcase, d) && d in cat.chains && i <= |Addrs(cat.chains[d], per)|
    ensures Slots(SlotsAt(v, Addrs(cat.chains[d], per)))
    ensures forall j :: 0 <= j < |NodesFrom(v, cat, per, d, i)| ==> NodesFrom(v, cat, per, d, i)[j] in cat.nodes
    ensures ReadSlots(SlotsAt(v, Addrs(cat.chains[d], per))[i..]) == Ok(EntriesOf(cat, NodesFrom(v, cat, per, d, i)))
    decreases |Addrs(cat.chains[d], per)| - i
  {
    hide *;
    ListedAreNodes(v, cat, per, d, i);
    var addrs := Addrs(cat.chains[d], per);
    var slots := SlotsAt(v, addrs);
    WalkableSlots(v, cat, cb, per, upcase, d);
    EmptyListing(cat);
    if i == |addrs| {
      assert slots[i..] == [];
      NodesAtEnd(v, cat, per, d, i);
      return;
    }
    WholeSlot(slots, i);
    ReadFrom(slots, i);
    if slots[i][0] == ENTRY_FILE {
      ListingAtSet(v, cat, cb, per, upcase, d, i);
    } else if slots[i][0] == ENTRY_END {
      NodesAtEnd(v, cat, per, d, i);
    } else {
      NodesAtOther(v, cat, per, d, i);
      ListingFrom(v, cat, cb, per, upcase, d, i + 1);
    }
  }

  lemma {:induction false} ListingAtSet(v: Vol, cat: Cat, cb: nat, per: nat, upcase: seq<u16>, d: nat, i: nat)
    requires Walkable(v, cat, cb, per, upcase, d) && d in cat.chains && i < |Addrs(cat.chains[d], per)|
    requires Slots(SlotsAt(v, Addrs(cat.chains[d], per))) && |SlotsAt(v, Addrs(cat.chains[d], per))[i]| > 0
    requires SlotsAt(v, Addrs(cat.chains[d], per))[i][0] == ENTRY_FILE
    ensures forall j :: 0 <= j < |NodesFrom(v, cat, per, d, i)| ==> NodesFrom(v, cat, per, d, i)[j] in cat.nodes
    ensures ReadSlots(SlotsAt(v, Addrs(cat.chains[d], per))[i..]) == Ok(EntriesOf(cat, NodesFrom(v, cat, per, d, i)))
    decreases |Addrs(cat.chains[d], per)| - i, 0
  {
    hide *;
    ListedAreNodes(v, cat, per, d, i);
    var addrs := Addrs(cat.chains[d], per);
    var slots := SlotsAt(v, addrs);
    WholeSlot(slots, i);
    StartIsNode(v, cat, cb, per, upcase, d, i);
    NodesAtSet(v, cat, per, d, i);
    StartOwned(v, cat, per, d, i);
    var k := cat.slotOwn[addrs[i]];
    var n := cat.nodes[k];
    ListingFrom(v, cat, cb, per, upcase, d, i + n.Count());
    NamesCount(n);
    ReadSetFrom(slots, i, n.facts, upcase);
    OneMoreEntry(cat, k, NodesFrom(v, cat, per, d, i + n.Count()));
    ConsOk(EntryOf(n.facts), EntriesOf(cat, NodesFrom(v, cat, per, d, i + n.Count())));
  }

  lemma NamesCount(n: Node)
    ensures n.Count() == SetSize(n.facts.name)
  {
  }

  lemma ConsOk(e: Entry, es: seq<Entry>)
    ensures Cons(e, Ok(es)) == Ok([e] + es)
  {
  }

  lemma WalkableSlots(v: Vol, cat: Cat, cb: nat, per: nat, upcase: seq<u16>, d: nat)
    requires Walkable(v, cat, cb, per, upcase, d)
    ensures d in cat.chains && Slots(SlotsAt(v, Addrs(cat.chains[d], per)))
  {
  }

  lemma EmptyListing(cat: Cat)
    ensures ReadSlots([]) == Ok([]) && EntriesOf(cat, []) == []
  {
  }

  lemma NodesAtEnd(v: Vol, cat: Cat, per: nat, d: nat, i: nat)
    requires d in cat.chains
    requires i < |Addrs(cat.chains[d], per)| ==> |v.Slot(Addrs(cat.chains[d], per)[i])| == SLOT && v.Slot(Addrs(cat.chains[d], per)[i])[0] == ENTRY_END
    ensures NodesFrom(v, cat, per, d, i) == []
  {
    hide Addrs, Vol.Slot;
  }

  lemma NodesAtSet(v: Vol, cat: Cat, per: nat, d: nat, i: nat)
    requires d in cat.chains && NodeStarts(v, cat, per, d, i)
    ensures var k := cat.slotOwn[Addrs(cat.chains[d], per)[i]];
      NodesFrom(v, cat, per, d, i) == [k] + NodesFrom(v, cat, per, d, i + cat.nodes[k].Count())
  {
    hide Addrs, Vol.Slot;
  }

  lemma NodesAtOther(v: Vol, cat: Cat, per: nat, d: nat, i: nat)
    requires d in cat.chains && i < |Addrs(cat.chains[d], per)| && |v.Slot(Addrs(cat.chains[d], per)[i])| == SLOT
    requires v.Slot(Addrs(cat.chains[d], per)[i])[0] != ENTRY_END && v.Slot(Addrs(cat.chains[d], per)[i])[0] != ENTRY_FILE
    ensures NodesFrom(v, cat, per, d, i) == NodesFrom(v, cat, per, d, i + 1)
  {
    hide Addrs, Vol.Slot;
  }

  lemma OneMoreEntry(cat: Cat, k: nat, ks: seq<nat>)
    requires k in cat.nodes && forall i :: 0 <= i < |ks| ==> ks[i] in cat.nodes
    ensures forall i :: 0 <= i < |[k] + ks| ==> ([k] + ks)[i] in cat.nodes
    ensures EntriesOf(cat, [k] + ks) == [EntryOf(cat.nodes[k].facts)] + EntriesOf(cat, ks)
  {
  }

  // ---- The search --------------------------------------------------------------------------

  /** The first node of a list with the folded name `want`. */
  ghost function FirstNamed(cat: Cat, upcase: seq<u16>, ks: seq<nat>, want: Name): Option<nat>
  {
    if ks == [] then None
    else if ks[0] in cat.nodes && UpName(upcase, cat.nodes[ks[0]].facts.name) == want then Some(ks[0])
    else FirstNamed(cat, upcase, ks[1..], want)
  }

  /** The node at the place of a hit, both counted from position `i`. */
  ghost function HitNode(cat: Cat, addrs: seq<SlotAddr>, i: nat, h: Option<Hit>): Option<nat>
  {
    match h
    case None => None
    case Some(x) => if i + x.pos < |addrs| && addrs[i + x.pos] in cat.slotOwn then Some(cat.slotOwn[addrs[i + x.pos]]) else None
  }

  lemma HitNodeShifted(cat: Cat, addrs: seq<SlotAddr>, i: nat, h: Option<Hit>, k: nat)
    ensures HitNode(cat, addrs, i, Shifted(h, k)) == HitNode(cat, addrs, i + k, h)
    ensures Shifted(h, k).Some? <==> h.Some?
  {
  }

  lemma HitNodeHere(cat: Cat, addrs: seq<SlotAddr>, i: nat, h: Hit)
    requires h.pos == 0 && i < |addrs| && addrs[i] in cat.slotOwn
    ensures HitNode(cat, addrs, i, Some(h)) == Some(cat.slotOwn[addrs[i]]) && HitNode(cat, addrs, i, None) == None
  {
  }

  lemma FirstOfMore(cat: Cat, upcase: seq<u16>, k: nat, ks: seq<nat>, want: Name)
    requires k in cat.nodes
    ensures FirstNamed(cat, upcase, [k] + ks, want)
         == if UpName(upcase, cat.nodes[k].facts.name) == want then Some(k) else FirstNamed(cat, upcase, ks, want)
    ensures FirstNamed(cat, upcase, [], want) == None
  {
    hide UpName;
    assert ([k] + ks)[1..] == ks;
  }

  lemma SearchNothing(cat: Cat, upcase: seq<u16>, addrs: seq<SlotAddr>, i: nat, want: Name)
    ensures LocateIn(upcase, [], want) == None && HitNode(cat, addrs, i, None) == None && FirstNamed(cat, upcase, [], want) == None
  {
  }

  /** The search from position `i` hits exactly when a listed node has the name, and hits the first such. */
  lemma {:induction false} SearchFrom(v: Vol, cat: Cat, cb: nat, per: nat, upcase: seq<u16>, d: nat, want: Name, i: nat)
    requires Walkable(v, cat, cb, per, upcase, d) && d in cat.chains && i <= |Addrs(cat.chains[d], per)|
    ensures Slots(SlotsAt(v, Addrs(cat.chains[d], per)))
    ensures var addrs := Addrs(cat.chains[d], per);
      var h := LocateIn(upcase, SlotsAt(v, addrs)[i..], want);
      && HitNode(cat, addrs, i, h) == FirstNamed(cat, upcase, NodesFrom(v, cat, per, d, i), want)
      && (h.Some? <==> HitNode(cat, addrs, i, h).Some?)
    decreases |Addrs(cat.chains[d], per)| - i
  {
    hide *;
    var addrs := Addrs(cat.chains[d], per);
    var slots := SlotsAt(v, addrs);
    WalkableSlots(v, cat, cb, per, upcase, d);
    SearchNothing(cat, upcase, addrs, i, want);
    if i == |addrs| {
      assert slots[i..] == [];
      NodesAtEnd(v, cat, per, d, i);
      return;
    }
    WholeSlot(slots, i);
    if slots[i][0] == ENTRY_FILE {
      SearchAtSet(v, cat, cb, per, upcase, d, want, i);
    } else if slots[i][0] == ENTRY_END {
      LocateFrom(upcase, slots, i, want);
      NodesAtEnd(v, cat, per, d, i);
    } else {
      LocateFrom(upcase, slots, i, want);
      NodesAtOther(v, cat, per, d, i);
      SearchFrom(v, cat, cb, per, upcase, d, want, i + 1);
      HitNodeShifted(cat, addrs, i, LocateIn(upcase, slots[i + 1..], want), 1);
    }
  }

  lemma WholeSlot(slots: seq<seq<byte>>, i: nat)
    requires Slots(slots) && i < |slots|
    ensures |slots[i]| == SLOT && |slots[i]| == 32 && ENTRY_END != ENTRY_FILE
    ensures forall j {:trigger slots[j..]} :: 0 <= j <= |slots| ==> Slots(slots[j..])
  {
  }

  lemma {:induction false} SearchAtSet(v: Vol, cat: Cat, cb: nat, per: nat, upcase: seq<u16>, d: nat, want: Name, i: nat)
    requires Walkable(v, cat, cb, per, upcase, d) && d in cat.chains && i < |Addrs(cat.chains[d], per)|
    requires Slots(SlotsAt(v, Addrs(cat.chains[d], per))) && |SlotsAt(v, Addrs(cat.chains[d], per))[i]| > 0
    requires SlotsAt(v, Addrs(cat.chains[d], per))[i][0] == ENTRY_FILE
    ensures var addrs := Addrs(cat.chains[d], per);
      var h := LocateIn(upcase, SlotsAt(v, addrs)[i..], want);
      && HitNode(cat, addrs, i, h) == FirstNamed(cat, upcase, NodesFrom(v, cat, per, d, i), want)
      && (h.Some? <==> HitNode(cat, addrs, i, h).Some?)
    decreases |Addrs(cat.chains[d], per)| - i, 0
  {
    hide *;
    var addrs := Addrs(cat.chains[d], per);
    var slots := SlotsAt(v, addrs);
    WholeSlot(slots, i);
    StartIsNode(v, cat, cb, per, upcase, d, i);
    NodesAtSet(v, cat, per, d, i);
    StartOwned(v, cat, per, d, i);
    var k := cat.slotOwn[addrs[i]];
    var n := cat.nodes[k];
    LocateFrom(upcase, slots, i, want);
    HitOfEncode(n.facts, upcase);
    FirstOfMore(cat, upcase, k, NodesFrom(v, cat, per, d, i + n.Count()), want);
    SearchFrom(v, cat, cb, per, upcase, d, want, i + n.Count());
    HitNodeHere(cat, addrs, i, HitOf(Encode(n.facts, upcase)));
    HitNodeShifted(cat, addrs, i, LocateIn(upcase, slots[i + n.Count()..], want), n.Count());
  }

  lemma StartOwned(v: Vol, cat: Cat, per: nat, d: nat, i: nat)
    requires d in cat.chains && NodeStarts(v, cat, per, d, i)
    ensures var addrs := Addrs(cat.chains[d], per); i < |addrs| && addrs[i] in cat.slotOwn && cat.slotOwn[addrs[i]] in cat.nodes
  {
    hide Addrs, Vol.Slot;
  }

  // ---- The two sides agree -------------------------------------------------------------------

  lemma WalkableIs(v: Volume, cat: Cat, upcase: seq<u16>, d: nat)
    requires v.Valid() && Consistent(v.vol, cat, v.geo, v.bm, upcase) && cat.IsDir(d)
    ensures Walkable(v.vol, cat, v.geo.ClusterBytes(), v.geo.Per(), upcase, d) && d in cat.chains
  {
    DirReady(v, cat, upcase, d);
    OwnershipParts(v.vol, cat, v.geo, v.bm, upcase);
    v.Sizes();
    hide Volume.Valid, Consistent, Placed, NodesOk, SlotsOwned, Addrs, DirChain;
  }

  lemma FindOfHit(v: Vol, cat: Cat, per: nat, upcase: seq<u16>, d: nat, name: Name)
    requires d in cat.chains && Slots(SlotsAt(v, Addrs(cat.chains[d], per)))
    ensures Find(v, cat, per, upcase, d, name)
         == HitNode(cat, Addrs(cat.chains[d], per), 0,
                    LocateIn(upcase, SlotsAt(v, Addrs(cat.chains[d], per)), UpName(upcase, name)))
  {
    hide Addrs, Vol.Slot, UpName, LocateIn;
    var addrs := Addrs(cat.chains[d], per);
    var h := LocateIn(upcase, SlotsAt(v, addrs), UpName(upcase, name));
    if h.Some? {
      HitFacts(upcase, SlotsAt(v, addrs), UpName(upcase, name));
      assert addrs[h.value.pos..h.value.pos + h.value.count][0] == addrs[h.value.pos];
    }
  }

  /** The writer's search finds exactly the first listed node with that name, ignoring case. */
  lemma FindIsFirstListed(v: Vol, cat: Cat, cb: nat, per: nat, upcase: seq<u16>, d: nat, name: Name)
    requires Walkable(v, cat, cb, per, upcase, d) && d in cat.chains
    ensures Find(v, cat, per, upcase, d, name)
         == FirstNamed(cat, upcase, NodesFrom(v, cat, per, d, 0), UpName(upcase, name))
  {
    hide *;
    WalkableSlots(v, cat, cb, per, upcase, d);
    FindOfHit(v, cat, per, upcase, d, name);
    SearchFrom(v, cat, cb, per, upcase, d, UpName(upcase, name), 0);
    var slots := SlotsAt(v, Addrs(cat.chains[d], per));
    assert slots[0..] == slots;
  }

  /** The reader lists a directory of a consistent volume without error, and reports exactly the nodes the walk
      passes, in order, whatever the length bound as long as it covers the directory's clusters. */
  lemma DirectoryLists(v: Vol, cat: Cat, cb: nat, per: nat, upcase: seq<u16>, d: nat, dataLen: nat)
    requires Walkable(v, cat, cb, per, upcase, d) && d in cat.chains && |Addrs(cat.chains[d], per)| <= DivCeil(dataLen, SLOT)
    ensures Slots(SlotsAt(v, Addrs(cat.chains[d], per)))
    ensures forall j :: 0 <= j < |NodesFrom(v, cat, per, d, 0)| ==> NodesFrom(v, cat, per, d, 0)[j] in cat.nodes
    ensures Listing(v, cat.chains[d], per, dataLen) == Ok(EntriesOf(cat, NodesFrom(v, cat, per, d, 0)))
  {
    ListedAreNodes(v, cat, per, d, 0);
    WalkableSlots(v, cat, cb, per, upcase, d);
    hide Walkable, NodesFrom, ReadSlots, Addrs, Vol.Slot, EntriesOf, DivCeil;
    ListingFrom(v, cat, cb, per, upcase, d, 0);
    var slots := SlotsAt(v, Addrs(cat.chains[d], per));
    assert slots[0..] == slots && slots[..|slots|] == slots;
  }

  /** A bound that covers `n` clusters covers their slots. */
  lemma CoversSlots(ch: seq<nat>, per: nat, cb: nat, dataLen: nat)
    requires cb == SLOT * per && |ch| * cb <= dataLen
    ensures |Addrs(ch, per)| <= DivCeil(dataLen, SLOT)
  {
    AddrsSize(ch, per);
    DivCeilBounds(dataLen, SLOT);
    assert |ch| * cb == SLOT * (|ch| * per);
    hide DivCeil, Addrs;
  }

  // ---- Which nodes are listed ----------------------------------------------------------------

  /** The position of a node in the walk of its directory. */
  function Position(cat: Cat, per: nat, k: nat): nat
    requires k in cat.nodes
  {
    (if cat.nodes[k].cluster in cat.own then cat.own[cat.nodes[k].cluster].at * per else 0) + cat.nodes[k].start
  }

  /** No slot of `slots` from `i` up to `j` ends the directory. */
  ghost predicate Open(slots: seq<seq<byte>>, i: nat, j: int)
    requires Slots(slots)
  {
    forall x :: i <= x < j && x < |slots| ==> slots[x][0] != ENTRY_END
  }

  /** No end-of-directory slot lies before the node in its directory. */
  ghost predicate Visible(v: Vol, cat: Cat, per: nat, k: nat)
    requires k in cat.nodes
  {
    var d := cat.nodes[k].parent;
    d in cat.chains && Slots(SlotsAt(v, Addrs(cat.chains[d], per)))
    && Open(SlotsAt(v, Addrs(cat.chains[d], per)), 0, Position(cat, per, k))
  }

  /** The walk of a directory meets the set of each node recorded in it, whole, at the node's position. */
  lemma NodeAtPosition(v: Vol, cat: Cat, cb: nat, per: nat, upcase: seq<u16>, d: nat, k: nat)
    requires Walkable(v, cat, cb, per, upcase, d) && d in cat.chains && k in cat.nodes && cat.nodes[k].parent == d
    ensures var p, n, addrs := Position(cat, per, k), cat.nodes[k], Addrs(cat.chains[d], per);
      && n.facts.Recordable() && 3 <= n.Count() && p + n.Count() <= |addrs|
      && addrs[p..p + n.Count()] == n.SetAddrs() && SlotsAt(v, addrs)[p..p + n.Count()] == Encode(n.facts, upcase)
      && NodeStarts(v, cat, per, d, p) && cat.slotOwn[addrs[p]] == k
  {
    hide Encode, ChainSuits, SetOnDisk, Addrs, Slots;
    assert NodeOk(v, cat, cb, upcase, k);
    var n := cat.nodes[k];
    var i := cat.own[n.cluster].at;
    assert cat.chains[d][i] == n.cluster;
    DivCeilBounds(|n.facts.name|, NAME_UNITS);
    NodeInWalk(v, cat.chains[d], per, upcase, n, i);
    SetHead(n.facts, upcase);
    PositionOwned(v, cat, per, k, Addrs(cat.chains[d], per), i * per + n.start, upcase);
  }

  lemma PositionOwned(v: Vol, cat: Cat, per: nat, k: nat, addrs: seq<SlotAddr>, p: nat, upcase: seq<u16>)
    requires SlotsOwned(v, cat, per) && k in cat.nodes && cat.nodes[k].facts.Recordable()
    requires 3 <= cat.nodes[k].Count() && p + cat.nodes[k].Count() <= |addrs|
    requires addrs[p..p + cat.nodes[k].Count()] == cat.nodes[k].SetAddrs()
    requires SlotsAt(v, addrs)[p..p + cat.nodes[k].Count()] == Encode(cat.nodes[k].facts, upcase)
    requires Encode(cat.nodes[k].facts, upcase)[0][0] == ENTRY_FILE
    ensures |v.Slot(addrs[p])| == SLOT && v.Slot(addrs[p])[0] == ENTRY_FILE
    ensures addrs[p] in cat.slotOwn && cat.slotOwn[addrs[p]] == k
  {
    hide Encode, Vol.Slot;
    var n := cat.nodes[k];
    assert addrs[p..p + n.Count()][0] == addrs[p];
    assert addrs[p] == n.Addr(0);
    assert SlotsAt(v, addrs)[p..p + n.Count()][0] == v.Slot(addrs[p]);
  }

  /** A node the walk starts at `i` has position `i`. */
  lemma StartPosition(v: Vol, cat: Cat, cb: nat, per: nat, upcase: seq<u16>, d: nat, i: nat)
    requires Walkable(v, cat, cb, per, upcase, d) && d in cat.chains && NodeStarts(v, cat, per, d, i)
    ensures var k := cat.slotOwn[Addrs(cat.chains[d], per)[i]];
      k in cat.nodes && cat.nodes[k].parent == d && Position(cat, per, k) == i
  {
    var addrs := Addrs(cat.chains[d], per);
    DivMod(i, per);
    hide NodesOk, SlotsOwned, Addrs, Encode, SetSize, SetOnDisk;
    HeadOfNode(v, cat, cb, per, upcase, d, i, i / per, i % per);
    assert cat.own[cat.chains[d][i / per]] == Place(d, i / per);
  }

  /** The slots of a set do not end a directory. */
  lemma SetIsOpen(slots: seq<seq<byte>>, i: nat, f: Facts, upcase: seq<u16>)
    requires Slots(slots) && f.Recordable() && i + SetSize(f.name) <= |slots|
    requires slots[i..i + SetSize(f.name)] == Encode(f, upcase)
    ensures Open(slots, i, i + SetSize(f.name))
  {
    SetHead(f, upcase);
    hide Encode, SetSize;
    forall x | i <= x < i + SetSize(f.name)
      ensures slots[x][0] != ENTRY_END
    {
      assert slots[x] == slots[i..i + SetSize(f.name)][x - i];
    }
  }

  /** Every node the walk lists lies in the directory, behind no end-of-directory slot. */
  lemma {:induction false} ListedVisible(v: Vol, cat: Cat, cb: nat, per: nat, upcase: seq<u16>, d: nat, i: nat, k: nat)
    requires Walkable(v, cat, cb, per, upcase, d) && d in cat.chains && Slots(SlotsAt(v, Addrs(cat.chains[d], per)))
    requires i <= |Addrs(cat.chains[d], per)| && k in NodesFrom(v, cat, per, d, i)
    ensures k in cat.nodes && cat.nodes[k].parent == d && i <= Position(cat, per, k)
    ensures Open(SlotsAt(v, Addrs(cat.chains[d], per)), i, Position(cat, per, k))
    decreases |Addrs(cat.chains[d], per)| - i
  {
    hide *;
    var addrs := Addrs(cat.chains[d], per);
    var slots := SlotsAt(v, addrs);
    if i == |addrs| {
      NodesAtEnd(v, cat, per, d, i);
      return;
    }
    WholeSlot(slots, i);
    if slots[i][0] == ENTRY_FILE {
      ListedAtSet(v, cat, cb, per, upcase, d, i, k);
    } else if slots[i][0] == ENTRY_END {
      NodesAtEnd(v, cat, per, d, i);
    } else {
      NodesAtOther(v, cat, per, d, i);
      ListedVisible(v, cat, cb, per, upcase, d, i + 1, k);
      OpenOneMore(slots, i, Position(cat, per, k));
    }
  }

  lemma {:induction false} ListedAtSet(v: Vol, cat: Cat, cb: nat, per: nat, upcase: seq<u16>, d: nat, i: nat, k: nat)
    requires Walkable(v, cat, cb, per, upcase, d) && d in cat.chains && Slots(SlotsAt(v, Addrs(cat.chains[d], per)))
    requires i < |Addrs(cat.chains[d], per)| && k in NodesFrom(v, cat, per, d, i)
    requires |SlotsAt(v, Addrs(cat.chains[d], per))[i]| > 0 && SlotsAt(v, Addrs(cat.chains[d], per))[i][0] == ENTRY_FILE
    ensures k in cat.nodes && cat.nodes[k].parent == d && i <= Position(cat, per, k)
    ensures Open(SlotsAt(v, Addrs(cat.chains[d], per)), i, Position(cat, per, k))
    decreases |Addrs(cat.chains[d], per)| - i, 0
  {
    hide *;
    var addrs := Addrs(cat.chains[d], per);
    var slots := SlotsAt(v, addrs);
    StartIsNode(v, cat, cb, per, upcase, d, i);
    NodesAtSet(v, cat, per, d, i);
    StartOwned(v, cat, per, d, i);
    StartPosition(v, cat, cb, per, upcase, d, i);
    var k0 := cat.slotOwn[addrs[i]];
    var n := cat.nodes[k0];
    NamesCount(n);
    SetIsOpen(slots, i, n.facts, upcase);
    if k != k0 {
      assert k in NodesFrom(v, cat, per, d, i + n.Count());
      ListedVisible(v, cat, cb, per, upcase, d, i + n.Count(), k);
      OpenJoin(slots, i, i + n.Count(), Position(cat, per, k));
    } else {
      OpenNothing(slots, i);
    }
  }

  lemma OpenOneMore(slots: seq<seq<byte>>, i: nat, j: nat)
    requires Slots(slots) && i < |slots| && slots[i][0] != ENTRY_END && Open(slots, i + 1, j)
    ensures Open(slots, i, j)
  {
  }

  lemma OpenJoin(slots: seq<seq<byte>>, i: nat, m: nat, j: nat)
    requires Slots(slots) && Open(slots, i, m) && Open(slots, m, j)
    ensures Open(slots, i, j)
  {
  }

  lemma OpenNothing(slots: seq<seq<byte>>, i: nat)
    requires Slots(slots)
    ensures Open(slots, i, i)
  {
  }

  lemma OpenAfter(slots: seq<seq<byte>>, i: nat, m: nat, j: nat)
    requires Slots(slots) && Open(slots, i, j) && i <= m
    ensures Open(slots, m, j) && (i < j && i < |slots| ==> slots[i][0] != ENTRY_END)
  {
  }

  /** A node that no end-of-directory slot hides is listed. */
  lemma {:induction false} VisibleListed(v: Vol, cat: Cat, cb: nat, per: nat, upcase: seq<u16>, d: nat, i: nat, k: nat)
    requires Walkable(v, cat, cb, per, upcase, d) && d in cat.chains && Slots(SlotsAt(v, Addrs(cat.chains[d], per)))
    requires k in cat.nodes && cat.nodes[k].parent == d && i <= Position(cat, per, k)
    requires Open(SlotsAt(v, Addrs(cat.chains[d], per)), i, Position(cat, per, k))
    ensures k in NodesFrom(v, cat, per, d, i)
    decreases Position(cat, per, k) - i
  {
    hide *;
    var addrs := Addrs(cat.chains[d], per);
    var slots := SlotsAt(v, addrs);
    NodeAtPosition(v, cat, cb, per, upcase, d, k);
    var p := Position(cat, per, k);
    if i == p {
      NodesAtSet(v, cat, per, d, i);
      return;
    }
    WholeSlot(slots, i);
    OpenAfter(slots, i, i, p);
    if slots[i][0] == ENTRY_FILE {
      StartIsNode(v, cat, cb, per, upcase, d, i);
      NodesAtSet(v, cat, per, d, i);
      StartOwned(v, cat, per, d, i);
      StartPosition(v, cat, cb, per, upcase, d, i);
      var k0 := cat.slotOwn[addrs[i]];
      SetsInOrder(v, cat, cb, per, upcase, d, k0, k);
      OpenAfter(slots, i, i + cat.nodes[k0].Count(), p);
      VisibleListed(v, cat, cb, per, upcase, d, i + cat.nodes[k0].Count(), k);
    } else {
      OpenAfter(slots, i, i + 1, p);
      NodesAtOther(v, cat, per, d, i);
      VisibleListed(v, cat, cb, per, upcase, d, i + 1, k);
    }
  }

  /** A set that starts before another ends before it starts. */
  lemma SetsInOrder(v: Vol, cat: Cat, cb: nat, per: nat, upcase: seq<u16>, d: nat, k0: nat, k: nat)
    requires Walkable(v, cat, cb, per, upcase, d) && d in cat.chains
    requires k0 in cat.nodes && cat.nodes[k0].parent == d && k in cat.nodes && cat.nodes[k].parent == d
    requires Position(cat, per, k0) < Position(cat, per, k)
    ensures Position(cat, per, k0) + cat.nodes[k0].Count() <= Position(cat, per, k)
  {
    hide *;
    NodeAtPosition(v, cat, cb, per, upcase, d, k0);
    NodeAtPosition(v, cat, cb, per, upcase, d, k);
    var addrs := Addrs(cat.chains[d], per);
    var p0, p, c := Position(cat, per, k0), Position(cat, per, k), cat.nodes[k0].Count();
    if p < p0 + c {
      assert addrs[p] == addrs[p0..p0 + c][p - p0];
      OwnedBySet(v, cat, per, k0, p - p0, cb, upcase, d);
    }
  }

  lemma OwnedBySet(v: Vol, cat: Cat, per: nat, k: nat, j: nat, cb: nat, upcase: seq<u16>, d: nat)
    requires Walkable(v, cat, cb, per, upcase, d) && k in cat.nodes && j < |cat.nodes[k].SetAddrs()|
    ensures cat.nodes[k].SetAddrs()[j] in cat.slotOwn && cat.slotOwn[cat.nodes[k].SetAddrs()[j]] == k
  {
    hide NodesOk, Placed, Addrs, Slots;
    assert cat.nodes[k].SetAddrs()[j] == cat.nodes[k].Addr(j);
  }
}
