/** Directories as lists of slots: what the reader lists, what the writer finds, and when they agree. */
module SlotLists {
  import opened Bytes
  import opened EntrySets

  // ---- The reader ----------------------------------------------------------------------

  /** The slots before the first end-of-directory slot. */
  function BeforeEnd(slots: seq<seq<byte>>): (r: seq<seq<byte>>)
    requires Slots(slots)
    ensures Slots(r)
  {
    if slots == [] || slots[0][0] == ENTRY_END then [] else [slots[0]] + BeforeEnd(slots[1..])
  }

  /** The entries of a list of raw slots: everything that is no File slot is passed over, and one malformed
      set fails the whole list. */
  function ParseSets(raw: seq<seq<byte>>): Result<seq<Entry>>
    requires Slots(raw)
    decreases |raw|
  {
    if raw == [] then Ok([])
    else if raw[0][0] != ENTRY_FILE then ParseSets(raw[1..])
    else
      var n := 1 + raw[0][1] as nat;
      if raw[0][1] < 2 || n > |raw| then Err(Invalid("file entry set truncated"))
      else
        match DecodeSet(raw[..n])
        case Err(e) => Err(e)
        case Ok(entry) => Cons(entry, ParseSets(raw[n..]))
  }

  function Cons(e: Entry, r: Result<seq<Entry>>): Result<seq<Entry>>
  {
    match r
    case Ok(es) => Ok([e] + es)
    case Err(x) => Err(x)
  }

  /** What listing a directory returns. */
  function ReadSlots(slots: seq<seq<byte>>): Result<seq<Entry>>
    requires Slots(slots)
  {
    ParseSets(BeforeEnd(slots))
  }

  // ---- The writer's search -------------------------------------------------------------

  /** A set found at slot `pos`: its number of slots and the facts of its Stream and File slots. */
  datatype Hit = Hit(pos: nat, count: nat, first: nat, len: nat, isDir: bool, flags: byte)

  function Shifted(h: Option<Hit>, k: nat): Option<Hit>
  {
    match h
    case None => None
    case Some(x) => Some(x.(pos := x.pos + k))
  }

  function HitOf(set_: seq<seq<byte>>): Hit
    requires |set_| >= 2 && Slots(set_)
  {
    Hit(0, |set_|, Field(set_[1], 20, 4), Field(set_[1], 24, 8), BitSet(set_[0][4], 4), set_[1][1])
  }

  function NameIn(set_: seq<seq<byte>>): Name
    requires |set_| >= 2 && Slots(set_)
  {
    CollectUnits(set_[2..], set_[1][3])
  }

  /** The first set, before the end of the directory, whose folded name is `want`. Unlike the reader this
      search looks at no checksum. */
  function LocateIn(upcase: seq<u16>, slots: seq<seq<byte>>, want: Name): Option<Hit>
    requires Slots(slots)
    decreases |slots|
  {
    if slots == [] || slots[0][0] == ENTRY_END then None
    else if slots[0][0] != ENTRY_FILE then Shifted(LocateIn(upcase, slots[1..], want), 1)
    else
      var n := 1 + slots[0][1] as nat;
      if n > |slots| || n == 1 then None
      else if UpName(upcase, NameIn(slots[..n])) == want then Some(HitOf(slots[..n]))
      else Shifted(LocateIn(upcase, slots[n..], want), n)
  }

  // ---- Agreement -----------------------------------------------------------------------

  /** The lookup of the read side: the first listed entry whose folded name is `want`. */
  function FirstMatch(upcase: seq<u16>, entries: seq<Entry>, want: Name): Option<Entry>
  {
    if entries == [] then None
    else if UpName(upcase, entries[0].name) == want then Some(entries[0])
    else FirstMatch(upcase, entries[1..], want)
  }

  ghost predicate SameFile(h: Option<Hit>, e: Option<Entry>)
  {
    match (h, e)
    case (None, None) => true
    case (Some(x), Some(y)) =>
      x.first == y.firstCluster && x.len == y.size && x.isDir == y.isDir && BitSet(x.flags, 1) == y.noFatChain
    case _ => false
  }

  lemma BeforeEndCut(slots: seq<seq<byte>>, n: nat)
    requires Slots(slots) && n <= |BeforeEnd(slots)|
    ensures n <= |slots| && BeforeEnd(slots)[..n] == slots[..n] && BeforeEnd(slots)[n..] == BeforeEnd(slots[n..])
    decreases n
  {
    if n > 0 {
      BeforeEndCut(slots[1..], n - 1);
      var b := BeforeEnd(slots);
      assert b[1..] == BeforeEnd(slots[1..]);
      assert b[..n] == [b[0]] + b[1..][..n - 1] && slots[..n] == [slots[0]] + slots[1..][..n - 1];
      assert b[n..] == b[1..][n - 1..] && slots[n..] == slots[1..][n - 1..];
    }
  }

  /** On every directory the reader can list, the writer's search finds exactly the first listed entry with
      that name: same first cluster, same length, same kind. */
  lemma {:induction false} LocateAgreesWithReader(upcase: seq<u16>, slots: seq<seq<byte>>, want: Name)
    requires Slots(slots) && ReadSlots(slots).Ok?
    ensures SameFile(LocateIn(upcase, slots, want), FirstMatch(upcase, ReadSlots(slots).value, want))
    decreases |slots|
  {
    hide UpName, BitSet, Field, CollectUnits, Checksum;
    if slots == [] || slots[0][0] == ENTRY_END {
    } else {
      BeforeEndCut(slots, 1);
      assert BeforeEnd(slots)[1..] == BeforeEnd(slots[1..]);
      if slots[0][0] != ENTRY_FILE {
        LocateAgreesWithReader(upcase, slots[1..], want);
      } else {
        var n := 1 + slots[0][1] as nat;
        BeforeEndCut(slots, n);
        var set_ := slots[..n];
        var entry := DecodeSet(set_).value;
        assert ReadSlots(slots) == Cons(entry, ReadSlots(slots[n..]));
        assert ReadSlots(slots).value[1..] == ReadSlots(slots[n..]).value;
        LocateAgreesWithReader(upcase, slots[n..], want);
      }
    }
  }

  // ---- Composition ---------------------------------------------------------------------

  ghost predicate NoEnd(slots: seq<seq<byte>>)
    requires Slots(slots)
  {
    forall i :: 0 <= i < |slots| ==> slots[i][0] != ENTRY_END
  }

  lemma {:induction false} BeforeEndAppend(a: seq<seq<byte>>, b: seq<seq<byte>>)
    requires Slots(a) && Slots(b) && NoEnd(a)
    ensures Slots(a + b) && BeforeEnd(a + b) == a + BeforeEnd(b)
    decreases |a|
  {
    if a == [] {
      assert a + b == b;
    } else {
      BeforeEndAppend(a[1..], b);
      assert (a + b)[1..] == a[1..] + b;
    }
  }

  function Joined(es: seq<Entry>, r: Result<seq<Entry>>): Result<seq<Entry>>
  {
    match r
    case Ok(fs) => Ok(es + fs)
    case Err(x) => Err(x)
  }

  lemma {:induction false} ParseAppend(a: seq<seq<byte>>, b: seq<seq<byte>>)
    requires Slots(a) && Slots(b) && ParseSets(a).Ok?
    ensures Slots(a + b) && ParseSets(a + b) == Joined(ParseSets(a).value, ParseSets(b))
    decreases |a|
  {
    hide DecodeSet;
    if a == [] {
      assert a + b == b;
      if ParseSets(b).Ok? {
        assert [] + ParseSets(b).value == ParseSets(b).value;
      }
    } else if a[0][0] != ENTRY_FILE {
      assert (a + b)[1..] == a[1..] + b;
      ParseAppend(a[1..], b);
    } else {
      var n := 1 + a[0][1] as nat;
      assert (a + b)[..n] == a[..n] && (a + b)[n..] == a[n..] + b;
      ParseAppend(a[n..], b);
      var e := DecodeSet(a[..n]).value;
      if ParseSets(b).Ok? {
        assert [e] + (ParseSets(a[n..]).value + ParseSets(b).value) == ([e] + ParseSets(a[n..]).value) + ParseSets(b).value;
      }
    }
  }

  /** Listing a directory in two parts, when the first part is complete. */
  lemma ReadAppend(a: seq<seq<byte>>, b: seq<seq<byte>>)
    requires Slots(a) && Slots(b) && NoEnd(a) && ParseSets(a).Ok?
    ensures Slots(a + b) && ReadSlots(a + b) == Joined(ParseSets(a).value, ReadSlots(b))
  {
    BeforeEndAppend(a, b);
    ParseAppend(a, BeforeEnd(b));
  }

  // ---- A new set, slot write by slot write ---------------------------------------------

  lemma SetHead(f: Facts, upcase: seq<u16>)
    requires f.Recordable()
    ensures var s := Encode(f, upcase);
            && s[0][0] == ENTRY_FILE && 1 + s[0][1] as nat == |s| && 3 <= |s| <= 19
            && s[1][0] == ENTRY_STREAM
            && (forall i :: 2 <= i < |s| ==> s[i][0] == ENTRY_NAME)
  {
    DivCeilBounds(|f.name|, NAME_UNITS);
    FileFields(SetSize(f.name) - 1, Checksum(Unsummed(f, upcase, 0)), f.isDir);
    NameSlotTypes(f.name);
    var s := Encode(f, upcase);
    assert forall i :: 2 <= i < |s| ==> s[i] == NameSlots(f.name)[i - 2];
  }

  lemma {:induction false} NameSlotTypes(name: Name)
    ensures forall i :: 0 <= i < |NameSlots(name)| ==> NameSlots(name)[i][0] == ENTRY_NAME
  {
    if |name| > NAME_UNITS {
      NameSlotTypes(name[NAME_UNITS..]);
      assert NameSlots(name)[1..] == NameSlots(name[NAME_UNITS..]);
    }
  }

  lemma SetTruncated(raw: seq<seq<byte>>)
    requires Slots(raw) && raw != [] && raw[0][0] == ENTRY_FILE
    requires 2 <= raw[0][1]
    requires 1 + raw[0][1] as nat <= |raw| ==> DecodeSet(raw[..1 + raw[0][1] as nat]).Err?
    ensures ParseSets(raw).Err?
  {
  }

  lemma TornPrefix(f: Facts, upcase: seq<u16>, j: nat, rest: seq<seq<byte>>)
    requires f.Recordable() && 1 <= j <= SetSize(f.name) && Slots(rest)
    ensures var a := Encode(f, upcase)[..j];
            && Slots(a) && NoEnd(a) && a[0][0] == ENTRY_FILE && 1 + a[0][1] as nat == SetSize(f.name)
            && BeforeEnd(a + rest) == a + BeforeEnd(rest)
  {
    hide Encode, SetSize, BeforeEnd;
    SetHead(f, upcase);
    BeforeEndAppend(Encode(f, upcase)[..j], rest);
  }

  lemma TornBlock(f: Facts, upcase: seq<u16>, old_: seq<seq<byte>>, post: seq<seq<byte>>, j: nat)
    requires f.Recordable() && |old_| == SetSize(f.name) && Slots(old_) && Slots(post)
    requires 1 <= j < |old_| && forall i :: 0 <= i < |old_| ==> Usable(old_[i])
    ensures ReadSlots(Encode(f, upcase)[..j] + old_[j..] + post).Err?
  {
    hide DecodeSet, Encode, SetSize, BeforeEnd, ParseSets, NoEnd;
    var a := Encode(f, upcase)[..j];
    var rest := old_[j..] + post;
    TornPrefix(f, upcase, j, rest);
    assert a + old_[j..] + post == a + rest;
    var raw := BeforeEnd(a + rest);
    SetHead(f, upcase);
    if |old_| <= |raw| {
      BeforeEndCut(a + rest, |old_|);
      assert raw[..|old_|] == (a + rest)[..|old_|] == a + old_[j..];
      TornSetRejected(f, upcase, old_, j);
    }
    SetTruncated(raw);
  }

  /** While a new set is being written into usable slots that the walk reaches, the directory does not list
      at all: the reader never shows a half-written set. No assumption about checksums is made. */
  lemma TornSetNeverListed(pre: seq<seq<byte>>, f: Facts, upcase: seq<u16>, old_: seq<seq<byte>>,
                           post: seq<seq<byte>>, j: nat)
    requires f.Recordable() && |old_| == SetSize(f.name) && Slots(pre) && Slots(old_) && Slots(post)
    requires NoEnd(pre) && ParseSets(pre).Ok?
    requires 1 <= j < |old_| && forall i :: 0 <= i < |old_| ==> Usable(old_[i])
    ensures ReadSlots(pre + (Encode(f, upcase)[..j] + old_[j..] + post)).Err?
  {
    hide Encode, SetSize, ReadSlots, NoEnd, ParseSets;
    TornBlock(f, upcase, old_, post, j);
    ReadAppend(pre, Encode(f, upcase)[..j] + old_[j..] + post);
  }

  /** Usable slots before the end list nothing. */
  lemma {:induction false} UnusedListsNothing(a: seq<seq<byte>>)
    requires Slots(a) && forall i :: 0 <= i < |a| ==> Usable(a[i])
    ensures ParseSets(a) == Ok([])
  {
    if a != [] {
      UnusedListsNothing(a[1..]);
    }
  }

  /** Once the last slot is written the directory lists one entry more, at the place of the set. */
  lemma NewSetListed(pre: seq<seq<byte>>, f: Facts, upcase: seq<u16>, post: seq<seq<byte>>)
    requires f.Recordable() && Slots(pre) && Slots(post) && NoEnd(pre) && ParseSets(pre).Ok?
    ensures ReadSlots(pre + (Encode(f, upcase) + post))
         == Joined(ParseSets(pre).value, Joined([EntryOf(f)], ReadSlots(post)))
  {
    hide Encode, SetSize, ReadSlots, BeforeEnd, NoEnd, ParseSets;
    var set_ := Encode(f, upcase);
    WholeSet(f, upcase);
    ReadAppend(set_, post);
    ReadAppend(pre, set_ + post);
  }

  lemma WholeSet(f: Facts, upcase: seq<u16>)
    requires f.Recordable()
    ensures NoEnd(Encode(f, upcase)) && ParseSets(Encode(f, upcase)) == Ok([EntryOf(f)])
  {
    hide DecodeSet, Encode, SetSize;
    var set_ := Encode(f, upcase);
    SetHead(f, upcase);
    EntrySetRoundTrip(f, upcase);
    assert set_[..1 + set_[0][1] as nat] == set_ && set_[1 + set_[0][1] as nat..] == [];
    assert [EntryOf(f)] + [] == [EntryOf(f)];
    assert ParseSets(set_) == Cons(EntryOf(f), ParseSets([]));
  }
}
