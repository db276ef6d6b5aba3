/** XTS over single ciphers and cascades. A keyed cipher is an arbitrary bijection of data units, one
    for every unit number; the block ciphers themselves are not modelled. */
module Xts {
  import opened Bytes
  import opened VcTypes

  /** One layer with its keys fixed: what it does to one data unit under its unit number. */
  datatype Layer = Layer(encrypt: (seq<byte>, nat) -> seq<byte>, decrypt: (seq<byte>, nat) -> seq<byte>)

  ghost predicate KeepsLength(f: (seq<byte>, nat) -> seq<byte>)
  {
    forall s: seq<byte>, u: nat :: |f(s, u)| == |s|
  }

  /** Each direction keeps lengths and undoes the other. */
  ghost predicate Inverse(l: Layer)
  {
    && KeepsLength(l.encrypt)
    && KeepsLength(l.decrypt)
    && (forall s: seq<byte>, u: nat :: l.decrypt(l.encrypt(s, u), u) == s)
    && (forall s: seq<byte>, u: nat :: l.encrypt(l.decrypt(s, u), u) == s)
  }

  ghost predicate AllInverse(ls: seq<Layer>)
  {
    forall i :: 0 <= i < |ls| ==> Inverse(ls[i])
  }

  // ---- Keys ------------------------------------------------------------------------------

  /** A cipher before keying: primary key, secondary key, unit, unit number. */
  datatype Cipher = Cipher(
    encrypt: (seq<byte>, seq<byte>, seq<byte>, nat) -> seq<byte>,
    decrypt: (seq<byte>, seq<byte>, seq<byte>, nat) -> seq<byte>)

  function Keyed(c: Cipher, primary: seq<byte>, secondary: seq<byte>): Layer
  {
    Layer((s, u) => c.encrypt(primary, secondary, s, u), (s, u) => c.decrypt(primary, secondary, s, u))
  }

  /** Whatever the keys, a cipher's two directions undo each other. */
  ghost predicate Sound(c: Cipher)
  {
    forall primary, secondary {:trigger Keyed(c, primary, secondary)} :: Inverse(Keyed(c, primary, secondary))
  }

  datatype Scheme = Scheme(ciphers: seq<Cipher>)

  ghost predicate SoundScheme(scheme: Scheme)
  {
    forall i :: 0 <= i < |scheme.ciphers| ==> Sound(scheme.ciphers[i])
  }

  function KeyBytes(scheme: Scheme): nat
  {
    |scheme.ciphers| * 64
  }

  /** Key material holds all primary keys in layer order, then all secondary keys in the same order. */
  function Keying(scheme: Scheme, material: seq<byte>): VcResult<seq<Layer>>
  {
    if |material| != KeyBytes(scheme) then Bad(Internal("wrong number of key bytes"))
    else
      var n := |scheme.ciphers|;
      Good(seq(n, i requires 0 <= i < n => KeyedLayer(scheme, material, i)))
  }

  function KeyedLayer(scheme: Scheme, material: seq<byte>, i: nat): Layer
    requires |material| == KeyBytes(scheme) && i < |scheme.ciphers|
  {
    var n := |scheme.ciphers|;
    Keyed(scheme.ciphers[i], material[i * 32..(i + 1) * 32], material[(n + i) * 32..(n + i + 1) * 32])
  }

  lemma KeyingIsSound(scheme: Scheme, material: seq<byte>)
    requires SoundScheme(scheme)
    ensures Keying(scheme, material).Good? <==> |material| == KeyBytes(scheme)
    ensures Keying(scheme, material).Good? ==> AllInverse(Keying(scheme, material).value)
  {
  }

  /** One key for every cipher, 32 bytes each. */
  ghost predicate KeysFor(scheme: Scheme, keys: seq<seq<byte>>)
  {
    |keys| == |scheme.ciphers| && forall i :: 0 <= i < |keys| ==> |keys[i]| == 32
  }

  lemma {:induction false} FlatKey(keys: seq<seq<byte>>, i: nat)
    requires (forall k :: 0 <= k < |keys| ==> |keys[k]| == 32) && i < |keys|
    ensures |Flat(keys)| == 32 * |keys| && Flat(keys)[i * 32..(i + 1) * 32] == keys[i]
    decreases |keys|
  {
    FlatLength(keys[1..]);
    if i > 0 {
      FlatKey(keys[1..], i - 1);
      assert Flat(keys)[i * 32..(i + 1) * 32] == Flat(keys[1..])[(i - 1) * 32..i * 32];
    }
  }

  lemma {:induction false} FlatLength(keys: seq<seq<byte>>)
    requires forall k :: 0 <= k < |keys| ==> |keys[k]| == 32
    ensures |Flat(keys)| == 32 * |keys|
  {
    if keys != [] {
      FlatLength(keys[1..]);
    }
  }

  /** Layer `i` works as cipher `i` does under these keys. */
  ghost predicate WorksAs(l: Layer, c: Cipher, primary: seq<byte>, secondary: seq<byte>)
  {
    && (forall s: seq<byte>, u: nat :: l.encrypt(s, u) == c.encrypt(primary, secondary, s, u))
    && (forall s: seq<byte>, u: nat :: l.decrypt(s, u) == c.decrypt(primary, secondary, s, u))
  }

  /** Material made of all primary keys in layer order and then all secondary keys in the same order keys every
      layer with its own two keys. */
  lemma KeyingMeans(scheme: Scheme, primaries: seq<seq<byte>>, secondaries: seq<seq<byte>>)
    requires KeysFor(scheme, primaries) && KeysFor(scheme, secondaries)
    ensures var k := Keying(scheme, Flat(primaries) + Flat(secondaries));
      && k.Good? && |k.value| == |scheme.ciphers|
      && forall i :: 0 <= i < |scheme.ciphers| ==> WorksAs(k.value[i], scheme.ciphers[i], primaries[i], secondaries[i])
  {
    FlatLength(primaries);
    FlatLength(secondaries);
    KeyingSucceeds(scheme, Flat(primaries) + Flat(secondaries));
    hide Flat, WorksAs, Keying;
    forall i | 0 <= i < |scheme.ciphers|
      ensures WorksAs(Keying(scheme, Flat(primaries) + Flat(secondaries)).value[i], scheme.ciphers[i], primaries[i], secondaries[i])
    {
      KeysOfLayer(primaries, secondaries, i);
      KeyingAt(scheme, Flat(primaries) + Flat(secondaries), i);
      KeyedWorks(scheme.ciphers[i], primaries[i], secondaries[i]);
    }
  }

  lemma KeyingSucceeds(scheme: Scheme, material: seq<byte>)
    requires |material| == 64 * |scheme.ciphers|
    ensures Keying(scheme, material).Good? && |Keying(scheme, material).value| == |scheme.ciphers|
  {
    hide Keyed;
  }

  lemma KeyingAt(scheme: Scheme, material: seq<byte>, i: nat)
    requires |material| == 64 * |scheme.ciphers| && i < |scheme.ciphers|
    ensures Keying(scheme, material).Good? && |Keying(scheme, material).value| == |scheme.ciphers|
    ensures var n := |scheme.ciphers|;
      Keying(scheme, material).value[i]
      == Keyed(scheme.ciphers[i], material[i * 32..(i + 1) * 32], material[(n + i) * 32..(n + i + 1) * 32])
  {
    LayerKeyed(scheme, material, i);
    hide KeyedLayer;
  }

  lemma LayerKeyed(scheme: Scheme, material: seq<byte>, i: nat)
    requires |material| == 64 * |scheme.ciphers| && i < |scheme.ciphers|
    ensures |material| == KeyBytes(scheme)
    ensures var n := |scheme.ciphers|;
      KeyedLayer(scheme, material, i)
      == Keyed(scheme.ciphers[i], material[i * 32..(i + 1) * 32], material[(n + i) * 32..(n + i + 1) * 32])
  {
    hide Keyed;
  }

  /** The places of layer `i`'s keys in the material. */
  lemma KeysOfLayer(primaries: seq<seq<byte>>, secondaries: seq<seq<byte>>, i: nat)
    requires |primaries| == |secondaries| && i < |primaries|
    requires forall k :: 0 <= k < |primaries| ==> |primaries[k]| == 32 == |secondaries[k]|
    ensures var n, material := |primaries|, Flat(primaries) + Flat(secondaries);
      && |material| == 64 * n
      && material[i * 32..(i + 1) * 32] == primaries[i] && material[(n + i) * 32..(n + i + 1) * 32] == secondaries[i]
  {
    FlatLength(primaries);
    FlatLength(secondaries);
    FlatKey(primaries, i);
    FlatKey(secondaries, i);
    hide Flat;
    var a, b, n := Flat(primaries), Flat(secondaries), |primaries|;
    assert (a + b)[i * 32..(i + 1) * 32] == a[i * 32..(i + 1) * 32];
    assert (a + b)[(n + i) * 32..(n + i + 1) * 32] == b[i * 32..(i + 1) * 32];
  }

  lemma KeyedWorks(c: Cipher, primary: seq<byte>, secondary: seq<byte>)
    ensures WorksAs(Keyed(c, primary, secondary), c, primary, secondary)
  {
  }

  // ---- One pass over a buffer of whole units -----------------------------------------------

  /** A whole number of units. */
  predicate Whole(s: seq<byte>) { |s| % 512 == 0 }

  /** `f` applied unit by unit, the first unit of `s` being number `first`. */
  function Area(f: (seq<byte>, nat) -> seq<byte>, s: seq<byte>, first: nat): seq<byte>
    requires Whole(s)
  {
    if s == [] then [] else f(s[..512], first) + Area(f, s[512..], first + 1)
  }

  lemma {:induction false} AreaLength(f: (seq<byte>, nat) -> seq<byte>, s: seq<byte>, first: nat)
    requires Whole(s) && KeepsLength(f)
    ensures |Area(f, s, first)| == |s|
  {
    if s != [] {
      AreaLength(f, s[512..], first + 1);
    }
  }

  lemma {:induction false} AreaConcat(f: (seq<byte>, nat) -> seq<byte>, s: seq<byte>, t: seq<byte>, first: nat)
    requires Whole(s) && Whole(t) && KeepsLength(f)
    ensures Whole(s + t)
    ensures Area(f, s + t, first) == Area(f, s, first) + Area(f, t, first + |s| / 512)
  {
    if s == [] {
      assert s + t == t;
    } else {
      var v := s + t;
      assert v[..512] == s[..512] && v[512..] == s[512..] + t;
      AreaConcat(f, s[512..], t, first + 1);
      assert |s[512..]| / 512 + 1 == |s| / 512;
      Associates(f(s[..512], first), Area(f, s[512..], first + 1), Area(f, t, first + |s| / 512));
    }
  }

  /** A pass over three runs of whole units is the three passes, each with its own unit numbers. */
  lemma AreaParts(f: (seq<byte>, nat) -> seq<byte>, a: seq<byte>, b: seq<byte>, c: seq<byte>, first: nat)
    requires Whole(a) && Whole(b) && Whole(c) && KeepsLength(f)
    ensures Whole(a + b + c)
    ensures Area(f, a + b + c, first)
         == Area(f, a, first) + Area(f, b, first + |a| / 512) + Area(f, c, first + (|a| + |b|) / 512)
    ensures |Area(f, a, first)| == |a| && |Area(f, b, first + |a| / 512)| == |b|
    ensures |Area(f, c, first + (|a| + |b|) / 512)| == |c|
  {
    hide Area;
    AreaConcat(f, a + b, c, first);
    AreaConcat(f, a, b, first);
    AreaLength(f, a, first);
    AreaLength(f, b, first + |a| / 512);
    AreaLength(f, c, first + (|a| + |b|) / 512);
  }

  lemma Parts<T>(s: seq<T>, lo: nat, hi: nat)
    requires lo <= hi <= |s|
    ensures s == s[..lo] + s[lo..hi] + s[hi..]
  {
  }

  lemma WholeSpan(lo: nat, hi: nat)
    requires lo <= hi && lo % 512 == 0
    ensures (hi - lo) % 512 == 0 <==> hi % 512 == 0
  {
    var q := hi / 512 - lo / 512;
    assert hi - lo == q * 512 + hi % 512;
    DivModUnique(q, 512, hi % 512);
  }

  lemma WholeSum(at: nat, s: seq<byte>)
    requires at % 512 == 0 && Whole(s)
    ensures (at + |s|) % 512 == 0
  {
  }

  lemma WholeParts(s: seq<byte>, lo: nat, hi: nat)
    requires Whole(s) && lo % 512 == 0 && hi % 512 == 0 && lo <= hi <= |s|
    ensures Whole(s[..lo]) && Whole(s[lo..hi]) && Whole(s[hi..])
  {
    WholeSpan(lo, hi);
    WholeSpan(hi, |s|);
  }

  lemma PartsBack<T>(a: seq<T>, b: seq<T>, c: seq<T>)
    ensures (a + b + c)[|a|..|a| + |b|] == b
    ensures (a + b + c)[..|a|] == a && (a + b + c)[|a| + |b|..] == c
  {
  }

  /** A pass works on each run of whole units by itself. */
  lemma AreaSlice(f: (seq<byte>, nat) -> seq<byte>, s: seq<byte>, first: nat, lo: nat, hi: nat)
    requires Whole(s) && KeepsLength(f)
    requires lo % 512 == 0 && hi % 512 == 0 && lo <= hi <= |s|
    ensures |Area(f, s, first)| == |s|
    ensures Area(f, s, first)[lo..hi] == Area(f, s[lo..hi], first + lo / 512)
  {
    hide *;
    var a, b, c := s[..lo], s[lo..hi], s[hi..];
    Parts(s, lo, hi);
    WholeParts(s, lo, hi);
    AreaLength(f, s, first);
    AreaParts(f, a, b, c, first);
    PartsBack(Area(f, a, first), Area(f, b, first + lo / 512), Area(f, c, first + (|a| + |b|) / 512));
  }

  lemma AreaSpliceMiddle(f: (seq<byte>, nat) -> seq<byte>, a: seq<byte>, b: seq<byte>, c: seq<byte>,
                         d: seq<byte>, unit: nat)
    requires Whole(a) && Whole(b) && Whole(c) && Whole(d) && unit == |a| / 512 && KeepsLength(f)
    requires |b| == |d|
    ensures Whole(a + b + c) && Whole(Splice(a + b + c, |a|, d))
    ensures |Area(f, a + b + c, 0)| == |a + b + c| && |Area(f, d, unit)| == |d|
    ensures Area(f, Splice(a + b + c, |a|, d), 0) == Splice(Area(f, a + b + c, 0), |a|, Area(f, d, unit))
  {
    hide *;
    AreaParts(f, a, b, c, 0);
    AreaParts(f, a, d, c, 0);
    var fa, fb, fc, fd := Area(f, a, 0), Area(f, b, unit), Area(f, c, (|a| + |b|) / 512), Area(f, d, unit);
    assert Area(f, a + b + c, 0) == fa + fb + fc;
    assert Area(f, a + d + c, 0) == fa + fd + fc;
    SpliceMiddle(a, b, c, d);
    SpliceMiddle(fa, fb, fc, fd);
  }

  /** Splicing whole units commutes with a pass. */
  lemma AreaSplice(f: (seq<byte>, nat) -> seq<byte>, s: seq<byte>, at: nat, block: seq<byte>)
    requires Whole(s) && KeepsLength(f)
    requires at % 512 == 0 && Whole(block) && at + |block| <= |s|
    ensures Whole(Splice(s, at, block))
    ensures |Area(f, s, 0)| == |s| && |Area(f, block, at / 512)| == |block|
    ensures Area(f, Splice(s, at, block), 0) == Splice(Area(f, s, 0), at, Area(f, block, at / 512))
  {
    hide *;
    Parts(s, at, at + |block|);
    WholeSum(at, block);
    WholeParts(s, at, at + |block|);
    AreaSpliceMiddle(f, s[..at], s[at..at + |block|], s[at + |block|..], block, at / 512);
  }

  lemma {:induction false} AreaInverse(l: Layer, s: seq<byte>, first: nat)
    requires Whole(s) && Inverse(l)
    ensures |Area(l.encrypt, s, first)| == |s| == |Area(l.decrypt, s, first)|
    ensures Area(l.decrypt, Area(l.encrypt, s, first), first) == s
    ensures Area(l.encrypt, Area(l.decrypt, s, first), first) == s
  {
    AreaLength(l.encrypt, s, first);
    AreaLength(l.decrypt, s, first);
    if s != [] {
      var head, tail := s[..512], s[512..];
      AreaInverse(l, tail, first + 1);
      var e, d := Area(l.encrypt, s, first), Area(l.decrypt, s, first);
      assert e[..512] == l.encrypt(head, first) && e[512..] == Area(l.encrypt, tail, first + 1);
      assert d[..512] == l.decrypt(head, first) && d[512..] == Area(l.decrypt, tail, first + 1);
      assert s == head + tail;
    }
  }

  // ---- Cascades ------------------------------------------------------------------------------

  function EncryptUnit(ls: seq<Layer>, s: seq<byte>, unit: nat): seq<byte>
  {
    if ls == [] then s else EncryptUnit(ls[1..], ls[0].encrypt(s, unit), unit)
  }

  function DecryptUnit(ls: seq<Layer>, s: seq<byte>, unit: nat): seq<byte>
  {
    if ls == [] then s else ls[0].decrypt(DecryptUnit(ls[1..], s, unit), unit)
  }

  /** The cascade as one layer: every unit goes through all layers before the next unit starts. */
  function Cascade(ls: seq<Layer>): Layer
  {
    Layer((s, u) => EncryptUnit(ls, s, u), (s, u) => DecryptUnit(ls, s, u))
  }

  lemma {:induction false} UnitInverse(ls: seq<Layer>, s: seq<byte>, unit: nat)
    requires AllInverse(ls)
    ensures |EncryptUnit(ls, s, unit)| == |s| == |DecryptUnit(ls, s, unit)|
    ensures DecryptUnit(ls, EncryptUnit(ls, s, unit), unit) == s
    ensures EncryptUnit(ls, DecryptUnit(ls, s, unit), unit) == s
  {
    if ls != [] {
      assert Inverse(ls[0]);
      assert AllInverse(ls[1..]);
      UnitInverse(ls[1..], ls[0].encrypt(s, unit), unit);
      UnitInverse(ls[1..], s, unit);
    }
  }

  /** A cascade of inverse pairs is an inverse pair: decryption applies the layers last to first. */
  lemma CascadeInverse(ls: seq<Layer>)
    requires AllInverse(ls)
    ensures Inverse(Cascade(ls))
  {
    var c := Cascade(ls);
    forall s: seq<byte>, u: nat
      ensures |c.encrypt(s, u)| == |s| && |c.decrypt(s, u)| == |s|
      ensures c.decrypt(c.encrypt(s, u), u) == s && c.encrypt(c.decrypt(s, u), u) == s
    {
      UnitInverse(ls, s, u);
    }
  }

  /** Layer-at-a-time encryption: a whole pass of the first layer, then of the rest. */
  lemma {:induction false} EncryptPass(ls: seq<Layer>, s: seq<byte>, first: nat)
    requires Whole(s) && AllInverse(ls) && ls != []
    ensures |Area(ls[0].encrypt, s, first)| == |s|
    ensures Area(Cascade(ls).encrypt, s, first)
         == Area(Cascade(ls[1..]).encrypt, Area(ls[0].encrypt, s, first), first)
  {
    assert Inverse(ls[0]);
    AreaLength(ls[0].encrypt, s, first);
    if s != [] {
      EncryptPass(ls, s[512..], first + 1);
      var a := Area(ls[0].encrypt, s, first);
      assert a[..512] == ls[0].encrypt(s[..512], first);
      assert a[512..] == Area(ls[0].encrypt, s[512..], first + 1);
    }
  }

  lemma {:induction false} NoLayers(s: seq<byte>, first: nat)
    requires Whole(s)
    ensures Area(Cascade([]).encrypt, s, first) == s == Area(Cascade([]).decrypt, s, first)
  {
    if s != [] {
      NoLayers(s[512..], first + 1);
      assert s == s[..512] + s[512..];
    }
  }

  lemma {:induction false} LastLayer(ls: seq<Layer>, s: seq<byte>, unit: nat)
    requires ls != []
    ensures DecryptUnit(ls, s, unit)
         == DecryptUnit(ls[..|ls| - 1], ls[|ls| - 1].decrypt(s, unit), unit)
  {
    if |ls| > 1 {
      LastLayer(ls[1..], s, unit);
      assert ls[1..][..|ls| - 2] == ls[..|ls| - 1][1..];
    }
  }

  /** Layer-at-a-time decryption: a whole pass of the last layer, then of the ones before it. */
  lemma {:induction false} DecryptPass(ls: seq<Layer>, s: seq<byte>, first: nat)
    requires Whole(s) && AllInverse(ls) && ls != []
    ensures |Area(ls[|ls| - 1].decrypt, s, first)| == |s|
    ensures Area(Cascade(ls).decrypt, s, first)
         == Area(Cascade(ls[..|ls| - 1]).decrypt, Area(ls[|ls| - 1].decrypt, s, first), first)
  {
    var l := ls[|ls| - 1];
    assert Inverse(l);
    AreaLength(l.decrypt, s, first);
    if s != [] {
      DecryptPass(ls, s[512..], first + 1);
      LastLayer(ls, s[..512], first);
      var a := Area(l.decrypt, s, first);
      assert a[..512] == l.decrypt(s[..512], first);
      assert a[512..] == Area(l.decrypt, s[512..], first + 1);
    }
  }

  // ---- Blocks ----------------------------------------------------------------------------------

  /** Block `j` of sixteen bytes. */
  function Block(s: seq<byte>, j: nat): seq<byte>
    requires 16 * j + 16 <= |s|
  {
    s[16 * j..16 * j + 16]
  }

  /** A block of the result depends on nothing but the same block of the unit, its place and the unit number:
      what the XTS mode of a cipher with blocks of sixteen bytes does to units of whole blocks. */
  ghost predicate Blockwise(f: (seq<byte>, nat) -> seq<byte>)
  {
    && KeepsLength(f)
    && forall s: seq<byte>, t: seq<byte>, u: nat, j: nat ::
         |s| == |t| && |s| % 16 == 0 && 16 * j + 16 <= |s| && Block(s, j) == Block(t, j) ==>
         Block(f(s, u), j) == Block(f(t, u), j)
  }

  ghost predicate BlockLocal(l: Layer)
  {
    Inverse(l) && Blockwise(l.encrypt) && Blockwise(l.decrypt)
  }

  ghost predicate AllBlockLocal(ls: seq<Layer>)
  {
    forall i :: 0 <= i < |ls| ==> BlockLocal(ls[i])
  }

  lemma {:induction false} UnitBlocks(ls: seq<Layer>, s: seq<byte>, t: seq<byte>, unit: nat, j: nat)
    requires AllBlockLocal(ls) && |s| == |t| && |s| % 16 == 0 && 16 * j + 16 <= |s| && Block(s, j) == Block(t, j)
    ensures |EncryptUnit(ls, s, unit)| == |s| == |EncryptUnit(ls, t, unit)|
    ensures |DecryptUnit(ls, s, unit)| == |s| == |DecryptUnit(ls, t, unit)|
    ensures Block(EncryptUnit(ls, s, unit), j) == Block(EncryptUnit(ls, t, unit), j)
    ensures Block(DecryptUnit(ls, s, unit), j) == Block(DecryptUnit(ls, t, unit), j)
  {
    hide Block;
    if ls != [] {
      assert BlockLocal(ls[0]);
      assert AllBlockLocal(ls[1..]);
      UnitBlocks(ls[1..], ls[0].encrypt(s, unit), ls[0].encrypt(t, unit), unit, j);
      UnitBlocks(ls[1..], s, t, unit, j);
    }
  }

  /** A cascade of block-local layers is block-local. */
  lemma CascadeBlockLocal(ls: seq<Layer>)
    requires AllBlockLocal(ls)
    ensures BlockLocal(Cascade(ls))
  {
    assert AllInverse(ls);
    CascadeInverse(ls);
    var c := Cascade(ls);
    forall s: seq<byte>, t: seq<byte>, u: nat, j: nat |
      |s| == |t| && |s| % 16 == 0 && 16 * j + 16 <= |s| && Block(s, j) == Block(t, j)
      ensures Block(c.encrypt(s, u), j) == Block(c.encrypt(t, u), j)
      ensures Block(c.decrypt(s, u), j) == Block(c.decrypt(t, u), j)
    {
      UnitBlocks(ls, s, t, u, j);
    }
  }

  lemma OneUnit(f: (seq<byte>, nat) -> seq<byte>, s: seq<byte>, u: nat)
    requires |s| == 512
    ensures Area(f, s, u) == f(s, u)
  {
    assert s[..512] == s && s[512..] == [];
    assert Area(f, s[512..], u + 1) == [];
  }

  /** A pass gives unit `k` of the buffer the number `first + k`. */
  lemma AreaUnit(f: (seq<byte>, nat) -> seq<byte>, s: seq<byte>, first: nat, k: nat)
    requires Whole(s) && KeepsLength(f) && 512 * k + 512 <= |s|
    ensures |Area(f, s, first)| == |s|
    ensures Area(f, s, first)[512 * k..512 * k + 512] == f(s[512 * k..512 * k + 512], first + k)
  {
    hide Area;
    AreaSlice(f, s, first, 512 * k, 512 * k + 512);
    OneUnit(f, s[512 * k..512 * k + 512], first + k);
  }

  // ---- What a cascade does ---------------------------------------------------------------------

  /** The texts between the layers: cipher `i` under its keys turns text `i` into text `i + 1`, and back. */
  ghost predicate Texts(scheme: Scheme, primaries: seq<seq<byte>>, secondaries: seq<seq<byte>>, unit: nat, texts: seq<seq<byte>>)
    requires |primaries| == |secondaries| == |scheme.ciphers|
  {
    |texts| == |scheme.ciphers| + 1
    && forall i :: 0 <= i < |scheme.ciphers| ==> TextStep(scheme.ciphers[i], primaries[i], secondaries[i], unit, texts[i], texts[i + 1])
  }

  ghost predicate TextStep(c: Cipher, primary: seq<byte>, secondary: seq<byte>, unit: nat, plain: seq<byte>, coded: seq<byte>)
  {
    c.encrypt(primary, secondary, plain, unit) == coded && c.decrypt(primary, secondary, coded, unit) == plain
  }

  lemma {:induction false} EncryptsThrough(ls: seq<Layer>, unit: nat, texts: seq<seq<byte>>)
    requires |texts| == |ls| + 1
    requires forall i :: 0 <= i < |ls| ==> ls[i].encrypt(texts[i], unit) == texts[i + 1] && ls[i].decrypt(texts[i + 1], unit) == texts[i]
    ensures EncryptUnit(ls, texts[0], unit) == texts[|ls|]
    ensures DecryptUnit(ls, texts[|ls|], unit) == texts[0]
    decreases |ls|
  {
    if ls != [] {
      EncryptsThrough(ls[1..], unit, texts[1..]);
    }
  }

  /** A cascade encrypts through its ciphers first to last and decrypts through them last to first, each under its
      own keys and every unit under its own number. */
  lemma CascadeMeans(scheme: Scheme, primaries: seq<seq<byte>>, secondaries: seq<seq<byte>>, unit: nat, texts: seq<seq<byte>>)
    requires KeysFor(scheme, primaries) && KeysFor(scheme, secondaries)
    requires Texts(scheme, primaries, secondaries, unit, texts)
    ensures var k := Keying(scheme, Flat(primaries) + Flat(secondaries));
      && k.Good?
      && Cascade(k.value).encrypt(texts[0], unit) == texts[|scheme.ciphers|]
      && Cascade(k.value).decrypt(texts[|scheme.ciphers|], unit) == texts[0]
  {
    KeyingMeans(scheme, primaries, secondaries);
    hide Keying;
    var ls := Keying(scheme, Flat(primaries) + Flat(secondaries)).value;
    forall i | 0 <= i < |ls|
      ensures ls[i].encrypt(texts[i], unit) == texts[i + 1] && ls[i].decrypt(texts[i + 1], unit) == texts[i]
    {
      assert WorksAs(ls[i], scheme.ciphers[i], primaries[i], secondaries[i]);
      assert TextStep(scheme.ciphers[i], primaries[i], secondaries[i], unit, texts[i], texts[i + 1]);
    }
    EncryptsThrough(ls, unit, texts);
  }

  /** A pass of a blockwise function works on each block by itself, whatever unit it lies in. */
  lemma AreaBlocks(f: (seq<byte>, nat) -> seq<byte>, s: seq<byte>, t: seq<byte>, first: nat, j: nat)
    requires Blockwise(f) && Whole(s) && Whole(t) && |s| == |t| && 16 * j + 16 <= |s| && Block(s, j) == Block(t, j)
    ensures |Area(f, s, first)| == |s| && |Area(f, t, first)| == |t|
    ensures Block(Area(f, s, first), j) == Block(Area(f, t, first), j)
  {
    hide Area, Block, KeepsLength, Whole;
    BlockInUnit(f, s, first, j);
    BlockInUnit(f, t, first, j);
    UnitHoldsBlock(s, j);
    UnitHoldsBlock(t, j);
    var q := j / 32;
    SameBlocks(f, s[512 * q..512 * q + 512], t[512 * q..512 * q + 512], first + q, j % 32);
  }

  lemma SameBlocks(f: (seq<byte>, nat) -> seq<byte>, s: seq<byte>, t: seq<byte>, u: nat, j: nat)
    requires Blockwise(f) && |s| == |t| == 512 && j < 32 && Block(s, j) == Block(t, j)
    ensures |f(s, u)| == |f(t, u)| == 512 && Block(f(s, u), j) == Block(f(t, u), j)
  {
    hide Block;
  }

  lemma UnitHoldsBlock(s: seq<byte>, j: nat)
    requires Whole(s) && 16 * j + 16 <= |s|
    ensures 512 * (j / 32) + 512 <= |s|
    ensures Block(s[512 * (j / 32)..512 * (j / 32) + 512], j % 32) == Block(s, j)
  {
    var q, i := j / 32, j % 32;
    UnitOfBlock(|s|, j);
    SliceOfSlice(s, 512 * q, 512 * q + 512, 16 * i, 16);
  }

  lemma UnitOfBlock(n: nat, j: nat)
    requires n % 512 == 0 && 16 * j + 16 <= n
    ensures 512 * (j / 32) + 512 <= n && 16 * j == 512 * (j / 32) + 16 * (j % 32)
  {
  }

  lemma BlockInUnit(f: (seq<byte>, nat) -> seq<byte>, s: seq<byte>, first: nat, j: nat)
    requires KeepsLength(f) && Whole(s) && 16 * j + 16 <= |s|
    ensures 512 * (j / 32) + 512 <= |s| == |Area(f, s, first)|
    ensures Block(Area(f, s, first), j) == Block(f(s[512 * (j / 32)..512 * (j / 32) + 512], first + j / 32), j % 32)
  {
    var q, i := j / 32, j % 32;
    UnitOfBlock(|s|, j);
    AreaSlice(f, s, first, 512 * q, 512 * q + 512);
    OneUnit(f, s[512 * q..512 * q + 512], first + q);
    SliceOfSlice(Area(f, s, first), 512 * q, 512 * q + 512, 16 * i, 16);
  }

  // ---- The engine: in-place passes over a buffer ------------------------------------------------

  /** Encrypts whole units in place, one full pass per layer; the result is the unit-by-unit cascade. */
  method EncryptUnits(ls: seq<Layer>, buf: array<byte>, first: nat)
    requires AllInverse(ls) && buf.Length % 512 == 0
    modifies buf
    ensures buf[..] == Area(Cascade(ls).encrypt, old(buf[..]), first)
  {
    var i := 0;
    assert ls[0..] == ls;
    while i < |ls|
      invariant i <= |ls|
      invariant Area(Cascade(ls[i..]).encrypt, buf[..], first) == Area(Cascade(ls).encrypt, old(buf[..]), first)
    {
      EncryptPass(ls[i..], buf[..], first);
      assert ls[i..][1..] == ls[i + 1..];
      Overwrite(buf, Area(ls[i].encrypt, buf[..], first));
      i := i + 1;
    }
    assert ls[i..] == [];
    NoLayers(buf[..], first);
  }

  /** Decrypts whole units in place, layers last to first. */
  method DecryptUnits(ls: seq<Layer>, buf: array<byte>, first: nat)
    requires AllInverse(ls) && buf.Length % 512 == 0
    modifies buf
    ensures buf[..] == Area(Cascade(ls).decrypt, old(buf[..]), first)
  {
    var i := |ls|;
    assert ls[..i] == ls;
    while i > 0
      invariant 0 <= i <= |ls|
      invariant Area(Cascade(ls[..i]).decrypt, buf[..], first) == Area(Cascade(ls).decrypt, old(buf[..]), first)
    {
      DecryptPass(ls[..i], buf[..], first);
      assert ls[..i][..i - 1] == ls[..i - 1];
      i := i - 1;
      Overwrite(buf, Area(ls[i].decrypt, buf[..], first));
    }
    assert ls[..i] == [];
    NoLayers(buf[..], first);
  }

  /** The header is one unit of its own, number 0. */
  method EncryptHeader(ls: seq<Layer>, buf: array<byte>)
    requires AllInverse(ls)
    modifies buf
    ensures buf[..] == Cascade(ls).encrypt(old(buf[..]), 0)
  {
    var i := 0;
    assert ls[0..] == ls;
    while i < |ls|
      invariant i <= |ls|
      invariant EncryptUnit(ls[i..], buf[..], 0) == EncryptUnit(ls, old(buf[..]), 0)
    {
      assert Inverse(ls[i]);
      assert ls[i..][1..] == ls[i + 1..];
      Overwrite(buf, ls[i].encrypt(buf[..], 0));
      i := i + 1;
    }
    assert ls[i..] == [];
  }

  method DecryptHeader(ls: seq<Layer>, buf: array<byte>)
    requires AllInverse(ls)
    modifies buf
    ensures buf[..] == Cascade(ls).decrypt(old(buf[..]), 0)
  {
    var i := |ls|;
    assert ls[..i] == ls;
    while i > 0
      invariant 0 <= i <= |ls|
      invariant DecryptUnit(ls[..i], buf[..], 0) == DecryptUnit(ls, old(buf[..]), 0)
    {
      LastLayer(ls[..i], buf[..], 0);
      assert ls[..i][..i - 1] == ls[..i - 1];
      i := i - 1;
      assert Inverse(ls[i]);
      Overwrite(buf, ls[i].decrypt(buf[..], 0));
    }
    assert ls[..i] == [];
  }
}
