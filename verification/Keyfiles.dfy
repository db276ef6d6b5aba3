/** Keyfiles: a pool of 64 bytes mixed from the bytes of each file by a running CRC-32 register and added
    to the passphrase. */
module Keyfiles {
  import opened Bytes

  const MAX_READ := 1048576

  type Pool = p: seq<byte> | |p| == 64 witness Fill(64, 0)

  function EmptyPool(): Pool { Fill(64, 0) }

  // ---- The register ------------------------------------------------------------------------------

  function TableStep(c: bv32): bv32
  {
    if c & 1 != 0 then (c >> 1) ^ 0xEDB8_8320 else c >> 1
  }

  function TableSteps(c: bv32, n: nat): bv32
    decreases n
  {
    if n == 0 then c else TableSteps(TableStep(c), n - 1)
  }

  function Entry(index: bv32): bv32
  {
    TableSteps(index & 0xff, 8)
  }

  /** One entry of the reflected CRC-32 table. */
  method TableEntry(index: bv32) returns (c: bv32)
    ensures c == Entry(index)
  {
    c := index & 0xff;
    var i := 0;
    while i < 8
      invariant 0 <= i <= 8 && TableSteps(c, 8 - i) == TableSteps(index & 0xff, 8)
    {
      c := TableStep(c);
      i := i + 1;
    }
  }

  /** The register after one byte; there is no final inversion. */
  function UpdatedBits(crc: bv32, b: bv8): bv32
  {
    Entry((crc ^ (b as bv32)) & 0xff) ^ (crc >> 8)
  }

  method Update(crc: bv32, b: bv8) returns (r: bv32)
    ensures r == UpdatedBits(crc, b)
  {
    hide *;
    UpdatedBitsIs(crc, b);
    var entry := TableEntry((crc ^ (b as bv32)) & 0xff);
    r := entry ^ (crc >> 8);
  }

  lemma UpdatedBitsIs(crc: bv32, b: bv8)
    ensures UpdatedBits(crc, b) == Entry((crc ^ (b as bv32)) & 0xff) ^ (crc >> 8)
  {
    hide Entry;
  }

  function Bits(b: byte): bv8 { b as bv8 }

  function Updated(crc: bv32, b: byte): bv32 { UpdatedBits(crc, Bits(b)) }

  function LowByte(x: bv32): byte
  {
    ((x & 0xff) as bv8) as int
  }

  /** The four bytes a register value adds to the pool, most significant first. */
  function Shares(crc: bv32): (s: seq<byte>)
    ensures |s| == 4
  {
    [LowByte(crc >> 24), LowByte(crc >> 16), LowByte(crc >> 8), LowByte(crc)]
  }

  /** Everything a run of data adds, in order, from register value `crc` on. */
  function Emitted(data: seq<byte>, crc: bv32): seq<byte>
  {
    if data == [] then [] else Shares(Updated(crc, data[0])) + Emitted(data[1..], Updated(crc, data[0]))
  }

  // ---- The pool ------------------------------------------------------------------------------------

  function AddByte(a: byte, b: byte): byte { (a + b) % 256 }

  function Next(at: nat): nat { if at + 1 >= 64 then 0 else at + 1 }

  lemma NextPlace(at: nat, n: nat)
    requires at < 64
    ensures Next(at) < 64 && (Next(at) + n) % 64 == (at + (n + 1)) % 64
  {
  }

  /** The pool after the bytes of `e` are added one by one, from position `at` on, wrapping round. */
  function Poured(pool: Pool, at: nat, e: seq<byte>): Pool
    requires at < 64
    decreases |e|
  {
    if e == [] then pool
    else Poured(pool[at := AddByte(pool[at], e[0])], Next(at), e[1..])
  }

  /** The sum of the bytes of `e` that land on pool position `j`. */
  function Column(e: seq<byte>, at: nat, j: nat): nat
    requires at < 64
    decreases |e|
  {
    if e == [] then 0
    else (if at == j then e[0] else 0) + Column(e[1..], Next(at), j)
  }

  lemma AddMod(a: nat, b: nat, c: nat)
    ensures ((a + b) % 256 + c) % 256 == (a + (b + c)) % 256
  {
  }

  /** Position by position, pouring adds a column sum that does not depend on the pool, modulo 256. */
  lemma {:induction false} PouredAt(pool: Pool, at: nat, e: seq<byte>, j: nat)
    requires at < 64 && j < 64
    ensures Poured(pool, at, e)[j] == (pool[j] + Column(e, at, j)) % 256
    decreases |e|
  {
    if e != [] {
      var next := Next(at);
      PouredAt(pool[at := AddByte(pool[at], e[0])], next, e[1..], j);
      if at == j {
        AddMod(pool[j], e[0], Column(e[1..], next, j));
      }
    }
  }

  lemma PouredMore(pool: Pool, at: nat, e: seq<byte>)
    requires at < 64 && e != []
    ensures Next(at) < 64 && Poured(pool, at, e) == Poured(pool[at := AddByte(pool[at], e[0])], Next(at), e[1..])
  {
  }

  lemma {:induction false} PouredConcat(pool: Pool, at: nat, a: seq<byte>, b: seq<byte>)
    requires at < 64
    ensures (at + |a|) % 64 < 64
    ensures Poured(pool, at, a + b) == Poured(Poured(pool, at, a), (at + |a|) % 64, b)
    decreases |a|
  {
    if a == [] {
      assert a + b == b && (at + 0) % 64 == at;
    } else {
      PouredMore(pool, at, a + b);
      PouredMore(pool, at, a);
      NextPlace(at, |a| - 1);
      hide Poured, Next, AddByte;
      assert (a + b)[1..] == a[1..] + b && (a + b)[0] == a[0];
      PouredConcat(pool[at := AddByte(pool[at], a[0])], Next(at), a[1..], b);
    }
  }

  /** The part of a file that counts. */
  function Counted(file: seq<byte>): seq<byte>
  {
    if |file| > MAX_READ then file[..MAX_READ] else file
  }

  /** What one file adds to pool position `j`. */
  function Contribution(file: seq<byte>, j: nat): nat
  {
    Column(Emitted(Counted(file), 0xFFFF_FFFF), 0, j)
  }

  function Mixed(pool: Pool, file: seq<byte>): Pool
  {
    Poured(pool, 0, Emitted(Counted(file), 0xFFFF_FFFF))
  }

  function MixedAll(pool: Pool, files: seq<seq<byte>>): Pool
    decreases |files|
  {
    if files == [] then pool else MixedAll(Mixed(pool, files[0]), files[1..])
  }

  function Total(files: seq<seq<byte>>, j: nat): nat
  {
    if files == [] then 0 else Contribution(files[0], j) + Total(files[1..], j)
  }

  /** The pool is, byte by byte, the sum modulo 256 of contributions that depend on nothing but each
      file. */
  lemma {:induction false} PoolIsSum(pool: Pool, files: seq<seq<byte>>, j: nat)
    requires j < 64
    ensures MixedAll(pool, files)[j] == (pool[j] + Total(files, j)) % 256
    decreases |files|
  {
    hide Poured, Column, Emitted, Counted;
    if files != [] {
      PouredAt(pool, 0, Emitted(Counted(files[0]), 0xFFFF_FFFF), j);
      PoolIsSum(Mixed(pool, files[0]), files[1..], j);
      AddMod(pool[j], Contribution(files[0], j), Total(files[1..], j));
    }
  }

  // ---- The effective secret ----------------------------------------------------------------------------

  /** The passphrase, extended with zeros to at least 64 bytes. */
  function Padded(passphrase: seq<byte>): (s: seq<byte>)
    ensures |s| == Max(|passphrase|, 64)
  {
    passphrase + Fill(Max(|passphrase|, 64) - |passphrase|, 0)
  }

  /** The padded passphrase with the pool added to its first 64 bytes. */
  function Strengthened(passphrase: seq<byte>, pool: Pool): seq<byte>
  {
    var p := Padded(passphrase);
    seq(|p|, i requires 0 <= i < |p| => if i < 64 then AddByte(p[i], pool[i]) else p[i])
  }

  /** The secret that key derivation uses; without keyfiles the passphrase itself. */
  function Effective(passphrase: seq<byte>, files: seq<seq<byte>>): seq<byte>
  {
    if files == [] then passphrase else Strengthened(passphrase, MixedAll(EmptyPool(), files))
  }

  lemma SamePool(passphrase: seq<byte>, files: seq<seq<byte>>, files': seq<seq<byte>>)
    requires files == [] <==> files' == []
    requires forall j :: 0 <= j < 64 ==> Total(files, j) == Total(files', j)
    ensures Effective(passphrase, files) == Effective(passphrase, files')
  {
    hide MixedAll, Total, Strengthened, EmptyPool;
    var p, p' := MixedAll(EmptyPool(), files), MixedAll(EmptyPool(), files');
    forall j | 0 <= j < 64
      ensures p[j] == p'[j]
    {
      PoolIsSum(EmptyPool(), files, j);
      PoolIsSum(EmptyPool(), files', j);
    }
    assert p == p';
  }

  lemma {:induction false} TotalWithout(files: seq<seq<byte>>, k: nat, j: nat)
    requires k < |files|
    ensures Total(files, j) == Contribution(files[k], j) + Total(files[..k] + files[k + 1..], j)
  {
    hide Contribution;
    if k == 0 {
      assert files[..0] + files[1..] == files[1..];
    } else {
      TotalWithout(files[1..], k - 1, j);
      assert (files[..k] + files[k + 1..])[1..] == files[1..][..k - 1] + files[1..][k..];
    }
  }

  /** Taking the head of one list out of a permutation of it leaves a permutation of the tail. */
  lemma TakeOut<T>(s: seq<T>, t: seq<T>) returns (k: nat)
    requires s != [] && multiset(s) == multiset(t)
    ensures k < |t| && t[k] == s[0] && multiset(s[1..]) == multiset(t[..k] + t[k + 1..])
  {
    assert s[0] in multiset(t);
    k :| 0 <= k < |t| && t[k] == s[0];
    assert t == t[..k] + [t[k]] + t[k + 1..];
    assert s == [s[0]] + s[1..];
    assert multiset(s) == multiset{s[0]} + multiset(s[1..]);
    assert multiset(t) == multiset(t[..k]) + multiset{t[k]} + multiset(t[k + 1..]);
    assert multiset(s[1..]) == multiset(s) - multiset{s[0]};
    assert multiset(t[..k] + t[k + 1..]) == multiset(t) - multiset{t[k]};
  }

  lemma {:induction false} TotalPermutes(files: seq<seq<byte>>, files': seq<seq<byte>>, j: nat)
    requires multiset(files) == multiset(files')
    ensures Total(files, j) == Total(files', j)
    decreases |files|
  {
    if files == [] {
      assert |multiset(files')| == 0;
    } else {
      var k := TakeOut(files, files');
      TotalWithout(files', k, j);
      TotalPermutes(files[1..], files'[..k] + files'[k + 1..], j);
    }
  }

  /** The order of the keyfiles does not matter. */
  lemma OrderDoesNotMatter(passphrase: seq<byte>, files: seq<seq<byte>>, files': seq<seq<byte>>)
    requires multiset(files) == multiset(files')
    ensures Effective(passphrase, files) == Effective(passphrase, files')
  {
    assert |multiset(files)| == |files| && |multiset(files')| == |files'|;
    forall j | 0 <= j < 64
      ensures Total(files, j) == Total(files', j)
    {
      TotalPermutes(files, files', j);
    }
    SamePool(passphrase, files, files');
  }

  lemma {:induction false} TotalCounts(files: seq<seq<byte>>, files': seq<seq<byte>>, j: nat)
    requires |files| == |files'|
    requires forall i :: 0 <= i < |files| ==> Counted(files[i]) == Counted(files'[i])
    ensures Total(files, j) == Total(files', j)
  {
    if files != [] {
      TotalCounts(files[1..], files'[1..], j);
    }
  }

  /** Only the first mebibyte of each keyfile matters. */
  lemma OnlyFirstMebibyte(passphrase: seq<byte>, files: seq<seq<byte>>, files': seq<seq<byte>>)
    requires |files| == |files'|
    requires forall i :: 0 <= i < |files| ==> Counted(files[i]) == Counted(files'[i])
    ensures Effective(passphrase, files) == Effective(passphrase, files')
  {
    forall j | 0 <= j < 64
      ensures Total(files, j) == Total(files', j)
    {
      TotalCounts(files, files', j);
    }
    SamePool(passphrase, files, files');
  }

  // ---- The loops ---------------------------------------------------------------------------------------

  /** Adds the four shares of a register value from the write position on. */
  method AddShares(pool: array<byte>, at: nat, crc: bv32) returns (at': nat)
    requires pool.Length == 64 && at < 64
    modifies pool
    ensures pool[..] == Poured(old(pool[..]), at, Shares(crc)) && at' == (at + 4) % 64
  {
    var shares := Shares(crc);
    var i := 0;
    at' := at;
    while i < 4
      invariant 0 <= i <= 4 && at' == (at + i) % 64
      invariant Poured(pool[..], at', shares[i..]) == Poured(old(pool[..]), at, shares)
    {
      assert shares[i..][1..] == shares[i + 1..];
      ghost var before := pool[..];
      pool[at'] := AddByte(pool[at'], shares[i]);
      assert pool[..] == before[at' := AddByte(before[at'], shares[i])];
      at' := at' + 1;
      if at' >= 64 {
        at' := 0;
      }
      i := i + 1;
    }
  }

  /** Folds one keyfile into the pool in place. */
  method MixIntoPool(pool: array<byte>, file: seq<byte>)
    requires pool.Length == 64
    modifies pool
    ensures pool[..] == Mixed(old(pool[..]), file)
  {
    hide Poured, Updated, UpdatedBits, Bits, Shares;
    var data := Counted(file);
    var at, crc: bv32 := 0, 0xFFFF_FFFF;
    var i := 0;
    assert data[0..] == data;
    while i < |data|
      invariant i <= |data| && at < 64
      invariant Poured(pool[..], at, Emitted(data[i..], crc)) == Mixed(old(pool[..]), file)
    {
      assert data[i..][1..] == data[i + 1..];
      var crc' := Update(crc, Bits(data[i]));
      UpdatedIs(crc, data[i]);
      PouredConcat(pool[..], at, Shares(crc'), Emitted(data[i + 1..], crc'));
      at := AddShares(pool, at, crc');
      crc := crc';
      i := i + 1;
    }
    assert data[i..] == [];
    NothingPoured(pool[..], at);
  }

  lemma UpdatedIs(crc: bv32, b: byte)
    ensures Updated(crc, b) == UpdatedBits(crc, Bits(b))
  {
    hide UpdatedBits, Bits;
  }

  lemma NothingPoured(pool: Pool, at: nat)
    requires at < 64
    ensures Poured(pool, at, []) == pool
  {
  }

  method ApplyKeyfiles(passphrase: seq<byte>, files: seq<seq<byte>>) returns (secret: seq<byte>)
    ensures secret == Effective(passphrase, files)
  {
    hide Mixed, Padded, Strengthened;
    if files == [] {
      return passphrase;
    }
    var pool := new byte[64](_ => 0);
    assert pool[..] == EmptyPool();
    var i := 0;
    assert files[0..] == files;
    while i < |files|
      invariant i <= |files|
      invariant MixedAll(pool[..], files[i..]) == MixedAll(EmptyPool(), files)
    {
      assert files[i..][1..] == files[i + 1..];
      MixIntoPool(pool, files[i]);
      i := i + 1;
    }
    assert files[i..] == [];
    var out := Pad(passphrase);
    AddPool(out, passphrase, pool[..]);
    secret := out[..];
  }

  method Pad(passphrase: seq<byte>) returns (out: array<byte>)
    ensures fresh(out) && out[..] == Padded(passphrase)
  {
    out := new byte[Max(|passphrase|, 64)](_ => 0);
    forall x | 0 <= x < |passphrase| {
      out[x] := passphrase[x];
    }
  }

  /** Adds the pool to the first bytes of the padded passphrase. */
  method AddPool(out: array<byte>, passphrase: seq<byte>, pool: Pool)
    requires out[..] == Padded(passphrase)
    modifies out
    ensures out[..] == Strengthened(passphrase, pool)
  {
    var j := 0;
    while j < 64
      invariant 0 <= j <= 64
      invariant forall x :: 0 <= x < out.Length ==>
        out[x] == if x < j then AddByte(Padded(passphrase)[x], pool[x]) else Padded(passphrase)[x]
    {
      out[j] := AddByte(out[j], pool[j]);
      j := j + 1;
    }
  }
}
