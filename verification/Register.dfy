/** The keyfile register as a polynomial remainder: read with its bits in reverse, the register after some data is
    what long division of the data by the CRC-32 polynomial leaves. */
module KeyfileRegisters {
  import opened Bytes
  import opened Keyfiles

  // ---- Long division ---------------------------------------------------------------------------

  /** One step: the next bit of the data is added to the highest coefficient before the coefficients move up. */
  function Divide(rest: bv32, bit: bool): bv32
  {
    MovedUp(if bit then rest ^ 0x8000_0000 else rest)
  }

  /** The coefficients one power up, less the polynomial if a one moved out. */
  function MovedUp(rest: bv32): bv32
  {
    (rest << 1) ^ (if rest >> 31 == 1 then 0x04C1_1DB7 else 0)
  }

  /** `n` bits of a number, lowest first. */
  function DivideBits(rest: bv32, b: nat, n: nat): bv32
    decreases n
  {
    if n == 0 then rest else DivideBits(Divide(rest, b % 2 == 1), b / 2, n - 1)
  }

  /** The remainder after the bytes of `data`, from a register of ones on. */
  function Remainder(data: seq<byte>): bv32
  {
    if data == [] then 0xFFFF_FFFF else DivideBits(Remainder(data[..|data| - 1]), data[|data| - 1], 8)
  }

  // ---- Reversal --------------------------------------------------------------------------------

  /** The bits in reverse: neighbours are exchanged, then pairs, nibbles, bytes and halves. */
  function Reversed(x: bv32): bv32
  {
    var a := ((x >> 1) & 0x5555_5555) | ((x & 0x5555_5555) << 1);
    var b := ((a >> 2) & 0x3333_3333) | ((a & 0x3333_3333) << 2);
    var c := ((b >> 4) & 0x0F0F_0F0F) | ((b & 0x0F0F_0F0F) << 4);
    var d := ((c >> 8) & 0x00FF_00FF) | ((c & 0x00FF_00FF) << 8);
    (d >> 16) | (d << 16)
  }

  /** The lowest bit becomes the highest, and moving down becomes moving up. */
  lemma ReversedMoves(x: bv32)
    ensures Reversed(x) >> 31 == x & 1 && Reversed(x >> 1) == Reversed(x) << 1 && Reversed(Reversed(x)) == x
  {
  }

  function Fed(c: bv32, bit: bool): bv32 { if bit then c ^ 1 else c }

  /** A step of the register is a step of the division. */
  lemma StepDivides(c: bv32, bit: bool)
    ensures Reversed(TableStep(Fed(c, bit))) == Divide(Reversed(c), bit)
  {
    FedReversed(c);
    StepReversed(Fed(c, bit));
    hide Reversed, TableStep, MovedUp;
  }

  lemma FedReversed(c: bv32)
    ensures Reversed(c ^ 1) == Reversed(c) ^ 0x8000_0000
  {
  }

  /** A step moves the coefficients up, and subtracts the polynomial if the highest was a one. */
  lemma StepReversed(c: bv32)
    ensures Reversed(TableStep(c)) == MovedUp(Reversed(c))
  {
    ReversedMoves(c);
    PolynomialReversed(c >> 1);
    hide Reversed;
  }

  lemma PolynomialReversed(x: bv32)
    ensures Reversed(x ^ 0xEDB8_8320) == Reversed(x) ^ 0x04C1_1DB7
  {
  }

  // ---- Bytes ---------------------------------------------------------------------------------

  /** The `n` low bits of `y` are those of the number `b`, and `y` has no others. */
  predicate SameLow(y: bv8, b: nat, n: nat)
    decreases n
  {
    if n == 0 then y == 0 else (y & 1 == 1) == (b % 2 == 1) && SameLow(y >> 1, b / 2, n - 1)
  }

  lemma HalfOfBits(b: byte)
    ensures Bits(b) >> 1 == Bits(b / 2) && (Bits(b) & 1 == 1 <==> b % 2 == 1)
  {
    HalfUp(b);
    OddUp(b);
  }

  lemma HalfUp(b: int)
    requires 0 <= b < 256
    ensures (b as bv8) >> 1 == (b / 2) as bv8
  {
  }

  lemma OddUp(b: int)
    requires 0 <= b < 256
    ensures (b as bv8) & 1 == 1 <==> b % 2 == 1
  {
  }

  lemma {:induction false} ByteBits(b: byte, n: nat)
    requires b < Pow2(n)
    ensures SameLow(Bits(b), b, n)
    decreases n
  {
    if n > 0 {
      HalfOfBits(b);
      hide Bits;
      ByteBits(b / 2, n - 1);
    } else {
      NoBits();
    }
  }

  lemma NoBits()
    ensures Bits(0) == 0
  {
  }

  /** The sum of two polynomials. */
  function Sum(x: bv32, y: bv32): bv32 { x ^ y }

  function Wide(y: bv8): bv32 { y as bv32 }

  lemma SumIs(x: bv32, y: bv32)
    ensures Sum(x, y) == x ^ y
  {
  }

  lemma StepOdd(x: bv32)
    requires x & 1 != 0
    ensures TableStep(x) == (x >> 1) ^ 0xEDB8_8320
  {
  }

  lemma StepEven(x: bv32)
    requires x & 1 == 0
    ensures TableStep(x) == x >> 1
  {
  }

  lemma Parity(x: bv32, y: bv32)
    ensures (x ^ y) & 1 == (x & 1) ^ (y & 1) && (x ^ y) >> 1 == (x >> 1) ^ (y >> 1)
    ensures (x & 1 == 0 || x & 1 == 1) && (y & 1 == 0 || y & 1 == 1)
  {
  }

  lemma BothOdd(x: bv32, y: bv32, p: bv32)
    ensures (x ^ p) ^ (y ^ p) == x ^ y
  {
  }

  lemma OneOdd(x: bv32, y: bv32, p: bv32)
    ensures (x ^ p) ^ y == (x ^ y) ^ p && x ^ (y ^ p) == (x ^ y) ^ p
  {
  }

  lemma XorSteps(x: bv32, y: bv32)
    ensures TableStep(x ^ y) == TableStep(x) ^ TableStep(y)
  {
    hide *;
    Parity(x, y);
    if x & 1 != 0 && y & 1 != 0 {
      StepOdd(x);
      StepOdd(y);
      StepEven(x ^ y);
      BothOdd(x >> 1, y >> 1, 0xEDB8_8320);
    } else if x & 1 != 0 {
      StepOdd(x);
      StepEven(y);
      StepOdd(x ^ y);
      OneOdd(x >> 1, y >> 1, 0xEDB8_8320);
    } else if y & 1 != 0 {
      StepEven(x);
      StepOdd(y);
      StepOdd(x ^ y);
      OneOdd(x >> 1, y >> 1, 0xEDB8_8320);
    } else {
      StepEven(x);
      StepEven(y);
      StepEven(x ^ y);
    }
  }

  /** Steps act on each summand by itself. */
  lemma StepAdds(x: bv32, y: bv32)
    ensures TableStep(Sum(x, y)) == Sum(TableStep(x), TableStep(y))
  {
    hide *;
    XorSteps(x, y);
    SumIs(x, y);
    SumIs(TableStep(x), TableStep(y));
  }

  lemma LowBitApart(c: bv32, y: bv8)
    ensures Sum(c, Wide(y)) == Sum(Fed(c, y & 1 == 1), Wide(y & 0xfe))
    ensures Wide(y & 0xfe) & 1 == 0 && Wide(y & 0xfe) >> 1 == Wide(y >> 1)
  {
  }

  /** A step splits off the lowest bit of what was added. */
  lemma StepSplits(c: bv32, y: bv8)
    ensures TableStep(Sum(c, Wide(y))) == Sum(TableStep(Fed(c, y & 1 == 1)), Wide(y >> 1))
  {
    hide *;
    LowBitApart(c, y);
    StepAdds(Fed(c, y & 1 == 1), Wide(y & 0xfe));
    StepEven(Wide(y & 0xfe));
  }

  lemma StepsUnfold(x: bv32, n: nat)
    ensures TableSteps(x, n) == if n == 0 then x else TableSteps(TableStep(x), n - 1)
  {
  }

  lemma BitsUnfold(rest: bv32, b: nat, n: nat)
    ensures DivideBits(rest, b, n) == if n == 0 then rest else DivideBits(Divide(rest, b % 2 == 1), b / 2, n - 1)
  {
  }

  lemma LowUnfold(y: bv8, b: nat, n: nat)
    requires SameLow(y, b, n)
    ensures if n == 0 then y == 0 else (y & 1 == 1) == (b % 2 == 1) && SameLow(y >> 1, b / 2, n - 1)
  {
  }

  lemma NothingAdded(c: bv32)
    ensures Sum(c, Wide(0)) == c
  {
  }

  /** As many steps as there are bits divide by them one by one. */
  lemma {:induction false} StepsDivide(c: bv32, y: bv8, b: nat, n: nat)
    requires SameLow(y, b, n)
    ensures Reversed(TableSteps(Sum(c, Wide(y)), n)) == DivideBits(Reversed(c), b, n)
    decreases n
  {
    hide *;
    LowUnfold(y, b, n);
    BitsUnfold(Reversed(c), b, n);
    StepsUnfold(Sum(c, Wide(y)), n);
    if n == 0 {
      NothingAdded(c);
    } else {
      StepSplits(c, y);
      StepDivides(c, y & 1 == 1);
      StepsDivide(TableStep(Fed(c, y & 1 == 1)), y >> 1, b / 2, n - 1);
    }
  }

  // ---- The table -----------------------------------------------------------------------------

  lemma {:induction false} StepsAdd(x: bv32, y: bv32, n: nat)
    ensures TableSteps(Sum(x, y), n) == Sum(TableSteps(x, n), TableSteps(y, n))
    decreases n
  {
    hide *;
    StepsUnfold(x, n);
    StepsUnfold(y, n);
    StepsUnfold(Sum(x, y), n);
    if n > 0 {
      StepAdds(x, y);
      StepsAdd(TableStep(x), TableStep(y), n - 1);
    }
  }

  /** Eight steps on a value whose low byte is clear only shift it. */
  lemma HighSteps(x: bv32)
    requires x & 0xff == 0
    ensures TableSteps(x, 8) == x >> 8
  {
    var x1 := TableStep(x);
    var x2 := TableStep(x1);
    var x3 := TableStep(x2);
    var x4 := TableStep(x3);
    var x5 := TableStep(x4);
    var x6 := TableStep(x5);
    var x7 := TableStep(x6);
    var x8 := TableStep(x7);
    assert x8 == x >> 8;
    hide TableStep;
    assert TableSteps(x8, 0) == x8;
    assert TableSteps(x7, 1) == x8;
    assert TableSteps(x6, 2) == x8;
    assert TableSteps(x5, 3) == x8;
    assert TableSteps(x4, 4) == x8;
    assert TableSteps(x3, 5) == x8;
    assert TableSteps(x2, 6) == x8;
    assert TableSteps(x1, 7) == x8;
  }

  function Low(x: bv32): bv32 { x & 0xff }

  function High(x: bv32): bv32 { x & 0xFFFF_FF00 }

  function Rest(x: bv32): bv32 { x >> 8 }

  lemma Halves(x: bv32)
    ensures Sum(Low(x), High(x)) == x
  {
  }

  lemma HalvesApart(x: bv32)
    ensures High(x) & 0xff == 0 && Rest(High(x)) == Rest(x) && Low(Low(x)) == Low(x)
  {
  }

  lemma RestOfSum(c: bv32, y: bv8)
    ensures Rest(Sum(c, Wide(y))) == Rest(c)
  {
  }

  lemma NamesAre(c: bv32, y: bv8)
    ensures Low(Sum(c, Wide(y))) == (c ^ (y as bv32)) & 0xff && Rest(c) == c >> 8
  {
  }

  lemma UpdateUnfold(c: bv32, y: bv8)
    ensures UpdatedBits(c, y) == Sum(Entry(Low(Sum(c, Wide(y)))), Rest(c))
  {
    hide *;
    UpdatedBitsIs(c, y);
    NamesAre(c, y);
    SumIs(Entry(Low(Sum(c, Wide(y)))), Rest(c));
  }

  lemma EntryUnfold(x: bv32)
    ensures Entry(x) == TableSteps(Low(x), 8)
  {
    hide TableSteps;
  }

  lemma HighRest(x: bv32)
    requires x & 0xff == 0
    ensures TableSteps(x, 8) == Rest(x)
  {
    HighSteps(x);
    hide TableSteps;
  }

  /** The table does eight steps at once. */
  lemma TableIsSteps(c: bv32, y: bv8)
    ensures UpdatedBits(c, y) == TableSteps(Sum(c, Wide(y)), 8)
  {
    hide *;
    var x := Sum(c, Wide(y));
    UpdateUnfold(c, y);
    EntryUnfold(Low(x));
    Halves(x);
    HalvesApart(x);
    RestOfSum(c, y);
    StepsAdd(Low(x), High(x), 8);
    HighRest(High(x));
  }

  lemma BytePower()
    ensures Pow2(8) == 256
  {
    assert Pow2(4) == 16 && Pow2(8) == 2 * (2 * (2 * (2 * Pow2(4))));
  }

  lemma ByteLow(b: byte)
    ensures SameLow(Bits(b), b, 8)
  {
    BytePower();
    hide SameLow, Bits, Pow2;
    ByteBits(b, 8);
  }

  /** Updating the register with a byte divides by its eight bits. */
  lemma UpdateDivides(c: bv32, b: byte)
    ensures Reversed(Updated(c, b)) == DivideBits(Reversed(c), b, 8)
  {
    hide Reversed, UpdatedBits, DivideBits, Bits, SameLow;
    ByteLow(b);
    TableIsSteps(c, Bits(b));
    StepsDivide(c, Bits(b), b, 8);
  }

  /** The register after the bytes of `data`. */
  function After(data: seq<byte>, crc: bv32): bv32
  {
    if data == [] then crc else After(data[1..], Updated(crc, data[0]))
  }

  lemma {:induction false} AfterMore(data: seq<byte>, b: byte, crc: bv32)
    ensures After(data + [b], crc) == Updated(After(data, crc), b)
  {
    hide Updated;
    if data == [] {
      assert After([b], crc) == After([], Updated(crc, b)) by {
        assert [b][1..] == [];
      }
    } else {
      assert (data + [b])[1..] == data[1..] + [b];
      AfterMore(data[1..], b, Updated(crc, data[0]));
    }
  }

  /** The register after some data is its remainder. */
  lemma {:induction false} RegisterDivides(data: seq<byte>)
    ensures Reversed(After(data, 0xFFFF_FFFF)) == Remainder(data)
  {
    if data != [] {
      var front, last := data[..|data| - 1], data[|data| - 1];
      assert data == front + [last];
      RegisterDivides(front);
      AfterMore(front, last, 0xFFFF_FFFF);
      UpdateDivides(After(front, 0xFFFF_FFFF), last);
      hide Reversed, Updated, DivideBits;
    } else {
      assert Reversed(0xFFFF_FFFF) == 0xFFFF_FFFF;
    }
  }

  // ---- What goes into the pool -----------------------------------------------------------------

  /** The four shares are the register's bytes, the highest first. */
  lemma SharesAre(crc: bv32)
    ensures var s := Shares(crc);
      ((Bits(s[0]) as bv32) << 24) | ((Bits(s[1]) as bv32) << 16) | ((Bits(s[2]) as bv32) << 8) | (Bits(s[3]) as bv32) == crc
  {
    LowByteBack(crc >> 24);
    LowByteBack(crc >> 16);
    LowByteBack(crc >> 8);
    LowByteBack(crc);
    hide LowByte, Bits;
    FourBytes(crc);
  }

  lemma LowByteBack(x: bv32)
    ensures (Bits(LowByte(x)) as bv32) == x & 0xff
  {
  }

  lemma FourBytes(x: bv32)
    ensures (((x >> 24) & 0xff) << 24) | (((x >> 16) & 0xff) << 16) | (((x >> 8) & 0xff) << 8) | (x & 0xff) == x
  {
  }

  /** Every byte of the data adds the four shares of the register after it. */
  lemma {:induction false} EmittedAt(data: seq<byte>, crc: bv32, k: nat)
    requires k < |data|
    ensures |Emitted(data, crc)| == 4 * |data|
    ensures Emitted(data, crc)[4 * k..4 * k + 4] == Shares(After(data[..k + 1], crc))
    decreases |data|
  {
    hide Updated, Shares;
    EmittedSize(data[1..], Updated(crc, data[0]));
    PrefixTail(data, k);
    if k == 0 {
      assert After([], Updated(crc, data[0])) == Updated(crc, data[0]);
      assert Emitted(data, crc)[0..4] == Shares(Updated(crc, data[0]));
    } else {
      EmittedAt(data[1..], Updated(crc, data[0]), k - 1);
      assert Emitted(data, crc)[4 * k..4 * k + 4] == Emitted(data[1..], Updated(crc, data[0]))[4 * (k - 1)..4 * (k - 1) + 4];
    }
  }

  lemma PrefixTail<T>(s: seq<T>, k: nat)
    requires k < |s|
    ensures s[..k + 1][0] == s[0] && s[..k + 1][1..] == s[1..][..k]
  {
  }

  lemma {:induction false} EmittedSize(data: seq<byte>, crc: bv32)
    ensures |Emitted(data, crc)| == 4 * |data|
  {
    hide Updated;
    if data != [] {
      EmittedSize(data[1..], Updated(crc, data[0]));
    }
  }

  /** The sum of the bytes of `e` whose place in it is `j` modulo 64. */
  function Landed(e: seq<byte>, j: nat): nat
  {
    if e == [] then 0
    else Landed(e[..|e| - 1], j) + if (|e| - 1) % 64 == j then e[|e| - 1] else 0
  }

  lemma ColumnMore(e: seq<byte>, at: nat, j: nat)
    requires at < 64 && e != []
    ensures Next(at) < 64 && Column(e, at, j) == (if at == j then e[0] else 0) + Column(e[1..], Next(at), j)
  {
  }

  lemma {:induction false} ColumnConcat(a: seq<byte>, b: seq<byte>, at: nat, j: nat)
    requires at < 64
    ensures Column(a + b, at, j) == Column(a, at, j) + Column(b, (at + |a|) % 64, j)
    decreases |a|
  {
    if a == [] {
      assert a + b == b && (at + 0) % 64 == at;
    } else {
      ColumnMore(a + b, at, j);
      ColumnMore(a, at, j);
      NextPlace(at, |a| - 1);
      hide Column, Next;
      assert (a + b)[1..] == a[1..] + b && (a + b)[0] == a[0];
      ColumnConcat(a[1..], b, Next(at), j);
    }
  }

  lemma {:induction false} ColumnLands(e: seq<byte>, j: nat)
    ensures Column(e, 0, j) == Landed(e, j)
    decreases |e|
  {
    if e != [] {
      var front, last := e[..|e| - 1], e[|e| - 1];
      assert e == front + [last];
      ColumnConcat(front, [last], 0, j);
      ColumnLands(front, j);
      OneColumn(last, |front| % 64, j);
    }
  }

  lemma OneColumn(b: byte, at: nat, j: nat)
    requires at < 64
    ensures Column([b], at, j) == if at == j then b else 0
  {
    assert [b][1..] == [];
  }

  /** What all files add to byte `j`. */
  function Added(files: seq<seq<byte>>, j: nat): nat
  {
    if files == [] then 0
    else Landed(Emitted(files[0][..Min(|files[0]|, 1048576)], 0xFFFF_FFFF), j) + Added(files[1..], j)
  }

  lemma {:induction false} TotalAdded(files: seq<seq<byte>>, j: nat)
    ensures Total(files, j) == Added(files, j)
  {
    hide Emitted, Column, Landed;
    if files != [] {
      assert Counted(files[0]) == files[0][..Min(|files[0]|, 1048576)];
      ColumnLands(Emitted(Counted(files[0]), 0xFFFF_FFFF), j);
      TotalAdded(files[1..], j);
    }
  }

  /** Every byte of the secret made with keyfiles: the passphrase's own, or zero past its end, and in the first 64
      places what the files add, modulo 256. */
  lemma SecretBytes(passphrase: seq<byte>, files: seq<seq<byte>>, i: nat)
    requires files != [] && (i < |passphrase| || i < 64)
    ensures |Effective(passphrase, files)| == if |passphrase| < 64 then 64 else |passphrase|
    ensures Effective(passphrase, files)[i]
         == ((if i < |passphrase| then passphrase[i] else 0) + (if i < 64 then Added(files, i) else 0)) % 256
  {
    hide MixedAll, Total, Added;
    if i < 64 {
      PoolIsSum(EmptyPool(), files, i);
      TotalAdded(files, i);
      var own: nat := if i < |passphrase| then passphrase[i] else 0;
      SumMod(own, Added(files, i));
    }
  }

  lemma SumMod(a: nat, b: nat)
    ensures (a + b % 256) % 256 == (a + b) % 256
  {
  }
}
