/** Bytes, little-endian numbers, bits and splices: the vocabulary every other module shares. */
module Bytes {

  type byte = b: int | 0 <= b < 256

  datatype Error = Invalid(what: string) | NotFound | Io

  datatype Result<+T> = Ok(value: T) | Err(error: Error) {
    predicate IsFailure() { Err? }
    function PropagateFailure<U>(): Result<U>
    {
      match this
      case Err(e) => Err(e)
      case Ok(_) => Err(Io)
    }
    function Extract(): T
      requires Ok?
    {
      value
    }
  }

  datatype Option<+T> = None | Some(value: T)

  function Min(a: int, b: int): int { if a < b then a else b }
  function Max(a: int, b: int): int { if a < b then b else a }

  /** `n` copies of `b`. */
  function Fill<T>(n: nat, b: T): (s: seq<T>)
    ensures |s| == n && forall i :: 0 <= i < n ==> s[i] == b
  {
    seq(n, _ => b)
  }

  // ---- Rounding division -------------------------------------------------------------

  function DivCeil(a: nat, b: nat): (q: nat)
    requires 0 < b
  {
    (a + b - 1) / b
  }

  /** The quotient is the least number of `b`-sized blocks that hold `a`. */
  lemma DivCeilBounds(a: nat, b: nat)
    requires 0 < b
    ensures a <= DivCeil(a, b) * b < a + b
    ensures DivCeil(a, b) == 0 <==> a == 0
  {
    var x := a + b - 1;
    assert x == x / b * b + x % b;
    if a == 0 {
      assert x / b == 0;
    } else {
      MulLess(x / b, b);
    }
  }

  lemma MulLess(q: nat, b: nat)
    ensures q == 0 || q * b >= b
  {
    if q > 0 {
      assert q * b == (q - 1) * b + b;
      MulNonNegative(q - 1, b);
    }
  }

  lemma MulNonNegative(a: nat, b: nat)
    ensures 0 <= a * b
  {
  }

  /** `q` is the rounded-up quotient as soon as it brackets `a`. */
  lemma DivCeilIs(a: nat, b: nat, q: nat)
    requires 0 < b && a <= q * b < a + b
    ensures DivCeil(a, b) == q
  {
    DivCeilBounds(a, b);
    var d := DivCeil(a, b);
    if d < q {
      MulMono(d, q, b);
    } else if q < d {
      MulMono(q, d, b);
    }
  }

  lemma DivCeilMono(a: nat, a': nat, b: nat)
    requires 0 < b && a <= a'
    ensures DivCeil(a, b) <= DivCeil(a', b)
  {
    DivCeilBounds(a, b);
    DivCeilBounds(a', b);
    var d, d' := DivCeil(a, b), DivCeil(a', b);
    if d' < d {
      MulMono(d', d, b);
    }
  }

  lemma MulMono(a: nat, a': nat, b: nat)
    requires a <= a'
    ensures a * b <= a' * b
    ensures a < a' ==> a * b + b <= a' * b
  {
    MulNonNegative(a' - a, b);
    assert a' * b == a * b + (a' - a) * b;
    MulLess(a' - a, b);
  }

  /** A block of `n * b` from block `first` ends where block `first + n` starts. */
  lemma BlocksEnd(first: nat, n: nat, b: nat)
    ensures (first + n) * b == first * b + n * b
  {
  }

  /** Dividing `q * b + r` by `b` recovers `q` and `r`. */
  lemma DivModUnique(q: nat, b: nat, r: nat)
    requires r < b
    ensures (q * b + r) / b == q && (q * b + r) % b == r
  {
    var x := q * b + r;
    var q' := x / b;
    assert x == q' * b + x % b;
    if q' < q {
      MulMono(q', q, b);
    } else if q < q' {
      MulMono(q, q', b);
    }
  }

  lemma DivMod(x: nat, b: nat)
    requires 0 < b
    ensures x == (x / b) * b + x % b && 0 <= x % b < b && 0 <= x / b
  {
  }

  // ---- Little-endian numbers -----------------------------------------------------------

  /** The `k` low bytes of `n`, least significant first. */
  function Le(n: nat, k: nat): (s: seq<byte>)
    ensures |s| == k
  {
    if k == 0 then [] else [n % 256] + Le(n / 256, k - 1)
  }

  function FromLe(s: seq<byte>): nat
  {
    if s == [] then 0 else s[0] + 256 * FromLe(s[1..])
  }

  function Pow256(k: nat): (p: nat)
    ensures 0 < p
  {
    if k == 0 then 1 else 256 * Pow256(k - 1)
  }

  lemma {:induction false} FromLeOfLe(n: nat, k: nat)
    requires n < Pow256(k)
    ensures FromLe(Le(n, k)) == n
  {
    if k > 0 {
      FromLeOfLe(n / 256, k - 1);
      assert Le(n, k)[1..] == Le(n / 256, k - 1);
    }
  }

  lemma {:induction false} LeOfFromLe(s: seq<byte>)
    ensures Le(FromLe(s), |s|) == s
    ensures FromLe(s) < Pow256(|s|)
  {
    if s != [] {
      LeOfFromLe(s[1..]);
      assert FromLe(s) % 256 == s[0] && FromLe(s) / 256 == FromLe(s[1..]);
    }
  }

  lemma PowersOf256()
    ensures Pow256(1) == 0x100 && Pow256(2) == 0x1_0000 && Pow256(4) == 0x1_0000_0000
    ensures Pow256(8) == 0x1_0000_0000_0000_0000
  {
    assert Pow256(2) == 256 * Pow256(1);
    assert Pow256(4) == 256 * (256 * Pow256(2));
    assert Pow256(6) == 256 * (256 * Pow256(4));
    assert Pow256(8) == 256 * (256 * Pow256(6));
  }

  /** The value of the little-endian bytes at `at`, written out for the widths that occur. */
  function Value2(s: seq<byte>, at: nat): nat
    requires at + 2 <= |s|
  {
    var lo: nat := s[at];
    var hi: nat := s[at + 1];
    lo + 0x100 * hi
  }

  function Value4(s: seq<byte>, at: nat): nat
    requires at + 4 <= |s|
  {
    Value2(s, at) + 0x1_0000 * Value2(s, at + 2)
  }

  function Value8(s: seq<byte>, at: nat): nat
    requires at + 8 <= |s|
  {
    Value4(s, at) + 0x1_0000_0000 * Value4(s, at + 4)
  }

  lemma {:induction false} FromLeAppend(a: seq<byte>, b: seq<byte>)
    ensures FromLe(a + b) == FromLe(a) + Pow256(|a|) * FromLe(b)
  {
    if a == [] {
      assert a + b == b;
    } else {
      FromLeAppend(a[1..], b);
      assert (a + b)[1..] == a[1..] + b && (a + b)[0] == a[0];
      Carry(a[0], FromLe(a[1..]), Pow256(|a| - 1), FromLe(b));
      assert FromLe(a + b) == a[0] + 256 * FromLe(a[1..] + b);
    }
  }

  lemma Carry(x: nat, y: nat, p: nat, f: nat)
    ensures x + 256 * (y + p * f) == (x + 256 * y) + 256 * p * f
  {
    assert 256 * (p * f) == 256 * p * f;
  }

  lemma FromLeSplits(s: seq<byte>, at: nat, n: nat, m: nat)
    requires at + n + m <= |s|
    ensures FromLe(s[at..at + n + m]) == FromLe(s[at..at + n]) + Pow256(n) * FromLe(s[at + n..at + n + m])
  {
    assert s[at..at + n + m] == s[at..at + n] + s[at + n..at + n + m];
    FromLeAppend(s[at..at + n], s[at + n..at + n + m]);
  }

  lemma FromLeIsValue2(s: seq<byte>, at: nat)
    requires at + 2 <= |s|
    ensures FromLe(s[at..at + 2]) == Value2(s, at)
  {
    FromLeSplits(s, at, 1, 1);
    assert s[at..at + 1] == [s[at]] && s[at + 1..at + 2] == [s[at + 1]];
  }

  lemma FromLeIsValue4(s: seq<byte>, at: nat)
    requires at + 4 <= |s|
    ensures FromLe(s[at..at + 4]) == Value4(s, at)
  {
    FromLeSplits(s, at, 2, 2);
    FromLeIsValue2(s, at);
    FromLeIsValue2(s, at + 2);
    PowersOf256();
    hide FromLe, Value2;
  }

  lemma FromLeIsValue8(s: seq<byte>, at: nat)
    requires at + 8 <= |s|
    ensures FromLe(s[at..at + 8]) == Value8(s, at)
  {
    FromLeSplits(s, at, 4, 4);
    FromLeIsValue4(s, at);
    FromLeIsValue4(s, at + 4);
    PowersOf256();
    hide FromLe, Value4;
  }

  // ---- Bits of a byte ------------------------------------------------------------------

  /** Bit `k` of `b`: the test `b & (1 << k) != 0`. */
  predicate BitSet(b: nat, k: nat)
  {
    if k == 0 then b % 2 == 1 else BitSet(b / 2, k - 1)
  }

  /** `b | (1 << k)` when `on`, `b & !(1 << k)` otherwise. */
  function WithBit(b: nat, k: nat, on: bool): nat
  {
    if k == 0 then b / 2 * 2 + (if on then 1 else 0) else WithBit(b / 2, k - 1, on) * 2 + b % 2
  }

  function Pow2(k: nat): (p: nat)
    ensures 0 < p
  {
    if k == 0 then 1 else 2 * Pow2(k - 1)
  }

  /** Bit `k` counts 2 to the power `k`. */
  lemma {:induction false} BitSetCounts(b: nat, k: nat)
    ensures BitSet(b, k) <==> b / Pow2(k) % 2 == 1
  {
    if k > 0 {
      BitSetCounts(b / 2, k - 1);
      HalfThenDivide(b, Pow2(k - 1));
    } else {
      assert Pow2(0) == 1;
    }
  }

  lemma HalfThenDivide(b: nat, p: nat)
    requires 0 < p
    ensures b / (2 * p) == b / 2 / p
  {
    DivMod(b / 2, p);
    var q, r := b / 2 / p, b / 2 % p;
    DoubledBlocks(q, p);
    DivModUnique(q, 2 * p, 2 * r + b % 2);
  }

  lemma DoubledBlocks(q: nat, p: nat)
    ensures q * (2 * p) == 2 * (q * p)
  {
  }

  lemma HalfOfRest(b: nat, p: nat)
    requires 0 < p
    ensures b % (2 * p) / 2 == b / 2 % p && b % (2 * p) % 2 == b % 2
  {
    DivMod(b / 2, p);
    var q, r := b / 2 / p, b / 2 % p;
    assert b == q * (2 * p) + (2 * r + b % 2);
    DivModUnique(q, 2 * p, 2 * r + b % 2);
  }

  /** The remainder by a power of two keeps the bits below it. */
  lemma {:induction false} LowBits(b: nat, width: nat, k: nat)
    ensures BitSet(b % Pow2(width), k) <==> k < width && BitSet(b, k)
    decreases k
  {
    if width == 0 {
      NoBit(k);
    } else {
      var p := Pow2(width - 1);
      HalfOfRest(b, p);
      assert Pow2(width) == 2 * p;
      if k > 0 {
        LowBits(b / 2, width - 1, k - 1);
      }
      hide Pow2;
    }
  }

  lemma {:induction false} NoBit(k: nat)
    ensures !BitSet(0, k)
  {
    if k > 0 {
      NoBit(k - 1);
    }
  }

  lemma {:induction false} WithBitBits(b: nat, k: nat, on: bool, j: nat)
    ensures BitSet(WithBit(b, k, on), j) == if j == k then on else BitSet(b, j)
    decreases k
  {
    if k > 0 && j > 0 {
      WithBitBits(b / 2, k - 1, on, j - 1);
    }
  }

  /** Changing a bit below the width keeps a number within the width. */
  lemma {:induction false} WithBitFits(b: nat, k: nat, on: bool, width: nat)
    requires k < width && b < Pow2(width)
    ensures WithBit(b, k, on) < Pow2(width)
  {
    if k > 0 {
      WithBitFits(b / 2, k - 1, on, width - 1);
    }
  }

  /** The byte `b` with bit `k` switched. */
  function WithBitAt(b: byte, k: nat, on: bool): byte
    requires k < 8
  {
    assert Pow2(8) == 256 by {
      assert Pow2(3) == 8 && Pow2(5) == 4 * Pow2(3);
      assert Pow2(8) == 8 * Pow2(5);
    }
    WithBitFits(b, k, on, 8);
    WithBit(b, k, on)
  }

  // ---- Sequences without repetition ------------------------------------------------------

  function Elems<T>(s: seq<T>): set<T> { set x | x in s }

  ghost predicate Distinct<T>(s: seq<T>)
  {
    forall i, j :: 0 <= i < j < |s| ==> s[i] != s[j]
  }

  lemma {:induction false} DistinctCount<T>(s: seq<T>)
    requires Distinct(s)
    ensures |Elems(s)| == |s|
  {
    if s != [] {
      var t, last := s[..|s| - 1], s[|s| - 1];
      DistinctCount(t);
      assert s == t + [last];
      assert Elems(s) == Elems(t) + {last};
      assert last !in t;
    }
  }

  lemma {:induction false} RangeCount(lo: int, hi: int, q: set<nat>)
    requires lo <= hi && forall x :: x in q ==> lo <= x < hi
    ensures |q| <= hi - lo
    decreases hi - lo
  {
    if lo < hi {
      RangeCount(lo, hi - 1, q - {hi - 1});
    } else {
      assert q == {};
    }
  }

  /** Pigeonhole: a sequence without repetition is no longer than the range it draws from. */
  lemma DistinctBound(s: seq<nat>, lo: int, hi: int)
    requires Distinct(s) && lo <= hi && forall i :: 0 <= i < |s| ==> lo <= s[i] < hi
    ensures |s| <= hi - lo
  {
    DistinctCount(s);
    RangeCount(lo, hi, Elems(s));
  }

  // ---- Splices -------------------------------------------------------------------------

  /** `s` with `d` laid over it from position `at` on. */
  function Splice<T>(s: seq<T>, at: nat, d: seq<T>): (r: seq<T>)
    requires at + |d| <= |s|
    ensures |r| == |s|
  {
    s[..at] + d + s[at + |d|..]
  }

  lemma SpliceAt<T>(s: seq<T>, at: nat, d: seq<T>, i: nat)
    requires at + |d| <= |s| && i < |s|
    ensures Splice(s, at, d)[i] == if at <= i < at + |d| then d[i - at] else s[i]
  {
  }

  lemma SpliceShows<T>(s: seq<T>, at: nat, d: seq<T>)
    requires at + |d| <= |s|
    ensures Splice(s, at, d)[at..at + |d|] == d
  {
  }

  lemma SliceOfSlice<T>(s: seq<T>, lo: nat, hi: nat, at: nat, n: nat)
    requires lo <= hi <= |s| && at + n <= hi - lo
    ensures s[lo..hi][at..at + n] == s[lo + at..lo + at + n]
  {
    var t := s[lo..hi];
    var u, w := t[at..at + n], s[lo + at..lo + at + n];
    assert forall i :: 0 <= i < n ==> u[i] == t[at + i] == w[i];
  }

  /** A block of `s` after a splice inside another block of the same size, or inside the same one. */
  lemma BlockAfterSplice<T>(s: seq<T>, lo: nat, n: nat, at: nat, d: seq<T>, lo': nat)
    requires lo + n <= |s| && lo' + n <= |s| && at + |d| <= n
    requires lo' == lo || lo' + n <= lo || lo + n <= lo'
    ensures Splice(s, lo + at, d)[lo'..lo' + n]
         == if lo' == lo then Splice(s[lo..lo + n], at, d) else s[lo'..lo' + n]
  {
    hide Splice;
    if lo' == lo {
      SliceAround(s, lo + at, d, lo, lo + n);
    } else {
      SliceOutside(s, lo + at, d, lo', lo' + n);
    }
  }

  /** A slice that a splice does not meet is unchanged. */
  lemma SliceOutside<T>(s: seq<T>, at: nat, d: seq<T>, lo: nat, hi: nat)
    requires at + |d| <= |s| && lo <= hi <= |s|
    requires hi <= at || at + |d| <= lo
    ensures Splice(s, at, d)[lo..hi] == s[lo..hi]
  {
    var r := Splice(s, at, d);
    forall i | 0 <= i < hi - lo
      ensures r[lo..hi][i] == s[lo..hi][i]
    {
      SpliceAt(s, at, d, lo + i);
    }
  }

  /** A slice that covers a splice shows it, shifted. */
  lemma SliceAround<T>(s: seq<T>, at: nat, d: seq<T>, lo: nat, hi: nat)
    requires at + |d| <= |s| && lo <= at && at + |d| <= hi <= |s|
    ensures Splice(s, at, d)[lo..hi] == Splice(s[lo..hi], at - lo, d)
  {
    var r := Splice(s, at, d);
    var q := Splice(s[lo..hi], at - lo, d);
    forall i | 0 <= i < hi - lo
      ensures r[lo..hi][i] == q[i]
    {
      SpliceAt(s, at, d, lo + i);
      SpliceAt(s[lo..hi], at - lo, d, i);
    }
  }

  lemma Associates<T>(a: seq<T>, b: seq<T>, c: seq<T>)
    ensures a + (b + c) == a + b + c
  {
  }

  /** The parts end to end. */
  function Flat<T>(parts: seq<seq<T>>): seq<T>
  {
    if parts == [] then [] else parts[0] + Flat(parts[1..])
  }

  lemma {:induction false} FlatAppend<T>(a: seq<seq<T>>, b: seq<seq<T>>)
    ensures Flat(a + b) == Flat(a) + Flat(b)
  {
    if a == [] {
      assert a + b == b;
    } else {
      FlatAppend(a[1..], b);
      assert (a + b)[0] == a[0] && (a + b)[1..] == a[1..] + b;
      Associates(a[0], Flat(a[1..]), Flat(b));
    }
  }

  /** Splicing over the middle of three parts replaces it. */
  lemma SpliceMiddle<T>(a: seq<T>, b: seq<T>, c: seq<T>, d: seq<T>)
    requires |b| == |d|
    ensures Splice(a + b + c, |a|, d) == a + d + c
  {
    var s := a + b + c;
    assert s[..|a|] == a && s[|a| + |d|..] == c;
  }

  // ---- Buffers --------------------------------------------------------------------------------

  /** Replaces the contents of a buffer. */
  method Overwrite(buf: array<byte>, s: seq<byte>)
    requires |s| == buf.Length
    modifies buf
    ensures buf[..] == s
  {
    forall i | 0 <= i < buf.Length {
      buf[i] := s[i];
    }
  }

  /** Copies `data` into a buffer. */
  method Patch(buf: array<byte>, at: nat, data: seq<byte>)
    requires at + |data| <= buf.Length
    modifies buf
    ensures buf[..] == Splice(old(buf[..]), at, data)
  {
    forall i | 0 <= i < |data| {
      buf[at + i] := data[i];
    }
    ghost var was := old(buf[..]);
    forall i | 0 <= i < |was|
      ensures buf[i] == Splice(was, at, data)[i]
    {
      SpliceAt(was, at, data, i);
    }
  }
}
