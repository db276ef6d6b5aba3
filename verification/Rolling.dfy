/** Rolling checksums of any width, bit by bit: every step rotates the sum right by one bit and adds a byte. */
module RollingSums {
  import opened Bytes

  /** `rot` is `sum` rotated right by one bit: bit `k` is bit `k + 1` of `sum`, the top bit is bit 0. */
  ghost predicate RotatedRight(width: nat, sum: nat, rot: nat)
    requires 0 < width
  {
    && rot < Pow2(width)
    && (BitSet(rot, width - 1) <==> BitSet(sum, 0))
    && forall k: nat :: k + 1 < width ==> (BitSet(rot, k) <==> BitSet(sum, k + 1))
  }

  /** `next` follows `sum` when byte `b` is summed. */
  ghost predicate RollStep(width: nat, sum: nat, b: byte, next: nat)
    requires 0 < width
  {
    exists rot: nat :: RotatedRight(width, sum, rot) && next == (rot + b) % Pow2(width)
  }

  /** The sums before each byte of `bs` and after the last one, from zero on. */
  ghost predicate Rolls(width: nat, bs: seq<byte>, sums: seq<nat>)
    requires 0 < width
  {
    && |sums| == |bs| + 1 && sums[0] == 0
    && forall i :: 0 <= i < |bs| ==> RollStep(width, sums[i], bs[i], sums[i + 1])
  }

  /** `sum` is the rolling checksum of `bs`. */
  ghost predicate RollsTo(width: nat, bs: seq<byte>, sum: nat)
    requires 0 < width
  {
    exists sums: seq<nat> :: Rolls(width, bs, sums) && sums[|bs|] == sum
  }

  lemma RollsNothing(width: nat)
    requires 0 < width
    ensures RollsTo(width, [], 0)
  {
    assert Rolls(width, [], [0]);
  }

  lemma RollsMore(width: nat, bs: seq<byte>, sum: nat, b: byte, next: nat)
    requires 0 < width && RollsTo(width, bs, sum) && RollStep(width, sum, b, next)
    ensures RollsTo(width, bs + [b], next)
  {
    hide RollStep;
    var sums :| Rolls(width, bs, sums) && sums[|bs|] == sum;
    assert Rolls(width, bs + [b], sums + [next]);
  }

  // ---- A number is its bits --------------------------------------------------------------------

  /** The arithmetic of a rotation: halve, and put the bit that falls out on top. */
  lemma {:induction false} TopBit(x: nat, width: nat, on: bool, k: nat)
    requires x < Pow2(width) && k <= width
    ensures BitSet(x + (if on then Pow2(width) else 0), k) == if k == width then on else BitSet(x, k)
    decreases width
  {
    if width > 0 && k > 0 {
      TopBit(x / 2, width - 1, on, k - 1);
      assert (x + (if on then Pow2(width) else 0)) / 2 == x / 2 + (if on then Pow2(width - 1) else 0);
    }
  }

  lemma RotationIs(width: nat, sum: nat)
    requires 0 < width && sum < Pow2(width)
    ensures RotatedRight(width, sum, sum / 2 + (if sum % 2 == 1 then Pow2(width - 1) else 0))
  {
    var rot := sum / 2 + (if sum % 2 == 1 then Pow2(width - 1) else 0);
    forall k: nat | k < width
      ensures BitSet(rot, k) == if k == width - 1 then sum % 2 == 1 else BitSet(sum / 2, k)
    {
      TopBit(sum / 2, width - 1, sum % 2 == 1, k);
    }
  }

  lemma StepIs(width: nat, sum: nat, b: byte, next: nat)
    requires 0 < width && sum < Pow2(width)
    requires next == (sum / 2 + (if sum % 2 == 1 then Pow2(width - 1) else 0) + b) % Pow2(width)
    ensures RollStep(width, sum, b, next)
  {
    RotationIs(width, sum);
  }

  lemma {:induction false} SameBits(width: nat, a: nat, b: nat)
    requires a < Pow2(width) && b < Pow2(width) && forall k: nat :: k < width ==> BitSet(a, k) == BitSet(b, k)
    ensures a == b
  {
    if width > 0 {
      forall k: nat | k < width - 1
        ensures BitSet(a / 2, k) == BitSet(b / 2, k)
      {
        assert BitSet(a, k + 1) == BitSet(b, k + 1);
      }
      SameBits(width - 1, a / 2, b / 2);
      assert BitSet(a, 0) == BitSet(b, 0);
    }
  }

  lemma OneRotation(width: nat, sum: nat, rot: nat, rot': nat)
    requires 0 < width && RotatedRight(width, sum, rot) && RotatedRight(width, sum, rot')
    ensures rot == rot'
  {
    forall k: nat | k < width
      ensures BitSet(rot, k) == BitSet(rot', k)
    {
      assert k + 1 < width || k == width - 1;
    }
    SameBits(width, rot, rot');
  }

  /** The bytes determine the sum. */
  lemma {:induction false} RollsOnce(width: nat, bs: seq<byte>, sums: seq<nat>, sums': seq<nat>, i: nat)
    requires 0 < width && Rolls(width, bs, sums) && Rolls(width, bs, sums') && i <= |bs|
    ensures sums[i] == sums'[i]
    decreases i
  {
    hide RotatedRight;
    if i > 0 {
      RollsOnce(width, bs, sums, sums', i - 1);
      assert RollStep(width, sums[i - 1], bs[i - 1], sums[i - 1 + 1]);
      assert RollStep(width, sums'[i - 1], bs[i - 1], sums'[i - 1 + 1]);
      var rot: nat :| RotatedRight(width, sums[i - 1], rot) && sums[i] == (rot + bs[i - 1]) % Pow2(width);
      var rot': nat :| RotatedRight(width, sums[i - 1], rot') && sums'[i] == (rot' + bs[i - 1]) % Pow2(width);
      OneRotation(width, sums[i - 1], rot, rot');
    }
  }

  lemma RollsUniquely(width: nat, bs: seq<byte>, sum: nat, sum': nat)
    requires 0 < width && RollsTo(width, bs, sum) && RollsTo(width, bs, sum')
    ensures sum == sum'
  {
    hide RollStep;
    var sums :| Rolls(width, bs, sums) && sums[|bs|] == sum;
    var sums' :| Rolls(width, bs, sums') && sums'[|bs|] == sum';
    RollsOnce(width, bs, sums, sums', |bs|);
  }

  lemma Widths()
    ensures Pow2(8) == 0x100 && Pow2(15) == 0x8000 && Pow2(16) == 0x1_0000
    ensures Pow2(31) == 0x8000_0000 && Pow2(32) == 0x1_0000_0000
  {
    assert Pow2(4) == 4 * Pow2(2) && Pow2(6) == 4 * Pow2(4) && Pow2(8) == 4 * Pow2(6) && Pow2(10) == 4 * Pow2(8);
    assert Pow2(12) == 4 * Pow2(10) && Pow2(14) == 4 * Pow2(12) && Pow2(15) == 2 * Pow2(14) && Pow2(16) == 2 * Pow2(15);
    assert Pow2(18) == 4 * Pow2(16) && Pow2(20) == 4 * Pow2(18) && Pow2(22) == 4 * Pow2(20) && Pow2(24) == 4 * Pow2(22);
    assert Pow2(26) == 4 * Pow2(24) && Pow2(28) == 4 * Pow2(26) && Pow2(30) == 4 * Pow2(28) && Pow2(32) == 4 * Pow2(30);
    assert Pow2(31) == 2 * Pow2(30);
  }
}
