/** FAT chain walking (section 4 of the exFAT specification). */
module Fats {
  import opened Bytes
  import opened Geometries
  import opened Volumes

  /** Each cluster of `ch` is a cluster of the volume, and the FAT links it to the next one. */
  ghost predicate Links(fat: seq<nat>, ch: seq<nat>)
  {
    && (forall i :: 0 <= i < |ch| ==> 2 <= ch[i] < |fat|)
    && (forall i :: 0 <= i < |ch| - 1 ==> fat[ch[i]] == ch[i + 1])
  }

  /** A linked list of clusters that the FAT ends after the last one. The empty list is a chain. */
  ghost predicate IsChain(fat: seq<nat>, ch: seq<nat>)
  {
    Links(fat, ch) && (ch != [] ==> fat[ch[|ch| - 1]] == END_OF_CHAIN)
  }

  ghost predicate ChainFrom(fat: seq<nat>, first: nat, ch: seq<nat>)
  {
    ch != [] && ch[0] == first && IsChain(fat, ch)
  }

  /** The walk from `cur` with room for `cap` more clusters. Running out of room is the normal end when
      the caller knows the length and a loop when it does not. */
  function Walk(fat: seq<nat>, cur: nat, cap: nat, known: bool): Result<seq<nat>>
    decreases cap
  {
    if cap == 0 then
      if known then Ok([]) else Err(Invalid("cluster chain loop"))
    else if !(2 <= cur < |fat|) then Err(Invalid("FAT index out of range"))
    else if fat[cur] == END_OF_CHAIN then Ok([cur])
    else if fat[cur] == BAD_CLUSTER then Err(Invalid("chain hits bad cluster"))
    else Prepend([cur], Walk(fat, fat[cur], cap - 1, known))
  }

  function Prepend(s: seq<nat>, r: Result<seq<nat>>): Result<seq<nat>>
  {
    match r
    case Ok(t) => Ok(s + t)
    case Err(e) => Err(e)
  }

  lemma PrependNothing(s: seq<nat>, r: Result<seq<nat>>)
    ensures Prepend([], r) == r && Prepend(s, Ok([])) == Ok(s)
  {
    if r.Ok? {
      assert [] + r.value == r.value;
    }
    assert s + [] == s;
  }

  lemma PrependTwice(s: seq<nat>, t: seq<nat>, r: Result<seq<nat>>)
    ensures Prepend(s, Prepend(t, r)) == Prepend(s + t, r)
  {
    if r.Ok? {
      assert s + (t + r.value) == (s + t) + r.value;
    }
  }

  /** Read a chain from `first`. */
  method ReadChain(v: Volume, first: nat, maxLen: Option<nat>) returns (r: Result<seq<nat>>)
    requires v.Valid()
    ensures r == match maxLen
                 case Some(n) => Walk(v.vol.fat, first, n, true)
                 case None => Walk(v.vol.fat, first, v.geo.clusterCount, false)
  {
    hide Volume.Valid;
    var cap := if maxLen.Some? then maxLen.value else v.geo.clusterCount;
    var chain, cur := [], first;
    PrependNothing([], Walk(v.vol.fat, cur, cap, maxLen.Some?));
    while true
      invariant |chain| <= cap
      invariant Prepend(chain, Walk(v.vol.fat, cur, cap - |chain|, maxLen.Some?))
             == Walk(v.vol.fat, first, cap, maxLen.Some?)
      decreases cap - |chain|
    {
      if |chain| >= cap {
        if maxLen.Some? {
          PrependNothing(chain, Ok([]));
          break;
        }
        return Err(Invalid("cluster chain loop"));
      }
      ghost var before := chain;
      chain := chain + [cur];
      var next :- v.FatEntry(cur);
      if next == END_OF_CHAIN {
        break;
      } else if next == BAD_CLUSTER {
        return Err(Invalid("chain hits bad cluster"));
      }
      PrependTwice(before, [cur], Walk(v.vol.fat, next, cap - |chain|, maxLen.Some?));
      cur := next;
    }
    return Ok(chain);
  }

  // ---- What chains are -----------------------------------------------------------------

  lemma {:induction false} ChainsFromAgree(fat: seq<nat>, a: seq<nat>, b: seq<nat>)
    requires |fat| <= BAD_CLUSTER
    requires IsChain(fat, a) && IsChain(fat, b)
    requires a != [] && b != [] && a[0] == b[0]
    ensures a == b
    decreases |a|
  {
    OneClusterChain(fat, a);
    OneClusterChain(fat, b);
    if |a| == 1 {
      assert a == [a[0]] && b == [b[0]];
    } else {
      ChainTail(fat, a);
      ChainTail(fat, b);
      assert a[1..][0] == fat[a[0]] && b[1..][0] == fat[b[0]];
      ChainsFromAgree(fat, a[1..], b[1..]);
      assert a == [a[0]] + a[1..] && b == [b[0]] + b[1..];
    }
  }

  lemma OneClusterChain(fat: seq<nat>, ch: seq<nat>)
    requires |fat| <= BAD_CLUSTER && IsChain(fat, ch) && ch != []
    ensures |ch| == 1 <==> fat[ch[0]] == END_OF_CHAIN
  {
    if |ch| > 1 {
      assert fat[ch[0]] == ch[1];
    }
  }

  lemma ChainTail(fat: seq<nat>, ch: seq<nat>)
    requires IsChain(fat, ch) && ch != []
    ensures IsChain(fat, ch[1..])
  {
    var t := ch[1..];
    assert forall i :: 0 <= i < |t| ==> t[i] == ch[i + 1];
  }

  lemma ChainSuffix(fat: seq<nat>, ch: seq<nat>, n: nat)
    requires IsChain(fat, ch) && n <= |ch|
    ensures IsChain(fat, ch[n..])
  {
    var t := ch[n..];
    assert forall i :: 0 <= i < |t| ==> t[i] == ch[i + n];
  }

  /** A chain that ends never visits a cluster twice. */
  lemma ChainDistinct(fat: seq<nat>, ch: seq<nat>)
    requires |fat| <= BAD_CLUSTER && IsChain(fat, ch)
    ensures Distinct(ch)
    ensures |fat| >= 2 ==> |ch| <= |fat| - 2
  {
    forall i, j | 0 <= i < j < |ch|
      ensures ch[i] != ch[j]
    {
      if ch[i] == ch[j] {
        ChainSuffix(fat, ch, i);
        ChainSuffix(fat, ch, j);
        ChainsFromAgree(fat, ch[i..], ch[j..]);
        assert false;
      }
    }
    if |fat| >= 2 {
      DistinctBound(ch, 2, |fat|);
    }
  }

  // ---- The walk follows the path ---------------------------------------------------------

  lemma {:induction false} WalkOfChain(fat: seq<nat>, ch: seq<nat>, cap: nat, known: bool)
    requires |fat| <= BAD_CLUSTER && IsChain(fat, ch)
    requires ch != [] && |ch| <= cap
    ensures Walk(fat, ch[0], cap, known) == Ok(ch)
    decreases cap
  {
    if |ch| == 1 {
      assert ch == [ch[0]];
    } else {
      ChainTail(fat, ch);
      assert ch[1..][0] == fat[ch[0]];
      WalkOfChain(fat, ch[1..], cap - 1, known);
      assert ch == [ch[0]] + ch[1..];
    }
  }

  lemma {:induction false} WalkIsChain(fat: seq<nat>, first: nat, cap: nat)
    requires Walk(fat, first, cap, false).Ok?
    ensures ChainFrom(fat, first, Walk(fat, first, cap, false).value)
    decreases cap
  {
    var ch := Walk(fat, first, cap, false).value;
    if fat[first] != END_OF_CHAIN {
      WalkIsChain(fat, fat[first], cap - 1);
      var t := ch[1..];
      assert t == Walk(fat, fat[first], cap - 1, false).value;
      assert forall i :: 1 <= i < |ch| ==> ch[i] == t[i - 1];
    }
  }

  /** Without a known length the walk succeeds exactly when the path from `first` reaches the end mark
      through clusters of the volume; it then returns that path, which visits no cluster twice. On every
      other FAT, cyclic ones included, it stops with an error. */
  lemma ReadChainFollowsPath(fat: seq<nat>, first: nat)
    requires 2 <= |fat| <= BAD_CLUSTER
    ensures var r := Walk(fat, first, |fat| - 2, false);
            && (r.Ok? <==> exists ch :: ChainFrom(fat, first, ch))
            && (forall ch :: ChainFrom(fat, first, ch) ==> r == Ok(ch))
            && (r.Ok? ==> Distinct(r.value))
  {
    var r := Walk(fat, first, |fat| - 2, false);
    if r.Ok? {
      WalkIsChain(fat, first, |fat| - 2);
      ChainDistinct(fat, r.value);
    }
    forall ch | ChainFrom(fat, first, ch)
      ensures r == Ok(ch)
    {
      ChainDistinct(fat, ch);
      WalkOfChain(fat, ch, |fat| - 2, false);
    }
  }

  /** With a known length the walk returns at most that many clusters, linked from `first`, and stops
      short only at the end of the chain. */
  lemma {:induction false} ReadKnownLength(fat: seq<nat>, first: nat, n: nat)
    requires Walk(fat, first, n, true).Ok?
    ensures var ch := Walk(fat, first, n, true).value;
            && Links(fat, ch) && |ch| <= n
            && (0 < n ==> ch != [] && ch[0] == first)
            && (|ch| < n ==> IsChain(fat, ch))
    decreases n
  {
    var ch := Walk(fat, first, n, true).value;
    if n > 0 && fat[first] != END_OF_CHAIN {
      ReadKnownLength(fat, fat[first], n - 1);
      var t := ch[1..];
      assert t == Walk(fat, fat[first], n - 1, true).value;
      assert forall i :: 1 <= i < |ch| ==> ch[i] == t[i - 1];
    }
  }
}
