/** The up-case table (section 7.2): a list of words in which 0xFFFF opens a run of identity mappings. */
module UpcaseTables {
  import opened Bytes
  import opened EntrySets

  /** The little-endian words of `raw`; an odd byte at the end is dropped. */
  function Words(raw: seq<byte>): (w: seq<u16>)
    ensures |w| == |raw| / 2
  {
    seq(|raw| / 2, i requires 0 <= i < |raw| / 2 => Word(raw[2 * i], raw[2 * i + 1]))
  }

  /** `n` identity mappings from `start` on. */
  function Identity(start: nat, n: nat): (s: seq<u16>)
    requires start + n <= 0x1_0000
    ensures |s| == n && forall i :: 0 <= i < n ==> s[i] == start + i
  {
    seq(n, i requires 0 <= i < n => start + i)
  }

  /** What the remaining words make of the table so far. A last word 0xFFFF stands for itself, and is appended
      without a check of the length. */
  function Expand(words: seq<u16>, table: seq<u16>): Result<seq<u16>>
    decreases |words|
  {
    if words == [] then Ok(table)
    else if words[0] == 0xFFFF then
      if |words| == 1 then Ok(table + [0xFFFF])
      else if words[1] > 0 && |table| + words[1] as nat > 0x1_0000 then Err(Invalid("up-case table overflows u16"))
      else if words[1] == 0 then Expand(words[2..], table)
      else Expand(words[2..], table + Identity(|table|, words[1]))
    else if |table| > 0xFFFF then Err(Invalid("up-case table overflows u16"))
    else Expand(words[1..], table + [words[0]])
  }

  lemma ExpandFrom(words: seq<u16>, i: nat, table: seq<u16>)
    requires i < |words|
    ensures Expand(words[i..], table) ==
      if words[i] == 0xFFFF then
        if i + 1 == |words| then Ok(table + [0xFFFF])
        else if words[i + 1] > 0 && |table| + words[i + 1] as nat > 0x1_0000 then Err(Invalid("up-case table overflows u16"))
        else if words[i + 1] == 0 then Expand(words[i + 2..], table)
        else Expand(words[i + 2..], table + Identity(|table|, words[i + 1]))
      else if |table| > 0xFFFF then Err(Invalid("up-case table overflows u16"))
      else Expand(words[i + 1..], table + [words[i]])
  {
    var w := words[i..];
    assert w[0] == words[i] && w[1..] == words[i + 1..];
    if i + 1 < |words| {
      assert w[1] == words[i + 1] && w[2..] == words[i + 2..];
    }
  }

  /** Append `count` identity mappings one by one; the first that is no 16-bit value stops the load. */
  method AppendRun(table0: seq<u16>, count: nat) returns (r: Result<seq<u16>>)
    ensures r == if count > 0 && |table0| + count > 0x1_0000 then Err(Invalid("up-case table overflows u16"))
                 else if count == 0 then Ok(table0) else Ok(table0 + Identity(|table0|, count))
  {
    var table := table0;
    for i := 0 to count
      invariant |table| == |table0| + i && (i == 0 || |table| <= 0x1_0000)
      invariant i == 0 ==> table == table0
      invariant i > 0 ==> table == table0 + Identity(|table0|, i)
    {
      var cp := |table0| + i;
      if cp > 0xFFFF {
        return Err(Invalid("up-case table overflows u16"));
      }
      table := table + [cp];
    }
    return Ok(table);
  }

  /** Decompress a table. */
  method Decompress(words: seq<u16>) returns (r: Result<seq<u16>>)
    ensures r == Expand(words, [])
  {
    hide Expand, Identity;
    var table, i := [], 0;
    assert words[0..] == words;
    while i < |words|
      invariant i <= |words| && Expand(words[i..], table) == Expand(words, [])
    {
      ExpandFrom(words, i, table);
      if words[i] == 0xFFFF {
        if i + 1 == |words| {
          return Ok(table + [0xFFFF]);
        }
        var run := AppendRun(table, words[i + 1]);
        if run.Err? {
          return run;
        }
        table := run.value;
        i := i + 2;
      } else {
        if |table| > 0xFFFF {
          return Err(Invalid("up-case table overflows u16"));
        }
        table := table + [words[i]];
        i := i + 1;
      }
    }
    assert words[i..] == [];
    ExpandNothing(table);
    return Ok(table);
  }

  lemma ExpandNothing(table: seq<u16>)
    ensures Expand([], table) == Ok(table)
  {
  }

  /** A table has at most one entry for every 16-bit value, except that the unchecked last word can add one. */
  lemma {:induction false} ExpandBound(words: seq<u16>, table: seq<u16>)
    requires |table| <= 0x1_0000 && Expand(words, table).Ok?
    ensures |table| <= |Expand(words, table).value| <= 0x1_0001
    ensures |Expand(words, table).value| == 0x1_0001 ==> words != [] && words[|words| - 1] == 0xFFFF
    decreases |words|
  {
    if words != [] {
      if words[0] != 0xFFFF {
        ExpandBound(words[1..], table + [words[0]]);
      } else if |words| > 1 {
        ExpandBound(words[2..], if words[1] == 0 then table else table + Identity(|table|, words[1]));
      }
    }
  }

  /** Whether the last word stands where a run would open, so that it stands for itself if it is 0xFFFF. */
  predicate OpensLast(words: seq<u16>): (opens: bool)
    ensures opens ==> words != [] && words[|words| - 1] == 0xFFFF
    decreases |words|
  {
    if words == [] then false
    else if words[0] == 0xFFFF then |words| == 1 || OpensLast(words[2..])
    else OpensLast(words[1..])
  }

  lemma DropLast(words: seq<u16>, n: nat)
    requires n < |words|
    ensures words[..|words| - 1][n..] == words[n..][..|words| - n - 1]
  {
  }

  /** A table exceeds one entry for every 16-bit value exactly when its last word is 0xFFFF where a run would
      open and the words before it already make 0x10000 entries; it then has one entry too many. */
  lemma {:induction false} OverflowsExactly(words: seq<u16>, table: seq<u16>)
    requires |table| <= 0x1_0000 && Expand(words, table).Ok?
    ensures |Expand(words, table).value| <= 0x1_0001
    ensures |Expand(words, table).value| == 0x1_0001
       <==> OpensLast(words) && Expand(words[..|words| - 1], table).Ok?
            && |Expand(words[..|words| - 1], table).value| == 0x1_0000
    decreases |words|
  {
    if words != [] {
      var front := words[..|words| - 1];
      if words[0] != 0xFFFF {
        OverflowsExactly(words[1..], table + [words[0]]);
        if front != [] {
          DropLast(words, 1);
        }
      } else if |words| == 1 {
        ExpandNothing(table);
      } else {
        var next := if words[1] == 0 then table else table + Identity(|table|, words[1]);
        OverflowsExactly(words[2..], next);
        if |words| > 2 {
          DropLast(words, 2);
        }
      }
    }
  }

  /** Two runs of 0x8000 identities and a last 0xFFFF: an accepted table of 0x10001 entries. */
  lemma OverflowingTable()
    ensures Expand([0xFFFF, 0x8000, 0xFFFF, 0x8000, 0xFFFF], []).Ok?
    ensures |Expand([0xFFFF, 0x8000, 0xFFFF, 0x8000, 0xFFFF], []).value| == 0x1_0001
  {
    var words: seq<u16> := [0xFFFF, 0x8000, 0xFFFF, 0x8000, 0xFFFF];
    var half := Identity(0, 0x8000);
    var full := half + Identity(0x8000, 0x8000);
    assert words[0..] == words && [] + half == half && words[4..] == [0xFFFF];
    ExpandFrom(words, 0, []);
    ExpandFrom(words, 2, half);
    ExpandFrom(words, 4, full);
  }

  // ---- Round trip --------------------------------------------------------------------------------

  /** A word is read low byte first. */
  lemma WordIsValue(raw: seq<byte>, i: nat)
    requires i < |raw| / 2
    ensures Words(raw)[i] == Value2(raw, 2 * i)
  {
  }

  lemma UnitValue(ws: seq<u16>, i: nat)
    requires i < |ws|
    ensures Value2(UnitBytes(ws), 2 * i) == ws[i]
  {
    UnitBytesAt(ws, i);
    hide UnitBytes;
    assert ws[i] % 256 + 0x100 * (ws[i] / 256) == ws[i];
  }

  /** Reading the words undoes writing them. */
  lemma WordsOfUnits(ws: seq<u16>)
    ensures Words(UnitBytes(ws)) == ws
  {
    hide UnitBytes, Value2;
    forall i | 0 <= i < |ws|
      ensures Words(UnitBytes(ws))[i] == ws[i]
    {
      WordIsValue(UnitBytes(ws), i);
      UnitValue(ws, i);
    }
  }

  /** The number of consecutive entries from `i` on that map to themselves. */
  function RunLength(t: seq<u16>, i: nat): (n: nat)
    requires i <= |t|
    ensures i + n <= |t| && forall j :: i <= j < i + n ==> t[j] == j
    decreases |t| - i
  {
    if i < |t| && t[i] == i then 1 + RunLength(t, i + 1) else 0
  }

  /** A writer of tables: entry by entry from `i` on, a run of at least `least` entries that map to themselves as
      0xFFFF and their count, every other entry as itself. */
  function Compress(t: seq<u16>, i: nat, least: nat): (words: seq<u16>)
    requires i <= |t|
    ensures |words| <= 2 * (|t| - i)
    decreases |t| - i
  {
    if i == |t| then []
    else
      var n := Min(RunLength(t, i), 0xFFFF);
      if 0 < n && least <= n then [0xFFFF, n] + Compress(t, i + n, least)
      else [t[i]] + Compress(t, i + 1, least)
  }

  /** The maps a table can hold: no entry but the last is 0xFFFF. */
  ghost predicate Storable(t: seq<u16>)
  {
    |t| <= 0x1_0000 && forall i :: 0 <= i < |t| - 1 ==> t[i] != 0xFFFF
  }

  lemma ExpandRun(n: u16, rest: seq<u16>, table: seq<u16>)
    requires 0 < n && |table| + n <= 0x1_0000
    ensures Expand([0xFFFF, n] + rest, table) == Expand(rest, table + Identity(|table|, n))
  {
    var words := [0xFFFF, n] + rest;
    assert words[2..] == rest;
  }

  lemma ExpandLiteral(u: u16, rest: seq<u16>, table: seq<u16>)
    requires |table| < 0x1_0000 && (u == 0xFFFF ==> rest == [])
    ensures Expand([u] + rest, table) == if u == 0xFFFF then Ok(table + [u]) else Expand(rest, table + [u])
  {
    var words := [u] + rest;
    assert words[1..] == rest;
  }

  lemma CompressUnfold(t: seq<u16>, i: nat, least: nat)
    requires i < |t|
    ensures var n := Min(RunLength(t, i), 0xFFFF);
      Compress(t, i, least)
      == if 0 < n && least <= n then [0xFFFF, n] + Compress(t, i + n, least) else [t[i]] + Compress(t, i + 1, least)
  {
  }

  lemma CompressEnds(t: seq<u16>, least: nat)
    ensures Compress(t, |t|, least) == []
  {
  }

  lemma RunExtends(t: seq<u16>, i: nat, n: nat)
    requires i <= |t| && i + n <= 0x1_0000 && n <= RunLength(t, i)
    ensures t[..i] + Identity(i, n) == t[..i + n]
  {
  }

  /** Loading what the writer wrote gives the map back, wherever the writer uses runs. */
  lemma {:induction false} CompressLoads(t: seq<u16>, i: nat, least: nat)
    requires Storable(t) && i <= |t|
    ensures Expand(Compress(t, i, least), t[..i]) == Ok(t)
    decreases |t| - i
  {
    hide Expand, Identity, Compress;
    if i == |t| {
      assert t[..i] == t;
      CompressEnds(t, least);
      ExpandNothing(t);
    } else {
      CompressUnfold(t, i, least);
      var n := Min(RunLength(t, i), 0xFFFF);
      if 0 < n && least <= n {
        CompressLoads(t, i + n, least);
        ExpandRun(n, Compress(t, i + n, least), t[..i]);
        RunExtends(t, i, n);
      } else {
        CompressLoads(t, i + 1, least);
        if t[i] == 0xFFFF {
          assert i + 1 == |t| && t == t[..i + 1];
          CompressEnds(t, least);
        }
        ExpandLiteral(t[i], Compress(t, i + 1, least), t[..i]);
        assert t[..i] + [t[i]] == t[..i + 1];
      }
    }
  }

  /** What is loaded extends the table so far, and holds 0xFFFF nowhere but at its own index or at the end. */
  lemma {:induction false} ExpandStores(words: seq<u16>, table: seq<u16>)
    requires |table| <= 0x1_0000 && Expand(words, table).Ok?
    ensures var t := Expand(words, table).value;
      && table <= t && forall i :: |table| <= i < |t| - 1 && i != 0xFFFF ==> t[i] != 0xFFFF
    decreases |words|
  {
    if words != [] && !(words[0] == 0xFFFF && |words| == 1) {
      if words[0] != 0xFFFF {
        ExpandStores(words[1..], table + [words[0]]);
      } else {
        ExpandStores(words[2..], if words[1] == 0 then table else table + Identity(|table|, words[1]));
      }
    }
  }

  /** A map of at most one entry for every 16-bit value is the content of some table exactly when no entry but
      the last is 0xFFFF. */
  lemma StorableExactly(t: seq<u16>)
    requires |t| <= 0x1_0000
    ensures Storable(t) <==> exists words: seq<u16> :: Expand(words, []) == Ok(t)
  {
    if Storable(t) {
      CompressLoads(t, 0, 1);
      assert t[..0] == [];
    }
    forall words: seq<u16> | Expand(words, []) == Ok(t)
      ensures Storable(t)
    {
      ExpandStores(words, []);
    }
  }

  /** The map read back from the bytes the writer stored. */
  lemma BytesLoad(t: seq<u16>, least: nat)
    requires Storable(t)
    ensures Expand(Words(UnitBytes(Compress(t, 0, least))), []) == Ok(t)
  {
    WordsOfUnits(Compress(t, 0, least));
    CompressLoads(t, 0, least);
    assert t[..0] == [];
  }
}
