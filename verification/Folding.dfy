/** When two names are the same name: said about the entries of the up-case table alone. */
module Foldings {
  import opened Bytes
  import opened Catalogues
  import opened Directories
  import opened EntrySets
  import opened Listings
  import opened Lookups
  import opened Stabilities
  import opened Visibilities
  import opened Volumes

  /** Two units that the table does not tell apart: they are equal, or both lie in the table and have the same entry,
      or one lies in the table and its entry is the other, which does not. */
  predicate UnitsAlike(upcase: seq<u16>, u: u16, w: u16)
  {
    || u == w
    || (u < |upcase| && w < |upcase| && upcase[u] == upcase[w])
    || (u < |upcase| <= w && upcase[u] == w)
    || (w < |upcase| <= u && upcase[w] == u)
  }

  /** Two names of the same length whose units the table does not tell apart, place by place. */
  ghost predicate NamesAlike(upcase: seq<u16>, n: Name, m: Name)
  {
    |n| == |m| && forall i :: 0 <= i < |n| ==> UnitsAlike(upcase, n[i], m[i])
  }

  /** Folding identifies exactly these names. */
  lemma FoldsAlike(upcase: seq<u16>, n: Name, m: Name)
    ensures UpName(upcase, n) == UpName(upcase, m) <==> NamesAlike(upcase, n, m)
  {
    var a, b := UpName(upcase, n), UpName(upcase, m);
    if |n| == |m| {
      forall i | 0 <= i < |n|
        ensures a[i] == b[i] <==> UnitsAlike(upcase, n[i], m[i])
      {
        assert a[i] == UpUnit(upcase, n[i]) && b[i] == UpUnit(upcase, m[i]);
      }
    }
  }

  /** Names of units inside the table with the same entries are the same name; a unit inside that maps differently, or
      a unit outside that differs from one outside, keeps them apart. */
  lemma AlikeByTable(upcase: seq<u16>, n: Name, m: Name)
    requires |n| == |m|
    ensures (forall i :: 0 <= i < |n| ==> n[i] < |upcase| && m[i] < |upcase| && upcase[n[i]] == upcase[m[i]]) ==>
      NamesAlike(upcase, n, m)
    ensures (exists i :: 0 <= i < |n| && n[i] < |upcase| && m[i] < |upcase| && upcase[n[i]] != upcase[m[i]]) ==>
      !NamesAlike(upcase, n, m)
    ensures (exists i :: 0 <= i < |n| && n[i] >= |upcase| && m[i] >= |upcase| && n[i] != m[i]) ==>
      !NamesAlike(upcase, n, m)
    ensures (exists i :: 0 <= i < |n| && n[i] >= |upcase| && m[i] < |upcase| && upcase[m[i]] != n[i]) ==>
      !NamesAlike(upcase, n, m)
  {
  }

  /** The hash of a name does not depend on how it is written. */
  lemma AlikeHash(upcase: seq<u16>, n: Name, m: Name)
    requires NamesAlike(upcase, n, m)
    ensures NameHash(upcase, n) == NameHash(upcase, m)
  {
    FoldsAlike(upcase, n, m);
    HashOfFolded(upcase, n, m);
  }

  lemma {:induction false} HashOfFolded(upcase: seq<u16>, n: Name, m: Name)
    requires UpName(upcase, n) == UpName(upcase, m)
    ensures NameHash(upcase, n) == NameHash(upcase, m)
    decreases |n|
  {
    hide Roll;
    assert |UpName(upcase, n)| == |UpName(upcase, m)|;
    if n != [] {
      var k := |n| - 1;
      assert UpName(upcase, n)[k] == UpName(upcase, m)[k];
      assert UpName(upcase, n[..k]) == UpName(upcase, n)[..k] && UpName(upcase, m[..k]) == UpName(upcase, m)[..k];
      HashOfFolded(upcase, n[..k], m[..k]);
    }
  }

  // ---- Searching -------------------------------------------------------------------------------

  /** Some visible node of directory `d` has that name. */
  ghost predicate Taken(v: Vol, cat: Cat, per: nat, upcase: seq<u16>, d: nat, name: Name)
  {
    exists k :: k in cat.nodes && Answers(v, cat, per, upcase, d, name, k)
  }

  ghost predicate Answers(v: Vol, cat: Cat, per: nat, upcase: seq<u16>, d: nat, name: Name, k: nat)
    requires k in cat.nodes
  {
    cat.nodes[k].parent == d && Visible(v, cat, per, k) && NamesAlike(upcase, cat.nodes[k].facts.name, name)
  }

  /** The first node of the directory that answers to a name: visible, of that name, and before every other such node. */
  ghost predicate FirstToAnswer(v: Vol, cat: Cat, per: nat, upcase: seq<u16>, d: nat, name: Name, k: nat)
  {
    && k in cat.nodes && Answers(v, cat, per, upcase, d, name, k)
    && forall k' :: k' in cat.nodes && Answers(v, cat, per, upcase, d, name, k') ==>
         Position(cat, per, k) <= Position(cat, per, k')
  }

  /** A search finds the first node that answers to the name, and nothing exactly when none does. */
  lemma SearchFolds(v: Vol, cat: Cat, cb: nat, per: nat, upcase: seq<u16>, d: nat, name: Name)
    requires Walkable(v, cat, cb, per, upcase, d) && d in cat.chains
    ensures Find(v, cat, per, upcase, d, name).Some? <==> Taken(v, cat, per, upcase, d, name)
    ensures Find(v, cat, per, upcase, d, name).Some? ==>
      FirstToAnswer(v, cat, per, upcase, d, name, Find(v, cat, per, upcase, d, name).value)
  {
    hide Walkable, Find, Visible, UpName, NamesAlike, Position;
    FindMeans(v, cat, cb, per, upcase, d, name);
    var r := Find(v, cat, per, upcase, d, name);
    if r.Some? {
      FoldsAlike(upcase, cat.nodes[r.value].facts.name, name);
      assert Answers(v, cat, per, upcase, d, name, r.value);
    }
    forall k | k in cat.nodes && Answers(v, cat, per, upcase, d, name, k)
      ensures r.Some? && Position(cat, per, r.value) <= Position(cat, per, k)
    {
      FoldsAlike(upcase, cat.nodes[k].facts.name, name);
      FindLeast(v, cat, cb, per, upcase, d, name, k);
    }
  }

  /** Names that are alike find the same node, and two paths that are alike component by component lead to the same one. */
  lemma FindFolds(v: Vol, cat: Cat, per: nat, upcase: seq<u16>, d: nat, n: Name, m: Name)
    requires NamesAlike(upcase, n, m)
    ensures Find(v, cat, per, upcase, d, n) == Find(v, cat, per, upcase, d, m)
  {
    FoldsAlike(upcase, n, m);
    hide UpName, Addrs, NamesAlike, Slots;
  }

  ghost predicate PathsAlike(upcase: seq<u16>, p: seq<Name>, q: seq<Name>)
  {
    |p| == |q| && forall i :: 0 <= i < |p| ==> NamesAlike(upcase, p[i], q[i])
  }

  lemma {:induction false} ResolveFolds(v: Vol, cat: Cat, per: nat, upcase: seq<u16>, d: nat, p: seq<Name>, q: seq<Name>)
    requires PathsAlike(upcase, p, q)
    ensures Resolve(v, cat, per, upcase, d, p) == Resolve(v, cat, per, upcase, d, q)
    decreases |p|
  {
    hide Find, NamesAlike;
    if p != [] {
      FindFolds(v, cat, per, upcase, d, p[0], q[0]);
      var r := Find(v, cat, per, upcase, d, p[0]);
      if r.Some? {
        ResolveFolds(v, cat, per, upcase, r.value, p[1..], q[1..]);
      }
    }
  }

  lemma NamedFolds(v: Vol, cat: Cat, per: nat, upcase: seq<u16>, p: seq<Name>, q: seq<Name>)
    requires PathsAlike(upcase, p, q)
    ensures ParentOf(v, cat, per, upcase, p) == ParentOf(v, cat, per, upcase, q)
    ensures Named(v, cat, per, upcase, p) == Named(v, cat, per, upcase, q)
  {
    hide Find, NamesAlike, Resolve;
    if p != [] {
      var n := |p| - 1;
      ResolveFolds(v, cat, per, upcase, ROOT, p[..n], q[..n]);
      var d := ParentOf(v, cat, per, upcase, p);
      if d.Ok? {
        FindFolds(v, cat, per, upcase, d.value, p[n], q[n]);
      }
    }
  }

  /** A name is taken however it is written. */
  lemma TakenFolds(v: Vol, cat: Cat, per: nat, upcase: seq<u16>, d: nat, n: Name, m: Name)
    requires NamesAlike(upcase, n, m)
    ensures Taken(v, cat, per, upcase, d, n) <==> Taken(v, cat, per, upcase, d, m)
  {
    FoldsAlike(upcase, n, m);
    hide UpName, NamesAlike, Visible;
    forall k | k in cat.nodes
      ensures Answers(v, cat, per, upcase, d, n, k) <==> Answers(v, cat, per, upcase, d, m, k)
    {
      FoldsAlike(upcase, cat.nodes[k].facts.name, n);
      FoldsAlike(upcase, cat.nodes[k].facts.name, m);
    }
  }
}
