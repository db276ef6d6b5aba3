/** The directory tree: every node leads up to the root. */
module Trees {
  import opened Catalogues
  import opened Creations
  import opened EntrySets
  import opened Geometries
  import opened Outcomes
  import Placements
  import opened Removals
  import opened Renames
  import opened Volumes

  /** The `n`-th directory above `k`; the root, and what is no node, stays where it is. */
  ghost function Up(cat: Cat, k: nat, n: nat): nat
    decreases n
  {
    if n == 0 || k !in cat.nodes then k else Up(cat, cat.nodes[k].parent, n - 1)
  }

  /** Every node leads up to the root. */
  ghost predicate Rooted(cat: Cat)
  {
    forall k {:trigger k in cat.nodes} :: k in cat.nodes ==> exists n: nat :: Up(cat, k, n) == ROOT
  }

  /** `k` is `top` or lies under it. */
  ghost predicate Under(cat: Cat, k: nat, top: nat)
  {
    exists n: nat :: Up(cat, k, n) == top
  }

  lemma {:induction false} UpTwice(cat: Cat, k: nat, m: nat, n: nat)
    ensures Up(cat, Up(cat, k, m), n) == Up(cat, k, m + n)
    decreases m
  {
    if m > 0 && k in cat.nodes {
      UpTwice(cat, cat.nodes[k].parent, m - 1, n);
    } else if m > 0 {
      OutsideStays(cat, k, m + n);
      OutsideStays(cat, k, n);
    }
  }

  lemma OutsideStays(cat: Cat, k: nat, n: nat)
    requires k !in cat.nodes
    ensures Up(cat, k, n) == k
  {
  }

  /** Parents of all nodes but `id` are the same. */
  ghost predicate SameParents(cat0: Cat, cat: Cat, id: nat)
  {
    cat.nodes.Keys == cat0.nodes.Keys && forall k :: k in cat0.nodes && k != id ==> cat.nodes[k].parent == cat0.nodes[k].parent
  }

  /** A way up that does not pass `id` is still there. */
  lemma {:induction false} UpAvoiding(cat0: Cat, cat: Cat, id: nat, k: nat, n: nat)
    requires SameParents(cat0, cat, id) && forall j: nat :: j < n ==> Up(cat0, k, j) != id
    ensures Up(cat, k, n) == Up(cat0, k, n)
    decreases n
  {
    if n > 0 && k in cat0.nodes {
      assert Up(cat0, k, 0) != id;
      forall j: nat | j < n - 1
        ensures Up(cat0, cat0.nodes[k].parent, j) != id
      {
        assert Up(cat0, k, j + 1) == Up(cat0, cat0.nodes[k].parent, j);
      }
      UpAvoiding(cat0, cat, id, cat0.nodes[k].parent, n - 1);
    }
  }

  /** A node that led to the root before still does, through `id` if it must. */
  lemma {:induction false} StillUp(cat0: Cat, cat: Cat, id: nat, k: nat, n: nat)
    requires SameParents(cat0, cat, id) && Up(cat0, k, n) == ROOT && Under(cat, id, ROOT)
    ensures Under(cat, k, ROOT)
    decreases n
  {
    if k == id {
    } else if n == 0 || k !in cat0.nodes {
      assert Up(cat, k, 0) == k == ROOT;
    } else {
      StillUp(cat0, cat, id, cat0.nodes[k].parent, n - 1);
      var m: nat :| Up(cat, cat0.nodes[k].parent, m) == ROOT;
      assert Up(cat, k, m + 1) == Up(cat, cat.nodes[k].parent, m);
    }
  }

  /** The first step at which the way up from `k` meets `top`. */
  lemma {:induction false} FirstMeeting(cat: Cat, k: nat, top: nat, n: nat) returns (m: nat)
    requires Up(cat, k, n) == top
    ensures m <= n && Up(cat, k, m) == top && forall j: nat :: j < m ==> Up(cat, k, j) != top
    decreases n
  {
    if k == top || n == 0 {
      m := 0;
    } else {
      m := FirstMeeting(cat, cat.nodes[k].parent, top, n - 1);
      forall j: nat | j < m + 1
        ensures Up(cat, k, j) != top
      {
        if j > 0 {
          assert Up(cat, k, j) == Up(cat, cat.nodes[k].parent, j - 1);
        }
      }
      m := m + 1;
    }
  }

  /** Going up a cycle never leaves it. */
  lemma {:induction false} Cycles(cat: Cat, k: nat, period: nat, n: nat) returns (j: nat)
    requires period > 0 && Up(cat, k, period) == k
    ensures j < period && Up(cat, k, n) == Up(cat, k, j)
    decreases n
  {
    if n < period {
      j := n;
    } else {
      UpTwice(cat, k, period, n - period);
      j := Cycles(cat, k, period, n - period);
    }
  }

  /** Moving node `id` into directory `d` keeps every node under the root if and only if `d` does not lie under
      `id`. */
  lemma MoveKeepsTree(cat0: Cat, cat: Cat, id: nat, d: nat)
    requires Rooted(cat0) && SameParents(cat0, cat, id) && id in cat0.nodes && cat.nodes[id].parent == d
    requires d == ROOT || d in cat0.nodes
    requires ROOT !in cat0.nodes
    ensures Rooted(cat) <==> !Under(cat0, d, id)
  {
    if !Under(cat0, d, id) {
      OutsideMove(cat0, cat, id, d);
    } else {
      var n: nat :| Up(cat0, d, n) == id;
      var m := FirstMeeting(cat0, d, id, n);
      UpAvoiding(cat0, cat, id, d, m);
      assert Up(cat, id, m + 1) == Up(cat, d, m) == id;
      CycleHasNoRoot(cat0, cat, id, d, m);
    }
  }

  lemma OutsideMove(cat0: Cat, cat: Cat, id: nat, d: nat)
    requires Rooted(cat0) && SameParents(cat0, cat, id) && id in cat0.nodes && cat.nodes[id].parent == d
    requires d == ROOT || d in cat0.nodes
    requires !Under(cat0, d, id)
    ensures Rooted(cat)
  {
    assert Up(cat0, ROOT, 0) == ROOT;
    var n: nat :| Up(cat0, d, n) == ROOT;
    UpAvoiding(cat0, cat, id, d, n);
    assert Up(cat, id, n + 1) == Up(cat, d, n);
    forall k | k in cat.nodes
      ensures exists n: nat :: Up(cat, k, n) == ROOT
    {
      var m: nat :| Up(cat0, k, m) == ROOT;
      StillUp(cat0, cat, id, k, m);
    }
  }

  lemma CycleHasNoRoot(cat0: Cat, cat: Cat, id: nat, d: nat, m: nat)
    requires SameParents(cat0, cat, id) && id in cat0.nodes && cat.nodes[id].parent == d && ROOT !in cat0.nodes
    requires Up(cat, id, m + 1) == id
    ensures !Rooted(cat)
  {
    if Rooted(cat) {
      var n: nat :| Up(cat, id, n) == ROOT;
      var j := Cycles(cat, id, m + 1, n);
      UpTwice(cat, id, j, m + 1 - j);
    }
  }

  // ---- The operations ------------------------------------------------------------------------------

  lemma MovedParents(v0: Vol, cat0: Cat, v: Vol, cat: Cat, d: nat, id: nat, name: Name)
    requires Moved(v0, cat0, v, cat, d, id, name)
    ensures SameParents(cat0, cat, id) && id in cat0.nodes && cat.nodes[id].parent == d
  {
    hide FileContent;
  }

  /** Renaming keeps a tree a tree if and only if it does not move a directory into itself or its own subtree. */
  lemma RenameKeepsTree(v0: Vol, cat0: Cat, v: Vol, cat: Cat, d: nat, id: nat, name: Name)
    requires Rooted(cat0) && ROOT !in cat0.nodes && cat0.IsDir(d) && Moved(v0, cat0, v, cat, d, id, name)
    ensures Rooted(cat) <==> !Under(cat0, d, id)
  {
    hide Moved;
    MovedParents(v0, cat0, v, cat, d, id, name);
    MoveKeepsTree(cat0, cat, id, d);
  }

  /** A new node hangs under the root like the directory it was made in. */
  lemma CreationKeepsTree(v0: Vol, cat0: Cat, v: Vol, cat: Cat, g: Geometry, d: nat, id: nat, name: Name, isDir: bool)
    requires Rooted(cat0) && ROOT !in cat0.nodes && cat0.IsDir(d) && Created(v0, cat0, v, cat, g, d, id, name, isDir)
    ensures Rooted(cat)
  {
    CreatedParents(v0, cat0, v, cat, g, d, id, name, isDir);
    hide Created;
    forall k | k in cat.nodes
      ensures exists n: nat :: Up(cat, k, n) == ROOT
    {
      if k != id {
        var n: nat :| Up(cat0, k, n) == ROOT;
        UpWithMore(cat0, cat, id, k, n);
      } else {
        assert Up(cat0, ROOT, 0) == ROOT;
        var n: nat :| Up(cat0, d, n) == ROOT;
        UpWithMore(cat0, cat, id, d, n);
        assert Up(cat, id, n + 1) == Up(cat, d, n);
      }
    }
  }

  lemma CreatedParents(v0: Vol, cat0: Cat, v: Vol, cat: Cat, g: Geometry, d: nat, id: nat, name: Name, isDir: bool)
    requires Created(v0, cat0, v, cat, g, d, id, name, isDir)
    ensures id !in cat0.nodes && id != ROOT && cat.nodes.Keys == cat0.nodes.Keys + {id} && cat.nodes[id].parent == d
    ensures forall k :: k in cat0.nodes ==> cat.nodes[k].parent == cat0.nodes[k].parent
  {
    hide FileContent, Placements.Blank, Geometry.ClusterBytes, Geometry.Per;
  }

  lemma {:induction false} UpWithMore(cat0: Cat, cat: Cat, id: nat, k: nat, n: nat)
    requires id !in cat0.nodes && id != ROOT && cat.nodes.Keys == cat0.nodes.Keys + {id}
    requires forall k :: k in cat0.nodes ==> cat.nodes[k].parent == cat0.nodes[k].parent
    requires Up(cat0, k, n) == ROOT
    ensures Up(cat, k, n) == ROOT
    decreases n
  {
    if n > 0 && k in cat0.nodes {
      UpWithMore(cat0, cat, id, cat0.nodes[k].parent, n - 1);
    } else if n > 0 {
      OutsideStays(cat0, k, n);
    }
  }

  /** Removing a node nothing lies in leaves the rest under the root. */
  lemma RemovalKeepsTree(cat0: Cat, id: nat)
    requires Rooted(cat0) && id in cat0.nodes && id != ROOT && Childless(cat0, id)
    ensures Rooted(Without(cat0, id))
  {
    WithoutParts(cat0, id);
    hide Without;
    var cat := Without(cat0, id);
    forall k | k in cat.nodes
      ensures exists n: nat :: Up(cat, k, n) == ROOT
    {
      var n: nat :| Up(cat0, k, n) == ROOT;
      UpWithout(cat0, cat, id, k, n);
    }
  }

  lemma {:induction false} UpWithout(cat0: Cat, cat: Cat, id: nat, k: nat, n: nat)
    requires cat.nodes == cat0.nodes - {id} && Childless(cat0, id) && k != id && id != ROOT
    requires Up(cat0, k, n) == ROOT
    ensures Up(cat, k, n) == ROOT
    decreases n
  {
    if n > 0 && k in cat0.nodes {
      UpWithout(cat0, cat, id, cat0.nodes[k].parent, n - 1);
    }
  }
}
