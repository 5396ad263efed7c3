/** The materialised index against the plain parent-pointer tree. */
module Ancestry {
  import opened Ids
  import opened Paths
  import opened Tree

  /** The element of a chain above position `i`; the virtual root above the first. */
  function Above(c: seq<Uuid>, i: int): Uuid
    requires 0 <= i < |c|
  {
    if i == 0 then NIL else c[i - 1]
  }

  /** `c` follows parent pointers from a root level node down to its last element. Only the
      parent column is read. */
  ghost predicate IsChain(t: Table, c: seq<Uuid>) {
    && c != []
    && (forall i | 0 <= i < |c| :: c[i] in t)
    && (forall i {:trigger Above(c, i)} | 0 <= i < |c| :: t[c[i]].parent == Above(c, i))
  }

  function Last(c: seq<Uuid>): Uuid
    requires c != []
  {
    c[|c| - 1]
  }

  /** What the path and depth columns of `id` are for: they spell a parent chain. */
  ghost predicate Spelled(t: Table, id: Uuid, c: seq<Uuid>)
    requires id in t
  {
    && IsChain(t, c) && Last(c) == id
    && t[id].path == Render(c) && t[id].depth == |c| - 1
    && forall i | 0 <= i < |c| - 1 :: t[c[i]].kind.Folder?
  }

  ghost predicate TreeShaped(t: Table) {
    NIL !in t && forall id | id in t :: exists c :: Spelled(t, id, c)
  }

  /** The ancestors-and-self of a row, from the root down. */
  ghost function Chain(t: Table, id: Uuid): (c: seq<Uuid>)
    requires Indexed(t) && id in t
    ensures Spelled(t, id, c)
    decreases |t[id].path|
  {
    UnderStep(t, id, id);
    assert Placed(t, id);
    if t[id].parent in t then
      var front := Chain(t, t[id].parent);
      assert forall i {:trigger Above(front + [id], i)} | 0 <= i < |front| ::
          Above(front, i) == Above(front + [id], i);
      front + [id]
    else
      [id]
  }

  lemma {:induction false} ChainPrefix(t: Table, c: seq<Uuid>, n: nat)
    requires IsChain(t, c) && 0 < n <= |c|
    ensures IsChain(t, c[..n])
  {
    forall i | 0 <= i < n
      ensures t[c[..n][i]].parent == Above(c[..n], i)
    {
      assert t[c[i]].parent == Above(c, i);
    }
  }

  /** A row has one parent chain only. */
  lemma {:induction false} ChainUnique(t: Table, c: seq<Uuid>, d: seq<Uuid>)
    requires NIL !in t && IsChain(t, c) && IsChain(t, d) && Last(c) == Last(d)
    ensures c == d
  {
    assert t[Last(c)].parent == Above(c, |c| - 1);
    assert t[Last(d)].parent == Above(d, |d| - 1);
    if |c| > 1 && |d| > 1 {
      ChainPrefix(t, c, |c| - 1);
      ChainPrefix(t, d, |d| - 1);
      ChainUnique(t, c[..|c| - 1], d[..|d| - 1]);
      assert c == c[..|c| - 1] + [Last(c)] && d == d[..|d| - 1] + [Last(d)];
    }
  }

  /** The row-local index invariant says exactly that every row sits at the end of a finite
      parent chain of folders that its path spells and its depth measures; so there is no
      cycle and no dangling parent. */
  lemma IndexedIffTreeShaped(t: Table)
    ensures Indexed(t) <==> TreeShaped(t)
  {
    if Indexed(t) {
      forall id | id in t ensures exists c :: Spelled(t, id, c) {
        assert Spelled(t, id, Chain(t, id));
      }
    }
    if TreeShaped(t) {
      forall id | id in t ensures Placed(t, id) {
        var c :| Spelled(t, id, c);
        var p := t[id].parent;
        assert t[Last(c)].parent == Above(c, |c| - 1);
        if |c| > 1 {
          assert p == c[|c| - 2] && p in t;
          var d :| Spelled(t, p, d);
          ChainPrefix(t, c, |c| - 1);
          ChainUnique(t, d, c[..|c| - 1]);
        }
        assert PathOf(t, p) == Render(c[..|c| - 1]);
      }
    }
  }

  /** A chain visits no row twice. */
  lemma ChainDistinct(t: Table, c: seq<Uuid>, i: int, j: int)
    requires NIL !in t && IsChain(t, c) && 0 <= i < j < |c|
    ensures c[i] != c[j]
  {
    ChainPrefix(t, c, i + 1);
    ChainPrefix(t, c, j + 1);
    if c[i] == c[j] {
      ChainUnique(t, c[..i + 1], c[..j + 1]);
      assert false;
    }
  }

  /** A row on a chain ends a chain that is a prefix of it. */
  lemma OnChainIff(t: Table, a: Uuid, ca: seq<Uuid>, c: seq<Uuid>)
    requires NIL !in t && IsChain(t, ca) && Last(ca) == a && IsChain(t, c)
    ensures a in c <==> ca <= c
  {
    if ca <= c {
      assert c[|ca| - 1] == a;
    }
    if i :| 0 <= i < |c| && c[i] == a {
      ChainPrefix(t, c, i + 1);
      ChainUnique(t, ca, c[..i + 1]);
    }
  }

  /** A prefix scan for the path of `a` lists `x` exactly when `a` is on the parent chain of `x`. */
  lemma PrefixScanIsSubtree(t: Table, a: Uuid, x: Uuid, c: seq<Uuid>)
    requires Indexed(t) && a in t && x in t && IsChain(t, c) && Last(c) == x
    ensures Under(t, a, x) <==> a in c
  {
    var ca := Chain(t, a);
    ChainUnique(t, c, Chain(t, x));
    PrefixIsAncestor(ca, c);
    OnChainIff(t, a, ca, c);
  }

  // ---- The bounded parent walk ------------------------------------------------------------

  /** The parent of the row at position `k` of its own chain. */
  lemma ParentOnChain(t: Table, c: seq<Uuid>, k: nat)
    requires NIL !in t && IsChain(t, c) && k < |c|
    ensures t[c[k]].parent == NIL <==> k == 0
    ensures k > 0 ==> t[c[k]].parent == c[k - 1]
  {
    assert t[c[k]].parent == Above(c, k);
  }

  lemma OneUp(c: seq<Uuid>, k: nat)
    requires 0 < k < |c|
    ensures c[k - 1..|c| - 1] == [c[k - 1]] + c[k..|c| - 1]
  {
  }

  /** The last `n` elements of a chain before its end, or all of them. */
  function Nearest(c: seq<Uuid>, n: nat): (r: seq<Uuid>)
    requires c != []
    ensures |c| - 1 <= n ==> r == c[..|c| - 1]
  {
    c[(if |c| - 1 <= n then 0 else |c| - 1 - n)..|c| - 1]
  }

  /** NodeUsecase.Chain: at most `maxDepth` parents are looked up, nearest first, and each is put
      in front of the list. So a node that is not deeper than that gets all its ancestors. */
  method WalkAncestors(t: Table, id: Uuid, maxDepth: nat) returns (ancestors: seq<Uuid>)
    requires Indexed(t) && id in t
    ensures ancestors == Nearest(Chain(t, id), maxDepth)
    ensures t[id].depth <= maxDepth ==> ancestors + [id] == Chain(t, id)
  {
    ghost var full := Chain(t, id);
    ancestors := WalkChain(t, id, maxDepth, full);
    assert full == full[..|full| - 1] + [id];
  }

  method WalkChain(t: Table, id: Uuid, maxDepth: nat, ghost full: seq<Uuid>) returns (ancestors: seq<Uuid>)
    requires NIL !in t && IsChain(t, full) && Last(full) == id
    ensures ancestors == Nearest(full, maxDepth)
  {
    ancestors := [];
    var cur := id;
    var i := 0;
    ParentOnChain(t, full, |full| - 1);
    while i < maxDepth && t[cur].parent != NIL
      invariant 0 <= i <= maxDepth && i < |full|
      invariant cur == full[|full| - 1 - i] && (t[cur].parent == NIL <==> |full| - 1 - i == 0)
      invariant ancestors == full[|full| - 1 - i..|full| - 1]
    {
      ParentOnChain(t, full, |full| - 1 - i);
      ParentOnChain(t, full, |full| - 2 - i);
      OneUp(full, |full| - 1 - i);
      var parent := t[cur].parent;
      ancestors := [parent] + ancestors;
      cur := parent;
      i := i + 1;
    }
  }
}
