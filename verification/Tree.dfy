/** The node table: parent pointers with a materialised path and depth beside them, and the
    whole-subtree updates of internal/data/node.go as functions on the table. */
module Tree {
  import opened Ids
  import opened Paths

  datatype Kind = Folder | File

  datatype Status = Active | Trashed

  datatype Row = Row(
    parent: Uuid,
    name: string,
    nameLower: string,
    kind: Kind,
    owner: Uuid,
    size: int,
    key: string,
    status: Status,
    path: string,
    depth: int,
    originalParent: Uuid,
    trashedAt: Option<int>,
    versionCount: int)

  type Table = map<Uuid, Row>

  /** Where children of `folder` are put; an identifier that names no row is the virtual root. */
  function PathOf(t: Table, folder: Uuid): string {
    if folder in t then t[folder].path else "/"
  }

  function DepthOf(t: Table, folder: Uuid): int {
    if folder in t then t[folder].depth else -1
  }

  predicate IsParent(t: Table, p: Uuid) {
    p == NIL || (p in t && t[p].kind.Folder?)
  }

  /** The index columns of one row agree with its parent's. */
  predicate Placed(t: Table, id: Uuid)
    requires id in t
  {
    && IsParent(t, t[id].parent)
    && t[id].path == ChildPath(PathOf(t, t[id].parent), id)
    && t[id].depth == DepthOf(t, t[id].parent) + 1
  }

  ghost predicate Indexed(t: Table) {
    NIL !in t && forall id {:trigger Placed(t, id)} | id in t :: Placed(t, id)
  }

  /** The prefix scan of nodePredicates: is `x` in the listing for the path of `a`? */
  predicate Under(t: Table, a: Uuid, x: Uuid)
    requires a in t && x in t
  {
    t[a].path <= t[x].path
  }

  function Subtree(t: Table, a: Uuid): set<Uuid>
    requires a in t
  {
    set x | x in t && Under(t, a, x)
  }

  lemma PathsAreClosed(t: Table, folder: Uuid)
    requires Indexed(t)
    ensures Closed(PathOf(t, folder))
  {
    assert folder in t ==> Placed(t, folder);
  }

  /** The heart of every subtree argument: a prefix scan contains a row exactly when the row is
      the scanned node itself or its parent is in the scan. */
  lemma UnderStep(t: Table, a: Uuid, x: Uuid)
    requires Indexed(t) && a in t && x in t
    ensures Under(t, a, x) <==> x == a || (t[x].parent in t && Under(t, a, t[x].parent))
    ensures t[x].parent in t ==> |t[t[x].parent].path| < |t[x].path|
  {
    assert Placed(t, a) && Placed(t, x);
    PathsAreClosed(t, t[a].parent);
    PathsAreClosed(t, t[x].parent);
    PrefixOfChild(t[a].path, PathOf(t, t[x].parent), x);
    if t[a].path == t[x].path {
      ChildPathInjective(PathOf(t, t[a].parent), a, PathOf(t, t[x].parent), x);
    }
  }

  // ---- The updates ----------------------------------------------------------------------

  /** RelocateSubtree: the node gets its new parent, path and depth; every other row below the
      old path has that prefix replaced and its depth shifted. */
  function Relocated(t: Table, id: Uuid, newParent: Uuid, newPath: string, delta: int): Table
    requires id in t
  {
    map x | x in t :: RelocatedRow(t, id, newParent, newPath, delta, x)
  }

  function RelocatedRow(t: Table, id: Uuid, newParent: Uuid, newPath: string, delta: int, x: Uuid): Row
    requires id in t && x in t
  {
    if x == id then t[x].(parent := newParent, path := newPath, depth := t[x].depth + delta)
    else if Under(t, id, x) then
      t[x].(path := newPath + t[x].path[|t[id].path|..], depth := t[x].depth + delta)
    else t[x]
  }

  /** A move of `id` under `target`, with the path and depth the callers compute. */
  function Moved(t: Table, id: Uuid, target: Uuid): Table
    requires id in t
  {
    Relocated(t, id, target, ChildPath(PathOf(t, target), id), DepthOf(t, target) + 1 - t[id].depth)
  }

  /** SetSubtreeStatus with the trashed status. */
  function Discarded(t: Table, id: Uuid, at: int): Table
    requires id in t
  {
    map x | x in t ::
      if Under(t, id, x) then
        t[x].(status := Trashed, trashedAt := Some(at), originalParent := t[id].parent)
      else t[x]
  }

  /** SetSubtreeStatus with the active status. */
  function Revived(t: Table, id: Uuid): Table
    requires id in t
  {
    map x | x in t ::
      if Under(t, id, x) then t[x].(status := Active, trashedAt := None, originalParent := NIL)
      else t[x]
  }

  function Renamed(t: Table, id: Uuid, name: string, lowered: string): Table
    requires id in t
  {
    t[id := t[id].(name := name, nameLower := lowered)]
  }

  // ---- The index is kept ------------------------------------------------------------------

  lemma CreatedKeepsIndex(t: Table, id: Uuid, r: Row)
    requires Indexed(t) && id !in t && id != NIL && IsParent(t, r.parent)
    requires r.path == ChildPath(PathOf(t, r.parent), id) && r.depth == DepthOf(t, r.parent) + 1
    ensures Indexed(t[id := r])
  {
    var t' := t[id := r];
    forall x | x in t' ensures Placed(t', x) {
      if x != id { assert Placed(t, x); }
    }
  }

  /** Moving keeps the index exactly when the target is not inside the moved subtree, which is
      what the prefix test of relocate asks. */
  lemma MoveKeepsIndexIff(t: Table, id: Uuid, target: Uuid)
    requires Indexed(t) && id in t && IsParent(t, target)
    ensures Indexed(Moved(t, id, target)) <==> !(t[id].path <= PathOf(t, target))
  {
    var t' := Moved(t, id, target);
    if t[id].path <= PathOf(t, target) {
      assert Placed(t, id);
      assert target in t;
      assert t'[id].path == ChildPath(t[target].path, id);
      if target == id {
        assert !Placed(t', id);
      } else {
        var rest := t[target].path[|t[id].path|..];
        assert t'[target].path == t'[id].path + rest;
        assert |t'[target].path| > |t[target].path|;
        assert !Placed(t', id);
      }
    } else {
      forall x | x in t' ensures Placed(t', x) {
        MovedPlaced(t, id, target, x);
      }
    }
  }

  lemma MovedPlaced(t: Table, id: Uuid, target: Uuid, x: Uuid)
    requires Indexed(t) && id in t && IsParent(t, target) && x in t
    requires !(t[id].path <= PathOf(t, target))
    ensures Placed(Moved(t, id, target), x)
  {
    UnderStep(t, id, x);
    if x == id {
      var t' := Moved(t, id, target);
      assert PathOf(t', target) == PathOf(t, target);
    } else if Under(t, id, x) {
      MovedPlacedBelow(t, id, target, x);
    } else {
      MovedPlacedOutside(t, id, target, x);
    }
  }

  lemma MovedPlacedBelow(t: Table, id: Uuid, target: Uuid, x: Uuid)
    requires Indexed(t) && id in t && IsParent(t, target) && x in t
    requires x != id && Under(t, id, x) && t[x].parent in t && Under(t, id, t[x].parent)
    ensures Placed(Moved(t, id, target), x)
  {
    var t', p := Moved(t, id, target), t[x].parent;
    assert Placed(t, x) && Placed(t, id);
    PathsAreClosed(t, target);
    PathsAreClosed(t, id);
    PathsAreClosed(t, p);
    RewrittenChildPath(t[id].path, t'[id].path, t[p].path, x);
    assert t'[p].path == t'[id].path + t[p].path[|t[id].path|..];
  }

  lemma MovedPlacedOutside(t: Table, id: Uuid, target: Uuid, x: Uuid)
    requires Indexed(t) && id in t && IsParent(t, target) && x in t
    requires x != id && !Under(t, id, x) && (t[x].parent in t ==> !Under(t, id, t[x].parent))
    ensures Placed(Moved(t, id, target), x)
  {
    var t', p := Moved(t, id, target), t[x].parent;
    assert Placed(t, x);
    assert t'[x] == t[x];
    assert p in t ==> t'[p] == t[p];
  }

  /** The depth limit is checked for the moved node only: a move keeps every row within it exactly when
      the deepest row of the subtree still fits below the target. */
  lemma MoveKeepsDepthLimitIff(t: Table, id: Uuid, target: Uuid, maxDepth: int)
    requires Indexed(t) && id in t && forall x | x in t :: t[x].depth < maxDepth
    ensures (forall x | x in t :: Moved(t, id, target)[x].depth < maxDepth) <==>
            (forall x | x in Subtree(t, id) :: DepthOf(t, target) + 1 + (t[x].depth - t[id].depth) < maxDepth)
  {
    UnderStep(t, id, id);
    assert forall x | x in t ::
        Moved(t, id, target)[x].depth == if x in Subtree(t, id)
            then DepthOf(t, target) + 1 + (t[x].depth - t[id].depth) else t[x].depth;
  }

  /** A write that touches neither the parent, the kind nor the index columns. */
  lemma SameShapeKeepsIndex(t: Table, t': Table)
    requires Indexed(t) && t'.Keys == t.Keys
    requires forall x | x in t :: t'[x].parent == t[x].parent && t'[x].kind == t[x].kind
                                  && t'[x].path == t[x].path && t'[x].depth == t[x].depth
    ensures Indexed(t')
  {
    forall x | x in t' ensures Placed(t', x) { assert Placed(t, x); }
  }

  /** No remaining row has its parent among the removed ones. */
  ghost predicate LeavesNoOrphan(t: Table, s: set<Uuid>) {
    forall x | x in t && x !in s :: t[x].parent !in s
  }

  /** Deleting rows leaves a right index exactly when no row is left without its parent. */
  lemma RemovalKeepsIndexIff(t: Table, s: set<Uuid>)
    requires Indexed(t) && s <= t.Keys
    ensures Indexed(t - s) <==> LeavesNoOrphan(t, s)
  {
    var t' := t - s;
    if LeavesNoOrphan(t, s) {
      forall x | x in t' ensures Placed(t', x) { assert Placed(t, x); }
    } else {
      var x :| x in t && x !in s && t[x].parent in s;
      assert !Placed(t', x);
    }
  }

  lemma SubtreeLeavesNone(t: Table, id: Uuid)
    requires Indexed(t) && id in t
    ensures LeavesNoOrphan(t, Subtree(t, id))
  {
    forall x | x in t && x !in Subtree(t, id) ensures t[x].parent !in Subtree(t, id) { UnderStep(t, id, x); }
  }
}
