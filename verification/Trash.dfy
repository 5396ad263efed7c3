/** The trash: subtree status flips, the recorded original parent, and the invariant that ties
    them to the tree. */
module Trash {
  import opened Ids
  import opened Paths
  import opened Tree
  import opened Ancestry

  predicate Live(t: Table, id: Uuid) {
    id in t && t[id].status.Active?
  }

  /** Where the subtree update of the trash writes the original parent from: the parent of the
      topmost trashed node, handed down row by row. */
  predicate OriginRight(t: Table, x: Uuid)
    requires x in t
  {
    var r := t[x];
    r.originalParent ==
    if r.status.Active? then NIL
    else if r.parent in t && t[r.parent].status.Trashed? then t[r.parent].originalParent
    else r.parent
  }

  /** An active node never sits under a trashed one. */
  predicate Sheltered(t: Table, x: Uuid)
    requires x in t
  {
    t[x].status.Active? ==> t[x].parent == NIL || Live(t, t[x].parent)
  }

  /** Kept by every operation on every node. */
  ghost predicate Sound(t: Table) {
    Indexed(t) && forall x {:trigger Sheltered(t, x)} | x in t :: Sheltered(t, x)
  }

  /** Kept as long as moves and deletes are applied to active nodes; see DiscardKeepsIff and
      MoveKeepsIff for the exact conditions. */
  ghost predicate Inv(t: Table) {
    Sound(t) && forall x {:trigger OriginRight(t, x)} | x in t :: OriginRight(t, x)
  }

  /** The row is the top of a trashed subtree, told from parent pointers and states only. */
  predicate TrashTop(t: Table, x: Uuid) {
    x in t && t[x].status.Trashed? && (t[x].parent == NIL || Live(t, t[x].parent))
  }

  // ---- What the invariant means -----------------------------------------------------------

  lemma {:induction false} TrashedSubtree(t: Table, a: Uuid, x: Uuid)
    requires Sound(t) && a in t && x in t && Under(t, a, x) && t[a].status.Trashed?
    ensures t[x].status.Trashed?
    decreases |t[x].path|
  {
    UnderStep(t, a, x);
    if x != a {
      TrashedSubtree(t, a, t[x].parent);
      assert Sheltered(t, x);
    }
  }

  /** A trashed node's original parent is the parent of the topmost trashed node above or at it:
      on the parent chain, everything before some position is active, everything from it on is
      trashed, and the recorded id is the parent at that position. */
  lemma {:induction false} OriginIsParentOfTop(t: Table, c: seq<Uuid>) returns (top: nat)
    requires Inv(t) && IsChain(t, c) && t[Last(c)].status.Trashed?
    ensures top < |c| && t[Last(c)].originalParent == t[c[top]].parent
    ensures forall i | 0 <= i < top :: t[c[i]].status.Active?
    ensures forall i | top <= i < |c| :: t[c[i]].status.Trashed?
  {
    var x := Last(c);
    assert t[x].parent == Above(c, |c| - 1);
    assert OriginRight(t, x) && Placed(t, x);
    if |c| > 1 {
      var front := c[..|c| - 1];
      ChainPrefix(t, c, |c| - 1);
      if t[Last(front)].status.Trashed? {
        top := OriginIsParentOfTop(t, front);
        assert forall i | 0 <= i < |front| :: front[i] == c[i];
      } else {
        top := |c| - 1;
        LiveChain(t, front);
        assert forall i | 0 <= i < |front| :: front[i] == c[i];
      }
    } else {
      top := 0;
    }
  }

  lemma {:induction false} LiveChain(t: Table, c: seq<Uuid>)
    requires Sound(t) && IsChain(t, c) && t[Last(c)].status.Active?
    ensures forall i | 0 <= i < |c| :: t[c[i]].status.Active?
  {
    var x := Last(c);
    assert t[x].parent == Above(c, |c| - 1);
    assert Sheltered(t, x);
    if |c| > 1 {
      ChainPrefix(t, c, |c| - 1);
      LiveChain(t, c[..|c| - 1]);
      assert forall i | 0 <= i < |c| - 1 :: c[i] == c[..|c| - 1][i];
    }
  }

  /** Restoring without a target never meets a missing, trashed or non-folder parent. */
  lemma {:induction false} OriginIsLiveFolder(t: Table, x: Uuid)
    requires Inv(t) && x in t && t[x].status.Trashed?
    ensures t[x].originalParent == NIL
            || (Live(t, t[x].originalParent) && t[t[x].originalParent].kind.Folder?)
    decreases |t[x].path|
  {
    assert OriginRight(t, x) && Placed(t, x);
    UnderStep(t, x, x);
    if t[x].parent in t && t[t[x].parent].status.Trashed? {
      OriginIsLiveFolder(t, t[x].parent);
    }
  }

  /** The TrashRoots column comparison selects exactly the tops of trashed subtrees. */
  lemma TrashRootsAreTops(t: Table, x: Uuid)
    requires Inv(t) && x in t && t[x].status.Trashed?
    ensures t[x].parent == t[x].originalParent <==> TrashTop(t, x)
  {
    assert OriginRight(t, x) && Placed(t, x);
    if t[x].parent in t && t[t[x].parent].status.Trashed? {
      OriginIsLiveFolder(t, t[x].parent);
    }
  }

  /** Two tops are never nested, so purging one leaves the other's rows alone. */
  lemma TopsAreNotNested(t: Table, a: Uuid, b: Uuid)
    requires Inv(t) && TrashTop(t, a) && TrashTop(t, b) && a != b
    ensures !Under(t, a, b)
  {
    UnderStep(t, a, b);
    if Under(t, a, b) {
      TrashedSubtree(t, a, t[b].parent);
      assert false;
    }
  }

  // ---- What every operation keeps ---------------------------------------------------------

  lemma CreatedKeeps(t: Table, id: Uuid, r: Row)
    requires Sound(t) && id !in t && id != NIL && IsParent(t, r.parent) && (r.parent == NIL || Live(t, r.parent))
    requires r.path == ChildPath(PathOf(t, r.parent), id) && r.depth == DepthOf(t, r.parent) + 1
    requires r.status.Active? && r.originalParent == NIL
    ensures Sound(t[id := r])
    ensures Inv(t) ==> Inv(t[id := r])
  {
    CreatedKeepsIndex(t, id, r);
    var t' := t[id := r];
    forall x | x in t' ensures Sheltered(t', x) && (Inv(t) ==> OriginRight(t', x)) {
      if x != id {
        assert Sheltered(t, x) && Placed(t, x) && (Inv(t) ==> OriginRight(t, x));
      }
    }
  }

  /** A write that leaves the tree columns and the trash columns alone. */
  lemma SameShapeKeeps(t: Table, t': Table)
    requires Sound(t) && t'.Keys == t.Keys
    requires forall x | x in t :: t'[x].parent == t[x].parent && t'[x].kind == t[x].kind
                                  && t'[x].path == t[x].path && t'[x].depth == t[x].depth
                                  && t'[x].status == t[x].status && t'[x].originalParent == t[x].originalParent
    ensures Sound(t')
    ensures Inv(t) ==> Inv(t')
  {
    SameShapeKeepsIndex(t, t');
    forall x | x in t' ensures Sheltered(t', x) && (Inv(t) ==> OriginRight(t', x)) {
      assert Sheltered(t, x) && (Inv(t) ==> OriginRight(t, x));
    }
  }

  lemma DiscardKeeps(t: Table, id: Uuid, at: int)
    requires Sound(t) && id in t
    ensures Sound(Discarded(t, id, at))
  {
    var t' := Discarded(t, id, at);
    SameShapeKeepsIndex(t, t');
    forall x | x in t' ensures Sheltered(t', x) {
      UnderStep(t, id, x);
      assert Sheltered(t, x) && Placed(t, x);
    }
  }

  /** Trashing keeps the invariant exactly when the node is not already inside a trashed folder;
      in particular for every active node. */
  lemma DiscardKeepsIff(t: Table, id: Uuid, at: int)
    requires Inv(t) && id in t
    ensures Inv(Discarded(t, id, at)) <==> t[id].parent == NIL || Live(t, t[id].parent)
  {
    var t' := Discarded(t, id, at);
    var p := t[id].parent;
    assert Placed(t, id);
    UnderStep(t, id, id);
    DiscardKeeps(t, id, at);
    assert !(p in t && Under(t, id, p));
    if p == NIL || Live(t, p) {
      forall x | x in t' ensures OriginRight(t', x) {
        UnderStep(t, id, x);
        assert Sheltered(t, x) && OriginRight(t, x) && Placed(t, x);
      }
    } else {
      OriginIsLiveFolder(t, p);
      assert t'[p] == t[p];
      assert !OriginRight(t', id);
    }
  }

  lemma MoveKeeps(t: Table, id: Uuid, target: Uuid)
    requires Sound(t) && id in t && IsParent(t, target) && (target == NIL || Live(t, target))
    requires !(t[id].path <= PathOf(t, target))
    ensures Sound(Moved(t, id, target))
  {
    var t' := Moved(t, id, target);
    MoveKeepsIndexIff(t, id, target);
    forall x | x in t' ensures Sheltered(t', x) {
      assert Sheltered(t, x) && Placed(t, x);
    }
  }

  /** Moving keeps the invariant exactly when the node is active or goes back to the folder it was
      deleted from. */
  lemma MoveKeepsIff(t: Table, id: Uuid, target: Uuid)
    requires Inv(t) && id in t && IsParent(t, target) && (target == NIL || Live(t, target))
    requires !(t[id].path <= PathOf(t, target))
    ensures Inv(Moved(t, id, target)) <==> t[id].status.Active? || target == t[id].originalParent
  {
    var t' := Moved(t, id, target);
    MoveKeeps(t, id, target);
    assert t'[id].parent == target && t'[id].status == t[id].status;
    assert target in t ==> t'[target].status == t[target].status;
    if t[id].status.Active? || target == t[id].originalParent {
      forall x | x in t' ensures OriginRight(t', x) {
        assert Sheltered(t, x) && OriginRight(t, x) && Placed(t, x);
      }
    } else {
      assert !OriginRight(t', id);
    }
  }

  /** A restore: relocate under the target, then flip the subtree at its new path. */
  function Restored(t: Table, id: Uuid, target: Uuid): Table
    requires id in t
  {
    Revived(Moved(t, id, target), id)
  }

  /** RestoreNodes runs no cycle test and needs none: an active target is never inside a trashed
      subtree. */
  lemma RestoreCannotCycle(t: Table, id: Uuid, target: Uuid)
    requires Sound(t) && id in t && t[id].status.Trashed? && (target == NIL || Live(t, target))
    ensures !(t[id].path <= PathOf(t, target))
  {
    assert Placed(t, id);
    PathsAreClosed(t, t[id].parent);
    if target in t && t[id].path <= t[target].path {
      TrashedSubtree(t, id, target);
      assert false;
    }
  }

  lemma UnderMoved(t: Table, id: Uuid, target: Uuid, x: Uuid)
    requires Indexed(t) && id in t && x in t && IsParent(t, target)
    requires !(t[id].path <= PathOf(t, target))
    ensures Under(Moved(t, id, target), id, x) <==> Under(t, id, x)
    decreases |t[x].path|
  {
    var t' := Moved(t, id, target);
    MoveKeepsIndexIff(t, id, target);
    UnderStep(t, id, x);
    UnderStep(t', id, x);
    if x != id && t[x].parent in t {
      UnderMoved(t, id, target, t[x].parent);
    }
  }

  lemma RestoreKeeps(t: Table, id: Uuid, target: Uuid)
    requires Sound(t) && id in t && t[id].status.Trashed?
    requires IsParent(t, target) && (target == NIL || Live(t, target))
    ensures Sound(Restored(t, id, target))
    ensures Inv(t) ==> Inv(Restored(t, id, target))
    ensures forall x | x in t ::
      Live(Restored(t, id, target), x) <==> Live(t, x) || Under(t, id, x)
  {
    RestoreCannotCycle(t, id, target);
    MoveKeepsIndexIff(t, id, target);
    var t1 := Moved(t, id, target);
    var t2 := Revived(t1, id);
    SameShapeKeepsIndex(t1, t2);
    forall x | x in t
      ensures Live(t2, x) <==> Live(t, x) || Under(t, id, x)
      ensures Sheltered(t2, x) && (Inv(t) ==> OriginRight(t2, x))
    {
      RestoredRow(t, id, target, x);
    }
  }

  lemma RestoredRow(t: Table, id: Uuid, target: Uuid, x: Uuid)
    requires Sound(t) && id in t && t[id].status.Trashed? && x in t
    requires IsParent(t, target) && (target == NIL || Live(t, target))
    requires !(t[id].path <= PathOf(t, target))
    ensures Live(Restored(t, id, target), x) <==> Live(t, x) || Under(t, id, x)
    ensures Sheltered(Restored(t, id, target), x)
    ensures Inv(t) ==> OriginRight(Restored(t, id, target), x)
  {
    var p := t[x].parent;
    assert Sheltered(t, x) && Placed(t, x) && (Inv(t) ==> OriginRight(t, x));
    UnderStep(t, id, x);
    UnderMoved(t, id, target, x);
    if p in t { UnderMoved(t, id, target, p); }
    if target in t { UnderMoved(t, id, target, target); }
  }

  /** Removing rows leaves a sound table exactly when no row is left without its parent; recorded parents
      then stay right too. */
  lemma RemovalKeepsIff(t: Table, s: set<Uuid>)
    requires Sound(t) && s <= t.Keys
    ensures Sound(t - s) <==> LeavesNoOrphan(t, s)
    ensures Inv(t) ==> (Inv(t - s) <==> LeavesNoOrphan(t, s))
  {
    var t' := t - s;
    RemovalKeepsIndexIff(t, s);
    if LeavesNoOrphan(t, s) {
      forall x | x in t' ensures Sheltered(t', x) && (Inv(t) ==> OriginRight(t', x)) {
        assert Placed(t, x) && Sheltered(t, x) && (Inv(t) ==> OriginRight(t, x));
      }
    }
  }

  lemma PurgeKeeps(t: Table, id: Uuid)
    requires Sound(t) && id in t
    ensures Sound(t - Subtree(t, id))
    ensures Inv(t) ==> Inv(t - Subtree(t, id))
  {
    SubtreeLeavesNone(t, id);
    RemovalKeepsIff(t, Subtree(t, id));
  }
}
