/** The usecases that change the node table, as methods over the stored state. Access verdicts are
    a parameter: a gate answers for the current table, a node and the permission asked for. */
module Netdisk {
  import opened Ids
  import opened Paths
  import opened Tree
  import opened Trash
  import opened Names
  import opened Accounts
  import opened Versions
  import opened Database
  import opened Invariants
  import opened SiblingNames

  /** What a usecase asks of the caller for a node. A restore asks for ownership or the management of the trash, a
      purge for the latter. */
  datatype Want = ToView | ToDownload | ToUpload | ToEdit | ToDelete | ToRestore | ToPurge

  const ROOT_LIMIT := 10000
  const DEFAULT_DEPTH := 32

  type Gate = (Table, Uuid, Want) -> Option<Error>

  /** `after` is what a transaction made of these events leaves of `before`. */
  ghost predicate Committed(cfg: Config, before: Db, es: seq<Event>, after: Db) {
    exists dbs :: Run(cfg, es, dbs) && dbs[0] == before && dbs[|es|] == after
  }

  lemma CommitNothing(cfg: Config, db: Db)
    ensures Committed(cfg, db, [], db)
  {
    assert Run(cfg, [], [db]);
  }

  lemma CommitMore(cfg: Config, before: Db, es: seq<Event>, mid: Db, fs: seq<Event>, after: Db)
    requires Committed(cfg, before, es, mid) && Committed(cfg, mid, fs, after)
    ensures Committed(cfg, before, es + fs, after)
  {
    var a :| Run(cfg, es, a) && a[0] == before && a[|es|] == mid;
    var b :| Run(cfg, fs, b) && b[0] == mid && b[|fs|] == after;
    var dbs := a + b[1..];
    forall i | 0 <= i < |es + fs| ensures StepAt(cfg, es + fs, dbs, i) {
      if i < |es| {
        assert StepAt(cfg, es, a, i);
      } else {
        assert StepAt(cfg, fs, b, i - |es|);
        assert dbs[i] == b[i - |es|];
      }
    }
    assert Run(cfg, es + fs, dbs) && dbs[0] == before && dbs[|es + fs|] == after;
  }

  /** The state the last event of a run met. */
  lemma LastCommit(cfg: Config, before: Db, es: seq<Event>, after: Db) returns (mid: Db)
    requires Committed(cfg, before, es, after)
    ensures es == [] ==> after == before
    ensures es != [] ==> var n := |es| - 1;
                         Committed(cfg, before, es[..n], mid) && Allowed(cfg, mid, es[n])
                             && after == Apply(cfg, mid, es[n])
  {
    var dbs :| Run(cfg, es, dbs) && dbs[0] == before && dbs[|es|] == after;
    mid := before;
    if es != [] {
      var n := |es| - 1;
      mid := dbs[n];
      assert StepAt(cfg, es, dbs, n);
      var fs, ds := es[..n], dbs[..n + 1];
      forall i | 0 <= i < n ensures StepAt(cfg, fs, ds, i) {
        assert StepAt(cfg, es, dbs, i);
      }
      assert Run(cfg, fs, ds);
    }
  }

  lemma CommitOne(cfg: Config, db: Db, e: Event)
    requires Healthy(db) && Allowed(cfg, db, e)
    ensures Committed(cfg, db, [e], Apply(cfg, db, e))
    ensures NoOrphans(db, e) ==> Healthy(Apply(cfg, db, e))
    ensures RowsRight(cfg.fold, db.rows) ==> RowsRight(cfg.fold, Apply(cfg, db, e).rows)
  {
    if RowsRight(cfg.fold, db.rows) { ApplyKeepsRowsRight(cfg, db, e); }
    var dbs := [db, Apply(cfg, db, e)];
    assert StepAt(cfg, [e], dbs, 0);
    assert Run(cfg, [e], dbs);
    ApplyKeepsHealthy(cfg, db, e);
  }

  lemma CommittedStaysRight(cfg: Config, before: Db, es: seq<Event>, after: Db)
    requires Committed(cfg, before, es, after) && RowsRight(cfg.fold, before.rows)
    ensures RowsRight(cfg.fold, after.rows)
  {
    var dbs :| Run(cfg, es, dbs) && dbs[0] == before && dbs[|es|] == after;
    RunsStayRight(cfg, es, dbs, |es|);
  }

  lemma CommittedNamesApart(cfg: Config, before: Db, es: seq<Event>, after: Db)
    requires Committed(cfg, before, es, after) && RowsRight(cfg.fold, before.rows) && NIL !in before.rows
    requires forall i | 0 <= i < |es| :: !es[i].Restore?
    ensures forall x | Retitled(before.rows, after.rows, x) :: AloneInName(cfg.fold, after.rows, x)
  {
    var dbs :| Run(cfg, es, dbs) && dbs[0] == before && dbs[|es|] == after;
    RunsNameApart(cfg, es, dbs, |es|);
  }

  lemma CommittedRestoresApart(cfg: Config, before: Db, es: seq<Event>, after: Db)
    requires Committed(cfg, before, es, after) && Healthy(before) && RowsRight(cfg.fold, before.rows)
    requires forall i | 0 <= i < |es| :: es[i].Restore?
    ensures forall k | 0 <= k < |es| :: AloneInName(cfg.fold, after.rows, es[k].id)
  {
    var dbs :| Run(cfg, es, dbs) && dbs[0] == before && dbs[|es|] == after;
    RestoresNameApart(cfg, es, dbs, |es|);
  }

  /** Runs that neither delete, move nor purge keep recorded parents right. */
  lemma HarmlessRunsKeep(cfg: Config, before: Db, es: seq<Event>, after: Db)
    requires Committed(cfg, before, es, after) && Healthy(before) && Inv(before.rows)
    requires forall i | 0 <= i < |es| :: !es[i].Discard? && !es[i].Move? && !es[i].Purge?
    ensures Inv(after.rows)
  {
    var dbs :| Run(cfg, es, dbs) && dbs[0] == before && dbs[|es|] == after;
    RunsStayHealthy(cfg, es, dbs, |es|);
  }

  lemma FilesHaveNoDescendants(t: Table, id: Uuid, x: Uuid)
    requires Indexed(t) && id in t && x in t && t[id].kind.File? && Under(t, id, x)
    ensures x == id
    decreases |t[x].path|
  {
    UnderStep(t, id, x);
    assert Placed(t, x);
    if x != id {
      FilesHaveNoDescendants(t, id, t[x].parent);
      assert false;
    }
  }

  lemma MovedFacts(cfg: Config, t: Table, id: Uuid, target: Uuid, name: string)
    requires id in t
    ensures var t' := WithName(cfg, Moved(t, id, target), id, name);
            && t'.Keys == t.Keys && t'[id].parent == target && t'[id].name == name
            && forall x | x in t && x != id :: t'[x].parent == t[x].parent && t'[x].name == t[x].name
  {
  }

  lemma NoCycleThroughFiles(t: Table, id: Uuid, target: Uuid)
    requires Indexed(t) && id in t && target != id
    ensures t[id].path <= PathOf(t, target) ==> t[id].kind.Folder? && target in t
  {
    assert Placed(t, id);
    PathsAreClosed(t, t[id].parent);
    if target in t && t[id].kind.File? && Under(t, id, target) {
      FilesHaveNoDescendants(t, id, target);
    }
  }

  /** No quota stands in the way of `extra` more bytes. */
  predicate QuotaAllows(l: Ledger, owner: Uuid, extra: int) {
    extra > 0 && owner != NIL ==> owner in l && (l[owner].quota > 0 ==> l[owner].used + extra <= l[owner].quota)
  }

  class Netdisk {
    const cfg: Config
    var rows: Table
    var ledger: Ledger
    var history: History
    var queue: set<string>
    var minted: set<Uuid>

    ghost function State(): Db
      reads this
    {
      Db(rows, ledger, history, queue, minted)
    }

    ghost predicate Valid()
      reads this
    {
      Healthy(State()) && Numbered(history) && RowsRight(cfg.fold, rows)
    }

    /** A depth limit that is missing is thirty-two. */
    constructor (cfg: Config, ledger: Ledger)
      ensures Valid() && State() == EMPTY.(ledger := ledger)
      ensures this.cfg == cfg.(maxDepth := this.cfg.maxDepth)
      ensures this.cfg.maxDepth == if cfg.maxDepth > 0 then cfg.maxDepth else DEFAULT_DEPTH
    {
      this.cfg := if cfg.maxDepth <= 0 then cfg.(maxDepth := DEFAULT_DEPTH) else cfg;
      this.ledger := ledger;
      rows, history, queue, minted := map[], map[], {}, {};
    }

    // ---- The tree -------------------------------------------------------------------------

    /** loadWritableParent, less the row it returns. */
    method LoadWritableParent(gate: Gate, target: Uuid) returns (refusal: Option<Error>)
      ensures refusal.None? <==> Writable(rows, target) && (target != NIL ==> gate(rows, target, ToUpload) == None)
      ensures target !in rows && target != NIL ==> refusal == Some(NotFound)
      ensures target in rows && target != NIL && !Writable(rows, target) ==> refusal == Some(InvalidArgument)
      ensures Writable(rows, target) && target != NIL ==> refusal == gate(rows, target, ToUpload)
    {
      if target == NIL { return None; }
      if target !in rows { return Some(NotFound); }
      if !rows[target].kind.Folder? || rows[target].status.Trashed? { return Some(InvalidArgument); }
      refusal := gate(rows, target, ToUpload);
    }

    /** The caller may put something below `parent`, and it is not too deep. */
    static ghost predicate TakesChild(cfg: Config, gate: Gate, t: Table, parent: Uuid) {
      && Writable(t, parent) && (parent != NIL ==> gate(t, parent, ToUpload) == None)
      && DepthOf(t, parent) + 1 < cfg.maxDepth
    }

    /** Nothing refuses a new child of `parent`: it takes one and a name can be given. */
    static ghost predicate MayPlace(cfg: Config, gate: Gate, t: Table, parent: Uuid, name: string, policy: Policy,
                                    except: Uuid) {
      TakesChild(cfg, gate, t, parent) && Resolvable(t, cfg.fold, parent, name, policy, except)
    }

    method CreateFolder(gate: Gate, caller: Uuid, parent: Uuid, name: string, policy: Policy)
      returns (r: Result<Uuid>, ghost es: seq<Event>)
      requires Valid()
      modifies this`rows, this`ledger, this`minted
      ensures Valid()
      ensures r.Err? ==> State() == old(State())
      ensures r.Ok? <==> old(MayPlace(cfg, gate, rows, parent, name, policy, NIL) && caller in ledger)
      ensures r.Ok? ==>
                |es| == 1 && es[0].AddNode? && es[0].id == r.value && es[0].row.kind.Folder? && es[0].row.size == 0
                        && es[0].row.parent == parent && es[0].row.owner == caller
                        && IsResolved(old(rows), cfg.fold, parent, name, policy, NIL, es[0].row.name)
      ensures r.Ok? ==>
                r.value !in old(rows) && rows == old(rows)[r.value := es[0].row] && es[0].row.depth < cfg.maxDepth
                        && es[0].row.status.Active? && AloneInName(cfg.fold, rows, r.value)
      ensures r.Ok? ==> Committed(cfg, old(State()), es, State())
      ensures old(Inv(rows)) ==> Inv(rows)
    {
      es := [];
      var refusal := LoadWritableParent(gate, parent);
      if refusal.Some? { return Err(refusal.value), []; }
      var depth := DepthOf(rows, parent) + 1;
      if depth >= cfg.maxDepth { return Err(InvalidArgument), []; }
      var finalName := ResolveName(rows, cfg.fold, parent, name, policy, NIL);
      if finalName.Err? { return Err(finalName.error), []; }
      if caller !in ledger { return Err(NotFound), []; }
      var id := NewID(minted);
      var folder := Row(parent, finalName.value, Lower(cfg.fold, finalName.value), Folder, caller, 0, "", Active,
                        ChildPath(PathOf(rows, parent), id), depth, NIL, None, 0);
      ghost var before := State();
      es := [AddNode(id, folder)];
      rows := rows[id := folder];
      ledger := Charge(ledger, caller, 0, 0, 1);
      minted := minted + {id};
      CommitOne(cfg, before, AddNode(id, folder));
      NamedAlone(cfg, before, AddNode(id, folder));
      if Inv(before.rows) { HarmlessRunsKeep(cfg, before, es, State()); }
      r := Ok(id);
    }

    /** RelocateSubtree, row by row: first the node itself, then each row the prefix query finds. */
    method RelocateSubtree(id: Uuid, newParent: Uuid, newPath: string, delta: int)
      requires id in rows
      modifies this`rows
      ensures rows == Relocated(old(rows), id, newParent, newPath, delta)
    {
      ghost var t := rows;
      var oldPath := rows[id].path;
      rows := rows[id := rows[id].(parent := newParent, path := newPath, depth := rows[id].depth + delta)];
      var descendants: set<Uuid> := set x | x in rows && oldPath <= rows[x].path && x != id;
      var left := descendants;
      Descendants(t, id, newParent, newPath, delta, descendants);
      while left != {}
        invariant left <= descendants && rows == HalfRelocated(t, id, newParent, newPath, delta, left)
      {
        var child: Uuid :| child in left;
        OneMoreRelocated(t, id, newParent, newPath, delta, left, child);
        left := left - {child};
        var rest := rows[child].path[|oldPath|..];
        rows := rows[child := rows[child].(path := newPath + rest, depth := rows[child].depth + delta)];
      }
      assert rows == Relocated(t, id, newParent, newPath, delta);
    }

    /** The table when the rows in `left` are still to be rewritten. */
    static ghost function HalfRelocated(t: Table, id: Uuid, newParent: Uuid, newPath: string, delta: int,
                                        left: set<Uuid>): Table
      requires id in t
    {
      map x | x in t :: if x in left then t[x] else RelocatedRow(t, id, newParent, newPath, delta, x)
    }

    static lemma OneMoreRelocated(t: Table, id: Uuid, newParent: Uuid, newPath: string, delta: int, left: set<Uuid>,
                                  child: Uuid)
      requires id in t && child in left && child in t && child != id && Under(t, id, child)
      ensures HalfRelocated(t, id, newParent, newPath, delta, left)[child] == t[child]
      ensures HalfRelocated(t, id, newParent, newPath, delta, left - {child})
           == HalfRelocated(t, id, newParent, newPath, delta, left)[child :=
                t[child].(path := newPath + t[child].path[|t[id].path|..], depth := t[child].depth + delta)]
    {
    }

    static lemma Descendants(t: Table, id: Uuid, newParent: Uuid, newPath: string, delta: int, all: set<Uuid>)
      requires id in t && forall x :: x in all <==> x in t && x != id && Under(t, id, x)
      ensures HalfRelocated(t, id, newParent, newPath, delta, all)
           == t[id := t[id].(parent := newParent, path := newPath, depth := t[id].depth + delta)]
    {
    }

    /** When the cycle test of relocate refuses a target it may write to: the target is the node
        itself or, by the prefix test, inside its subtree. */
    predicate OwnSubtree(id: Uuid, target: Uuid)
      requires id in rows
      reads this`rows
    {
      target == id || (target in rows && Under(rows, id, target))
    }

    /** The table after a node was put below `target`, which is nothing new when it was there before. */
    static ghost predicate PutBelow(cfg: Config, t: Table, t': Table, id: Uuid, target: Uuid, policy: Policy)
      requires id in t
    {
      if target == t[id].parent then t' == t
      else
        && id in t' && t' == WithName(cfg, Moved(t, id, target), id, t'[id].name)
        && IsResolved(t, cfg.fold, target, t[id].name, policy, id, t'[id].name)
    }

    /** Nothing refuses a move of `id` under `target`: it is there already, or the target is outside its subtree
        and takes it. */
    static ghost predicate MayRelocate(cfg: Config, gate: Gate, t: Table, id: Uuid, target: Uuid, policy: Policy)
      requires id in t
    {
      && target != id
      && (target == t[id].parent
          || (!(target in t && Under(t, id, target)) && MayPlace(cfg, gate, t, target, t[id].name, policy, id)))
    }

    /** relocate: permissions, cycle, depth and name, then the subtree rewrite. */
    method Relocate(gate: Gate, id: Uuid, target: Uuid, policy: Policy) returns (r: Result<()>, ghost es: seq<Event>)
      requires Valid() && id in rows
      modifies this`rows
      ensures Valid() && rows.Keys == old(rows).Keys
      ensures r.Err? ==> rows == old(rows)
      ensures old(OwnSubtree(id, target) && (target == id || Writable(rows, target)))
              && target != old(rows[id].parent) && gate(old(rows), target, ToUpload) == None
              ==> r == Err(CycleDetected)
      ensures r.Ok? <==> old(MayRelocate(cfg, gate, rows, id, target, policy))
      ensures r.Err? || Committed(cfg, old(State()), es, State())
      ensures r.Ok? ==> rows[id].parent == target
      ensures r.Err? || PutBelow(cfg, old(rows), rows, id, target, policy)
      ensures r.Ok? ==> NamedFrom(old(rows)[id].name, policy, rows[id].name)
      ensures SameElsewhere(old(rows), rows, id)
      ensures r.Ok? ==> es == if target == old(rows[id].parent) then [] else [Move(id, target, rows[id].name)]
      ensures MovesOf(es, id)
    {
      es := [];
      if target == id { return Err(CycleDetected), []; }
      if target == rows[id].parent { CommitNothing(cfg, State()); return Ok(()), []; }
      var refusal := LoadWritableParent(gate, target);
      if refusal.Some? { return Err(refusal.value), []; }
      NoCycleThroughFiles(rows, id, target);
      if rows[id].kind.Folder? && rows[id].path <= PathOf(rows, target) { return Err(CycleDetected), []; }
      if DepthOf(rows, target) + 1 >= cfg.maxDepth { return Err(InvalidArgument), []; }
      var finalName := ResolveName(rows, cfg.fold, target, rows[id].name, policy, id);
      if finalName.Err? { return Err(finalName.error), []; }
      MoveTo(id, target, finalName.value);
      return Ok(()), [Move(id, target, finalName.value)];
    }

    /** A move that nothing refuses. */
    method MoveTo(id: Uuid, target: Uuid, name: string)
      requires Valid() && id in rows && Fits(cfg, rows, target, name, id) && !(rows[id].path <= PathOf(rows, target))
      modifies this`rows
      ensures Valid() && rows.Keys == old(rows).Keys
      ensures Committed(cfg, old(State()), [Move(id, target, name)], State())
      ensures rows == WithName(cfg, Moved(old(rows), id, target), id, name)
      ensures rows[id].parent == target && rows[id].name == name && SameElsewhere(old(rows), rows, id)
    {
      ghost var before, e := State(), Move(id, target, name);
      MoveUnder(id, target, name);
      assert State() == Apply(cfg, before, e);
      MovedFacts(cfg, before.rows, id, target, name);
      CommitOne(cfg, before, e);
    }

    /** The writes of relocate. */
    method MoveUnder(id: Uuid, target: Uuid, name: string)
      requires id in rows
      modifies this`rows
      ensures rows == WithName(cfg, Moved(old(rows), id, target), id, name)
    {
      RelocateSubtree(id, target, ChildPath(PathOf(rows, target), id), DepthOf(rows, target) + 1 - rows[id].depth);
      if name != rows[id].name {
        rows := Renamed(rows, id, name, Lower(cfg.fold, name));
      }
    }

    /** The rename MoveNodes does after a move: the name is resolved inside the target folder. */
    method RenameIn(id: Uuid, name: string, policy: Policy) returns (r: Result<()>, ghost es: seq<Event>)
      requires Valid() && id in rows
      modifies this`rows
      ensures Valid() && rows.Keys == old(rows).Keys
      ensures r.Err? ==> rows == old(rows)
      ensures r.Ok? <==> old(Resolvable(rows, cfg.fold, rows[id].parent, name, policy, id))
      ensures r.Ok? ==> Committed(cfg, old(State()), es, State()) && es == [Retitle(id, rows[id].name)]
                        && IsResolved(old(rows), cfg.fold, old(rows[id].parent), name, policy, id, rows[id].name)
                        && NamedFrom(name, policy, rows[id].name)
      ensures r.Ok? ==> rows == WithName(cfg, old(rows), id, rows[id].name)
      ensures rows[id].parent == old(rows[id].parent) && SameElsewhere(old(rows), rows, id)
    {
      es := [];
      var finalName := ResolveName(rows, cfg.fold, rows[id].parent, name, policy, id);
      if finalName.Err? { return Err(finalName.error), []; }
      ghost var before, e := State(), Retitle(id, finalName.value);
      if finalName.value != rows[id].name {
        rows := Renamed(rows, id, finalName.value, Lower(cfg.fold, finalName.value));
      }
      assert State() == Apply(cfg, before, e);
      CommitOne(cfg, before, e);
      return Ok(()), [e];
    }

    /** One element of a move batch. */
    method MoveNode(gate: Gate, id: Uuid, target: Uuid, policy: Policy, newName: Result<string>)
      returns (r: Result<()>, ghost es: seq<Event>)
      requires Valid()
      modifies this`rows
      ensures Valid() && rows.Keys == old(rows).Keys
      ensures r.Err? || (Committed(cfg, old(State()), es, State()) && MovesOf(es, id))
      ensures r.Ok? ==> id in rows && gate(old(rows), id, ToEdit) == None && newName.Ok? && rows[id].parent == target
      ensures r.Err? || newName.value != "" || NamedFrom(old(rows)[id].name, policy, rows[id].name)
      ensures r.Err? || newName.value == ""
              || (NamedFrom(newName.value, policy, rows[id].name) && es != []
                  && es[|es| - 1] == Retitle(id, rows[id].name))
      ensures newName == Ok("") ==>
                (r.Ok? <==> old(id in rows && gate(rows, id, ToEdit) == None
                    && MayRelocate(cfg, gate, rows, id, target, policy)))
      ensures r.Err? || Renamable(cfg, old(rows), rows, id, target, policy, newName.value)
      ensures r.Ok? && newName.value != "" ==>
                old(MayRelocate(cfg, gate, rows, id, target, policy)
                    && (policy.Rename? || !Taken(rows, target, Lower(cfg.fold, newName.value), id)))
      ensures newName.Ok? && newName.value != ""
              && old(id in rows && gate(rows, id, ToEdit) == None && MayRelocate(cfg, gate, rows, id, target, policy)
                     && !Taken(rows, target, Lower(cfg.fold, newName.value), id))
              ==> r.Ok? && rows[id].name == newName.value
      ensures SameElsewhere(old(rows), rows, id)
    {
      es := [];
      if id !in rows { return Err(NotFound), []; }
      var refusal := gate(rows, id, ToEdit);
      if refusal.Some? { return Err(refusal.value), []; }
      r, es := Relocate(gate, id, target, policy);
      if r.Ok? && newName != Ok("") {
        if newName.Err? { return Err(newName.error), []; }
        r, es := RenameAfter(id, target, newName.value, policy, old(State()), es);
      }
    }

    static ghost predicate MovesOf(es: seq<Event>, id: Uuid) {
      forall e | e in es :: (e.Move? || e.Retitle?) && e.id == id
    }

    /** The table after a node was put below `target` and, for a name asked for, renamed there. */
    static ghost predicate Renamable(cfg: Config, t: Table, t': Table, id: Uuid, target: Uuid, policy: Policy,
                                     name: string)
      requires id in t && id in t'
    {
      if name == "" then PutBelow(cfg, t, t', id, target, policy)
      else exists mid ::
             PutBelow(cfg, t, mid, id, target, policy) && id in mid && t' == WithName(cfg, mid, id, t'[id].name)
    }

    /** Whether a name is free in the target folder does not depend on whether the node is there yet. */
    static lemma TakenWhenBelow(cfg: Config, t: Table, t': Table, id: Uuid, target: Uuid, policy: Policy, low: string)
      requires id in t && PutBelow(cfg, t, t', id, target, policy)
      ensures Taken(t', target, low, id) <==> Taken(t, target, low, id)
    {
      if target != t[id].parent { OthersStay(cfg, t, id, target, t'[id].name); }
      TakenFrame(t, t', id, target, low);
    }

    static lemma OthersStay(cfg: Config, t: Table, id: Uuid, target: Uuid, name: string)
      requires id in t
      ensures SameSiblings(t, WithName(cfg, Moved(t, id, target), id, name), id)
    {
    }

    /** All rows but one have the same place among their siblings. */
    static ghost predicate SameSiblings(t: Table, t': Table, id: Uuid) {
      && t'.Keys == t.Keys
      && forall x | x in t && x != id ::
           t'[x].parent == t[x].parent && t'[x].status == t[x].status && t'[x].nameLower == t[x].nameLower
    }

    static lemma TakenFrame(t: Table, t': Table, id: Uuid, target: Uuid, low: string)
      requires SameSiblings(t, t', id)
      ensures Taken(t', target, low, id) <==> Taken(t, target, low, id)
    {
    }

    /** The second half of a move with a new name, told from the table `start` before the move. */
    method RenameAfter(id: Uuid, target: Uuid, name: string, policy: Policy, ghost start: Db, ghost es: seq<Event>)
      returns (r: Result<()>, ghost more: seq<Event>)
      requires Valid() && id in rows && rows[id].parent == target && Committed(cfg, start, es, State())
               && MovesOf(es, id)
      requires name != "" && id in start.rows && PutBelow(cfg, start.rows, rows, id, target, policy)
      modifies this`rows
      ensures Valid() && rows.Keys == old(rows).Keys && rows[id].parent == target && SameElsewhere(old(rows), rows, id)
      ensures r.Ok? ==> NamedFrom(name, policy, rows[id].name) && more == es + [Retitle(id, rows[id].name)]
      ensures r.Err? || (Committed(cfg, start, more, State()) && MovesOf(more, id))
      ensures r.Err? || Renamable(cfg, start.rows, rows, id, target, policy, name)
      ensures r.Ok? ==> policy.Rename? || !Taken(start.rows, target, Lower(cfg.fold, name), id)
      ensures !Taken(start.rows, target, Lower(cfg.fold, name), id) ==> r.Ok? && rows[id].name == name
    {
      ghost var mid := State();
      TakenWhenBelow(cfg, start.rows, rows, id, target, policy, Lower(cfg.fold, name));
      ghost var step;
      r, step := RenameIn(id, name, policy);
      more := es + step;
      if r.Ok? { CommitMore(cfg, start, es, mid, step, State()); }
    }

    /** No other row has a new parent or name. */
    static ghost predicate SameElsewhere(t: Table, t': Table, id: Uuid) {
      forall x | x in t && x != id :: x in t' && t'[x].parent == t[x].parent && t'[x].name == t[x].name
    }

    /** The new name asked for element `i` of a batch, if any, after normalizing. */
    static function NewNameAt(newNames: seq<string>, normalize: string -> Result<string>, i: nat): Result<string>
      requires newNames == [] || i < |newNames|
    {
      if newNames != [] && newNames[i] != "" then normalize(newNames[i]) else Ok("")
    }

    /** What a batch of moves did with its first `n` elements. */
    static ghost predicate BatchMoved(t: Table, ids: seq<Uuid>, n: nat, target: Uuid, policy: Policy,
                                      asked: seq<Result<string>>)
      requires n <= |ids| == |asked|
    {
      forall i | 0 <= i < n :: ElementMoved(t, ids, i, n, target, policy, asked[i])
    }

    /** A later element for the same node may have named it anew. */
    static ghost predicate ElementMoved(t: Table, ids: seq<Uuid>, i: nat, n: nat, target: Uuid, policy: Policy,
                                        newName: Result<string>)
      requires i < n <= |ids|
    {
      && ids[i] in t && t[ids[i]].parent == target && newName.Ok?
      && (newName.value != "" && ids[i] !in ids[i + 1..n] ==> NamedFrom(newName.value, policy, t[ids[i]].name))
    }

    /** MoveNodes: one transaction, so one refused node takes every earlier move back. */
    method MoveNodes(gate: Gate, ids: seq<Uuid>, target: Uuid, policy: Policy, newNames: seq<string>,
                     normalize: string -> Result<string>)
      returns (r: Result<()>, ghost es: seq<Event>)
      requires Valid()
      modifies this`rows
      ensures Valid() && rows.Keys == old(rows).Keys
      ensures r.Err? ==> rows == old(rows)
      ensures r.Ok? ==>
                (newNames == [] || |newNames| == |ids|)
                && BatchMoved(rows, ids, |ids|, target, policy, Asked(newNames, normalize, |ids|))
      ensures r.Ok? ==>
                Committed(cfg, old(State()), es, State()) && AreMoves(es, ids) && SameOutside(old(rows), rows, ids)
      ensures r.Ok? ==> forall x | Retitled(old(rows), rows, x) :: AloneInName(cfg.fold, rows, x)
      ensures r.Err? || newNames == [] || NewNamesGiven(rows, ids, policy, newNames, normalize)
      ensures r.Ok? && old(Inv(rows)) ==> (Inv(rows) <==> old(LiveOrHome(rows, ids, target)))
      ensures newNames == [] || |newNames| == |ids| ==>
                (old(Movable(cfg, gate, rows, ids, target, Asked(newNames, normalize, |ids|))) ==> r.Ok?)
    {
      es := [];
      if ids == [] || (newNames != [] && |newNames| != |ids|) { return Err(InvalidArgument), []; }
      var saved := rows;
      ghost var start := State();
      ghost var asked := Asked(newNames, normalize, |ids|);
      ghost var sure := Movable(cfg, gate, rows, ids, target, asked);
      r, es := MoveAll(gate, ids, target, policy, newNames, normalize, asked, sure);
      if r.Err? { rows := saved; return r, []; }
      AllBelow(rows, ids, target, policy, asked);
      if newNames != [] { AllNewlyNamed(rows, ids, target, policy, newNames, normalize); }
      assert forall k | 0 <= k < |es| :: es[k] in es;
      CommittedNamesApart(cfg, start, es, State());
      if Inv(saved) { BatchKeepsOriginsIff(cfg, start, es, State(), ids, target); }
    }

    /** The loop of the transaction. A failure leaves the earlier moves to the rollback. */
    method MoveAll(gate: Gate, ids: seq<Uuid>, target: Uuid, policy: Policy, newNames: seq<string>,
                   normalize: string -> Result<string>, ghost asked: seq<Result<string>>, ghost sure: bool)
      returns (r: Result<()>, ghost es: seq<Event>)
      requires Valid() && (newNames == [] || |newNames| == |ids|) && asked == Asked(newNames, normalize, |ids|)
      requires sure ==> Movable(cfg, gate, rows, ids, target, asked)
      modifies this`rows
      ensures Valid() && rows.Keys == old(rows).Keys
      ensures r.Err? || MovesDone(cfg, old(State()), State(), es, ids, |ids|, target, policy, asked)
      ensures sure ==> r.Ok?
    {
      r, es := Ok(()), [];
      ghost var start := State();
      CommitNothing(cfg, start);
      if sure { NothingMovedYet(cfg, gate, rows, ids, target, asked); }
      var i := 0;
      while i < |ids|
        invariant 0 <= i <= |ids| && Valid() && rows.Keys == start.rows.Keys && r.Ok?
        invariant r.Err? || MovesDone(cfg, start, State(), es, ids, i, target, policy, asked)
        invariant !sure || HalfMoved(cfg, start.rows, rows, ids, target, asked)
      {
        r, es := MoveNext(gate, ids, i, target, policy, newNames, normalize, asked, start, es, sure);
        if r.Err? { return; }
        i := i + 1;
      }
    }

    /** What the first `n` moves of a batch leave. */
    static ghost predicate MovesDone(cfg: Config, start: Db, now: Db, es: seq<Event>, ids: seq<Uuid>, n: nat,
                                     target: Uuid, policy: Policy, asked: seq<Result<string>>)
      requires n <= |ids| == |asked|
    {
      && Committed(cfg, start, es, now) && AreMoves(es, ids)
      && BatchMoved(now.rows, ids, n, target, policy, asked) && SameOutside(start.rows, now.rows, ids)
    }

    static ghost predicate AreMoves(es: seq<Event>, ids: seq<Uuid>) {
      forall e | e in es :: (e.Move? || e.Retitle?) && e.id in ids
    }

    /** Rows that are not listed keep their parents and names. */
    static ghost predicate SameOutside(t: Table, t': Table, ids: seq<Uuid>) {
      forall x | x in t && x !in ids :: x in t' && t'[x].parent == t[x].parent && t'[x].name == t[x].name
    }

    method MoveNext(gate: Gate, ids: seq<Uuid>, i: nat, target: Uuid, policy: Policy, newNames: seq<string>,
                    normalize: string -> Result<string>, ghost asked: seq<Result<string>>, ghost start: Db,
                    ghost es: seq<Event>, ghost sure: bool)
      returns (r: Result<()>, ghost more: seq<Event>)
      requires Valid() && i < |ids| && (newNames == [] || |newNames| == |ids|)
               && asked == Asked(newNames, normalize, |ids|)
      requires MovesDone(cfg, start, State(), es, ids, i, target, policy, asked)
      requires sure ==> Movable(cfg, gate, start.rows, ids, target, asked)
                        && HalfMoved(cfg, start.rows, rows, ids, target, asked)
      modifies this`rows
      ensures Valid() && rows.Keys == old(rows).Keys
      ensures r.Err? || MovesDone(cfg, start, State(), more, ids, i + 1, target, policy, asked)
      ensures !sure || (r.Ok? && HalfMoved(cfg, start.rows, rows, ids, target, asked))
    {
      ghost var before := State();
      if sure { NextIsMovable(cfg, gate, start.rows, rows, ids, i, target, policy, asked); }
      ghost var step;
      r, step := MoveNode(gate, ids[i], target, policy, NewNameAt(newNames, normalize, i));
      more := es + step;
      if r.Ok? {
        OneMoreMoved(before.rows, rows, ids, i, target, policy, asked);
        CommitMore(cfg, start, es, before, step, State());
        if sure { NextHalfMoved(cfg, gate, start.rows, before.rows, rows, ids, i, target, policy, asked); }
      }
    }

    /** The new names of a batch, after normalizing; none where none is asked for. */
    static ghost function Asked(newNames: seq<string>, normalize: string -> Result<string>,
                                n: nat): (r: seq<Result<string>>)
      requires newNames == [] || |newNames| == n
      ensures |r| == n && forall i | 0 <= i < n :: r[i] == NewNameAt(newNames, normalize, i)
    {
      seq(n, i requires 0 <= i < n => NewNameAt(newNames, normalize, i))
    }

    static predicate AskedFor(ids: seq<Uuid>, asked: seq<Result<string>>, k: nat, x: Uuid, name: string)
      requires k < |ids| == |asked|
    {
      ids[k] == x && asked[k] == Ok(name) && name != ""
    }

    /** The names a row may have during a batch, and the folded names. */
    static ghost predicate MayBeCalled(t: Table, ids: seq<Uuid>, asked: seq<Result<string>>, x: Uuid, name: string)
      requires x in t && |ids| == |asked|
    {
      name == t[x].name || exists k :: 0 <= k < |ids| && AskedFor(ids, asked, k, x, name)
    }

    static ghost predicate MayShow(fold: CaseMap, t: Table, ids: seq<Uuid>, asked: seq<Result<string>>, x: Uuid,
                                   low: string)
      requires x in t && |ids| == |asked|
    {
      || low == t[x].nameLower
      || exists k :: 0 <= k < |ids| && ids[k] == x && asked[k].Ok? && asked[k].value != ""
                     && low == Lower(fold, asked[k].value)
    }

    /** Told from the table before the batch: the target takes every listed node whatever the earlier ones do, for
        none is above it and no two active rows that meet there can fold to one name on the way. */
    static ghost predicate Movable(cfg: Config, gate: Gate, t: Table, ids: seq<Uuid>, target: Uuid,
                                   asked: seq<Result<string>>)
      requires |ids| == |asked|
    {
      && ids != [] && Writable(t, target) && DepthOf(t, target) + 1 < cfg.maxDepth
      && (forall s :: target != NIL ==> gate(s, target, ToUpload) == None)
      && (forall i | 0 <= i < |ids| :: ids[i] in t && asked[i].Ok? && !(target in t && Under(t, ids[i], target)))
      && (forall i, s | 0 <= i < |ids| :: gate(s, ids[i], ToEdit) == None)
      && (forall i, x | 0 <= i < |ids| && x in t && x != ids[i] && MeetsAt(t, ids, target, x) ::
            NeverAlike(cfg.fold, t, ids, asked, ids[i], x))
    }

    static predicate MeetsAt(t: Table, ids: seq<Uuid>, target: Uuid, x: Uuid)
      requires x in t
    {
      t[x].status.Active? && (t[x].parent == target || x in ids)
    }

    static ghost predicate NeverAlike(fold: CaseMap, t: Table, ids: seq<Uuid>, asked: seq<Result<string>>, a: Uuid,
                                      x: Uuid)
      requires a in t && x in t && |ids| == |asked|
    {
      forall name, low | MayBeCalled(t, ids, asked, a, name) && MayShow(fold, t, ids, asked, x, low) ::
        low != Lower(fold, name)
    }

    /** Half-way through such a batch: some listed nodes are below the target under a name of theirs, and nothing
        else that it looks at has changed. */
    static ghost predicate HalfMoved(cfg: Config, t: Table, mid: Table, ids: seq<Uuid>, target: Uuid,
                                     asked: seq<Result<string>>)
      requires |ids| == |asked|
    {
      && mid.Keys == t.Keys && PathOf(mid, target) == PathOf(t, target) && DepthOf(mid, target) == DepthOf(t, target)
      && (forall x {:trigger Renewed(cfg, t, mid, ids, target, asked, x)} | x in t ::
            Renewed(cfg, t, mid, ids, target, asked, x))
      && (forall i | 0 <= i < |ids| && ids[i] in mid :: !(target in mid && Under(mid, ids[i], target)))
    }

    static ghost predicate Renewed(cfg: Config, t: Table, mid: Table, ids: seq<Uuid>, target: Uuid,
                                   asked: seq<Result<string>>, x: Uuid)
      requires x in t && x in mid && |ids| == |asked|
    {
      && MayBeCalled(t, ids, asked, x, mid[x].name) && MayShow(cfg.fold, t, ids, asked, x, mid[x].nameLower)
      && mid[x].status == t[x].status && mid[x].kind == t[x].kind
      && (mid[x].parent == t[x].parent || (x in ids && mid[x].parent == target))
    }

    static lemma NothingMovedYet(cfg: Config, gate: Gate, t: Table, ids: seq<Uuid>, target: Uuid,
                                 asked: seq<Result<string>>)
      requires |ids| == |asked| && Movable(cfg, gate, t, ids, target, asked)
      ensures HalfMoved(cfg, t, t, ids, target, asked)
    {
    }

    /** No name that a listed node may have is taken in the target folder on the way. */
    static lemma NoClashOnTheWay(cfg: Config, gate: Gate, t: Table, mid: Table, ids: seq<Uuid>, i: nat, target: Uuid,
                                 asked: seq<Result<string>>, name: string)
      requires |ids| == |asked| && i < |ids| && Movable(cfg, gate, t, ids, target, asked)
      requires HalfMoved(cfg, t, mid, ids, target, asked) && MayBeCalled(t, ids, asked, ids[i], name)
      ensures !Taken(mid, target, Lower(cfg.fold, name), ids[i])
    {
      forall x | x in mid && x != ids[i] && mid[x].parent == target && mid[x].status.Active?
        ensures mid[x].nameLower != Lower(cfg.fold, name)
      {
        assert Renewed(cfg, t, mid, ids, target, asked, x) && MeetsAt(t, ids, target, x);
        assert NeverAlike(cfg.fold, t, ids, asked, ids[i], x);
      }
    }

    static lemma NextIsMovable(cfg: Config, gate: Gate, t: Table, mid: Table, ids: seq<Uuid>, i: nat, target: Uuid,
                               policy: Policy, asked: seq<Result<string>>)
      requires |ids| == |asked| && Sound(mid) && i < |ids| && Movable(cfg, gate, t, ids, target, asked)
      requires HalfMoved(cfg, t, mid, ids, target, asked)
      ensures ids[i] in mid && gate(mid, ids[i], ToEdit) == None && MayRelocate(cfg, gate, mid, ids[i], target, policy)
      ensures !Taken(mid, target, Lower(cfg.fold, mid[ids[i]].name), ids[i])
      ensures asked[i].Ok?
      ensures asked[i].value != "" ==> !Taken(mid, target, Lower(cfg.fold, asked[i].value), ids[i])
    {
      var id := ids[i];
      assert Renewed(cfg, t, mid, ids, target, asked, id);
      assert target in t ==> Renewed(cfg, t, mid, ids, target, asked, target);
      UnderStep(mid, id, id);
      NoClashOnTheWay(cfg, gate, t, mid, ids, i, target, asked, mid[id].name);
      if asked[i].value != "" {
        assert AskedFor(ids, asked, i, id, asked[i].value);
        NoClashOnTheWay(cfg, gate, t, mid, ids, i, target, asked, asked[i].value);
      }
    }

    static lemma NextHalfMoved(cfg: Config, gate: Gate, t: Table, mid: Table, now: Table, ids: seq<Uuid>, i: nat,
                               target: Uuid, policy: Policy, asked: seq<Result<string>>)
      requires |ids| == |asked| && Sound(mid) && i < |ids| && Movable(cfg, gate, t, ids, target, asked)
      requires HalfMoved(cfg, t, mid, ids, target, asked) && ids[i] in mid && ids[i] in now && asked[i].Ok?
      requires Renamable(cfg, mid, now, ids[i], target, policy, asked[i].value)
      requires asked[i].value != "" ==> now[ids[i]].name == asked[i].value
      ensures HalfMoved(cfg, t, now, ids, target, asked)
    {
      var id := ids[i];
      NextIsMovable(cfg, gate, t, mid, ids, i, target, policy, asked);
      if asked[i].value == "" {
        if target != mid[id].parent { MovedHalf(cfg, t, mid, ids, id, target, asked); }
      } else {
        var put :| PutBelow(cfg, mid, put, id, target, policy) && id in put
            && now == WithName(cfg, put, id, now[id].name);
        if target != mid[id].parent { MovedHalf(cfg, t, mid, ids, id, target, asked); }
        NamedHalf(cfg, t, put, ids, i, target, asked);
      }
    }

    static lemma NamedHalf(cfg: Config, t: Table, mid: Table, ids: seq<Uuid>, i: nat, target: Uuid,
                           asked: seq<Result<string>>)
      requires |ids| == |asked| && i < |ids| && HalfMoved(cfg, t, mid, ids, target, asked) && ids[i] in mid
      requires asked[i].Ok? && asked[i].value != ""
      ensures HalfMoved(cfg, t, WithName(cfg, mid, ids[i], asked[i].value), ids, target, asked)
    {
      var now := WithName(cfg, mid, ids[i], asked[i].value);
      assert AskedFor(ids, asked, i, ids[i], asked[i].value);
      forall x | x in t ensures Renewed(cfg, t, now, ids, target, asked, x) {
        assert Renewed(cfg, t, mid, ids, target, asked, x);
      }
    }

    static lemma MovedHalf(cfg: Config, t: Table, mid: Table, ids: seq<Uuid>, id: Uuid, target: Uuid,
                           asked: seq<Result<string>>)
      requires |ids| == |asked| && Sound(mid) && id in ids && id in mid && HalfMoved(cfg, t, mid, ids, target, asked)
      ensures HalfMoved(cfg, t, Moved(mid, id, target), ids, target, asked)
    {
      var now := Moved(mid, id, target);
      UnderStep(mid, id, id);
      forall x | x in t ensures Renewed(cfg, t, now, ids, target, asked, x) {
        assert Renewed(cfg, t, mid, ids, target, asked, x);
      }
      assert target in mid ==> now[target] == mid[target];
      forall k | 0 <= k < |ids| && ids[k] in now ensures !(target in now && Under(now, ids[k], target)) {
        if Under(mid, id, ids[k]) && target in mid {
          assert |now[ids[k]].path| > |now[target].path|;
        }
      }
    }

    /** Every listed node that a name is asked for has it at the end, or one of its candidates where it may be
        replaced; of a node that is listed twice the last name counts. */
    static ghost predicate NewNamesGiven(t: Table, ids: seq<Uuid>, policy: Policy, newNames: seq<string>,
                                         normalize: string -> Result<string>) {
      && |newNames| == |ids|
      && forall i | 0 <= i < |ids| && newNames[i] != "" && ids[i] !in ids[i + 1..] ::
           var given := normalize(newNames[i]);
           && ids[i] in t && given.Ok? && (given.value != "" ==> NamedFrom(given.value, policy, t[ids[i]].name))
           && (policy.Rename? || given.value == "" || t[ids[i]].name == given.value)
    }

    static lemma AllNewlyNamed(t: Table, ids: seq<Uuid>, target: Uuid, policy: Policy, newNames: seq<string>,
                               normalize: string -> Result<string>)
      requires |newNames| == |ids| > 0 && BatchMoved(t, ids, |ids|, target, policy, Asked(newNames, normalize, |ids|))
      ensures NewNamesGiven(t, ids, policy, newNames, normalize)
    {
      forall i | 0 <= i < |ids| && newNames[i] != "" && ids[i] !in ids[i + 1..]
        ensures var given := normalize(newNames[i]);
                && ids[i] in t && given.Ok? && (given.value != "" ==> NamedFrom(given.value, policy, t[ids[i]].name))
                && (policy.Rename? || given.value == "" || t[ids[i]].name == given.value)
      {
        assert ElementMoved(t, ids, i, |ids|, target, policy, Asked(newNames, normalize, |ids|)[i]);
        assert ids[i + 1..|ids|] == ids[i + 1..];
      }
    }

    static lemma AllBelow(t: Table, ids: seq<Uuid>, target: Uuid, policy: Policy, asked: seq<Result<string>>)
      requires |ids| == |asked| && BatchMoved(t, ids, |ids|, target, policy, asked)
      ensures forall i | 0 <= i < |ids| :: ids[i] in t && t[ids[i]].parent == target
    {
      forall i | 0 <= i < |ids| ensures ids[i] in t && t[ids[i]].parent == target {
        assert ElementMoved(t, ids, i, |ids|, target, policy, asked[i]);
      }
    }

    static lemma OneMoreMoved(t: Table, now: Table, ids: seq<Uuid>, i: nat, target: Uuid, policy: Policy,
                              asked: seq<Result<string>>)
      requires i < |ids| == |asked| && BatchMoved(t, ids, i, target, policy, asked)
      requires ids[i] in now && now[ids[i]].parent == target && SameElsewhere(t, now, ids[i])
      requires asked[i].Ok? && (asked[i].value != "" ==> NamedFrom(asked[i].value, policy, now[ids[i]].name))
      ensures BatchMoved(now, ids, i + 1, target, policy, asked)
    {
      forall k | 0 <= k < i ensures ElementMoved(now, ids, k, i + 1, target, policy, asked[k]) {
        assert ElementMoved(t, ids, k, i, target, policy, asked[k]);
        if ids[k] !in ids[k + 1..i + 1] {
          assert ids[k + 1..i + 1][i - k - 1] == ids[i];
          assert forall m | k + 1 <= m < i :: ids[k + 1..i + 1][m - k - 1] == ids[m];
          assert ids[k] !in ids[k + 1..i];
        }
      }
    }

    /** The same rows with the same state, kind and recorded parent. */
    static ghost predicate SameMarks(t: Table, t': Table) {
      && t'.Keys == t.Keys
      && forall x {:trigger t'[x]} {:trigger t[x]} | x in t ::
           t'[x].status == t[x].status && t'[x].kind == t[x].kind && t'[x].originalParent == t[x].originalParent
    }

    static lemma MoveKeepsMarks(cfg: Config, db: Db, e: Event)
      requires Allowed(cfg, db, e) && (e.Move? || e.Retitle?)
      ensures var t' := Apply(cfg, db, e).rows;
              && SameMarks(db.rows, t')
              && forall x | x in t' :: t'[x].parent == db.rows[x].parent || Writable(db.rows, t'[x].parent)
    {
      if e.Move? {
        MovedMarks(db.rows, e.id, e.target);
        NamedMarks(cfg, db.rows, Moved(db.rows, e.id, e.target), e.id, e.name);
      } else {
        NamedMarks(cfg, db.rows, db.rows, e.id, e.name);
      }
    }

    static lemma MovedMarks(t: Table, id: Uuid, target: Uuid)
      requires id in t
      ensures SameMarks(t, Moved(t, id, target))
      ensures forall x | x in t :: Moved(t, id, target)[x].parent == if x == id then target else t[x].parent
    {
    }

    static lemma NamedMarks(cfg: Config, t: Table, t': Table, id: Uuid, name: string)
      requires SameMarks(t, t') && id in t'
      ensures SameMarks(t, WithName(cfg, t', id, name))
      ensures forall x | x in t' :: WithName(cfg, t', id, name)[x].parent == t'[x].parent
    {
    }

    /** Moves and renames change no state, and a row that has a new parent has one that took it. */
    static lemma {:induction false} MovesKeepMarks(cfg: Config, before: Db, es: seq<Event>, after: Db)
      requires Committed(cfg, before, es, after) && forall i | 0 <= i < |es| :: es[i].Move? || es[i].Retitle?
      ensures SameMarks(before.rows, after.rows)
      ensures forall x | x in after.rows ::
                after.rows[x].parent == before.rows[x].parent || Writable(before.rows, after.rows[x].parent)
      decreases |es|
    {
      var mid := LastCommit(cfg, before, es, after);
      if es != [] {
        MovesKeepMarks(cfg, before, es[..|es| - 1], mid);
        MoveKeepsMarks(cfg, mid, es[|es| - 1]);
        forall x | x in after.rows
          ensures after.rows[x].parent == before.rows[x].parent || Writable(before.rows, after.rows[x].parent)
        {
          var p := after.rows[x].parent;
          assert Writable(mid.rows, p) ==> Writable(before.rows, p);
        }
      }
    }

    /** Every listed node is active, goes where it was deleted from, or is there already. */
    static predicate LiveOrHome(t: Table, ids: seq<Uuid>, target: Uuid) {
      forall i | 0 <= i < |ids| && ids[i] in t ::
        t[ids[i]].status.Active? || t[ids[i]].originalParent == target || t[ids[i]].parent == target
    }

    /** A batch of moves leaves recorded parents right exactly when it takes no trashed node elsewhere. */
    static lemma MovesKeepOriginsIff(t: Table, t': Table, ids: seq<Uuid>, target: Uuid)
      requires Inv(t) && Sound(t') && SameMarks(t, t') && SameOutside(t, t', ids)
      requires forall x | x in t' :: t'[x].parent == t[x].parent || Writable(t, t'[x].parent)
      requires forall i | 0 <= i < |ids| :: ids[i] in t' && t'[ids[i]].parent == target
      ensures Inv(t') <==> LiveOrHome(t, ids, target)
    {
      forall x | x in t
        ensures OriginRight(t', x) <==>
                  x !in ids || t[x].status.Active? || t[x].originalParent == target || t[x].parent == target
      {
        assert OriginRight(t, x);
        assert x in ids ==> exists i :: 0 <= i < |ids| && ids[i] == x;
        if t'[x].parent != t[x].parent {
          assert x in ids && t'[x].parent == target;
        }
      }
      if Inv(t') {
        forall i | 0 <= i < |ids| && ids[i] in t
          ensures t[ids[i]].status.Active? || t[ids[i]].originalParent == target || t[ids[i]].parent == target
        {
          assert OriginRight(t', ids[i]);
        }
      }
    }

    static lemma BatchKeepsOriginsIff(cfg: Config, before: Db, es: seq<Event>, after: Db, ids: seq<Uuid>, target: Uuid)
      requires Committed(cfg, before, es, after) && AreMoves(es, ids) && SameOutside(before.rows, after.rows, ids)
      requires Inv(before.rows) && Sound(after.rows)
      requires forall i | 0 <= i < |ids| :: ids[i] in after.rows && after.rows[ids[i]].parent == target
      ensures Inv(after.rows) <==> LiveOrHome(before.rows, ids, target)
    {
      assert forall k | 0 <= k < |es| :: es[k] in es;
      MovesKeepMarks(cfg, before, es, after);
      MovesKeepOriginsIff(before.rows, after.rows, ids, target);
    }

    /** A trashed top moved anywhere but home is no longer listed when the trash is emptied. */
    static lemma MovedAwayIsMissed(t: Table, id: Uuid, target: Uuid)
      requires Inv(t) && TrashTop(t, id) && Writable(t, target) && target != t[id].originalParent
      ensures var t' := Moved(t, id, target);
              !LiveOrHome(t, [id], target) && Sound(t') && !Inv(t') && TrashTop(t', id) && id !in TrashRoots(t', None)
    {
      assert OriginRight(t, id) && [id][0] == id;
      RestoreCannotCycle(t, id, target);
      MoveKeeps(t, id, target);
      MoveKeepsIff(t, id, target);
    }

    /** The rows of the first `n` listed subtrees of the table. */
    static ghost function Covered(t: Table, ids: seq<Uuid>, n: nat): set<Uuid>
      requires n <= |ids|
    {
      if n == 0 then {}
      else Covered(t, ids, n - 1) + if ids[n - 1] in t then Subtree(t, ids[n - 1]) else {}
    }

    /** The rows of the listed subtrees, counted once per listing. */
    static ghost function Reach(t: Table, ids: seq<Uuid>, n: nat): int
      requires n <= |ids|
    {
      if n == 0 then 0 else Reach(t, ids, n - 1) + if ids[n - 1] in t then |Subtree(t, ids[n - 1])| else 0
    }

    method DiscardNode(gate: Gate, id: Uuid, now: int) returns (r: Result<int>)
      requires Valid()
      modifies this`rows
      ensures Valid() && rows.Keys == old(rows).Keys && forall x | x in rows :: rows[x].path == old(rows)[x].path
      ensures r.Ok? <==> id in old(rows) && gate(old(rows), id, ToDelete) == None
      ensures r.Err? ==> rows == old(rows)
      ensures r.Ok? ==> r.value == |Subtree(old(rows), id)|
      ensures r.Ok? ==>
                id in rows && rows == Discarded(old(rows), id, now)
                && Committed(cfg, old(State()), [Discard(id, now)], State())
    {
      if id !in rows { return Err(NotFound); }
      var refusal := gate(rows, id, ToDelete);
      if refusal.Some? { return Err(refusal.value); }
      ghost var mid := State();
      r := Ok(|Subtree(rows, id)|);
      rows := Discarded(rows, id, now);
      assert State() == Apply(cfg, mid, Discard(id, now));
      CommitOne(cfg, mid, Discard(id, now));
    }

    /** A batch no element of which is refused. */
    static ghost predicate Deletable(gate: Gate, t: Table, ids: seq<Uuid>) {
      && (forall i | 0 <= i < |ids| :: ids[i] in t)
      && (forall i, s | 0 <= i < |ids| :: gate(s, ids[i], ToDelete) == None)
    }

    /** DeleteNodes without the permanent flag. */
    method DeleteNodes(gate: Gate, ids: seq<Uuid>, now: int) returns (r: Result<int>, ghost es: seq<Event>)
      requires Valid()
      modifies this`rows
      ensures Valid() && rows.Keys == old(rows).Keys
      ensures r.Err? ==> rows == old(rows)
      ensures r.Ok? ==> Committed(cfg, old(State()), es, State()) && |es| == |ids| && AreDiscards(es, ids, now, rows)
      ensures r.Ok? ==> forall x | x in rows ::
                rows[x].status.Trashed? <==> old(rows)[x].status.Trashed? || x in Covered(old(rows), ids, |ids|)
      ensures r.Ok? ==> forall x | x in rows :: JoinsTrash(old(rows), rows, x, Covered(old(rows), ids, |ids|), now)
      ensures r.Ok? ==> r.value == Reach(old(rows), ids, |ids|)
      ensures r.Ok? && old(Inv(rows)) ==> (Inv(rows) <==> old(OriginsKept(rows, ids)))
      ensures ids != [] && old(Deletable(gate, rows, ids)) ==> r.Ok?
    {
      if ids == [] { return Err(InvalidArgument), []; }
      r, es := DiscardAll(gate, ids, now);
    }

    /** The transaction of a delete batch. */
    method DiscardAll(gate: Gate, ids: seq<Uuid>, now: int) returns (r: Result<int>, ghost es: seq<Event>)
      requires Valid()
      modifies this`rows
      ensures Valid() && rows.Keys == old(rows).Keys
      ensures r.Err? ==> rows == old(rows)
      ensures r.Ok? ==> Committed(cfg, old(State()), es, State()) && |es| == |ids| && AreDiscards(es, ids, now, rows)
      ensures r.Ok? ==> forall x | x in rows ::
                rows[x].status.Trashed? <==> old(rows)[x].status.Trashed? || x in Covered(old(rows), ids, |ids|)
      ensures r.Ok? ==> forall x | x in rows :: JoinsTrash(old(rows), rows, x, Covered(old(rows), ids, |ids|), now)
      ensures r.Ok? ==> r.value == Reach(old(rows), ids, |ids|)
      ensures r.Ok? && old(Inv(rows)) ==> (Inv(rows) <==> old(OriginsKept(rows, ids)))
      ensures old(Deletable(gate, rows, ids)) ==> r.Ok?
    {
      var saved := rows;
      ghost var start := State();
      r, es := DiscardEach(gate, ids, now);
      if r.Err? { rows := saved; return r, []; }
      DiscardsCover(cfg, start, es, State(), ids, now);
      if Inv(saved) { DiscardsKeepOriginsIff(cfg, start, es, State(), ids, now); }
    }

    /** The loop of the transaction. A failure leaves the earlier deletes to the rollback. */
    method DiscardEach(gate: Gate, ids: seq<Uuid>, now: int) returns (r: Result<int>, ghost es: seq<Event>)
      requires Valid()
      modifies this`rows
      ensures Valid() && rows.Keys == old(rows).Keys
      ensures r.Ok? ==> Committed(cfg, old(State()), es, State()) && |es| == |ids| && AreDiscards(es, ids, now, rows)
      ensures r.Ok? ==> r.value == Reach(old(rows), ids, |ids|)
      ensures old(Deletable(gate, rows, ids)) ==> r.Ok?
    {
      es := [];
      ghost var first, start := rows, State();
      CommitNothing(cfg, start);
      var affected := 0;
      var i := 0;
      while i < |ids|
        invariant 0 <= i <= |ids| && Valid() && SamePlaces(first, rows)
        invariant Committed(cfg, start, es, State()) && AreDiscards(es, ids, now, rows) && |es| == i
        invariant affected == Reach(first, ids, i)
      {
        r, es := DiscardNext(gate, ids, i, now, first, start, es);
        if r.Err? { return; }
        affected := affected + r.value;
        i := i + 1;
      }
      r := Ok(affected);
    }

    static ghost predicate AreDiscards(es: seq<Event>, ids: seq<Uuid>, now: int, t: Table) {
      |es| <= |ids| && forall i | 0 <= i < |es| :: es[i] == Discard(ids[i], now) && ids[i] in t
    }

    method DiscardNext(gate: Gate, ids: seq<Uuid>, i: nat, now: int, ghost first: Table, ghost start: Db,
                       ghost es: seq<Event>)
      returns (r: Result<int>, ghost more: seq<Event>)
      requires Valid() && i < |ids| && Committed(cfg, start, es, State()) && AreDiscards(es, ids, now, rows)
               && |es| == i
      requires SamePlaces(first, rows)
      modifies this`rows
      ensures Valid() && SamePlaces(first, rows)
      ensures r.Ok? ==> Reach(first, ids, i) + r.value == Reach(first, ids, i + 1)
      ensures Deletable(gate, first, ids) ==> r.Ok?
      ensures r.Ok? ==> Committed(cfg, start, more, State()) && AreDiscards(more, ids, now, rows) && |more| == i + 1
    {
      ghost var mid := State();
      more := es;
      r := DiscardNode(gate, ids[i], now);
      if r.Ok? {
        OneMoreReached(first, mid.rows, ids, i);
        CommitMore(cfg, start, es, mid, [Discard(ids[i], now)], State());
        more := es + [Discard(ids[i], now)];
        OneMoreDiscard(es, ids, now, mid.rows, rows);
      }
    }

    static lemma OneMoreReached(first: Table, t: Table, ids: seq<Uuid>, i: nat)
      requires i < |ids| && SamePlaces(first, t) && ids[i] in t
      ensures Reach(first, ids, i) + |Subtree(t, ids[i])| == Reach(first, ids, i + 1)
    {
      assert Subtree(t, ids[i]) == Subtree(first, ids[i]);
    }

    static lemma OneMoreDiscard(es: seq<Event>, ids: seq<Uuid>, now: int, t: Table, t': Table)
      requires |es| < |ids| && AreDiscards(es, ids, now, t) && ids[|es|] in t && t'.Keys == t.Keys
      ensures AreDiscards(es + [Discard(ids[|es|], now)], ids, now, t')
    {
    }

    /** What a batch of deletes does: exactly the listed subtrees end up in the trash. */
    static lemma {:induction false} DiscardsCover(cfg: Config, before: Db, es: seq<Event>, after: Db, ids: seq<Uuid>,
                                                  now: int)
      requires Committed(cfg, before, es, after) && |es| <= |ids|
               && forall i | 0 <= i < |es| :: es[i] == Discard(ids[i], now)
      ensures var t, t' := before.rows, after.rows;
              && t'.Keys == t.Keys && (forall x | x in t :: t'[x].path == t[x].path)
              && (forall x | x in t :: t'[x].status.Trashed? <==> t[x].status.Trashed? || x in Covered(t, ids, |es|))
              && forall x {:trigger JoinsTrash(t, t', x, Covered(t, ids, |es|), now)} | x in t ::
                   JoinsTrash(t, t', x, Covered(t, ids, |es|), now)
      decreases |es|
    {
      var mid := LastCommit(cfg, before, es, after);
      if es != [] {
        var n := |es| - 1;
        DiscardsCover(cfg, before, es[..n], mid, ids, now);
        DiscardOneMore(before.rows, mid.rows, ids[n], now, Covered(before.rows, ids, n));
        OneMoreJoins(before.rows, mid.rows, ids[n], now, Covered(before.rows, ids, n));
      }
    }

    /** A row of the listed subtrees is in the trash since `now`, everything else about it but its recorded parent is as
        it was, and no other row changes. */
    static predicate JoinsTrash(t: Table, t': Table, x: Uuid, covered: set<Uuid>, now: int)
      requires x in t && x in t'
    {
      t'[x] == if x in covered
               then t[x].(status := Trashed, trashedAt := Some(now), originalParent := t'[x].originalParent) else t[x]
    }

    static lemma OneMoreJoins(t: Table, mid: Table, id: Uuid, now: int, covered: set<Uuid>)
      requires id in mid && mid.Keys == t.Keys && forall x | x in t :: mid[x].path == t[x].path
      requires forall x {:trigger JoinsTrash(t, mid, x, covered, now)} | x in t :: JoinsTrash(t, mid, x, covered, now)
      ensures var t' := Discarded(mid, id, now);
              && t'.Keys == t.Keys
              && forall x {:trigger JoinsTrash(t, t', x, covered + Subtree(t, id), now)} | x in t ::
                   JoinsTrash(t, t', x, covered + Subtree(t, id), now)
    {
      var t' := Discarded(mid, id, now);
      forall x | x in t ensures JoinsTrash(t, t', x, covered + Subtree(t, id), now) {
        assert JoinsTrash(t, mid, x, covered, now);
      }
    }

    static lemma DiscardOneMore(t: Table, mid: Table, id: Uuid, now: int, covered: set<Uuid>)
      requires id in mid && mid.Keys == t.Keys && forall x | x in t :: mid[x].path == t[x].path
      requires forall x | x in t :: mid[x].status.Trashed? <==> t[x].status.Trashed? || x in covered
      ensures var t' := Discarded(mid, id, now);
              && t'.Keys == t.Keys && (forall x | x in t :: t'[x].path == t[x].path)
              && forall x | x in t :: t'[x].status.Trashed? <==> t[x].status.Trashed? || x in covered + Subtree(t, id)
    {
    }

    /** Listing number `i` of a batch of deletes spoils the recorded parent of its node: the node's parent is
        in the trash by then, from before or through an earlier listing, and no later listing covers the
        node again. */
    static ghost predicate LostAt(t: Table, ids: seq<Uuid>, n: nat, i: nat)
      requires i < n <= |ids|
    {
      && ids[i] in t && t[ids[i]].parent != NIL
      && (!Live(t, t[ids[i]].parent) || t[ids[i]].parent in Covered(t, ids, i))
      && forall j | i < j < n && ids[j] in t :: !Under(t, ids[j], ids[i])
    }

    /** The batch can be told before it runs to leave every recorded parent right. */
    static ghost predicate OriginsKept(t: Table, ids: seq<Uuid>) {
      forall i | 0 <= i < |ids| :: !LostAt(t, ids, |ids|, i)
    }

    static ghost predicate NoneLost(t: Table, ids: seq<Uuid>, n: nat, x: Uuid)
      requires n <= |ids|
    {
      forall i | 0 <= i < n && ids[i] == x :: !LostAt(t, ids, n, i)
    }

    /** No trashed row was recorded as deleted from itself. */
    static predicate NotOwnOrigin(t: Table, x: Uuid)
      requires x in t
    {
      t[x].status.Trashed? ==> t[x].originalParent != x
    }

    /** What one more delete does to the recorded parent of a row. */
    static lemma DiscardedOrigin(t: Table, id: Uuid, now: int, x: Uuid)
      requires Sound(t) && id in t && x in t
      ensures !Under(t, id, x) ==> (OriginRight(Discarded(t, id, now), x) <==> OriginRight(t, x))
      ensures Under(t, id, x) && x != id ==> OriginRight(Discarded(t, id, now), x)
      ensures x == id ==> var p := t[id].parent;
                          (OriginRight(Discarded(t, id, now), x) <==>
                              p == NIL || Live(t, p) || (p in t && t[p].originalParent == p))
      ensures NotOwnOrigin(t, x) ==> NotOwnOrigin(Discarded(t, id, now), x)
    {
      UnderStep(t, id, x);
      UnderStep(t, id, id);
      assert Placed(t, x) && Placed(t, id);
    }

    /** A batch of deletes after `n` of its listings: the same tree, and a row's recorded parent is right
        exactly when no listing of the row so far spoiled it for good. */
    static ghost predicate OriginsAfter(t: Table, ids: seq<Uuid>, n: nat, now: Table)
      requires n <= |ids|
    {
      && Sound(now) && SamePlaces(t, now)
      && forall x {:trigger OriginAfter(t, ids, n, now, x)} | x in t :: OriginAfter(t, ids, n, now, x)
    }

    static ghost predicate OriginAfter(t: Table, ids: seq<Uuid>, n: nat, now: Table, x: Uuid)
      requires n <= |ids| && x in t && x in now
    {
      && now[x].parent == t[x].parent && NotOwnOrigin(now, x)
      && (OriginRight(now, x) <==> NoneLost(t, ids, n, x))
    }

    static lemma {:induction false} OriginsAfterDiscards(cfg: Config, before: Db, es: seq<Event>, after: Db,
                                                         ids: seq<Uuid>, now: int)
      requires Committed(cfg, before, es, after) && |es| <= |ids|
               && forall i | 0 <= i < |es| :: es[i] == Discard(ids[i], now)
      requires Inv(before.rows)
      ensures OriginsAfter(before.rows, ids, |es|, after.rows)
      decreases |es|
    {
      var mid := LastCommit(cfg, before, es, after);
      var t := before.rows;
      if es == [] {
        forall x | x in t ensures OriginAfter(t, ids, 0, t, x) {
          assert OriginRight(t, x);
          if t[x].status.Trashed? { OriginIsLiveFolder(t, x); }
        }
      } else {
        var n := |es| - 1;
        OriginsAfterDiscards(cfg, before, es[..n], mid, ids, now);
        DiscardsCover(cfg, before, es[..n], mid, ids, now);
        OriginsStep(t, mid.rows, ids, n, now);
      }
    }

    static lemma OriginsStep(t: Table, mid: Table, ids: seq<Uuid>, n: nat, now: int)
      requires n < |ids| && ids[n] in t && Inv(t) && OriginsAfter(t, ids, n, mid)
      requires forall y | y in t :: mid[y].status.Trashed? <==> t[y].status.Trashed? || y in Covered(t, ids, n)
      ensures OriginsAfter(t, ids, n + 1, Discarded(mid, ids[n], now))
    {
      DiscardKeeps(mid, ids[n], now);
      forall x | x in t ensures OriginAfter(t, ids, n + 1, Discarded(mid, ids[n], now), x) {
        assert OriginAfter(t, ids, n, mid, x);
        DiscardedOrigin(mid, ids[n], now, x);
        OneMoreListing(t, mid, ids, n, x);
      }
    }

    static lemma OneMoreListing(t: Table, mid: Table, ids: seq<Uuid>, n: nat, x: Uuid)
      requires n < |ids| && ids[n] in t && x in t && Inv(t) && OriginsAfter(t, ids, n, mid)
      requires forall y | y in t :: mid[y].status.Trashed? <==> t[y].status.Trashed? || y in Covered(t, ids, n)
      ensures !Under(t, ids[n], x) ==> (NoneLost(t, ids, n + 1, x) <==> NoneLost(t, ids, n, x))
      ensures Under(t, ids[n], x) && x != ids[n] ==> NoneLost(t, ids, n + 1, x)
      ensures x == ids[n] ==> var p := t[x].parent;
                              (NoneLost(t, ids, n + 1, x) <==>
                                  p == NIL || Live(mid, p) || (p in mid && mid[p].originalParent == p))
    {
      assert Placed(t, x);
      UnderStep(t, ids[n], ids[n]);
      if !Under(t, ids[n], x) {
        forall i | 0 <= i < n && ids[i] == x ensures LostAt(t, ids, n + 1, i) <==> LostAt(t, ids, n, i) {
          if LostAt(t, ids, n, i) {
            assert forall j | i < j < n + 1 && ids[j] in t :: j < n || ids[j] == ids[n];
          }
        }
      } else {
        forall i | 0 <= i < n && ids[i] == x ensures !LostAt(t, ids, n + 1, i) {
          assert Under(t, ids[n], ids[i]);
        }
        if x == ids[n] && t[x].parent != NIL {
          var p := t[x].parent;
          assert OriginAfter(t, ids, n, mid, p);
          assert LostAt(t, ids, n + 1, n) <==> !Live(mid, p);
        }
      }
    }

    /** A batch of deletes leaves recorded parents right exactly when none of its listings spoils one. */
    static lemma DiscardsKeepOriginsIff(cfg: Config, before: Db, es: seq<Event>, after: Db, ids: seq<Uuid>, now: int)
      requires Committed(cfg, before, es, after) && |es| == |ids|
               && forall i | 0 <= i < |es| :: es[i] == Discard(ids[i], now)
      requires Inv(before.rows)
      ensures Inv(after.rows) <==> OriginsKept(before.rows, ids)
    {
      OriginsAfterDiscards(cfg, before, es, after, ids, now);
      var t := before.rows;
      if OriginsKept(t, ids) {
        forall x | x in after.rows ensures OriginRight(after.rows, x) {
          assert OriginAfter(t, ids, |ids|, after.rows, x);
        }
      }
      if Inv(after.rows) {
        forall i | 0 <= i < |ids| ensures !LostAt(t, ids, |ids|, i) {
          if ids[i] in t {
            assert OriginRight(after.rows, ids[i]);
            assert OriginAfter(t, ids, |ids|, after.rows, ids[i]);
          }
        }
      }
    }

    /** Deleting a folder and, in the same batch, a node inside it spoils the node's recorded parent: the
        node is then listed among the tops of the trash beside the folder, whose purge takes it away. */
    static lemma NestedDeleteLosesOrigin(t: Table, folder: Uuid, child: Uuid, now: int)
      requires Inv(t) && folder in t && child in t && t[child].parent == folder
      requires Live(t, folder) && Live(t, child)
      ensures !OriginsKept(t, [folder, child]) && OriginsKept(t, [child, folder])
      ensures var t' := Discarded(Discarded(t, folder, now), child, now);
              && !Inv(t')
              && folder in TrashRoots(t', None) && child in TrashRoots(t', None) && Under(t', folder, child)
    {
      var ids, back, mid := [folder, child], [child, folder], Discarded(t, folder, now);
      UnderStep(t, folder, child);
      UnderStep(t, folder, folder);
      UnderStep(t, child, folder);
      UnderStep(t, child, child);
      assert Placed(t, folder) && Sheltered(t, folder) && Placed(t, child);
      assert ids[0] in t && Covered(t, ids, 1) == Covered(t, ids, 0) + Subtree(t, folder);
      assert LostAt(t, ids, 2, 1);
      assert Covered(t, back, 1) == Covered(t, back, 0) + Subtree(t, child);
      assert Under(t, back[1], back[0]);
      assert !LostAt(t, back, 2, 0) && !LostAt(t, back, 2, 1);
      DiscardKeepsIff(t, folder, now);
      DiscardKeepsIff(mid, child, now);
    }

    /** A folder listed again after a node inside it brings the node's recorded parent back in line. */
    static lemma RepeatedDeleteMends(t: Table, folder: Uuid, child: Uuid)
      requires Inv(t) && folder in t && child in t && t[child].parent == folder
      requires Live(t, folder) && Live(t, child)
      ensures OriginsKept(t, [folder, child, folder])
    {
      var ids := [folder, child, folder];
      UnderStep(t, folder, child);
      UnderStep(t, folder, folder);
      UnderStep(t, child, folder);
      if t[folder].parent in t {
        UnderStep(t, child, t[folder].parent);
        UnderStep(t, folder, t[folder].parent);
      }
      assert Placed(t, folder) && Sheltered(t, folder);
      assert Covered(t, ids, 2) == Subtree(t, folder) + Subtree(t, child) by {
        assert Covered(t, ids, 1) == Covered(t, ids, 0) + Subtree(t, folder);
      }
      assert Under(t, ids[2], ids[0]) && Under(t, ids[2], ids[1]);
      assert !LostAt(t, ids, 3, 0) && !LostAt(t, ids, 3, 1) && !LostAt(t, ids, 3, 2);
    }

    static function RootsOf(t: Table, owner: Uuid): set<Uuid> {
      set x | x in t && t[x].parent == NIL && t[x].owner == owner && t[x].status.Active?
    }

    /** What a listing of the roots returns: each at most once, and all of them within the limit. */
    static ghost predicate IsRootList(t: Table, owner: Uuid, ids: seq<Uuid>) {
      && (forall i | 0 <= i < |ids| :: ids[i] in RootsOf(t, owner))
      && (forall i, j | 0 <= i < j < |ids| :: ids[i] != ids[j])
      && (|RootsOf(t, owner)| <= ROOT_LIMIT ==> ToSet(ids) == RootsOf(t, owner))
    }

    method ListRoots(owner: Uuid) returns (ids: seq<Uuid>)
      ensures IsRootList(rows, owner, ids)
    {
      ids := [];
      var left := RootsOf(rows, owner);
      while left != {} && |ids| < ROOT_LIMIT
        invariant left <= RootsOf(rows, owner) && |ids| <= ROOT_LIMIT
        invariant ToSet(ids) == RootsOf(rows, owner) - left
        invariant forall i, j | 0 <= i < j < |ids| :: ids[i] != ids[j]
        decreases left
      {
        var id: Uuid :| id in left;
        left := left - {id};
        AppendToSet(ids, id);
        ids := ids + [id];
      }
      CutListing(ids, left, RootsOf(rows, owner));
    }

    /** TrashAllForOwner: exactly what lies below the listed root level nodes of the account is trashed,
        whoever owns it, in one transaction, and the rows are counted. */
    method TrashAllForOwner(owner: Uuid, now: int) returns (r: Result<int>, ghost es: seq<Event>, ghost ids: seq<Uuid>)
      requires Valid()
      modifies this`rows
      ensures Valid() && rows.Keys == old(rows).Keys
      ensures r.Ok? <==> owner != NIL
      ensures owner == NIL ==> rows == old(rows)
      ensures r.Ok? ==> IsRootList(old(rows), owner, ids) && r.value == Reach(old(rows), ids, |ids|)
      ensures r.Ok? ==> OwnRoots(old(rows), owner, ids)
      ensures r.Ok? && |RootsOf(old(rows), owner)| <= ROOT_LIMIT ==> NoRootLeft(old(rows), rows, owner)
      ensures r.Ok? ==> Committed(cfg, old(State()), es, State()) && |es| == |ids| && AreDiscards(es, ids, now, rows)
      ensures r.Ok? ==> forall x | x in rows ::
                rows[x].status.Trashed? <==> old(rows)[x].status.Trashed? || x in Covered(old(rows), ids, |ids|)
      ensures r.Ok? ==> forall x | x in rows :: JoinsTrash(old(rows), rows, x, Covered(old(rows), ids, |ids|), now)
      ensures old(Inv(rows)) ==> Inv(rows)
    {
      es, ids := [], [];
      if owner == NIL { return Err(InvalidArgument), [], []; }
      var roots := ListRoots(owner);
      ids := roots;
      ghost var was := rows;
      r, es := DiscardAll((t, x, want) => None, roots, now);
      RootsAreCovered(was, rows, owner, ids);
    }

    /** Every listed node is active, at the root level, and the account's. */
    static predicate OwnRoots(t: Table, owner: Uuid, ids: seq<Uuid>) {
      forall i | 0 <= i < |ids| ::
        ids[i] in t && t[ids[i]].parent == NIL && t[ids[i]].owner == owner && t[ids[i]].status.Active?
    }

    /** No node at the root level that is the account's is left alive. */
    static predicate NoRootLeft(t: Table, t': Table, owner: Uuid) {
      forall x | x in t && t[x].parent == NIL && t[x].owner == owner :: x in t' && t'[x].status.Trashed?
    }

    static lemma RootsAreCovered(t: Table, t': Table, owner: Uuid, ids: seq<Uuid>)
      requires Indexed(t) && t'.Keys == t.Keys && IsRootList(t, owner, ids)
      requires forall x | x in t :: t'[x].status.Trashed? <==> t[x].status.Trashed? || x in Covered(t, ids, |ids|)
      ensures OwnRoots(t, owner, ids)
      ensures |RootsOf(t, owner)| <= ROOT_LIMIT ==> NoRootLeft(t, t', owner)
    {
      CoveredIsUnder(t, ids, |ids|);
      if |RootsOf(t, owner)| <= ROOT_LIMIT {
        forall x | x in t && t[x].parent == NIL && t[x].owner == owner ensures t'[x].status.Trashed? {
          if t[x].status.Active? {
            assert x in ToSet(ids);
            var k :| 0 <= k < |ids| && ids[k] == x;
            UnderStep(t, x, x);
          }
        }
      }
    }

    /** The same rows under the same paths. */
    static ghost predicate SamePlaces(t: Table, t': Table) {
      t'.Keys == t.Keys && forall x | x in t :: t'[x].path == t[x].path
    }

    /** Where a restore goes: the requested folder or else the recorded parent; a folder that is
        gone is replaced by the root. */
    static function RestoreTarget(t: Table, id: Uuid, requested: Uuid): Uuid
      requires id in t
    {
      var wanted := if requested == NIL then t[id].originalParent else requested;
      if wanted in t then wanted else NIL
    }

    /** While recorded parents are right, a restore without a target goes exactly where the topmost
        deleted node was, and may write there. */
    static lemma RestoreGoesHome(t: Table, id: Uuid)
      requires Inv(t) && id in t && t[id].status.Trashed?
      ensures RestoreTarget(t, id, NIL) == t[id].originalParent && Writable(t, t[id].originalParent)
    {
      OriginIsLiveFolder(t, id);
    }

    static ghost predicate MayRestore(cfg: Config, gate: Gate, t: Table, id: Uuid, requested: Uuid, policy: Policy) {
      && id in t && t[id].status.Trashed? && gate(t, id, ToRestore) == None
      && MayPlace(cfg, gate, t, RestoreTarget(t, id, requested), t[id].name, policy, id)
    }

    /** The checks of a restore. No cycle test is made. */
    method CheckRestore(gate: Gate, id: Uuid, requested: Uuid, policy: Policy) returns (r: Result<string>)
      requires Valid()
      ensures r.Ok? <==> MayRestore(cfg, gate, rows, id, requested, policy)
      ensures r.Ok? ==>
                IsResolved(rows, cfg.fold, RestoreTarget(rows, id, requested), rows[id].name, policy, id, r.value)
                        && Fits(cfg, rows, RestoreTarget(rows, id, requested), r.value, id)
    {
      if id !in rows { return Err(NotFound); }
      if rows[id].status.Active? { return Err(InvalidArgument); }
      var refusal := gate(rows, id, ToRestore);
      if refusal.Some? { return Err(refusal.value); }
      var target := RestoreTarget(rows, id, requested);
      if target != NIL {
        refusal := gate(rows, target, ToUpload);
        if refusal.Some? { return Err(refusal.value); }
      }
      if !Writable(rows, target) { return Err(InvalidArgument); }
      if DepthOf(rows, target) + 1 >= cfg.maxDepth { return Err(InvalidArgument); }
      r := ResolveName(rows, cfg.fold, target, rows[id].name, policy, id);
    }

    /** One element of a restore batch. */
    method RestoreNode(gate: Gate, id: Uuid, requested: Uuid, policy: Policy)
      returns (r: Result<()>, ghost es: seq<Event>)
      requires Valid()
      modifies this`rows
      ensures Valid() && rows.Keys == old(rows).Keys
      ensures r.Err? ==> rows == old(rows)
      ensures r.Ok? <==> old(MayRestore(cfg, gate, rows, id, requested, policy))
      ensures r.Ok? ==> old(rows[id].status.Trashed?) && gate(old(rows), id, ToRestore) == None
                        && (rows[id].parent != NIL ==> gate(old(rows), rows[id].parent, ToUpload) == None)
      ensures r.Ok? ==> Committed(cfg, old(State()), es, State())
      ensures r.Ok? ==>
                id in rows && rows[id].parent == old(RestoreTarget(rows, id, requested)) && rows[id].status.Active?
      ensures r.Ok? ==> ComesAlive(old(rows), rows, id)
      ensures r.Ok? ==> rows == Revived(WithName(cfg, Moved(old(rows), id, rows[id].parent), id, rows[id].name), id)
      ensures r.Ok? ==> es == [Restore(id, rows[id].parent, rows[id].name)]
                        && IsResolved(old(rows), cfg.fold, rows[id].parent, old(rows)[id].name, policy, id,
                           rows[id].name)
    {
      es := [];
      var finalName := CheckRestore(gate, id, requested, policy);
      if finalName.Err? { return Err(finalName.error), []; }
      es := PutBack(id, RestoreTarget(rows, id, requested), finalName.value);
      r := Ok(());
    }

    /** The writes of a restore. */
    method PutBack(id: Uuid, target: Uuid, name: string) returns (ghost es: seq<Event>)
      requires Valid() && id in rows && rows[id].status.Trashed? && Fits(cfg, rows, target, name, id)
      modifies this`rows
      ensures Valid() && rows.Keys == old(rows).Keys && es == [Restore(id, target, name)]
              && Committed(cfg, old(State()), es, State())
      ensures rows[id].parent == target && rows[id].status.Active? && rows[id].name == name
      ensures ComesAlive(old(rows), rows, id)
      ensures rows == Revived(WithName(cfg, Moved(old(rows), id, target), id, name), id)
    {
      ghost var before, e := State(), Restore(id, target, name);
      MoveUnder(id, target, name);
      rows := Revived(rows, id);
      assert State() == Apply(cfg, before, e);
      RestoredFacts(cfg, before.rows, id, target, name);
      CommitOne(cfg, before, e);
      es := [e];
    }

    static lemma RestoredFacts(cfg: Config, t: Table, id: Uuid, target: Uuid, name: string)
      requires Sound(t) && id in t && t[id].status.Trashed? && Writable(t, target)
      ensures var t' := Revived(WithName(cfg, Moved(t, id, target), id, name), id);
              && ComesAlive(t, t', id)
              && t'[id].parent == target && t'[id].status.Active? && t'[id].name == name
    {
      RestoreThenName(cfg, Moved(t, id, target), id, name);
      RestoredAlive(t, id, target);
      NameStaysAlive(cfg, t, Restored(t, id, target), id, name);
    }

    static lemma RestoredAlive(t: Table, id: Uuid, target: Uuid)
      requires Sound(t) && id in t && t[id].status.Trashed? && Writable(t, target)
      ensures ComesAlive(t, Restored(t, id, target), id) && Restored(t, id, target)[id].parent == target
    {
      RestoreKeeps(t, id, target);
      RestoredParent(t, id, target);
    }

    static lemma NameStaysAlive(cfg: Config, t: Table, t': Table, id: Uuid, name: string)
      requires id in t && ComesAlive(t, t', id) && Indexed(t)
      ensures ComesAlive(t, WithName(cfg, t', id, name), id)
      ensures WithName(cfg, t', id, name)[id] ==
              t'[id].(name := name, nameLower := WithName(cfg, t', id, name)[id].nameLower)
      ensures WithName(cfg, t', id, name)[id].status.Active?
    {
      UnderStep(t, id, id);
      NamingKeepsPlace(cfg, t', id, name);
    }

    /** Exactly the subtree comes alive, in its old shape below `id`, and no other row changes. */
    static ghost predicate ComesAlive(t: Table, t': Table, id: Uuid)
      requires id in t
    {
      && t'.Keys == t.Keys
      && (forall x | x in t :: Live(t', x) <==> Live(t, x) || Under(t, id, x))
      && (forall x | x in t && x != id :: t'[x].parent == t[x].parent)
      && (forall x | x in t && !Under(t, id, x) :: t'[x] == t[x])
    }

    static lemma RestoredParent(t: Table, id: Uuid, target: Uuid)
      requires Sound(t) && id in t && t[id].status.Trashed? && Writable(t, target)
      ensures var t' := Restored(t, id, target);
              && t'.Keys == t.Keys && t'[id].parent == target && Live(t', id)
              && (forall x | x in t && x != id :: t'[x].parent == t[x].parent)
              && (forall x | x in t && !Under(t, id, x) :: t'[x] == t[x])
    {
      RestoreCannotCycle(t, id, target);
      UnderStep(t, id, id);
      forall x | x in t && !Under(t, id, x) ensures Restored(t, id, target)[x] == t[x] {
        OutsideRestored(t, id, target, x);
      }
    }

    static lemma OutsideRestored(t: Table, id: Uuid, target: Uuid, x: Uuid)
      requires Indexed(t) && id in t && x in t && IsParent(t, target)
      requires !(t[id].path <= PathOf(t, target)) && !Under(t, id, x)
      ensures Restored(t, id, target)[x] == t[x]
    {
      UnderStep(t, id, id);
      UnderMoved(t, id, target, x);
      assert Moved(t, id, target)[x] == t[x];
    }

    static lemma NamingKeepsPlace(cfg: Config, t: Table, id: Uuid, name: string)
      requires id in t
      ensures var t' := WithName(cfg, t, id, name);
              && t'.Keys == t.Keys && t'[id].name == name && t'[id].parent == t[id].parent
                 && t'[id].status == t[id].status
              && forall x | x in t && x != id :: t'[x] == t[x]
    {
    }

    /** After the first `n` restores of a batch: exactly the old active rows and the listed subtrees are active,
        every listed node is where its restore took it, no other row has a new parent, and rows outside the listed
        subtrees are as they were. */
    static ghost predicate BatchRestored(t: Table, now: Table, ids: seq<Uuid>, n: nat, requested: Uuid)
      requires n <= |ids|
    {
      && now.Keys == t.Keys
      && (forall x | x in t :: Live(now, x) <==> Live(t, x) || x in Covered(t, ids, n))
      && (forall x | x in t && x !in Covered(t, ids, n) :: now[x] == t[x])
      && (forall x | x in t && x !in ids[..n] :: now[x].parent == t[x].parent)
      && (forall i | 0 <= i < n ::
            && ids[i] in t && t[ids[i]].status.Trashed? && Live(now, ids[i])
            && now[ids[i]].parent == RestoreTarget(t, ids[i], requested))
    }

    /** Told from the table before the batch: every listed node is in the trash, below none listed before it, its
        target takes it, and no two rows that meet in a target fold to one name. */
    static ghost predicate Restorable(cfg: Config, gate: Gate, t: Table, ids: seq<Uuid>, requested: Uuid) {
      && ids != []
      && (forall i | 0 <= i < |ids| :: ids[i] in t && t[ids[i]].status.Trashed? && ids[i] !in Covered(t, ids, i))
      && (forall i, s | 0 <= i < |ids| :: gate(s, ids[i], ToRestore) == None)
      && (forall i | 0 <= i < |ids| && ids[i] in t :: Receives(cfg, gate, t, RestoreTarget(t, ids[i], requested)))
      && (forall i, x | 0 <= i < |ids| && ids[i] in t && x in t && x != ids[i]
                        && MeetsBack(t, ids, requested, RestoreTarget(t, ids[i], requested), x) ::
            t[x].nameLower != Lower(cfg.fold, t[ids[i]].name))
    }

    /** The folder takes another child whatever becomes of rows elsewhere. */
    static ghost predicate Receives(cfg: Config, gate: Gate, t: Table, target: Uuid) {
      && Writable(t, target) && DepthOf(t, target) + 1 < cfg.maxDepth
      && forall s :: target != NIL ==> gate(s, target, ToUpload) == None
    }

    /** The row is active below the target, or listed and to be restored there. */
    static predicate MeetsBack(t: Table, ids: seq<Uuid>, requested: Uuid, target: Uuid, x: Uuid)
      requires x in t
    {
      if t[x].status.Active? then t[x].parent == target else x in ids && RestoreTarget(t, x, requested) == target
    }

    /** Active rows of the batch have the names they had. */
    static ghost predicate NamesBack(t: Table, now: Table) {
      now.Keys == t.Keys && forall x | x in t :: now[x].name == t[x].name && now[x].nameLower == t[x].nameLower
    }

    /** The next element of such a batch passes every check. */
    static lemma NextIsRestorable(cfg: Config, gate: Gate, t: Table, mid: Table, ids: seq<Uuid>, i: nat,
                                  requested: Uuid, policy: Policy)
      requires Sound(t) && i < |ids| && Restorable(cfg, gate, t, ids, requested)
      requires BatchRestored(t, mid, ids, i, requested) && NamesBack(t, mid)
      ensures MayRestore(cfg, gate, mid, ids[i], requested, policy)
      ensures !Taken(mid, RestoreTarget(mid, ids[i], requested), Lower(cfg.fold, mid[ids[i]].name), ids[i])
    {
      var id := ids[i];
      var target := RestoreTarget(t, id, requested);
      assert mid[id] == t[id];
      CoveredAreTrashed(cfg, gate, t, ids, i, requested);
      assert target in t ==> mid[target] == t[target];
      forall x | x in mid && x != id && mid[x].parent == target && mid[x].status.Active?
        ensures mid[x].nameLower != Lower(cfg.fold, mid[id].name)
      {
        RevivedHere(cfg, gate, t, mid, ids, i, requested, x, target);
      }
    }

    /** A row found active in the target folder was so before or is one of the restored ones. */
    static lemma RevivedHere(cfg: Config, gate: Gate, t: Table, mid: Table, ids: seq<Uuid>, i: nat, requested: Uuid,
                             x: Uuid, target: Uuid)
      requires Sound(t) && i < |ids| && Restorable(cfg, gate, t, ids, requested)
      requires BatchRestored(t, mid, ids, i, requested) && x in mid && mid[x].parent == target && Live(mid, x)
      requires target == NIL || Live(t, target)
      ensures MeetsBack(t, ids, requested, target, x)
    {
      if x in ids[..i] {
        var k :| 0 <= k < i && ids[k] == x;
        assert mid[ids[k]].parent == RestoreTarget(t, ids[k], requested);
      } else if x in Covered(t, ids, i) {
        CoveredIsUnder(t, ids, i);
        var k :| 0 <= k < i && ids[k] in t && Under(t, ids[k], x);
        assert ids[k] in ids[..i];
        UnderStep(t, ids[k], x);
        TrashedSubtree(t, ids[k], t[x].parent);
        assert false;
      }
    }

    static lemma CoveredAreTrashed(cfg: Config, gate: Gate, t: Table, ids: seq<Uuid>, n: nat, requested: Uuid)
      requires Sound(t) && n <= |ids| && Restorable(cfg, gate, t, ids, requested)
      ensures forall x | x in Covered(t, ids, n) :: x in t && t[x].status.Trashed?
    {
      CoveredIsUnder(t, ids, n);
      forall x | x in Covered(t, ids, n) ensures x in t && t[x].status.Trashed? {
        var k :| 0 <= k < n && ids[k] in t && Under(t, ids[k], x);
        TrashedSubtree(t, ids[k], x);
      }
    }

    static lemma OneMoreBack(t: Table, mid: Table, now: Table, ids: seq<Uuid>, i: nat, requested: Uuid)
      requires i < |ids| && BatchRestored(t, mid, ids, i, requested) && Sound(mid)
      requires ids[i] in mid && mid[ids[i]].status.Trashed? && ComesAlive(mid, now, ids[i]) && Live(now, ids[i])
      requires now[ids[i]].parent == RestoreTarget(mid, ids[i], requested)
      ensures BatchRestored(t, now, ids, i + 1, requested)
    {
      forall x | x in t
        ensures Live(now, x) <==> Live(t, x) || x in Covered(t, ids, i + 1)
        ensures x !in Covered(t, ids, i + 1) ==> now[x] == t[x]
        ensures x !in ids[..i + 1] ==> now[x].parent == t[x].parent
      {
        RowAfterBack(t, mid, now, ids, i, requested, x);
      }
      forall k | 0 <= k < i + 1
        ensures ids[k] in t && t[ids[k]].status.Trashed? && Live(now, ids[k])
        ensures now[ids[k]].parent == RestoreTarget(t, ids[k], requested)
      {
        if k == i { assert mid[ids[i]] == t[ids[i]]; }
      }
    }

    static lemma RowAfterBack(t: Table, mid: Table, now: Table, ids: seq<Uuid>, i: nat, requested: Uuid, x: Uuid)
      requires i < |ids| && BatchRestored(t, mid, ids, i, requested) && Sound(mid) && x in t
      requires ids[i] in mid && mid[ids[i]].status.Trashed? && ComesAlive(mid, now, ids[i])
      ensures Live(now, x) <==> Live(t, x) || x in Covered(t, ids, i + 1)
      ensures x !in Covered(t, ids, i + 1) ==> now[x] == t[x]
      ensures x !in ids[..i + 1] ==> now[x].parent == t[x].parent
    {
      assert ids[..i + 1] == ids[..i] + [ids[i]];
      assert mid[ids[i]] == t[ids[i]];
      if Under(mid, ids[i], x) { TrashedSubtree(mid, ids[i], x); }
      if mid[x].status.Trashed? { assert mid[x] == t[x]; }
    }

    /** A restore that keeps the name keeps every name. */
    static lemma NamesStayBack(cfg: Config, t: Table, mid: Table, id: Uuid, target: Uuid, now: Table)
      requires id in mid && NamesBack(t, mid)
      requires now == Revived(WithName(cfg, Moved(mid, id, target), id, mid[id].name), id)
      ensures NamesBack(t, now)
    {
    }

    /** RestoreNodes: exactly the listed subtrees come alive, each below its own target, whatever the earlier
        elements of the batch did; or nothing changes. */
    method RestoreNodes(gate: Gate, ids: seq<Uuid>, requested: Uuid, policy: Policy)
      returns (r: Result<()>, ghost es: seq<Event>)
      requires Valid()
      modifies this`rows
      ensures Valid() && rows.Keys == old(rows).Keys
      ensures r.Err? ==> rows == old(rows)
      ensures r.Ok? ==> Committed(cfg, old(State()), es, State()) && |es| == |ids| && AreRestores(es, ids)
      ensures r.Ok? ==> BatchRestored(old(rows), rows, ids, |ids|, requested)
      ensures r.Ok? ==> forall i | 0 <= i < |ids| :: AloneInName(cfg.fold, rows, ids[i])
      ensures r.Ok? && requested != NIL ==>
                forall i | 0 <= i < |ids| :: rows[ids[i]].parent == if requested in old(rows) then requested else NIL
      ensures r.Ok? && requested == NIL && old(Inv(rows)) ==>
                forall i | 0 <= i < |ids| :: rows[ids[i]].parent == old(rows)[ids[i]].originalParent
      ensures old(Inv(rows)) ==> Inv(rows)
      ensures old(Restorable(cfg, gate, rows, ids, requested)) ==> r.Ok?
    {
      if ids == [] { return Err(InvalidArgument), []; }
      var saved := rows;
      ghost var start := State();
      r, es := RestoreEach(gate, ids, requested, policy);
      if r.Err? { rows := saved; return r, []; }
      CommittedRestoresApart(cfg, start, es, State());
      RestoredWhere(saved, rows, ids, requested);
      if Inv(saved) { HarmlessRunsKeep(cfg, start, es, State()); }
    }

    /** The folder asked for, and only in its absence another. */
    static lemma RestoredWhere(t: Table, now: Table, ids: seq<Uuid>, requested: Uuid)
      requires BatchRestored(t, now, ids, |ids|, requested)
      ensures requested != NIL ==>
                forall i | 0 <= i < |ids| :: now[ids[i]].parent == if requested in t then requested else NIL
      ensures requested == NIL && Inv(t) ==>
                forall i | 0 <= i < |ids| :: now[ids[i]].parent == t[ids[i]].originalParent
    {
      if requested == NIL && Inv(t) {
        forall i | 0 <= i < |ids| ensures now[ids[i]].parent == t[ids[i]].originalParent {
          RestoreGoesHome(t, ids[i]);
        }
      }
    }

    /** The loop of the transaction. A failure leaves the earlier restores to the rollback. */
    method RestoreEach(gate: Gate, ids: seq<Uuid>, requested: Uuid, policy: Policy)
      returns (r: Result<()>, ghost es: seq<Event>)
      requires Valid()
      modifies this`rows
      ensures Valid() && rows.Keys == old(rows).Keys
      ensures r.Ok? ==> Committed(cfg, old(State()), es, State()) && |es| == |ids| && AreRestores(es, ids)
      ensures r.Ok? ==> BatchRestored(old(rows), rows, ids, |ids|, requested)
      ensures old(Restorable(cfg, gate, rows, ids, requested)) ==> r.Ok?
    {
      es := [];
      ghost var first, start := rows, State();
      CommitNothing(cfg, start);
      assert ids[..0] == [];
      var i := 0;
      while i < |ids|
        invariant 0 <= i <= |ids| && Valid() && BatchRestored(first, rows, ids, i, requested)
        invariant Committed(cfg, start, es, State()) && AreRestores(es, ids) && |es| == i
        invariant Restorable(cfg, gate, first, ids, requested) ==> NamesBack(first, rows)
      {
        r, es := RestoreNext(gate, ids, i, requested, policy, first, start, es);
        if r.Err? { return; }
        i := i + 1;
      }
      r := Ok(());
    }

    static ghost predicate AreRestores(es: seq<Event>, ids: seq<Uuid>) {
      |es| <= |ids| && forall i | 0 <= i < |es| :: es[i].Restore? && es[i].id == ids[i]
    }

    method RestoreNext(gate: Gate, ids: seq<Uuid>, i: nat, requested: Uuid, policy: Policy,
                       ghost first: Table, ghost start: Db, ghost es: seq<Event>)
      returns (r: Result<()>, ghost more: seq<Event>)
      requires Valid() && i < |ids| && BatchRestored(first, rows, ids, i, requested)
      requires Committed(cfg, start, es, State()) && AreRestores(es, ids) && |es| == i
      modifies this`rows
      ensures Valid()
      ensures r.Ok? ==> Committed(cfg, start, more, State()) && AreRestores(more, ids) && |more| == i + 1
      ensures r.Ok? ==> BatchRestored(first, rows, ids, i + 1, requested)
      ensures rows.Keys == old(rows).Keys
      ensures Sound(first) && Restorable(cfg, gate, first, ids, requested) && NamesBack(first, old(rows)) ==>
                r.Ok? && NamesBack(first, rows)
    {
      ghost var mid := State();
      ghost var step;
      ghost var sure := Sound(first) && Restorable(cfg, gate, first, ids, requested) && NamesBack(first, rows);
      if sure { NextIsRestorable(cfg, gate, first, rows, ids, i, requested, policy); }
      r, step := RestoreNode(gate, ids[i], requested, policy);
      more := es + step;
      if r.Ok? {
        OneMoreBack(first, mid.rows, rows, ids, i, requested);
        CommitMore(cfg, start, es, mid, step, State());
        OneMoreRestore(es, ids, step[0]);
        if sure { NamesStayBack(cfg, first, mid.rows, ids[i], rows[ids[i]].parent, rows); }
      }
    }

    static lemma OneMoreRestore(es: seq<Event>, ids: seq<Uuid>, e: Event)
      requires |es| < |ids| && AreRestores(es, ids) && e.Restore? && e.id == ids[|es|]
      ensures AreRestores(es + [e], ids)
    {
    }

    // ---- Purging ----------------------------------------------------------------------------

    /** ListNodes by path prefix without an explicit limit: the default limit cuts the answer. */
    method ListSubtree(id: Uuid) returns (scan: set<Uuid>)
      requires id in rows
      ensures IsScan(rows, id, cfg.listLimit, scan)
    {
      scan := {};
      var left := Subtree(rows, id);
      while left != {} && |scan| < cfg.listLimit
        invariant left + scan == Subtree(rows, id) && left !! scan && |scan| <= cfg.listLimit
        decreases left
      {
        var x: Uuid :| x in left;
        left, scan := left - {x}, scan + {x};
      }
      if left == {} {
        assert scan == Subtree(rows, id);
      } else {
        assert |Subtree(rows, id)| == |left| + |scan|;
      }
    }

    /** The counting loop of PurgeNodes. */
    method CountRemoved(removed: Table) returns (bytes: int, files: int, folders: int)
      ensures bytes == Total(removed, Measure(Bytes, None))
      ensures files == Total(removed, Measure(Files, None))
      ensures folders == Total(removed, Measure(Folders, None))
    {
      bytes, files, folders := 0, 0, 0;
      var left := removed;
      while left != map[]
        invariant bytes + Total(left, Measure(Bytes, None)) == Total(removed, Measure(Bytes, None))
        invariant files + Total(left, Measure(Files, None)) == Total(removed, Measure(Files, None))
        invariant folders + Total(left, Measure(Folders, None)) == Total(removed, Measure(Folders, None))
        decreases |left|
      {
        assert left.Keys == {} ==> left == map[];
        var x: Uuid :| x in left.Keys;
        TotalRemove(left, x, Measure(Bytes, None));
        TotalRemove(left, x, Measure(Files, None));
        TotalRemove(left, x, Measure(Folders, None));
        if left[x].kind.File? {
          bytes, files := bytes + left[x].size, files + 1;
        } else {
          folders := folders + 1;
        }
        left := left - {x};
      }
    }

    /** releaseObjects: queue the content of every removed node, current and retained, and drop the
        revision rows. */
    method ReleaseObjects(removed: Table) returns (ghost released: set<Uuid>)
      requires Numbered(history)
      modifies this`history, this`queue
      ensures IsRelease(old(history), removed.Keys, cfg.versionLimit, released)
      ensures history == old(history) - released && Numbered(history)
      ensures queue == old(queue) + RowKeys(removed) + VersionKeys(old(history), released)
    {
      released := {};
      ghost var vs := history;
      var left := removed.Keys;
      while left != {}
        invariant left <= removed.Keys
        invariant Numbered(history) && history == vs - released
        invariant IsRelease(vs, removed.Keys - left, cfg.versionLimit, released)
        invariant queue == old(queue) + RowKeys(removed - left) + VersionKeys(vs, released)
      {
        var x: Uuid :| x in left;
        var list := ReleaseNode(x, removed[x]);
        ReleaseOneMore(vs, removed, left, x, cfg.versionLimit, released, list);
        released := released + ToSet(list);
        left := left - {x};
      }
      assert removed - {} == removed && removed.Keys - {} == removed.Keys;
    }

    method ReleaseNode(x: Uuid, r: Row) returns (list: seq<Uuid>)
      requires Numbered(history)
      modifies this`history, this`queue
      ensures IsListing(old(history), x, cfg.versionLimit, list)
      ensures history == old(history) - ToSet(list) && Numbered(history)
      ensures queue == old(queue) + KeyOf(r) + VersionKeys(old(history), ToSet(list))
    {
      if r.key != "" { queue := queue + {r.key}; }
      list := ListVersions(history, x, cfg.versionLimit);
      DroppingKeepsNumbered(history, ToSet(list));
      DropListed(list);
    }

    static lemma ReleaseOneMore(vs: History, removed: Table, left: set<Uuid>, x: Uuid, limit: nat,
                                released: set<Uuid>, list: seq<Uuid>)
      requires x in left && left <= removed.Keys
      requires IsRelease(vs, removed.Keys - left, limit, released) && IsListing(vs - released, x, limit, list)
      ensures IsRelease(vs, removed.Keys - (left - {x}), limit, released + ToSet(list))
      ensures vs - released - ToSet(list) == vs - (released + ToSet(list))
      ensures VersionKeys(vs, released + ToSet(list)) ==
              VersionKeys(vs, released) + VersionKeys(vs - released, ToSet(list))
      ensures RowKeys(removed - (left - {x})) == RowKeys(removed - left) + KeyOf(removed[x])
    {
      ListingSize(vs - released, x, limit, list);
      ReleaseMore(vs, removed.Keys - left, x, limit, released, ToSet(list));
      assert removed.Keys - (left - {x}) == removed.Keys - left + {x};
      RowKeysAdd(removed - left, x, removed[x]);
      assert removed - (left - {x}) == (removed - left)[x := removed[x]];
      VersionKeysSplit(vs, released, ToSet(list));
    }

    static lemma VersionKeysSplit(vs: History, a: set<Uuid>, b: set<Uuid>)
      requires a !! b
      ensures VersionKeys(vs, a + b) == VersionKeys(vs, a) + VersionKeys(vs - a, b)
    {
      forall k | k in VersionKeys(vs, a) + VersionKeys(vs - a, b) ensures k in VersionKeys(vs, a + b) {
        if k in VersionKeys(vs - a, b) {
          var v :| v in b && v in vs - a && (vs - a)[v].key == k;
          assert v in a + b && vs[v].key == k;
        }
      }
    }

    static lemma ReleaseMore(vs: History, done: set<Uuid>, x: Uuid, limit: nat, released: set<Uuid>, more: set<Uuid>)
      requires IsRelease(vs, done, limit, released) && x !in done
      requires more <= Of(vs - released, x) && (|Of(vs - released, x)| <= limit ==> more == Of(vs - released, x))
      ensures IsRelease(vs, done + {x}, limit, released + more) && released !! more
    {
      assert Of(vs - released, x) == Of(vs, x) by {
        assert forall v | v in released :: vs[v].node != x;
      }
    }

    static lemma RowKeysAdd(t: Table, x: Uuid, r: Row)
      requires x !in t
      ensures RowKeys(t[x := r]) == RowKeys(t) + KeyOf(r)
    {
      var t' := t[x := r];
      forall k | k in RowKeys(t) + KeyOf(r) ensures k in RowKeys(t') {
        if k in KeyOf(r) {
          assert t'[x] == r;
        } else {
          var y :| y in t && k in KeyOf(t[y]);
          assert t'[y] == t[y];
        }
      }
      forall k | k in RowKeys(t') ensures k in RowKeys(t) + KeyOf(r) {
        var y :| y in t' && k in KeyOf(t'[y]);
        if y != x { assert t'[y] == t[y]; }
      }
    }

    method DropListed(list: seq<Uuid>)
      requires forall v | v in list :: v in history
      requires forall i, j | 0 <= i < j < |list| :: list[i] != list[j]
      modifies this`history, this`queue
      ensures history == old(history) - ToSet(list)
      ensures queue == old(queue) + VersionKeys(old(history), ToSet(list))
    {
      ghost var vs := history;
      var i := 0;
      while i < |list|
        invariant 0 <= i <= |list|
        invariant history == vs - ToSet(list[..i])
        invariant queue == old(queue) + VersionKeys(vs, ToSet(list[..i]))
      {
        assert list[i] !in ToSet(list[..i]);
        assert ToSet(list[..i + 1]) == ToSet(list[..i]) + {list[i]};
        queue := queue + {history[list[i]].key};
        history := history - {list[i]};
        i := i + 1;
      }
      assert list[..|list|] == list;
    }

    /** The writes of one element of a purge batch. */
    method RemoveSubtree(id: Uuid) returns (bytes: int, ghost scan: set<Uuid>, ghost released: set<Uuid>)
      requires Numbered(history) && id in rows && rows[id].owner in ledger
      modifies this`rows, this`ledger, this`history, this`queue
      ensures Numbered(history)
      ensures IsScan(old(rows), id, cfg.listLimit, scan) && IsRelease(old(history), scan, cfg.versionLimit, released)
      ensures rows == old(rows) - scan && history == old(history) - released
      ensures ledger == PurgeCharge(old(ledger), old(rows[id].owner), Part(old(rows), scan))
      ensures bytes == Total(old(rows), Measure(Bytes, None)) - Total(rows, Measure(Bytes, None))
      ensures queue == old(queue) + RowKeys(Part(old(rows), scan)) + VersionKeys(old(history), released)
    {
      var owner := rows[id].owner;
      var found := ListSubtree(id);
      var removed := Part(rows, found);
      assert removed.Keys == found;
      scan := removed.Keys;
      rows := rows - found;
      bytes := Refund(owner, removed);
      TotalSplit(old(rows), found, Measure(Bytes, None));
      released := ReleaseObjects(removed);
    }

    method Refund(owner: Uuid, removed: Table) returns (bytes: int)
      requires owner in ledger
      modifies this`ledger
      ensures ledger == PurgeCharge(old(ledger), owner, removed) && bytes == Total(removed, Measure(Bytes, None))
    {
      var files, folders;
      bytes, files, folders := CountRemoved(removed);
      ledger := Charge(ledger, owner, -bytes, -files, -folders);
    }

    /** One element of a purge batch. */
    method PurgeNode(gate: Gate, id: Uuid) returns (r: Result<int>, ghost e: Event)
      requires Numbered(history)
      modifies this`rows, this`ledger, this`history, this`queue
      ensures Numbered(history)
      ensures r.Ok? <==>
                old(id in rows && rows[id].status.Trashed? && rows[id].owner in ledger
                && gate(rows, id, ToPurge) == None)
      ensures r.Err? ==> State() == old(State())
      ensures r.Ok? ==>
                e.Purge? && e.id == id && Allowed(cfg, old(State()), e) && State() == Apply(cfg, old(State()), e)
      ensures r.Ok? ==>
                rows == old(rows) - e.scan && e.scan <= Subtree(old(rows), id) && ledger.Keys == old(ledger).Keys
      ensures r.Ok? ==> r.value == Total(old(rows), Measure(Bytes, None)) - Total(rows, Measure(Bytes, None))
    {
      e := Enqueue("");
      if id !in rows { return Err(NotFound), e; }
      var refusal := gate(rows, id, ToPurge);
      if refusal.Some? { return Err(refusal.value), e; }
      if rows[id].status.Active? { return Err(InvalidArgument), e; }
      if rows[id].owner !in ledger { return Err(NotFound), e; }
      ghost var before := State();
      var bytes;
      ghost var scan, released;
      bytes, scan, released := RemoveSubtree(id);
      e := Purge(id, scan, released);
      assert State() == Purged(before, e);
      r := Ok(bytes);
    }

    /** Every row of the table has a subtree the default listing can hold. */
    static ghost predicate ListingsFit(t: Table, ids: seq<Uuid>, limit: nat) {
      forall id {:trigger Subtree(t, id)} | id in ids && id in t :: |Subtree(t, id)| <= limit
    }

    /** A batch no element of which is refused when it is its turn. */
    static ghost predicate Purgeable(gate: Gate, t: Table, l: Ledger, ids: seq<Uuid>) {
      && ids != []
      && (forall i | 0 <= i < |ids| :: ids[i] in t && t[ids[i]].status.Trashed? && t[ids[i]].owner in l)
      && (forall i, s | 0 <= i < |ids| :: gate(s, ids[i], ToPurge) == None)
      && (forall i, j | 0 <= i < j < |ids| :: !Under(t, ids[i], ids[j]))
    }

    /** PurgeNodes: one transaction over the batch. */
    method PurgeNodes(gate: Gate, ids: seq<Uuid>) returns (r: Result<int>, ghost es: seq<Event>)
      requires Valid()
      modifies this`rows, this`ledger, this`history, this`queue
      ensures r.Err? ==> State() == old(State())
      ensures r.Ok? ==> Committed(cfg, old(State()), es, State()) && |es| == |ids|
      ensures r.Ok? ==> ArePurges(es, ids)
      ensures old(ListingsFit(rows, ids, cfg.listLimit)) ==> Valid()
      ensures r.Ok? && old(ListingsFit(rows, ids, cfg.listLimit)) ==>
                rows == old(rows) - Covered(old(rows), ids, |ids|) && EachWasThere(old(rows), ids, |ids|)
      ensures old(Inv(rows) && ListingsFit(rows, ids, cfg.listLimit)) ==> Inv(rows)
      ensures r.Ok? ==> r.value == Total(old(rows), Measure(Bytes, None)) - Total(rows, Measure(Bytes, None))
      ensures old(Purgeable(gate, rows, ledger, ids)) ==> r.Ok?
    {
      es := [];
      if ids == [] { return Err(InvalidArgument), []; }
      var savedRows, savedLedger, savedHistory, savedQueue := rows, ledger, history, queue;
      ghost var start := State();
      CommitNothing(cfg, start);
      var reclaimed := 0;
      var i := 0;
      while i < |ids|
        invariant 0 <= i <= |ids| && Numbered(history) && ledger.Keys == start.ledger.Keys && minted == start.minted
        invariant Committed(cfg, start, es, State()) && |es| == i
        invariant ArePurges(es, ids)
        invariant OnlyCoveredGone(start.rows, rows, ids, i)
        invariant reclaimed == Total(start.rows, Measure(Bytes, None)) - Total(rows, Measure(Bytes, None))
      {
        var purged, step := PurgeNext(gate, start, es, ids, i);
        if purged.Err? {
          rows, ledger, history, queue := savedRows, savedLedger, savedHistory, savedQueue;
          return Err(purged.error), [];
        }
        es := es + [step];
        reclaimed := reclaimed + purged.value;
        i := i + 1;
      }
      if ListingsFit(start.rows, ids, cfg.listLimit) {
        CommittedStaysRight(cfg, start, es, State());
        PurgesCover(cfg, start, es, State(), ids);
        CoveredIsUnder(start.rows, ids, |ids|);
        RemovalKeepsIff(start.rows, Covered(start.rows, ids, |ids|));
      }
      r := Ok(reclaimed);
    }

    method PurgeNext(gate: Gate, ghost start: Db, ghost es: seq<Event>, ids: seq<Uuid>, i: nat)
      returns (r: Result<int>, ghost step: Event)
      requires i < |ids| && Numbered(history) && ledger.Keys == start.ledger.Keys
      requires Committed(cfg, start, es, State()) && OnlyCoveredGone(start.rows, rows, ids, i)
      modifies this`rows, this`ledger, this`history, this`queue
      ensures Numbered(history)
      ensures r.Ok? ==> step.Purge? && step.id == ids[i] && Committed(cfg, start, es + [step], State())
      ensures r.Ok? ==> OnlyCoveredGone(start.rows, rows, ids, i + 1) && ledger.Keys == start.ledger.Keys
      ensures r.Ok? ==> r.value == Total(old(rows), Measure(Bytes, None)) - Total(rows, Measure(Bytes, None))
      ensures Purgeable(gate, start.rows, start.ledger, ids) ==> r.Ok?
    {
      ghost var mid := State();
      StillThere(gate, start.rows, start.ledger, rows, ids, i);
      r, step := PurgeNode(gate, ids[i]);
      if r.Ok? {
        StepCommits(cfg, start, es, mid, step);
        OneMoreGone(start.rows, mid.rows, ids, i, step.scan);
      }
    }

    /** `now` is `t` less some rows of the first `n` listed subtrees. */
    static ghost predicate OnlyCoveredGone(t: Table, now: Table, ids: seq<Uuid>, n: nat)
      requires n <= |ids|
    {
      t.Keys - now.Keys <= Covered(t, ids, n) && now == Part(t, now.Keys)
    }

    static lemma StillThere(gate: Gate, t: Table, l: Ledger, now: Table, ids: seq<Uuid>, i: nat)
      requires i < |ids| && OnlyCoveredGone(t, now, ids, i)
      ensures Purgeable(gate, t, l, ids) ==> ids[i] in now && now[ids[i]].status.Trashed? && now[ids[i]].owner in l
                                             && gate(now, ids[i], ToPurge) == None
    {
      if Purgeable(gate, t, l, ids) {
        NotCovered(gate, t, l, ids, i, i);
      }
    }

    static lemma {:induction false} NotCovered(gate: Gate, t: Table, l: Ledger, ids: seq<Uuid>, n: nat, i: nat)
      requires n <= i < |ids| && Purgeable(gate, t, l, ids)
      ensures ids[i] !in Covered(t, ids, n)
    {
      if n > 0 { NotCovered(gate, t, l, ids, n - 1, i); }
    }

    static lemma OneMoreGone(t: Table, now: Table, ids: seq<Uuid>, i: nat, scan: set<Uuid>)
      requires i < |ids| && OnlyCoveredGone(t, now, ids, i) && ids[i] in now && scan <= Subtree(now, ids[i])
      ensures OnlyCoveredGone(t, now - scan, ids, i + 1)
    {
      assert Subtree(now, ids[i]) <= Subtree(t, ids[i]);
    }

    static lemma StepCommits(cfg: Config, before: Db, es: seq<Event>, mid: Db, e: Event)
      requires Committed(cfg, before, es, mid) && Allowed(cfg, mid, e)
      ensures Committed(cfg, before, es + [e], Apply(cfg, mid, e))
    {
      var dbs := [mid, Apply(cfg, mid, e)];
      assert StepAt(cfg, [e], dbs, 0);
      assert Run(cfg, [e], dbs);
      CommitMore(cfg, before, es, mid, [e], Apply(cfg, mid, e));
    }

    static ghost predicate ArePurges(es: seq<Event>, ids: seq<Uuid>) {
      |es| <= |ids| && forall i | 0 <= i < |es| :: es[i].Purge? && es[i].id == ids[i]
    }

    /** No element of the batch was below an earlier one, which would have taken it away. */
    static ghost predicate EachWasThere(t: Table, ids: seq<Uuid>, n: nat)
      requires n <= |ids|
    {
      forall i {:trigger WasThere(t, ids, i)} | 0 <= i < n :: WasThere(t, ids, i)
    }

    static ghost predicate WasThere(t: Table, ids: seq<Uuid>, i: nat)
      requires i < |ids|
    {
      ids[i] in t && ids[i] !in Covered(t, ids, i)
    }

    static ghost predicate PurgedSoFar(t: Table, now: Table, ids: seq<Uuid>, n: nat)
      requires n <= |ids|
    {
      now == t - Covered(t, ids, n) && EachWasThere(t, ids, n)
    }

    /** What a batch of purges does when its listings fit: exactly the listed subtrees are gone. */
    static lemma {:induction false} PurgesCover(cfg: Config, before: Db, es: seq<Event>, after: Db, ids: seq<Uuid>)
      requires Committed(cfg, before, es, after) && Healthy(before) && ListingsFit(before.rows, ids, cfg.listLimit)
      requires ArePurges(es, ids)
      ensures Healthy(after) && PurgedSoFar(before.rows, after.rows, ids, |es|)
      decreases |es|
    {
      var mid := LastCommit(cfg, before, es, after);
      if es == [] {
        NothingPurged(before.rows, ids);
      } else {
        var n := |es| - 1;
        assert ArePurges(es[..n], ids) && es[n].Purge? && es[n].id == ids[n];
        PurgesCover(cfg, before, es[..n], mid, ids);
        FittingPurge(cfg, before.rows, mid, ids, n, es[n], after);
      }
    }

    static lemma NothingPurged(t: Table, ids: seq<Uuid>)
      ensures PurgedSoFar(t, t, ids, 0)
    {
    }

    /** A purge whose listing fits takes its whole subtree. */
    static lemma FittingPurge(cfg: Config, t: Table, mid: Db, ids: seq<Uuid>, n: nat, e: Event, after: Db)
      requires n < |ids| && PurgedSoFar(t, mid.rows, ids, n) && ListingsFit(t, ids, cfg.listLimit)
      requires Healthy(mid) && e.Purge? && e.id == ids[n] && Allowed(cfg, mid, e) && after == Apply(cfg, mid, e)
      ensures Healthy(after) && PurgedSoFar(t, after.rows, ids, n + 1)
    {
      OneMorePurged(t, mid.rows, ids, n);
      assert |Subtree(t, ids[n])| <= cfg.listLimit;
      WholePurgeIff(cfg, mid, e);
      WholePurgeLeavesNone(mid, e);
      ApplyKeepsHealthy(cfg, mid, e);
      assert Apply(cfg, mid, e).rows == mid.rows - Subtree(mid.rows, ids[n]);
    }

    static lemma OneMorePurged(t: Table, mid: Table, ids: seq<Uuid>, i: nat)
      requires i < |ids| && PurgedSoFar(t, mid, ids, i) && ids[i] in mid
      ensures ids[i] in t && |Subtree(mid, ids[i])| <= |Subtree(t, ids[i])|
      ensures PurgedSoFar(t, mid - Subtree(mid, ids[i]), ids, i + 1)
    {
      assert Subtree(mid, ids[i]) == Subtree(t, ids[i]) - Covered(t, ids, i);
      Smaller(Subtree(mid, ids[i]), Subtree(t, ids[i]));
      assert WasThere(t, ids, i);
      assert mid - Subtree(mid, ids[i]) == t - Covered(t, ids, i + 1);
    }

    // ---- Emptying the trash -----------------------------------------------------------------

    /** The query of EmptyTrash: trashed rows whose parent column equals the original parent column. */
    static function TrashRoots(t: Table, owner: Option<Uuid>): set<Uuid> {
      set x | x in t && t[x].status.Trashed? && t[x].parent == t[x].originalParent
                     && (owner.Some? ==> t[x].owner == owner.value)
    }

    static predicate OldEnough(r: Row, before: Option<int>) {
      before.Some? ==> r.trashedAt.Some? && r.trashedAt.value <= before.value
    }

    /** A deleted top is listed for its owner, and with a cut-off exactly from the time of its deletion on. */
    static lemma DeletedTopIsListedIff(t: Table, id: Uuid, now: int, owner: Option<Uuid>, before: Option<int>)
      requires Inv(t) && Live(t, id)
      ensures var t' := Discarded(t, id, now);
              && id in t'
              && ((id in TrashRoots(t', owner) && OldEnough(t'[id], before)) <==>
                  (owner == None || owner == Some(t[id].owner)) && (before == None || now <= before.value))
    {
      UnderStep(t, id, id);
    }

    method ListTrashRoots(owner: Option<Uuid>, before: Option<int>) returns (ids: seq<Uuid>)
      ensures IsTopList(rows, cfg.listLimit, owner, before, ids)
    {
      ids := [];
      var roots := TrashRoots(rows, owner);
      var left := roots;
      var listed := 0;
      while left != {} && listed < cfg.listLimit
        invariant left <= roots && listed + |left| == |roots| && listed <= cfg.listLimit
        invariant forall i | 0 <= i < |ids| :: ids[i] in roots && ids[i] !in left && OldEnough(rows[ids[i]], before)
        invariant forall i, j | 0 <= i < j < |ids| :: ids[i] != ids[j]
        invariant forall x | x in roots && x !in left && OldEnough(rows[x], before) :: x in ids
        decreases left
      {
        var x: Uuid :| x in left;
        left, listed := left - {x}, listed + 1;
        if OldEnough(rows[x], before) { ids := ids + [x]; }
      }
    }

    /** EmptyTrash: with original parents right, a batch of the listed tops never meets a row that an earlier
        element took away, so nothing but a refusal or a missing account can stop it; and it takes exactly
        what lies below the tops it lists. `ids` are those tops. */
    method EmptyTrash(gate: Gate, owner: Option<Uuid>, before: Option<int>)
      returns (r: Result<int>, ghost es: seq<Event>, ghost ids: seq<Uuid>)
      requires Valid()
      modifies this`rows, this`ledger, this`history, this`queue
      ensures IsTopList(old(rows), cfg.listLimit, owner, before, ids)
      ensures forall i | 0 <= i < |ids| ::
                old(ids[i] in rows && rows[ids[i]].status.Trashed?
                    && (owner.Some? ==> rows[ids[i]].owner == owner.value)
                    && (before.Some? ==> rows[ids[i]].trashedAt.Some? && rows[ids[i]].trashedAt.value <= before.value))
      ensures r.Err? ==> State() == old(State())
      ensures r.Ok? ==> Committed(cfg, old(State()), es, State()) && |es| == |ids| && ArePurges(es, ids)
      ensures r.Ok? ==> r.value == Total(old(rows), Measure(Bytes, None)) - Total(rows, Measure(Bytes, None))
      ensures old(Inv(rows) && Granted(gate, rows, ledger, owner, before)) ==> r.Ok?
      ensures r.Ok? && old(ListingsFit(rows, ids, cfg.listLimit)) ==>
                Valid() && rows == old(rows) - Covered(old(rows), ids, |ids|) && EachWasThere(old(rows), ids, |ids|)
      ensures r.Ok? && old(TopsFit(rows, cfg.listLimit, owner, before)) ==>
                rows == old(rows) - BelowTops(old(rows), owner, before)
      ensures r.Ok? && old(Inv(rows) && TopsFit(rows, cfg.listLimit, owner, before)) && owner == None
              && before == None ==>
                rows == old(rows) - TrashedRows(old(rows))
      ensures old(Inv(rows) && TopsFit(rows, cfg.listLimit, owner, before)) ==> Inv(rows)
    {
      ghost var start := rows;
      var listed := ListTrashRoots(owner, before);
      ids := listed;
      if Inv(start) && Granted(gate, start, ledger, owner, before) {
        TopsArePurgeable(gate, start, ledger, owner, before, ids);
      }
      if TopsFit(start, cfg.listLimit, owner, before) {
        ListedCover(start, cfg.listLimit, owner, before, ids);
      }
      if Inv(start) && owner == None && before == None { TopsCoverTrash(start); }
      r, es := PurgeListed(gate, listed);
    }

    /** PurgeNodes for what was listed, which may be nothing. */
    method PurgeListed(gate: Gate, ids: seq<Uuid>) returns (r: Result<int>, ghost es: seq<Event>)
      requires Valid()
      modifies this`rows, this`ledger, this`history, this`queue
      ensures r.Err? ==> State() == old(State())
      ensures r.Ok? ==> Committed(cfg, old(State()), es, State()) && |es| == |ids| && ArePurges(es, ids)
      ensures r.Ok? ==> r.value == Total(old(rows), Measure(Bytes, None)) - Total(rows, Measure(Bytes, None))
      ensures old(ids == [] || Purgeable(gate, rows, ledger, ids)) ==> r.Ok?
      ensures r.Ok? && old(ListingsFit(rows, ids, cfg.listLimit)) ==>
                Valid() && rows == old(rows) - Covered(old(rows), ids, |ids|) && EachWasThere(old(rows), ids, |ids|)
      ensures old(Inv(rows) && ListingsFit(rows, ids, cfg.listLimit)) ==> Inv(rows)
    {
      if ids == [] {
        CommitNothing(cfg, State());
        assert rows - {} == rows;
        return Ok(0), [];
      }
      r, es := PurgeNodes(gate, ids);
    }

    /** What EmptyTrash lists. */
    static ghost predicate IsTopList(t: Table, limit: nat, owner: Option<Uuid>, before: Option<int>, ids: seq<Uuid>) {
      && (forall i | 0 <= i < |ids| :: ids[i] in TrashRoots(t, owner) && OldEnough(t[ids[i]], before))
      && (forall i, j | 0 <= i < j < |ids| :: ids[i] != ids[j])
      && (|TrashRoots(t, owner)| <= limit ==>
         forall x | x in TrashRoots(t, owner) && OldEnough(t[x], before) :: x in ids)
    }

    /** The rows below the tops of an account, or of all, that are old enough. */
    static ghost function BelowTops(t: Table, owner: Option<Uuid>, before: Option<int>): set<Uuid> {
      set x | x in t && exists top :: top in TrashRoots(t, owner) && OldEnough(t[top], before) && Under(t, top, x)
    }

    static function TrashedRows(t: Table): set<Uuid> {
      set x | x in t && t[x].status.Trashed?
    }

    /** Nobody refuses the purge of a top, and its owner has an account. */
    static ghost predicate Granted(gate: Gate, t: Table, l: Ledger, owner: Option<Uuid>, before: Option<int>) {
      && (forall s, x | x in TrashRoots(t, owner) && OldEnough(t[x], before) :: gate(s, x, ToPurge) == None)
      && (forall x | x in TrashRoots(t, owner) && OldEnough(t[x], before) :: t[x].owner in l)
    }

    /** The tops fit one listing and so does the subtree of each that is old enough. */
    static ghost predicate TopsFit(t: Table, limit: nat, owner: Option<Uuid>, before: Option<int>) {
      && |TrashRoots(t, owner)| <= limit
      && forall x {:trigger Subtree(t, x)} | x in TrashRoots(t, owner) && OldEnough(t[x], before) ::
           |Subtree(t, x)| <= limit
    }

    /** A complete listing of the tops covers what lies below them, and what it covers fits. */
    static lemma ListedCover(t: Table, limit: nat, owner: Option<Uuid>, before: Option<int>, ids: seq<Uuid>)
      requires IsTopList(t, limit, owner, before, ids) && TopsFit(t, limit, owner, before)
      ensures ListingsFit(t, ids, limit) && Covered(t, ids, |ids|) == BelowTops(t, owner, before)
    {
      CoveredIsUnder(t, ids, |ids|);
      forall x | x in t ensures x in Covered(t, ids, |ids|) <==> x in BelowTops(t, owner, before) {
        if top :| top in TrashRoots(t, owner) && OldEnough(t[top], before) && Under(t, top, x) {
          var k :| 0 <= k < |ids| && ids[k] == top;
        }
      }
    }

    /** Listed tops never contain each other, so a purge of them meets no row already gone. */
    static lemma TopsArePurgeable(gate: Gate, t: Table, l: Ledger, owner: Option<Uuid>, before: Option<int>,
                                  ids: seq<Uuid>)
      requires Inv(t) && Granted(gate, t, l, owner, before)
      requires forall i | 0 <= i < |ids| :: ids[i] in TrashRoots(t, owner) && OldEnough(t[ids[i]], before)
      requires forall i, j | 0 <= i < j < |ids| :: ids[i] != ids[j]
      ensures ids == [] || Purgeable(gate, t, l, ids)
    {
      forall i, j | 0 <= i < j < |ids| ensures !Under(t, ids[i], ids[j]) {
        TrashRootsAreTops(t, ids[i]);
        TrashRootsAreTops(t, ids[j]);
        TopsAreNotNested(t, ids[i], ids[j]);
      }
    }

    /** Every trashed row lies below a top. */
    static lemma {:induction false} TopAbove(t: Table, x: Uuid) returns (top: Uuid)
      requires Inv(t) && x in t && t[x].status.Trashed?
      ensures top in TrashRoots(t, None) && Under(t, top, x)
      decreases |t[x].path|
    {
      assert Placed(t, x);
      UnderStep(t, x, x);
      TrashRootsAreTops(t, x);
      if t[x].parent in t && t[t[x].parent].status.Trashed? {
        top := TopAbove(t, t[x].parent);
        UnderStep(t, top, x);
      } else {
        top := x;
      }
    }

    /** For all accounts and times together that is the whole trash. */
    static lemma TopsCoverTrash(t: Table)
      requires Inv(t)
      ensures BelowTops(t, None, None) == TrashedRows(t)
    {
      forall x | x in t ensures x in BelowTops(t, None, None) <==> t[x].status.Trashed? {
        if t[x].status.Trashed? {
          var top := TopAbove(t, x);
        }
        if top :| top in TrashRoots(t, None) && Under(t, top, x) {
          TrashedSubtree(t, top, x);
        }
      }
    }

    static lemma {:induction false} CoveredIsUnder(t: Table, ids: seq<Uuid>, n: nat)
      requires n <= |ids|
      ensures Covered(t, ids, n) <= t.Keys
      ensures forall x | x in t :: x in Covered(t, ids, n) <==>
                exists k | 0 <= k < n :: ids[k] in t && Under(t, ids[k], x)
    {
      if n > 0 {
        CoveredIsUnder(t, ids, n - 1);
      }
    }

    // ---- Content ----------------------------------------------------------------------------

    /** checkQuotaFor: nothing to check for no extra bytes or an account without a quota. */
    method CheckQuota(owner: Uuid, extra: int) returns (refusal: Option<Error>)
      requires owner == NIL ==> owner !in ledger
      ensures refusal.None? <==> QuotaAllows(ledger, owner, extra)
      ensures refusal.None? ==> WithinQuota(ledger, owner, extra)
      ensures refusal.None? <==> extra <= 0 || owner == NIL
                                 || (owner in ledger && (ledger[owner].quota > 0 ==>
                                       ledger[owner].used + extra <= ledger[owner].quota))
      ensures refusal.Some? ==> refusal == Some(if owner in ledger then QuotaExceeded else NotFound)
    {
      if extra <= 0 || owner == NIL { return None; }
      if owner !in ledger { return Some(NotFound); }
      if ledger[owner].quota <= 0 { return None; }
      if ledger[owner].used + extra > ledger[owner].quota { return Some(QuotaExceeded); }
      refusal := None;
    }

    /** The event puts the content stored for `nodeId` in place as the node `id`. */
    static predicate StoresContent(e: Event, id: Uuid, caller: Uuid, nodeId: Uuid) {
      match e
      case AddNode(x, r) => x == id == nodeId && r.kind.File? && r.owner == caller
      case ReplaceContent(x, writer, keyId, _, _, _) => x == id && writer == caller && keyId == nodeId
      case _ => false
    }

    /** The active siblings that a new node of the name would meet. */
    static predicate Meets(t: Table, parent: Uuid, lowered: string, x: Uuid) {
      x in t && x != NIL && t[x].parent == parent && t[x].status.Active? && t[x].nameLower == lowered
    }

    /** The sibling may be overwritten with `size` bytes. */
    static predicate MayReplace(gate: Gate, t: Table, l: Ledger, x: Uuid, size: int)
      requires x in t
    {
      && t[x].kind.File? && gate(t, x, ToEdit) == None
      && t[x].owner in l && QuotaAllows(l, t[x].owner, size - t[x].size)
    }

    /** The file can be created: the parent takes it under some name and the account has room. */
    static ghost predicate MayCreate(cfg: Config, gate: Gate, t: Table, l: Ledger, caller: Uuid, parent: Uuid,
                                     name: string, policy: Policy, size: int) {
      MayPlace(cfg, gate, t, parent, name, policy, NIL) && caller in l && QuotaAllows(l, caller, size)
    }

    /** commitNode: create the node, or replace an active sibling of the same name when the policy
        says so. The content was stored under the key of `nodeId` before. */
    method CommitNode(gate: Gate, caller: Uuid, nodeId: Uuid, parent: Uuid, name: string, policy: Policy, size: int)
      returns (r: Result<Uuid>, ghost es: seq<Event>)
      requires Valid() && nodeId !in minted && nodeId != NIL && size >= 0 && NIL !in ledger
      modifies this
      ensures Valid()
      ensures r.Err? ==> State() == old(State())
      ensures r.Ok? ==> Committed(cfg, old(State()), es, State()) && |es| == 1
      ensures r.Ok? ==> r.value in rows && rows[r.value].key == ObjectKey(caller, nodeId) && rows[r.value].size == size
                        && rows[r.value].parent == parent && Live(rows, r.value) && rows[r.value].kind.File?
      ensures r.Err? || r.value == nodeId || r.value in old(rows)
      ensures r.Err? || r.value !in old(rows)
              || (policy.Overwrite? && Meets(old(rows), parent, Lower(cfg.fold, name), r.value)
                  && gate(old(rows), r.value, ToEdit) == None && old(rows)[r.value].kind.File?
                  && KeepsAllButContent(old(rows), rows, r.value)
                  && (cfg.keepVersions ==> StaysAsRevision(old(rows)[r.value], r.value, history, queue)))
      ensures r.Err? || r.value in old(rows)
              || (rows == old(rows)[nodeId := rows[nodeId]] && rows[nodeId].owner == caller
                  && (policy.Rename? || rows[nodeId].name == name) && AloneInName(cfg.fold, rows, nodeId))
      ensures r.Ok? ==> StoresContent(es[0], r.value, caller, nodeId)
      ensures r.Ok? && r.value == nodeId ==>
                MayPlace(cfg, gate, old(rows), parent, name, policy, NIL)
                && IsResolved(old(rows), cfg.fold, parent, name, policy, NIL, rows[nodeId].name)
      ensures !(policy.Overwrite? && Taken(old(rows), parent, Lower(cfg.fold, name), NIL)) ==>
                (r.Ok? <==> MayCreate(cfg, gate, old(rows), old(ledger), caller, parent, name, policy, size))
      ensures policy.Overwrite? && Taken(old(rows), parent, Lower(cfg.fold, name), NIL) ==>
                (r.Ok? ==> TakesChild(cfg, gate, old(rows), parent)
                           && Meets(old(rows), parent, Lower(cfg.fold, name), r.value)
                           && MayReplace(gate, old(rows), old(ledger), r.value, size))
      ensures policy.Overwrite? && TakesChild(cfg, gate, old(rows), parent)
              && Taken(old(rows), parent, Lower(cfg.fold, name), NIL)
              && (forall x | Meets(old(rows), parent, Lower(cfg.fold, name), x) ::
                    MayReplace(gate, old(rows), old(ledger), x, size))
              ==> r.Ok?
      ensures old(Inv(rows)) ==> Inv(rows)
    {
      es := [];
      var refusal := LoadWritableParent(gate, parent);
      if refusal.Some? { return Err(refusal.value), []; }
      if DepthOf(rows, parent) + 1 >= cfg.maxDepth { return Err(InvalidArgument), []; }
      var lowered := Lower(cfg.fold, name);
      if policy.Overwrite? && Taken(rows, parent, lowered, NIL) {
        var existing: Uuid :| existing in rows && existing != NIL && rows[existing].parent == parent
                              && rows[existing].status.Active? && rows[existing].nameLower == lowered;
        r, es := Overwrite(gate, caller, nodeId, existing, size);
      } else {
        r, es := CreateNamed(caller, nodeId, parent, name, policy, size);
      }
    }

    /** The node is created under its own name or, when that is taken and the policy says so, under another one. */
    method CreateNamed(caller: Uuid, nodeId: Uuid, parent: Uuid, name: string, policy: Policy, size: int)
      returns (r: Result<Uuid>, ghost es: seq<Event>)
      requires Valid() && nodeId !in minted && nodeId != NIL && size >= 0 && NIL !in ledger
      requires Writable(rows, parent) && DepthOf(rows, parent) + 1 < cfg.maxDepth
      requires policy.Overwrite? ==> !Taken(rows, parent, Lower(cfg.fold, name), NIL)
      modifies this`rows, this`ledger, this`minted
      ensures Valid()
      ensures r.Err? ==> State() == old(State())
      ensures r.Ok? <==> Resolvable(old(rows), cfg.fold, parent, name, policy, NIL) && caller in old(ledger)
                         && QuotaAllows(old(ledger), caller, size)
      ensures r.Ok? ==> r.value == nodeId && Committed(cfg, old(State()), es, State()) && |es| == 1
                        && StoresContent(es[0], nodeId, caller, nodeId)
      ensures r.Ok? ==> nodeId in rows && rows[nodeId].key == ObjectKey(caller, nodeId) && rows[nodeId].size == size
                        && rows[nodeId].parent == parent && Live(rows, nodeId) && rows[nodeId].kind.File?
                        && rows[nodeId].owner == caller && nodeId !in old(rows)
      ensures r.Err? || (rows == old(rows)[nodeId := rows[nodeId]] && AloneInName(cfg.fold, rows, nodeId)
                         && (policy.Rename? || rows[nodeId].name == name)
                         && IsResolved(old(rows), cfg.fold, parent, name, policy, NIL, rows[nodeId].name))
      ensures old(Inv(rows)) ==> Inv(rows)
    {
      var finalName := name;
      if Taken(rows, parent, Lower(cfg.fold, name), NIL) {
        if policy.Fail? { return Err(NameConflict), []; }
        var free := NextAvailableName(rows, cfg.fold, parent, name);
        if free.Err? { return Err(free.error), []; }
        finalName := free.value;
      }
      r, es := CreateFile(caller, nodeId, parent, finalName, size);
    }

    /** The create branch of commitNode. */
    method CreateFile(caller: Uuid, nodeId: Uuid, parent: Uuid, name: string, size: int)
      returns (r: Result<Uuid>, ghost es: seq<Event>)
      requires Valid() && nodeId !in minted && nodeId != NIL && size >= 0 && NIL !in ledger
      requires Fits(cfg, rows, parent, name, NIL)
      modifies this`rows, this`ledger, this`minted
      ensures Valid()
      ensures r.Err? ==> State() == old(State())
      ensures r.Ok? <==> old(caller in ledger && QuotaAllows(ledger, caller, size))
      ensures r.Ok? <==> old(caller in ledger && (size > 0 && ledger[caller].quota > 0 ==>
                               ledger[caller].used + size <= ledger[caller].quota))
      ensures r.Ok? ==> r.value == nodeId && Committed(cfg, old(State()), es, State()) && |es| == 1
                        && StoresContent(es[0], nodeId, caller, nodeId)
      ensures r.Ok? ==> nodeId in rows && rows[nodeId].key == ObjectKey(caller, nodeId) && rows[nodeId].size == size
                        && rows[nodeId].parent == parent && Live(rows, nodeId) && rows[nodeId].kind.File?
                           && rows[nodeId].name == name && rows[nodeId].owner == caller
                           && rows == old(rows)[nodeId := rows[nodeId]] && nodeId !in old(rows)
                           && AloneInName(cfg.fold, rows, nodeId)
      ensures old(Inv(rows)) ==> Inv(rows)
    {
      es := [];
      var refusal := CheckQuota(caller, size);
      if refusal.Some? { return Err(refusal.value), []; }
      if caller !in ledger { return Err(NotFound), []; }
      var node := Row(parent, name, Lower(cfg.fold, name), File, caller, size, ObjectKey(caller, nodeId), Active,
                      ChildPath(PathOf(rows, parent), nodeId), DepthOf(rows, parent) + 1, NIL, None, 0);
      ghost var before, e := State(), AddNode(nodeId, node);
      rows := rows[nodeId := node];
      ledger := Charge(ledger, caller, size, 1, 0);
      minted := minted + {nodeId};
      assert State() == Apply(cfg, before, e);
      CommitOne(cfg, before, e);
      NamedAlone(cfg, before, e);
      if Inv(before.rows) { ApplyKeepsHealthy(cfg, before, e); }
      return Ok(nodeId), [e];
    }

    /** An overwrite changes nothing else about the node, and no other row. */
    static predicate KeepsAllButContent(t: Table, t': Table, id: Uuid) {
      && id in t && id in t'
      && t' == t[id := t[id].(key := t'[id].key, size := t'[id].size, versionCount := t'[id].versionCount)]
    }

    /** The content of the row is now a revision of that node, or was trimmed at once and waits for its removal. */
    static ghost predicate StaysAsRevision(r: Row, id: Uuid, vs: History, queue: set<string>) {
      r.key in queue || exists v :: v in vs && vs[v] == Version(id, vs[v].number, r.key, r.size)
    }

    /** The overwrite branch of commitNode. */
    method Overwrite(gate: Gate, caller: Uuid, nodeId: Uuid, id: Uuid, size: int)
      returns (r: Result<Uuid>, ghost es: seq<Event>)
      requires Valid() && nodeId !in minted && nodeId != NIL && size >= 0 && NIL !in ledger && Live(rows, id)
      modifies this
      ensures Valid()
      ensures r.Err? ==> State() == old(State())
      ensures r.Ok? <==> old(MayReplace(gate, rows, ledger, id, size))
      ensures r.Ok? <==>
                old(rows[id].kind.File? && gate(rows, id, ToEdit) == None && rows[id].owner in ledger
                    && (size > rows[id].size && ledger[rows[id].owner].quota > 0 ==>
                          ledger[rows[id].owner].used + (size - rows[id].size) <= ledger[rows[id].owner].quota))
      ensures r.Ok? ==> Committed(cfg, old(State()), es, State()) && |es| == 1 && r.value == id
                        && StoresContent(es[0], id, caller, nodeId)
      ensures r.Ok? ==> id in rows && rows[id].key == ObjectKey(caller, nodeId) && rows[id].size == size
                        && rows[id].parent == old(rows[id].parent) && Live(rows, id) && rows[id].kind.File?
                        && KeepsAllButContent(old(rows), rows, id)
      ensures r.Ok? && cfg.keepVersions ==> StaysAsRevision(old(rows)[id], id, history, queue)
      ensures old(Inv(rows)) ==> Inv(rows)
    {
      es := [];
      if rows[id].kind.Folder? { return Err(NameConflict), []; }
      var refusal := gate(rows, id, ToEdit);
      if refusal.Some? { return Err(refusal.value), []; }
      refusal := CheckQuota(rows[id].owner, size - rows[id].size);
      if refusal.Some? { return Err(refusal.value), []; }
      if rows[id].owner !in ledger { return Err(NotFound), []; }
      ghost var before := State();
      ghost var e := ReplaceIn(caller, nodeId, id, size);
      CommitOne(cfg, before, e);
      if Inv(before.rows) { ApplyKeepsHealthy(cfg, before, e); }
      return Ok(id), [e];
    }

    /** The writes of an overwrite. */
    method ReplaceIn(caller: Uuid, nodeId: Uuid, id: Uuid, size: int) returns (ghost e: Event)
      requires Valid() && nodeId !in minted && nodeId != NIL && size >= 0 && Live(rows, id) && rows[id].kind.File?
      requires rows[id].owner in ledger && WithinQuota(ledger, rows[id].owner, size - rows[id].size)
      modifies this
      ensures e.ReplaceContent? && StoresContent(e, id, caller, nodeId) && Numbered(history)
      ensures Allowed(cfg, old(State()), e) && State() == Apply(cfg, old(State()), e)
      ensures rows.Keys == old(rows).Keys && rows[id].key == ObjectKey(caller, nodeId) && rows[id].size == size
              && rows[id].parent == old(rows[id].parent) && Live(rows, id) && rows[id].kind.File?
              && KeepsAllButContent(old(rows), rows, id)
      ensures cfg.keepVersions ==> StaysAsRevision(old(rows)[id], id, history, queue)
    {
      ghost var before := State();
      var existing := rows[id];
      minted := minted + {nodeId};
      var count, kept, listing := KeepVersion(id);
      var updated := existing.(key := ObjectKey(caller, nodeId), size := size, versionCount := count);
      rows := rows[id := updated];
      ledger := Charge(ledger, existing.owner, size - updated.size, 0, 0);
      e := ReplaceContent(id, caller, nodeId, size, kept, listing);
      assert Allowed(cfg, before, e);
      assert State() == Replaced(cfg, before, e);
      if kept.Some? { KeptOrQueued(kept.value.0, history, queue, existing, id); }
    }

    /** The revision that was added is there still, or its key is queued. */
    static lemma KeptOrQueued(v: Uuid, vs: History, queue: set<string>, r: Row, id: Uuid)
      requires v in vs ==> vs[v] == Version(id, vs[v].number, r.key, r.size)
      requires v in vs || r.key in queue
      ensures StaysAsRevision(r, id, vs, queue)
    {
    }

    /** Keeping the old content as a revision, and trimming the oldest ones over the maximum. */
    method KeepVersion(id: Uuid) returns (count: int, kept: Option<(Uuid, int)>, listing: seq<Uuid>)
      requires Numbered(history) && id in rows && forall v | v in history :: v in minted
      modifies this`history, this`queue, this`minted
      ensures Numbered(history)
      ensures !cfg.keepVersions ==> count == rows[id].versionCount && kept == None
                                    && history == old(history) && queue == old(queue) && minted == old(minted)
      ensures cfg.keepVersions ==>
                && kept.Some?
                && var (v, n) := kept.value;
                   var h := old(history)[v := Version(id, n, rows[id].key, rows[id].size)];
                   var drop := if Trims(cfg, rows[id]) then Dropped(listing, cfg.maxVersions) else [];
                && v !in old(minted) && v != NIL && IsNext(old(history), id, n) && minted == old(minted) + {v}
                && (Trims(cfg, rows[id]) ==> IsListing(h, id, cfg.versionLimit, listing))
                && count == (if Trims(cfg, rows[id]) then CountAfterTrim(listing, cfg.maxVersions)
                   else rows[id].versionCount + 1)
                && history == h - ToSet(drop) && queue == old(queue) + VersionKeys(h, ToSet(drop))
    {
      count, kept, listing := rows[id].versionCount, None, [];
      if cfg.keepVersions {
        var v, n := AddVersion(id);
        kept := Some((v, n));
        count := count + 1;
        ghost var h := history;
        assert h - ToSet([]) == h && VersionKeys(h, ToSet([])) == {};
        if cfg.maxVersions > 0 && count > cfg.maxVersions {
          listing := ListVersions(history, id, cfg.versionLimit);
          count := TrimVersions(id, listing, cfg.maxVersions);
        }
      }
    }

    method AddVersion(id: Uuid) returns (v: Uuid, n: int)
      requires Numbered(history) && id in rows && forall v | v in history :: v in minted
      modifies this`history, this`minted
      ensures Numbered(history) && IsNext(old(history), id, n)
      ensures v !in old(minted) && v != NIL && minted == old(minted) + {v}
      ensures history == old(history)[v := Version(id, n, rows[id].key, rows[id].size)]
    {
      n := NextVersionNumber(history, id);
      v := NewID(minted);
      minted := minted + {v};
      NewVersionNumbered(history, id, v, n, Version(id, n, rows[id].key, rows[id].size));
      history := history[v := Version(id, n, rows[id].key, rows[id].size)];
    }

    /** trimVersions over an already loaded listing. */
    method TrimVersions(id: Uuid, versions: seq<Uuid>, keep: nat) returns (count: int)
      requires Numbered(history) && IsListing(history, id, cfg.versionLimit, versions)
      modifies this`history, this`queue
      ensures Numbered(history)
      ensures count == CountAfterTrim(versions, keep)
      ensures history == old(history) - ToSet(Dropped(versions, keep))
      ensures queue == old(queue) + VersionKeys(old(history), ToSet(Dropped(versions, keep)))
    {
      DroppingKeepsNumbered(history, ToSet(Dropped(versions, keep)));
      if |versions| <= keep {
        assert history - ToSet([]) == history && VersionKeys(history, ToSet([])) == {};
        return |versions|;
      }
      DropListed(versions[keep..]);
      count := keep;
    }

    /** The transaction of DeleteVersion; the key is queued after it commits. */
    method DeleteVersion(gate: Gate, id: Uuid, version: Uuid) returns (r: Result<string>, ghost es: seq<Event>)
      requires Valid()
      modifies this`rows, this`history
      ensures Valid()
      ensures r.Err? ==> State() == old(State())
      ensures r.Ok? ==> es == [DropVersion(id, version)] && Committed(cfg, old(State()), es, State())
      ensures r.Ok? <==>
                old(id in rows && gate(rows, id, ToDelete) == None && version in history && history[version].node == id)
      ensures r.Ok? ==> r.value == old(history)[version].key
    {
      es := [];
      if id !in rows { return Err(NotFound), []; }
      var refusal := gate(rows, id, ToDelete);
      if refusal.Some? { return Err(refusal.value), []; }
      if version !in history { return Err(NotFound), []; }
      if history[version].node != id { return Err(InvalidArgument), []; }
      ghost var before, e := State(), DropVersion(id, version);
      r := Ok(history[version].key);
      if rows[id].versionCount > 0 {
        rows := rows[id := rows[id].(versionCount := rows[id].versionCount - 1)];
      }
      DroppingKeepsNumbered(history, {version});
      history := history - {version};
      assert State() == Apply(cfg, before, e);
      CommitOne(cfg, before, e);
      es := [e];
    }
  }
}
