/** What sibling names keep: the folded column says what the name says, and an event brings two active siblings with one
    folded name together only by reviving them together. */
module SiblingNames {
  import opened Ids
  import opened Tree
  import opened Trash
  import opened Names
  import opened Database
  import opened Invariants

  predicate RowRight(fold: CaseMap, t: Table, x: Uuid)
    requires x in t
  {
    t[x].nameLower == Lower(fold, t[x].name) && (t[x].status.Trashed? <==> t[x].trashedAt.Some?)
  }

  /** The column that lookups by name go by is the folded name of every row, and the time of deletion is set exactly
      for the rows in the trash. */
  ghost predicate RowsRight(fold: CaseMap, t: Table) {
    forall x {:trigger RowRight(fold, t, x)} | x in t :: RowRight(fold, t, x)
  }

  /** Two active siblings whose names fold to one; told from the names alone. */
  predicate Alike(fold: CaseMap, t: Table, c: Uuid, d: Uuid) {
    && c in t && d in t && c != d && t[c].parent == t[d].parent && t[c].status.Active? && t[d].status.Active?
    && Lower(fold, t[c].name) == Lower(fold, t[d].name)
  }

  /** No active sibling carries the row's name. */
  ghost predicate AloneInName(fold: CaseMap, t: Table, c: Uuid) {
    forall d :: !Alike(fold, t, c, d)
  }

  ghost predicate Apart(fold: CaseMap, t: Table) {
    forall c, d :: !Alike(fold, t, c, d)
  }

  /** In a folded table the lookup by the folded column finds exactly the active siblings alike. */
  lemma TakenIffAlike(fold: CaseMap, t: Table, c: Uuid)
    requires RowsRight(fold, t) && Live(t, c)
    ensures Taken(t, t[c].parent, Lower(fold, t[c].name), c) <==> !AloneInName(fold, t, c)
  {
    if Taken(t, t[c].parent, Lower(fold, t[c].name), c) {
      var d :| d in t && d != c && t[d].parent == t[c].parent && t[d].status.Active?
               && t[d].nameLower == Lower(fold, t[c].name);
      assert RowRight(fold, t, d);
      assert Alike(fold, t, c, d);
    }
    if d :| Alike(fold, t, c, d) {
      assert RowRight(fold, t, d);
    }
  }

  lemma FoundTaken(fold: CaseMap, t: Table, d: Uuid, parent: Uuid, low: string, except: Uuid)
    requires RowsRight(fold, t) && Live(t, d) && t[d].parent == parent && Lower(fold, t[d].name) == low && d != except
    ensures Taken(t, parent, low, except)
  {
    assert RowRight(fold, t, d);
  }

  // ---- One event ----------------------------------------------------------------------------

  lemma CreatedStaysRight(fold: CaseMap, t: Table, id: Uuid, r: Row)
    requires RowsRight(fold, t) && r.nameLower == Lower(fold, r.name) && r.status.Active? && r.trashedAt.None?
    ensures RowsRight(fold, t[id := r])
  {
    var t' := t[id := r];
    forall x | x in t' ensures RowRight(fold, t', x) { if x != id { assert RowRight(fold, t, x); } }
  }

  lemma NamedStaysRight(cfg: Config, t: Table, id: Uuid, name: string)
    requires id in t && RowsRight(cfg.fold, t)
    ensures RowsRight(cfg.fold, WithName(cfg, t, id, name))
  {
    var t' := WithName(cfg, t, id, name);
    forall x | x in t' ensures RowRight(cfg.fold, t', x) { assert RowRight(cfg.fold, t, x); }
  }

  /** A table whose rows have the names they had, and the states or right new ones. */
  lemma SameColumnsRight(fold: CaseMap, t: Table, t': Table)
    requires t'.Keys <= t.Keys && RowsRight(fold, t)
    requires forall x | x in t' :: t'[x].name == t[x].name && t'[x].nameLower == t[x].nameLower
    requires forall x | x in t' ::
               (t'[x].status == t[x].status && t'[x].trashedAt == t[x].trashedAt)
               || (t'[x].status.Trashed? <==> t'[x].trashedAt.Some?)
    ensures RowsRight(fold, t')
  {
    forall x | x in t' ensures RowRight(fold, t', x) { assert RowRight(fold, t, x); }
  }

  lemma MovedStaysRight(cfg: Config, t: Table, id: Uuid, target: Uuid, name: string)
    requires id in t && RowsRight(cfg.fold, t)
    ensures RowsRight(cfg.fold, WithName(cfg, Moved(t, id, target), id, name))
  {
    SameColumnsRight(cfg.fold, t, Moved(t, id, target));
    NamedStaysRight(cfg, Moved(t, id, target), id, name);
  }

  lemma FlippedStaysRight(fold: CaseMap, t: Table, id: Uuid, at: int)
    requires id in t && RowsRight(fold, t)
    ensures RowsRight(fold, Discarded(t, id, at)) && RowsRight(fold, Revived(t, id))
  {
    SameColumnsRight(fold, t, Discarded(t, id, at));
    SameColumnsRight(fold, t, Revived(t, id));
  }

  lemma ApplyKeepsRowsRight(cfg: Config, db: Db, e: Event)
    requires RowsRight(cfg.fold, db.rows) && Allowed(cfg, db, e)
    ensures RowsRight(cfg.fold, Apply(cfg, db, e).rows)
  {
    match e
    case Move(id, target, name) => MovedStaysRight(cfg, db.rows, id, target, name);
    case Restore(id, target, name) =>
      MovedStaysRight(cfg, db.rows, id, target, name);
      FlippedStaysRight(cfg.fold, WithName(cfg, Moved(db.rows, id, target), id, name), id, 0);
    case Discard(id, at) => FlippedStaysRight(cfg.fold, db.rows, id, at);
    case Retitle(id, name) => NamedStaysRight(cfg, db.rows, id, name);
    case AddNode(id, r) => CreatedStaysRight(cfg.fold, db.rows, id, r);
    case _ => SameColumnsRight(cfg.fold, db.rows, Apply(cfg, db, e).rows);
  }

  /** The node that an event creates, moves, renames or restores. */
  predicate Titles(e: Event, id: Uuid) {
    (e.AddNode? || e.Move? || e.Retitle? || e.Restore?) && e.id == id
  }

  /** Where that node is and what it is called afterwards; every other row keeps its place and its name. */
  lemma NamedByEvent(cfg: Config, db: Db, e: Event, x: Uuid)
    requires Allowed(cfg, db, e) && x in Apply(cfg, db, e).rows
    ensures !Titles(e, x) ==>
              x in db.rows && Apply(cfg, db, e).rows[x].parent == db.rows[x].parent
              && Apply(cfg, db, e).rows[x].name == db.rows[x].name
    ensures !e.Restore? && !Titles(e, x) && Live(Apply(cfg, db, e).rows, x) ==> Live(db.rows, x)
    ensures e.Move? && e.id == x ==> Apply(cfg, db, e).rows[x].parent == e.target
    ensures e.Retitle? && e.id == x ==> Apply(cfg, db, e).rows[x].parent == db.rows[x].parent
    ensures (e.Move? || e.Retitle? || e.Restore?) && e.id == x ==> Apply(cfg, db, e).rows[x].name == e.name
  {
    match e
    case Move(id, target, name) => NamedAt(cfg, Moved(db.rows, id, target), id, name, x);
    case Retitle(id, name) => NamedAt(cfg, db.rows, id, name, x);
    case Restore(id, target, name) => NamedAt(cfg, Moved(db.rows, id, target), id, name, x);
    case _ =>
  }

  lemma NamedAt(cfg: Config, t: Table, id: Uuid, name: string, x: Uuid)
    requires id in t && x in t
    ensures var t' := WithName(cfg, t, id, name);
            && t'.Keys == t.Keys && t'[x].parent == t[x].parent && t'[x].status == t[x].status
            && t'[x].name == if x == id then name else t[x].name
  {
  }

  /** The named node has no sibling alike afterwards. */
  lemma NamedAlone(cfg: Config, db: Db, e: Event)
    requires RowsRight(cfg.fold, db.rows) && NIL !in db.rows && Allowed(cfg, db, e)
    requires e.AddNode? || e.Move? || e.Retitle?
    ensures AloneInName(cfg.fold, Apply(cfg, db, e).rows, e.id)
  {
    var t, t' := db.rows, Apply(cfg, db, e).rows;
    forall d ensures !Alike(cfg.fold, t', e.id, d) {
      if Alike(cfg.fold, t', e.id, d) {
        NamedByEvent(cfg, db, e, d);
        NamedByEvent(cfg, db, e, e.id);
        FoundTaken(cfg.fold, t, d, t'[d].parent, Lower(cfg.fold, t'[d].name), if e.AddNode? then NIL else e.id);
      }
    }
  }

  /** Except by a restore no two siblings become alike. */
  lemma NoneNewlyAlike(cfg: Config, db: Db, e: Event, c: Uuid, d: Uuid)
    requires RowsRight(cfg.fold, db.rows) && NIL !in db.rows && Allowed(cfg, db, e) && !e.Restore?
    requires Alike(cfg.fold, Apply(cfg, db, e).rows, c, d)
    ensures Alike(cfg.fold, db.rows, c, d)
  {
    if Titles(e, c) || Titles(e, d) {
      NamedAlone(cfg, db, e);
      assert Alike(cfg.fold, Apply(cfg, db, e).rows, d, c);
      assert false;
    } else {
      NamedByEvent(cfg, db, e, c);
      NamedByEvent(cfg, db, e, d);
    }
  }

  /** Who is active after a restore. */
  lemma RevivedRows(cfg: Config, db: Db, e: Event, x: Uuid)
    requires Healthy(db) && Allowed(cfg, db, e) && e.Restore? && x in db.rows
    ensures Live(Apply(cfg, db, e).rows, x) <==> Live(db.rows, x) || Under(db.rows, e.id, x)
    ensures Apply(cfg, db, e).rows[e.id].parent == e.target
  {
    var back := Restored(db.rows, e.id, e.target);
    RestoreThenName(cfg, Moved(db.rows, e.id, e.target), e.id, e.name);
    assert Apply(cfg, db, e).rows == WithName(cfg, back, e.id, e.name);
    RestoreKeeps(db.rows, e.id, e.target);
    assert Live(back, x) <==> Live(db.rows, x) || Under(db.rows, e.id, x);
    NamingKeepsStates(cfg, back, e.id, e.name);
  }

  lemma NamingKeepsStates(cfg: Config, t: Table, id: Uuid, name: string)
    requires id in t
    ensures var t' := WithName(cfg, t, id, name);
            t'.Keys == t.Keys && forall x | x in t :: t'[x].status == t[x].status && t'[x].parent == t[x].parent
  {
  }

  /** The restored node has no sibling alike. */
  lemma RestoredAlone(cfg: Config, db: Db, e: Event)
    requires Healthy(db) && RowsRight(cfg.fold, db.rows) && Allowed(cfg, db, e) && e.Restore?
    ensures AloneInName(cfg.fold, Apply(cfg, db, e).rows, e.id)
  {
    var t, t' := db.rows, Apply(cfg, db, e).rows;
    forall d ensures !Alike(cfg.fold, t', e.id, d) {
      if Alike(cfg.fold, t', e.id, d) {
        RevivedRows(cfg, db, e, d);
        NamedByEvent(cfg, db, e, d);
        NamedByEvent(cfg, db, e, e.id);
        RestoreCannotCycle(t, e.id, e.target);
        UnderStep(t, e.id, d);
        FoundTaken(cfg.fold, t, d, t'[d].parent, Lower(cfg.fold, t'[d].name), e.id);
      }
    }
  }

  /** Two rows below the node, siblings with names that fold to one. */
  predicate TwinsBelow(fold: CaseMap, t: Table, id: Uuid, c: Uuid, d: Uuid) {
    && id in t && c in t && d in t && c != d && c != id && d != id && Under(t, id, c) && Under(t, id, d)
    && t[c].parent == t[d].parent && Lower(fold, t[c].name) == Lower(fold, t[d].name)
  }

  /** The pairs that a restore makes alike are those it revives together. */
  lemma AlikeAfterRestoreIff(cfg: Config, db: Db, e: Event, c: Uuid, d: Uuid)
    requires Healthy(db) && RowsRight(cfg.fold, db.rows) && Allowed(cfg, db, e) && e.Restore?
    ensures Alike(cfg.fold, Apply(cfg, db, e).rows, c, d) <==>
            (Alike(cfg.fold, db.rows, c, d) || TwinsBelow(cfg.fold, db.rows, e.id, c, d))
  {
    var t, t' := db.rows, Apply(cfg, db, e).rows;
    RestoredAlone(cfg, db, e);
    if c == e.id || d == e.id {
      assert Alike(cfg.fold, t', c, d) ==> Alike(cfg.fold, t', d, c);
    } else if c in t && d in t {
      RevivedRows(cfg, db, e, c);
      RevivedRows(cfg, db, e, d);
      NamedByEvent(cfg, db, e, c);
      NamedByEvent(cfg, db, e, d);
      UnderStep(t, e.id, c);
      UnderStep(t, e.id, d);
    }
  }

  // ---- Runs ---------------------------------------------------------------------------------

  /** A restore brings no two siblings of one folded name back together. */
  ghost predicate NoTwins(fold: CaseMap, db: Db, e: Event) {
    e.Restore? ==> forall c, d :: !TwinsBelow(fold, db.rows, e.id, c, d)
  }

  /** An event keeps the names of active siblings apart if and only if it is no restore that revives twins. */
  lemma ApplyKeepsApartIff(cfg: Config, db: Db, e: Event)
    requires Healthy(db) && RowsRight(cfg.fold, db.rows) && Apart(cfg.fold, db.rows) && Allowed(cfg, db, e)
    ensures Apart(cfg.fold, Apply(cfg, db, e).rows) <==> NoTwins(cfg.fold, db, e)
  {
    var t' := Apply(cfg, db, e).rows;
    forall c, d ensures Alike(cfg.fold, t', c, d) <==> e.Restore? && TwinsBelow(cfg.fold, db.rows, e.id, c, d) {
      if e.Restore? {
        AlikeAfterRestoreIff(cfg, db, e, c, d);
      } else if Alike(cfg.fold, t', c, d) {
        NoneNewlyAlike(cfg, db, e, c, d);
      }
    }
  }

  lemma {:induction false} RunsStayRight(cfg: Config, es: seq<Event>, dbs: seq<Db>, n: nat)
    requires Run(cfg, es, dbs) && RowsRight(cfg.fold, dbs[0].rows) && n <= |es|
    ensures RowsRight(cfg.fold, dbs[n].rows)
  {
    if n > 0 {
      RunsStayRight(cfg, es, dbs, n - 1);
      assert StepAt(cfg, es, dbs, n - 1);
      ApplyKeepsRowsRight(cfg, dbs[n - 1], es[n - 1]);
    }
  }

  lemma {:induction false} RunsStayApart(cfg: Config, es: seq<Event>, dbs: seq<Db>, n: nat)
    requires Run(cfg, es, dbs) && Healthy(dbs[0]) && RowsRight(cfg.fold, dbs[0].rows) && Apart(cfg.fold, dbs[0].rows)
    requires n <= |es| && forall i | 0 <= i < n :: NoOrphans(dbs[i], es[i]) && NoTwins(cfg.fold, dbs[i], es[i])
    ensures Apart(cfg.fold, dbs[n].rows)
  {
    if n > 0 {
      RunsStayApart(cfg, es, dbs, n - 1);
      RunsStayHealthy(cfg, es, dbs, n - 1);
      RunsStayRight(cfg, es, dbs, n - 1);
      assert StepAt(cfg, es, dbs, n - 1);
      ApplyKeepsApartIff(cfg, dbs[n - 1], es[n - 1]);
    }
  }

  /** On every run, from the empty database for one, active siblings keep names that fold apart throughout if and only
      if no restore on it revives twins. */
  lemma RunsStayApartIff(cfg: Config, es: seq<Event>, dbs: seq<Db>)
    requires Run(cfg, es, dbs) && Healthy(dbs[0]) && RowsRight(cfg.fold, dbs[0].rows) && Apart(cfg.fold, dbs[0].rows)
    requires forall i | 0 <= i < |es| :: NoOrphans(dbs[i], es[i])
    ensures (forall n | 0 <= n <= |es| :: Apart(cfg.fold, dbs[n].rows)) <==>
            (forall i | 0 <= i < |es| :: NoTwins(cfg.fold, dbs[i], es[i]))
  {
    if forall i | 0 <= i < |es| :: NoTwins(cfg.fold, dbs[i], es[i]) {
      forall n | 0 <= n <= |es| ensures Apart(cfg.fold, dbs[n].rows) { RunsStayApart(cfg, es, dbs, n); }
    }
    if forall n | 0 <= n <= |es| :: Apart(cfg.fold, dbs[n].rows) {
      forall i | 0 <= i < |es| ensures NoTwins(cfg.fold, dbs[i], es[i]) {
        RunsStayHealthy(cfg, es, dbs, i);
        RunsStayRight(cfg, es, dbs, i);
        assert StepAt(cfg, es, dbs, i);
        ApplyKeepsApartIff(cfg, dbs[i], es[i]);
      }
    }
  }

  /** Nothing else than what it looked like: the row has another place or another name than before, or is new. */
  predicate Retitled(t: Table, t': Table, x: Uuid) {
    x in t' && (x !in t || t'[x].parent != t[x].parent || t'[x].name != t[x].name)
  }

  /** Without restores every row that a run places or names anew has no sibling alike in the end, and no other two
      siblings have become alike. */
  lemma {:induction false} RunsNameApart(cfg: Config, es: seq<Event>, dbs: seq<Db>, n: nat)
    requires Run(cfg, es, dbs) && RowsRight(cfg.fold, dbs[0].rows) && NIL !in dbs[0].rows && n <= |es|
    requires forall i | 0 <= i < n :: !es[i].Restore?
    ensures NIL !in dbs[n].rows
    ensures forall x | Retitled(dbs[0].rows, dbs[n].rows, x) :: AloneInName(cfg.fold, dbs[n].rows, x)
    ensures forall c, d | Alike(cfg.fold, dbs[n].rows, c, d) :: Alike(cfg.fold, dbs[0].rows, c, d)
  {
    if n > 0 {
      RunsNameApart(cfg, es, dbs, n - 1);
      RunsStayRight(cfg, es, dbs, n - 1);
      assert StepAt(cfg, es, dbs, n - 1);
      OneMoreNamed(cfg, dbs[0].rows, dbs[n - 1], es[n - 1]);
      forall c, d | Alike(cfg.fold, dbs[n].rows, c, d) ensures Alike(cfg.fold, dbs[0].rows, c, d) {
        NoneNewlyAlike(cfg, dbs[n - 1], es[n - 1], c, d);
      }
    }
  }

  lemma OneMoreNamed(cfg: Config, t: Table, mid: Db, e: Event)
    requires RowsRight(cfg.fold, mid.rows) && NIL !in mid.rows && Allowed(cfg, mid, e) && !e.Restore?
    requires forall x | Retitled(t, mid.rows, x) :: AloneInName(cfg.fold, mid.rows, x)
    ensures NIL !in Apply(cfg, mid, e).rows
    ensures forall x | Retitled(t, Apply(cfg, mid, e).rows, x) :: AloneInName(cfg.fold, Apply(cfg, mid, e).rows, x)
  {
    var now := Apply(cfg, mid, e).rows;
    if NIL in now { NamedByEvent(cfg, mid, e, NIL); }
    forall x | Retitled(t, now, x) ensures AloneInName(cfg.fold, now, x) {
      if Titles(e, x) {
        NamedAlone(cfg, mid, e);
      } else {
        NamedByEvent(cfg, mid, e, x);
        assert Retitled(t, mid.rows, x);
        forall d ensures !Alike(cfg.fold, now, x, d) {
          if Alike(cfg.fold, now, x, d) { NoneNewlyAlike(cfg, mid, e, x, d); }
        }
      }
    }
  }

  /** A run of restores leaves every restored node active and without a sibling alike. */
  lemma {:induction false} RestoresNameApart(cfg: Config, es: seq<Event>, dbs: seq<Db>, n: nat)
    requires Run(cfg, es, dbs) && Healthy(dbs[0]) && RowsRight(cfg.fold, dbs[0].rows) && n <= |es|
    requires forall i | 0 <= i < |es| :: es[i].Restore?
    ensures forall k | 0 <= k < n :: Live(dbs[n].rows, es[k].id) && AloneInName(cfg.fold, dbs[n].rows, es[k].id)
  {
    if n > 0 {
      var mid, e := dbs[n - 1], es[n - 1];
      RestoresNameApart(cfg, es, dbs, n - 1);
      RunsStayHealthy(cfg, es, dbs, n - 1);
      RunsStayRight(cfg, es, dbs, n - 1);
      assert StepAt(cfg, es, dbs, n - 1);
      RestoredAlone(cfg, mid, e);
      RevivedRows(cfg, mid, e, e.id);
      UnderStep(mid.rows, e.id, e.id);
      forall k | 0 <= k < n - 1
        ensures Live(dbs[n].rows, es[k].id) && AloneInName(cfg.fold, dbs[n].rows, es[k].id)
      {
        StaysAlone(cfg, mid, e, es[k].id);
      }
    }
  }

  /** A node that is active before a restore is above or beside what it revives. */
  lemma StaysAlone(cfg: Config, db: Db, e: Event, x: Uuid)
    requires Healthy(db) && RowsRight(cfg.fold, db.rows) && Allowed(cfg, db, e) && e.Restore?
    requires Live(db.rows, x) && AloneInName(cfg.fold, db.rows, x)
    ensures Live(Apply(cfg, db, e).rows, x) && AloneInName(cfg.fold, Apply(cfg, db, e).rows, x)
  {
    RevivedRows(cfg, db, e, x);
    if Under(db.rows, e.id, x) { TrashedSubtree(db.rows, e.id, x); }
    forall d ensures !Alike(cfg.fold, Apply(cfg, db, e).rows, x, d) {
      AlikeAfterRestoreIff(cfg, db, e, x, d);
    }
  }
}
