/** What every run of committed events keeps, from the empty database on. */
module Invariants {
  import opened Ids
  import opened Paths
  import opened Tree
  import opened Trash
  import opened Names
  import opened Accounts
  import opened Versions
  import opened Database

  /** Identifiers are minted before they are stored, and sizes are not negative. */
  ghost predicate Accounted(db: Db) {
    && db.rows.Keys <= db.minted && (forall x | x in db.rows :: db.rows[x].size >= 0)
    && (forall v | v in db.history :: v in db.minted && db.history[v].node in db.minted)
  }

  /** The table is a tree, trash is downward closed, and identifiers are never reused. */
  ghost predicate Healthy(db: Db) {
    Sound(db.rows) && Accounted(db)
  }

  /** The purge listing was not cut by its limit. */
  ghost predicate WholePurge(db: Db, e: Event) {
    e.Purge? && e.id in db.rows ==> e.scan == Subtree(db.rows, e.id)
  }

  /** The listing of a purge covers the subtree exactly when the subtree fits the default limit. */
  lemma WholePurgeIff(cfg: Config, db: Db, e: Event)
    requires e.Purge? && Allowed(cfg, db, e)
    ensures WholePurge(db, e) <==> |Subtree(db.rows, e.id)| <= cfg.listLimit
  {
    Smaller(e.scan, Subtree(db.rows, e.id));
  }

  /** The only way for an event to break the tree: a purge that leaves a row without its parent. */
  ghost predicate NoOrphans(db: Db, e: Event) {
    e.Purge? ==> LeavesNoOrphan(db.rows, e.scan)
  }

  lemma WholePurgeLeavesNone(db: Db, e: Event)
    requires Sound(db.rows) && (e.Purge? ==> e.id in db.rows) && WholePurge(db, e)
    ensures NoOrphans(db, e)
  {
    if e.Purge? { SubtreeLeavesNone(db.rows, e.id); }
  }

  /** Whatever the limit: a scan that holds the purged folder and was cut leaves some row of the subtree
      without its parent. */
  lemma CutPurgeOrphans(cfg: Config, db: Db, e: Event)
    requires Healthy(db) && Allowed(cfg, db, e) && e.Purge?
    requires e.id in e.scan && |Subtree(db.rows, e.id)| > cfg.listLimit
    ensures !Healthy(Apply(cfg, db, e))
  {
    WholePurgeIff(cfg, db, e);
    var x :| x in Subtree(db.rows, e.id) && x !in e.scan;
    var orphan := FirstLeft(db.rows, e.id, e.scan, x);
    ApplyKeepsHealthy(cfg, db, e);
  }

  /** Told before the call: whichever rows the listing picks, their removal leaves a tree, exactly when the subtree fits
      the limit. */
  lemma PurgeIsSafeIff(t: Table, id: Uuid, limit: nat)
    requires Sound(t) && id in t && limit > 0
    ensures (forall scan | IsScan(t, id, limit, scan) :: Sound(t - scan)) <==> |Subtree(t, id)| <= limit
  {
    var all := Subtree(t, id);
    if |all| <= limit {
      forall scan | IsScan(t, id, limit, scan) ensures Sound(t - scan) {
        Smaller(scan, all);
        PurgeKeeps(t, id);
      }
    } else {
      UnderStep(t, id, id);
      var scan := SomeWith(all, id, limit);
      assert IsScan(t, id, limit, scan);
      assert scan != all;
      var x :| x in all && x !in scan;
      var orphan := FirstLeft(t, id, scan, x);
      RemovalKeepsIff(t, scan);
    }
  }

  /** A part of the set of a given size that holds `a`. */
  lemma {:induction false} SomeWith(all: set<Uuid>, a: Uuid, n: nat) returns (some: set<Uuid>)
    requires a in all && 0 < n <= |all|
    ensures a in some && some <= all && |some| == n
    decreases |all|
  {
    if n == |all| {
      some := all;
    } else {
      assert all != {a};
      var x :| x in all && x != a;
      some := SomeWith(all - {x}, a, n);
    }
  }

  /** On the way up from a row that stays to the purged node some row stays below one that goes. */
  lemma {:induction false} FirstLeft(t: Table, a: Uuid, scan: set<Uuid>, x: Uuid) returns (orphan: Uuid)
    requires Indexed(t) && a in t && a in scan && x in t && x !in scan && Under(t, a, x)
    ensures orphan in t && orphan !in scan && t[orphan].parent in scan
    decreases |t[x].path|
  {
    UnderStep(t, a, x);
    if t[x].parent in scan {
      orphan := x;
    } else {
      orphan := FirstLeft(t, a, scan, t[x].parent);
    }
  }

  // ---- A folder of files, to show what a limit does ---------------------------------------

  /** A root level folder 1 of account 1 with the files 2 to n + 1. */
  function FolderOfFiles(n: nat, status: Status): Table {
    map x: Uuid | 1 <= x <= n + 1 :: FolderOrFile(x, status)
  }

  lemma FolderOfFilesSize(n: nat, status: Status)
    ensures |FolderOfFiles(n, status).Keys| == n + 1
  {
    RangeSize(FolderOfFiles(n, status).Keys, n + 1);
  }

  lemma {:induction false} RangeSize(s: set<Uuid>, n: nat)
    requires forall x :: x in s <==> 1 <= x <= n
    ensures |s| == n
  {
    if n == 0 {
      assert s == {};
    } else {
      RangeSize(s - {n}, n - 1);
    }
  }

  function FolderOrFile(x: Uuid, status: Status): Row {
    var top := ChildPath("/", 1);
    if x == 1 then Row(NIL, "folder", "folder", Folder, 1, 0, "", status, top, 0, NIL, None, 0)
    else Row(1, Text(x), Text(x), File, 1, 0, ObjectKey(1, x), status, ChildPath(top, x), 1, NIL, None, 0)
  }

  lemma FolderOrFileFits(t: Table, x: Uuid, status: Status)
    requires 1 in t && t[1] == FolderOrFile(1, status) && NIL !in t
    requires x in t && t[x] == FolderOrFile(x, status).(owner := t[x].owner, key := t[x].key)
    ensures Placed(t, x) && Sheltered(t, x) && OriginRight(t, x)
    ensures Under(t, 1, x)
  {
    assert x != 1 ==> t[x].path == t[1].path + (Text(x) + "/");
  }

  lemma FolderOfFilesIsSound(n: nat, status: Status)
    ensures var t := FolderOfFiles(n, status);
            && Inv(t) && 1 in t && Subtree(t, 1) == t.Keys
            && forall x | x in t && x != 1 :: t[x].parent == 1 && t[x].status == status
  {
    var t := FolderOfFiles(n, status);
    forall x | x in t ensures Placed(t, x) && Sheltered(t, x) && OriginRight(t, x) && Under(t, 1, x) {
      FolderOrFileFits(t, x, status);
    }
  }

  /** The limit is fifty in the source, and this holds for any: a trashed folder with that many files is one
      row too many, and the scan that takes the folder and all files but the last leaves that one without
      its parent. */
  lemma FullFolderOrphansOne(cfg: Config, l: Ledger)
    requires cfg.listLimit > 0 && 1 in l
    ensures var t, last := FolderOfFiles(cfg.listLimit, Trashed), cfg.listLimit + 1;
            var db, e := Db(t, l, map[], {}, t.Keys), Purge(1, t.Keys - {last}, {});
            && Healthy(db) && Allowed(cfg, db, e) && !Healthy(Apply(cfg, db, e))
  {
    var t, last := FolderOfFiles(cfg.listLimit, Trashed), cfg.listLimit + 1;
    FolderOfFilesIsSound(cfg.listLimit, Trashed);
    FolderOfFilesSize(cfg.listLimit, Trashed);
    CutPurgeOrphans(cfg, Db(t, l, map[], {}, t.Keys), Purge(1, t.Keys - {last}, {}));
  }

  /** The tables hold the same nodes with the same owner, kind, size, content key and revision count. */
  ghost predicate SameContent(t: Table, t': Table) {
    && t'.Keys == t.Keys
    && forall x {:trigger t'[x]} {:trigger t[x]} | x in t ::
      && t'[x].owner == t[x].owner && t'[x].kind == t[x].kind && t'[x].size == t[x].size
      && t'[x].key == t[x].key && t'[x].versionCount == t[x].versionCount
  }

  lemma ContentTransitive(a: Table, b: Table, c: Table)
    requires SameContent(a, b) && SameContent(b, c)
    ensures SameContent(a, c)
  {
    forall x | x in a
      ensures c[x].owner == a[x].owner && c[x].kind == a[x].kind && c[x].size == a[x].size
              && c[x].key == a[x].key && c[x].versionCount == a[x].versionCount
    {
      assert b[x].owner == a[x].owner;
    }
  }

  lemma NamingKeepsContent(cfg: Config, t: Table, id: Uuid, name: string)
    requires id in t
    ensures SameContent(t, WithName(cfg, t, id, name))
  {
  }

  lemma MovingKeepsContent(t: Table, id: Uuid, target: Uuid)
    requires id in t
    ensures SameContent(t, Moved(t, id, target))
  {
  }

  lemma RevivingKeepsContent(t: Table, id: Uuid)
    requires id in t
    ensures SameContent(t, Revived(t, id))
  {
  }

  /** Moving, renaming, trashing and restoring touch no content. */
  lemma TreeEventsKeepContent(cfg: Config, db: Db, e: Event)
    requires Allowed(cfg, db, e) && (e.Move? || e.Retitle? || e.Discard? || e.Restore? || e.Enqueue?)
    ensures SameContent(db.rows, Apply(cfg, db, e).rows)
  {
    if e.Move? || e.Restore? {
      var t := Moved(db.rows, e.id, e.target);
      var t' := WithName(cfg, t, e.id, e.name);
      MovingKeepsContent(db.rows, e.id, e.target);
      NamingKeepsContent(cfg, t, e.id, e.name);
      ContentTransitive(db.rows, t, t');
      RevivingKeepsContent(t', e.id);
      ContentTransitive(db.rows, t', Revived(t', e.id));
    } else if e.Retitle? {
      NamingKeepsContent(cfg, db.rows, e.id, e.name);
    }
  }

  lemma ApplyKeepsMinted(cfg: Config, db: Db, e: Event)
    requires Accounted(db) && Allowed(cfg, db, e)
    ensures Accounted(Apply(cfg, db, e)) && db.minted <= Apply(cfg, db, e).minted
  {
    if e.Move? || e.Retitle? || e.Discard? || e.Restore? || e.Enqueue? {
      TreeEventsKeepContent(cfg, db, e);
    }
  }

  lemma NamingKeeps(cfg: Config, t: Table, id: Uuid, name: string)
    requires Sound(t) && id in t
    ensures Sound(WithName(cfg, t, id, name))
    ensures Inv(WithName(cfg, t, id, name)) <==> Inv(t)
  {
    var t' := WithName(cfg, t, id, name);
    SameShapeKeeps(t, t');
    SameShapeKeeps(t', t);
  }

  lemma MoveIsSound(cfg: Config, t: Table, id: Uuid, target: Uuid, name: string)
    requires Sound(t) && id in t && Writable(t, target) && !(t[id].path <= PathOf(t, target))
    ensures Sound(WithName(cfg, Moved(t, id, target), id, name))
    ensures Inv(t) ==> (Inv(WithName(cfg, Moved(t, id, target), id, name)) <==>
                        t[id].status.Active? || target == t[id].originalParent)
  {
    MoveKeeps(t, id, target);
    NamingKeeps(cfg, Moved(t, id, target), id, name);
    if Inv(t) { MoveKeepsIff(t, id, target); }
  }

  lemma RestoreIsSound(cfg: Config, t: Table, id: Uuid, target: Uuid, name: string)
    requires Sound(t) && id in t && t[id].status.Trashed? && Writable(t, target)
    ensures Sound(Revived(WithName(cfg, Moved(t, id, target), id, name), id))
    ensures Inv(t) ==> Inv(Revived(WithName(cfg, Moved(t, id, target), id, name), id))
  {
    RestoreKeeps(t, id, target);
    NamingKeeps(cfg, Restored(t, id, target), id, name);
    RestoreThenName(cfg, Moved(t, id, target), id, name);
  }

  lemma RestoreThenName(cfg: Config, t: Table, id: Uuid, name: string)
    requires id in t
    ensures Revived(WithName(cfg, t, id, name), id) == WithName(cfg, Revived(t, id), id, name)
  {
  }

  /** The only ways to lose track of an original parent: trashing a node inside a trashed folder,
      and moving a trashed node anywhere but to where it was deleted from. */
  predicate TrashedInPlace(t: Table, e: Event) {
    && (e.Discard? && e.id in t ==> t[e.id].parent == NIL || Live(t, t[e.id].parent))
    && (e.Move? && e.id in t ==> t[e.id].status.Active? || e.target == t[e.id].originalParent)
  }

  lemma ApplyKeepsHealthy(cfg: Config, db: Db, e: Event)
    requires Healthy(db) && Allowed(cfg, db, e)
    ensures Healthy(Apply(cfg, db, e)) <==> NoOrphans(db, e)
    ensures Inv(db.rows) && NoOrphans(db, e) ==> (Inv(Apply(cfg, db, e).rows) <==> TrashedInPlace(db.rows, e))
  {
    ApplyKeepsMinted(cfg, db, e);
    if e.ReplaceContent? {
      SameShapeKeeps(db.rows, Apply(cfg, db, e).rows);
    } else if e.DropVersion? {
      SameShapeKeeps(db.rows, Apply(cfg, db, e).rows);
    } else if e.Retitle? {
      NamingKeeps(cfg, db.rows, e.id, e.name);
    } else if e.AddNode? {
      CreatedKeeps(db.rows, e.id, e.row);
    } else if e.Move? {
      MoveIsSound(cfg, db.rows, e.id, e.target, e.name);
    } else if e.Discard? {
      DiscardKeeps(db.rows, e.id, e.at);
      if Inv(db.rows) { DiscardKeepsIff(db.rows, e.id, e.at); }
    } else if e.Restore? {
      RestoreIsSound(cfg, db.rows, e.id, e.target, e.name);
    } else if e.Purge? {
      RemovalKeepsIff(db.rows, e.scan);
    }
  }

  /** On every run whose purges leave no orphan the table stays a tree with downward closed
      trash; if no step trashes inside the trash or moves a trashed node away, original parents
      stay right too. */
  lemma {:induction false} RunsStayHealthy(cfg: Config, es: seq<Event>, dbs: seq<Db>, n: nat)
    requires Run(cfg, es, dbs) && Healthy(dbs[0]) && n <= |es|
    requires forall i | 0 <= i < n :: NoOrphans(dbs[i], es[i])
    ensures Healthy(dbs[n])
    ensures Inv(dbs[0].rows) && (forall i | 0 <= i < n :: TrashedInPlace(dbs[i].rows, es[i])) ==> Inv(dbs[n].rows)
  {
    if n > 0 {
      RunsStayHealthy(cfg, es, dbs, n - 1);
      assert StepAt(cfg, es, dbs, n - 1);
      ApplyKeepsHealthy(cfg, dbs[n - 1], es[n - 1]);
    }
  }

  /** And only on such runs. */
  lemma RunsStayHealthyIff(cfg: Config, es: seq<Event>, dbs: seq<Db>)
    requires Run(cfg, es, dbs) && Healthy(dbs[0])
    ensures (forall n | 0 <= n <= |es| :: Healthy(dbs[n])) <==> (forall i | 0 <= i < |es| :: NoOrphans(dbs[i], es[i]))
  {
    if forall i | 0 <= i < |es| :: NoOrphans(dbs[i], es[i]) {
      forall n | 0 <= n <= |es| ensures Healthy(dbs[n]) { RunsStayHealthy(cfg, es, dbs, n); }
    }
    if forall n | 0 <= n <= |es| :: Healthy(dbs[n]) {
      forall i | 0 <= i < |es| ensures NoOrphans(dbs[i], es[i]) {
        assert StepAt(cfg, es, dbs, i);
        ApplyKeepsHealthy(cfg, dbs[i], es[i]);
      }
    }
  }

  // ---- Usage ------------------------------------------------------------------------------

  /** The condition under which a step bills the bytes it really moves. */
  predicate BilledExactly(db: Db, e: Event) {
    && (e.ReplaceContent? && e.id in db.rows ==> e.size == db.rows[e.id].size)
    && (e.Purge? && e.id in db.rows ==>
       forall x | x in e.scan && x in db.rows :: db.rows[x].owner == db.rows[e.id].owner)
  }

  /** A step keeps every counter equal to the sum over the rows the account owns if and only if it
      bills exactly: an overwrite that changes the size and a purge across owners drift. */
  lemma ApplyKeepsConservedIff(cfg: Config, db: Db, e: Event)
    requires Healthy(db) && Conserved(db.rows, db.ledger) && Allowed(cfg, db, e)
    ensures var db' := Apply(cfg, db, e); Conserved(db'.rows, db'.ledger) <==> BilledExactly(db, e)
  {
    var db' := Apply(cfg, db, e);
    if e.AddNode? {
      CreateKeepsConserved(db.rows, db.ledger, e.id, e.row);
    } else if e.ReplaceContent? {
      var r := db'.rows[e.id];
      OverwriteKeepsConservedIff(db.rows, db.ledger, e.id, r);
    } else if e.Purge? {
      PurgeKeepsConservedIff(db.rows, db.ledger, db.rows[e.id].owner, e.scan);
    } else if e.DropVersion? {
      WriteKeepsConserved(db.rows, db'.rows, db.ledger);
    } else {
      TreeEventsKeepContent(cfg, db, e);
      WriteKeepsConserved(db.rows, db'.rows, db.ledger);
    }
  }

  ghost predicate QuotasHold(l: Ledger) {
    forall o | o in l && l[o].quota > 0 :: l[o].used <= l[o].quota
  }

  /** On every run that bills exactly, used bytes and file and folder counts are the sums over the
      rows each account owns, and no account with a quota is over it. */
  lemma {:induction false} RunsConserveUsage(cfg: Config, es: seq<Event>, dbs: seq<Db>, n: nat)
    requires Run(cfg, es, dbs) && n <= |es|
    requires Healthy(dbs[0]) && Conserved(dbs[0].rows, dbs[0].ledger) && QuotasHold(dbs[0].ledger)
    requires forall i | 0 <= i < n :: BilledExactly(dbs[i], es[i]) && NoOrphans(dbs[i], es[i])
    ensures Conserved(dbs[n].rows, dbs[n].ledger) && QuotasHold(dbs[n].ledger)
  {
    if n > 0 {
      RunsStayHealthy(cfg, es, dbs, n - 1);
      RunsConserveUsage(cfg, es, dbs, n - 1);
      assert StepAt(cfg, es, dbs, n - 1);
      ApplyKeepsConservedIff(cfg, dbs[n - 1], es[n - 1]);
      StepKeepsQuotas(cfg, dbs[n - 1], es[n - 1]);
    }
  }

  ghost predicate NoneNegative(l: Ledger) {
    forall o | o in l :: l[o].used >= 0 && l[o].files >= 0 && l[o].folders >= 0
  }

  /** However far the counters drift when purges reach across accounts and overwrites change sizes, on no run does one
      fall below zero. */
  lemma {:induction false} RunsKeepCountersUp(cfg: Config, es: seq<Event>, dbs: seq<Db>, n: nat)
    requires Run(cfg, es, dbs) && n <= |es| && Accounted(dbs[0]) && NoneNegative(dbs[0].ledger)
    ensures Accounted(dbs[n]) && NoneNegative(dbs[n].ledger)
  {
    if n > 0 {
      RunsKeepCountersUp(cfg, es, dbs, n - 1);
      assert StepAt(cfg, es, dbs, n - 1);
      ApplyKeepsMinted(cfg, dbs[n - 1], es[n - 1]);
      ApplyKeepsCountersUp(cfg, dbs[n - 1], es[n - 1]);
    }
  }

  lemma ApplyKeepsCountersUp(cfg: Config, db: Db, e: Event)
    requires Accounted(db) && NoneNegative(db.ledger) && Allowed(cfg, db, e)
    ensures NoneNegative(Apply(cfg, db, e).ledger)
  {
    if e.Purge? { PurgeKeepsCountersUp(db, e); }
  }

  lemma PurgeKeepsCountersUp(db: Db, e: Event)
    requires Accounted(db) && NoneNegative(db.ledger) && e.Purge? && e.id in db.rows && db.rows[e.id].owner in db.ledger
    ensures NoneNegative(Purged(db, e).ledger)
  {
    var removed := Part(db.rows, e.scan);
    TotalNonNegative(removed, Measure(Bytes, None));
    TotalNonNegative(removed, Measure(Files, None));
    TotalNonNegative(removed, Measure(Folders, None));
  }

  lemma StepKeepsQuotas(cfg: Config, db: Db, e: Event)
    requires Conserved(db.rows, db.ledger) && QuotasHold(db.ledger) && Allowed(cfg, db, e) && BilledExactly(db, e)
    ensures QuotasHold(Apply(cfg, db, e).ledger)
  {
    if e.Purge? {
      PurgeKeepsQuotas(db.rows, db.ledger, db.rows[e.id].owner, e.scan);
    }
  }

  lemma PurgeKeepsQuotas(t: Table, l: Ledger, o: Uuid, s: set<Uuid>)
    requires Conserved(t, l) && QuotasHold(l) && o in l && s <= t.Keys && forall x | x in s :: t[x].owner == o
    ensures QuotasHold(PurgeCharge(l, o, Part(t, s)))
  {
    PurgeKeepsConservedIff(t, l, o, s);
    TotalNonNegative(Part(t, s), Measure(Bytes, None));
  }

  // ---- Version retention ------------------------------------------------------------------

  ghost predicate Counted(db: Db) {
    && Numbered(db.history)
    && (forall x | x in db.rows :: db.rows[x].versionCount == |Of(db.history, x)|)
  }

  ghost predicate Retained(cfg: Config, db: Db) {
    cfg.maxVersions > 0 ==> forall x | x in db.rows :: db.rows[x].versionCount <= cfg.maxVersions
  }

  lemma NewVersionCount(vs: History, v: Uuid, w: Version, x: Uuid)
    requires v !in vs
    ensures |Of(vs[v := w], x)| == |Of(vs, x)| + if w.node == x then 1 else 0
  {
    if w.node == x {
      assert Of(vs[v := w], x) == Of(vs, x) + {v};
    } else {
      assert Of(vs[v := w], x) == Of(vs, x);
    }
  }

  lemma NewVersionNumbered(vs: History, node: Uuid, v: Uuid, n: int, w: Version)
    requires Numbered(vs) && v !in vs && IsNext(vs, node, n) && w.node == node && w.number == n
    ensures Numbered(vs[v := w])
  {
    var h := vs[v := w];
    forall a, b | a in h && b in h && Clash(h, a, b) ensures a == b {
      if a != v && b != v { assert Clash(vs, a, b); }
      assert a != v ==> a in Of(vs, h[a].node);
      assert b != v ==> b in Of(vs, h[b].node);
    }
  }

  /** What a trim of `id` leaves stored for every node. */
  lemma TrimCounts(h: History, id: Uuid, limit: nat, list: seq<Uuid>, keep: nat, x: Uuid)
    requires Numbered(h) && IsListing(h, id, limit, list) && |Of(h, id)| <= limit
    ensures Numbered(h - ToSet(Dropped(list, keep)))
    ensures |Of(h - ToSet(Dropped(list, keep)), x)| == if x == id then CountAfterTrim(list, keep) else |Of(h, x)|
  {
    var drop := Dropped(list, keep);
    TrimIsExactIff(h, id, limit, list, keep);
    DroppingKeepsNumbered(h, ToSet(drop));
    assert forall d | d in ToSet(drop) :: d in Of(h, id);
    if x != id {
      assert Of(h - ToSet(drop), x) == Of(h, x);
    }
  }

  lemma ReplaceKeepsCounted(cfg: Config, db: Db, e: Event)
    requires Healthy(db) && Counted(db) && Retained(cfg, db) && Allowed(cfg, db, e) && e.ReplaceContent?
    requires cfg.maxVersions < cfg.versionLimit
    ensures Counted(Apply(cfg, db, e)) && Retained(cfg, Apply(cfg, db, e))
  {
    if e.kept.Some? {
      var db' := Apply(cfg, db, e);
      var (v, n) := e.kept.value;
      var r := db.rows[e.id];
      var w := Version(e.id, n, r.key, r.size);
      var h := db.history[v := w];
      NewVersionNumbered(db.history, e.id, v, n, w);
      assert Numbered(h - ToSet([])) by { assert h - ToSet([]) == h; }
      NewVersionCount(db.history, v, w, e.id);
      forall x | x in db.rows
        ensures Numbered(db'.history) && db'.rows[x].versionCount == |Of(db'.history, x)|
      {
        NewVersionCount(db.history, v, w, x);
        if Trims(cfg, r) {
          TrimCounts(h, e.id, cfg.versionLimit, e.listing, cfg.maxVersions, x);
        } else {
          assert h - ToSet([]) == h;
        }
      }
    }
  }

  lemma DropKeepsCounted(cfg: Config, db: Db, e: Event)
    requires Healthy(db) && Counted(db) && Retained(cfg, db) && Allowed(cfg, db, e) && e.DropVersion?
    ensures Counted(Apply(cfg, db, e)) && Retained(cfg, Apply(cfg, db, e))
  {
    var h := db.history - {e.version};
    DroppingKeepsNumbered(db.history, {e.version});
    assert e.version in Of(db.history, e.id);
    assert |Of(db.history, e.id)| > 0;
    forall x | x in db.rows ensures |Of(h, x)| == |Of(db.history, x)| - if x == e.id then 1 else 0 {
      assert Of(h, x) == Of(db.history, x) - {e.version};
    }
  }

  lemma ApplyKeepsCounted(cfg: Config, db: Db, e: Event)
    requires Healthy(db) && Counted(db) && Retained(cfg, db) && Allowed(cfg, db, e)
    requires cfg.maxVersions < cfg.versionLimit
    ensures Counted(Apply(cfg, db, e)) && Retained(cfg, Apply(cfg, db, e))
  {
    var db' := Apply(cfg, db, e);
    if e.ReplaceContent? {
      ReplaceKeepsCounted(cfg, db, e);
    } else if e.AddNode? {
      assert Of(db.history, e.id) == {};
    } else if e.Purge? {
      DroppingKeepsNumbered(db.history, e.released);
      forall x | x in db'.rows ensures Of(db'.history, x) == Of(db.history, x) {
      }
    } else if e.DropVersion? {
      DropKeepsCounted(cfg, db, e);
    } else {
      TreeEventsKeepContent(cfg, db, e);
    }
  }

  /** With retention below the listing limit, every file's version count is the number of revisions
      stored for it, version numbers stay distinct, and no file keeps more than the maximum. */
  lemma {:induction false} RunsRetainVersions(cfg: Config, es: seq<Event>, dbs: seq<Db>, n: nat)
    requires Run(cfg, es, dbs) && n <= |es| && cfg.maxVersions < cfg.versionLimit
    requires Healthy(dbs[0]) && Counted(dbs[0]) && Retained(cfg, dbs[0])
    requires forall i | 0 <= i < n :: NoOrphans(dbs[i], es[i])
    ensures Counted(dbs[n]) && Retained(cfg, dbs[n])
  {
    if n > 0 {
      RunsStayHealthy(cfg, es, dbs, n - 1);
      RunsRetainVersions(cfg, es, dbs, n - 1);
      assert StepAt(cfg, es, dbs, n - 1);
      ApplyKeepsCounted(cfg, dbs[n - 1], es[n - 1]);
    }
  }
}
