/** Inputs at which what one would like to hold fails: admissible states of which the exact conditions elsewhere say
    that the step must go wrong. */
module Failures {
  import opened Ids
  import opened Paths
  import opened Tree
  import opened Trash
  import opened Names
  import opened Accounts
  import opened Database
  import opened Invariants

  // ---- Usage that drifts ------------------------------------------------------------------

  /** The counters that the table calls for, for accounts without a quota. */
  ghost function RightBooks(t: Table, owners: set<Uuid>): Ledger {
    map o | o in owners :: Account(Total(t, Measure(Bytes, Some(o))), Total(t, Measure(Files, Some(o))),
                                   Total(t, Measure(Folders, Some(o))), 0)
  }

  lemma RightBooksConserve(t: Table, owners: set<Uuid>)
    requires forall x | x in t :: t[x].owner in owners && t[x].size >= 0
    ensures Conserved(t, RightBooks(t, owners))
  {
    forall o | o in owners ensures Balanced(t, RightBooks(t, owners), o) { }
  }

  /** Where no quota is set and no versions are kept, every overwrite that gives a file another size is allowed, and the
      account is not billed for it. */
  lemma OverwriteIsFree(cfg: Config, db: Db, x: Uuid, writer: Uuid, y: Uuid, size: int)
    requires Healthy(db) && Conserved(db.rows, db.ledger) && Live(db.rows, x) && db.rows[x].kind.File?
    requires db.ledger[db.rows[x].owner].quota == 0 && y !in db.minted && !cfg.keepVersions
    requires 0 <= size != db.rows[x].size
    ensures var e := ReplaceContent(x, writer, y, size, None, []);
            Allowed(cfg, db, e) && !Conserved(Apply(cfg, db, e).rows, Apply(cfg, db, e).ledger)
  {
    ApplyKeepsConservedIff(cfg, db, ReplaceContent(x, writer, y, size, None, []));
  }

  /** So it goes for the empty files of a folder. */
  lemma OverwriteDrifts(cfg: Config, n: nat, x: Uuid, size: int)
    requires 1 < x <= n + 1 && size > 0 && !cfg.keepVersions
    ensures var t := FolderOfFiles(n, Active);
            var db := Db(t, RightBooks(t, {1}), map[], {}, t.Keys);
            var e := ReplaceContent(x, 1, n + 2, size, None, []);
            && Healthy(db) && Conserved(db.rows, db.ledger) && Allowed(cfg, db, e)
            && !Conserved(Apply(cfg, db, e).rows, Apply(cfg, db, e).ledger)
  {
    var t := FolderOfFiles(n, Active);
    FolderOfFilesIsSound(n, Active);
    RightBooksConserve(t, {1});
    OverwriteIsFree(cfg, Db(t, RightBooks(t, {1}), map[], {}, t.Keys), x, 1, n + 2, size);
  }

  /** A purge that fits the limit and keeps no versions is allowed, and where it takes a row of another account it
      leaves that account billed. */
  lemma PurgeBillsOneOwner(cfg: Config, db: Db, id: Uuid, x: Uuid)
    requires Healthy(db) && Conserved(db.rows, db.ledger) && db.history == map[]
    requires id in db.rows && db.rows[id].status.Trashed? && |Subtree(db.rows, id)| <= cfg.listLimit
    requires x in Subtree(db.rows, id) && db.rows[x].owner != db.rows[id].owner
    ensures var e := Purge(id, Subtree(db.rows, id), {});
            Allowed(cfg, db, e) && !Conserved(Apply(cfg, db, e).rows, Apply(cfg, db, e).ledger)
  {
    ApplyKeepsConservedIff(cfg, db, Purge(id, Subtree(db.rows, id), {}));
  }

  /** A trashed folder of account 1 with the file x of account 2 in it. */
  function SharedFolder(n: nat, x: Uuid): Table
    requires 1 < x <= n + 1
  {
    FolderOfFiles(n, Trashed)[x := FolderOrFile(x, Trashed).(owner := 2)]
  }

  lemma SharedFolderIsSound(n: nat, x: Uuid)
    requires 1 < x <= n + 1
    ensures var t := SharedFolder(n, x);
            && Sound(t) && 1 in t && t.Keys == Subtree(t, 1) && |t.Keys| == n + 1
            && forall y | y in t :: t[y].status.Trashed? && t[y].size == 0 && t[y].owner == if y == x then 2 else 1
  {
    var t, t' := FolderOfFiles(n, Trashed), SharedFolder(n, x);
    FolderOfFilesIsSound(n, Trashed);
    FolderOfFilesSize(n, Trashed);
    OneFileLent(t, t', x);
    SameShapeKeeps(t, t');
  }

  lemma OneFileLent(t: Table, t': Table, x: Uuid)
    requires 1 in t && x in t && t' == t[x := t[x].(owner := 2)]
    ensures t'.Keys == t.Keys && Subtree(t', 1) == Subtree(t, 1)
    ensures forall y | y in t :: t'[y] == t[y].(owner := if y == x then 2 else t[y].owner)
  {
    assert t'.Keys == t.Keys && forall y | y in t :: t'[y].path == t[y].path;
  }

  /** A purge of that folder is allowed whole, and account 2 stays billed for its file. */
  lemma PurgeDrifts(cfg: Config, n: nat, x: Uuid)
    requires 1 < x <= n + 1 <= cfg.listLimit
    ensures var t := SharedFolder(n, x);
            var db := Db(t, RightBooks(t, {1, 2}), map[], {}, t.Keys);
            var e := Purge(1, Subtree(t, 1), {});
            && Healthy(db) && Conserved(db.rows, db.ledger) && Allowed(cfg, db, e)
            && !Conserved(Apply(cfg, db, e).rows, Apply(cfg, db, e).ledger)
  {
    var t := SharedFolder(n, x);
    SharedFolderIsSound(n, x);
    RightBooksConserve(t, {1, 2});
    PurgeBillsOneOwner(cfg, Db(t, RightBooks(t, {1, 2}), map[], {}, t.Keys), 1, x);
  }

  // ---- A move past the depth limit ----------------------------------------------------------

  /** A folder with something in it may go to the greatest depth there is, and takes that one level further. */
  lemma ChildGoesTooDeep(cfg: Config, db: Db, id: Uuid, child: Uuid, target: Uuid, name: string)
    requires Healthy(db) && id in db.rows && child in db.rows && db.rows[child].parent == id
    requires Writable(db.rows, target) && DepthOf(db.rows, target) + 2 == cfg.maxDepth
    requires !Taken(db.rows, target, Lower(cfg.fold, name), id) && !(db.rows[id].path <= PathOf(db.rows, target))
    ensures var e := Move(id, target, name);
            Allowed(cfg, db, e) && child in Apply(cfg, db, e).rows
                && Apply(cfg, db, e).rows[child].depth == cfg.maxDepth
  {
    UnderStep(db.rows, id, child);
    UnderStep(db.rows, id, id);
    NotUnderItself(db.rows, id, child);
  }

  lemma NotUnderItself(t: Table, id: Uuid, child: Uuid)
    requires Indexed(t) && id in t && child in t && t[child].parent == id
    ensures child != id && t[child].depth == t[id].depth + 1
  {
    assert Placed(t, child);
  }

  /** The path of the n-th of a chain of folders 1, 2, 3 and so on, each inside the one before. */
  function Rung(n: nat): string {
    if n == 0 then "/" else ChildPath(Rung(n - 1), n)
  }

  /** A chain of m - 1 folders, and beside it the folder m with one folder in it. */
  function Ladder(m: nat): Table {
    map x: Uuid | 1 <= x <= m + 1 :: LadderRow(m, x)
  }

  function LadderRow(m: nat, x: Uuid): Row
    requires x > 0
  {
    var top := ChildPath("/", m);
    if x < m then Row(x - 1, "rung", "rung", Folder, 1, 0, "", Active, Rung(x), x - 1, NIL, None, 0)
    else if x == m then Row(NIL, "folder", "folder", Folder, 1, 0, "", Active, top, 0, NIL, None, 0)
    else Row(m, "inside", "inside", Folder, 1, 0, "", Active, ChildPath(top, x), 1, NIL, None, 0)
  }

  lemma LadderRowFits(t: Table, m: nat, x: Uuid)
    requires m > 1 && x in t && 0 < x <= m + 1 && t[x] == LadderRow(m, x) && NIL !in t
    requires 1 < x < m ==> x - 1 in t && t[x - 1] == LadderRow(m, x - 1)
    requires m in t && t[m] == LadderRow(m, m)
    ensures Placed(t, x) && Sheltered(t, x)
  {
  }

  lemma LadderIsSound(m: nat)
    requires m > 1
    ensures Sound(Ladder(m))
    ensures forall x | x in Ladder(m) :: Ladder(m)[x].depth < m && Ladder(m)[x].size == 0
  {
    var t := Ladder(m);
    forall x | x in t ensures Placed(t, x) && Sheltered(t, x) {
      LadderRowFits(t, m, x);
    }
  }

  lemma {:induction false} BesideLadder(m: nat, x: Uuid)
    requires m > 1 && 0 < x < m
    ensures m in Ladder(m) && x in Ladder(m) && !Under(Ladder(m), m, x)
    decreases x
  {
    LadderIsSound(m);
    UnderStep(Ladder(m), m, x);
    if x > 1 { BesideLadder(m, x - 1); }
  }

  /** There is such a folder for every limit: m may go below the last of the chain. */
  lemma MovePassesDepthLimit(cfg: Config, l: Ledger)
    requires cfg.maxDepth > 1
    ensures var m := cfg.maxDepth;
            var db := Db(Ladder(m), l, map[], {}, Ladder(m).Keys);
            var e := Move(m, m - 1, "folder");
            && Healthy(db) && (forall x | x in db.rows :: db.rows[x].depth < m) && Allowed(cfg, db, e)
            && m + 1 in Apply(cfg, db, e).rows && Apply(cfg, db, e).rows[m + 1].depth == m
  {
    var m := cfg.maxDepth;
    LadderIsSound(m);
    BesideLadder(m, m - 1);
    ChildGoesTooDeep(cfg, Db(Ladder(m), l, map[], {}, Ladder(m).Keys), m, m + 1, m - 1, "folder");
  }
}
