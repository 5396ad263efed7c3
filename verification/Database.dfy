/** The committed state and its atomic changes. Each event is what one usecase step leaves behind
    in the database when its transaction commits; WithTx serialises writers behind a mutex and
    rolls back on error, so runs of events are all there is to see between transactions. */
module Database {
  import opened Ids
  import opened Paths
  import opened Tree
  import opened Trash
  import opened Names
  import opened Accounts
  import opened Versions

  datatype Config = Config(
    maxDepth: int,
    fold: CaseMap,
    listLimit: nat,
    versionLimit: nat,
    keepVersions: bool,
    maxVersions: int)

  datatype Db = Db(
    rows: Table,
    ledger: Ledger,
    history: History,
    queue: set<string>,
    minted: set<Uuid>)

  function ObjectKey(owner: Uuid, node: Uuid): string {
    "files/" + Text(owner) + "/" + Text(node)
  }

  datatype Event =
    | AddNode(id: Uuid, row: Row)
    | ReplaceContent(id: Uuid, writer: Uuid, keyId: Uuid, size: int, kept: Option<(Uuid, int)>, listing: seq<Uuid>)
    | Move(id: Uuid, target: Uuid, name: string)
    | Retitle(id: Uuid, name: string)
    | Discard(id: Uuid, at: int)
    | Restore(id: Uuid, target: Uuid, name: string)
    | Purge(id: Uuid, scan: set<Uuid>, released: set<Uuid>)
    | DropVersion(id: Uuid, version: Uuid)
    | Enqueue(key: string)

  // ---- What an event writes ---------------------------------------------------------------

  function WithName(cfg: Config, t: Table, id: Uuid, name: string): Table
    requires id in t
  {
    if name == t[id].name then t else Renamed(t, id, name, Lower(cfg.fold, name))
  }

  function Charge(l: Ledger, o: Uuid, bytes: int, files: int, folders: int): Ledger
    requires o in l
  {
    l[o := Charged(l[o], bytes, files, folders)]
  }

  function VersionKeys(vs: History, s: set<Uuid>): set<string> {
    set v | v in s && v in vs :: vs[v].key
  }

  function KeyOf(r: Row): set<string> {
    if r.key == "" then {} else {r.key}
  }

  function RowKeys(t: Table): set<string> {
    set x, k | x in t && k in KeyOf(t[x]) :: k
  }

  /** Does keeping one more revision make this node trim? */
  predicate Trims(cfg: Config, r: Row) {
    cfg.maxVersions > 0 && r.versionCount + 1 > cfg.maxVersions
  }

  /** The overwrite branch of commitNode. The size is assigned before the usage delta is taken, so
      the delta charged is zero. */
  function Replaced(cfg: Config, db: Db, e: Event): Db
    requires e.ReplaceContent? && e.id in db.rows && db.rows[e.id].owner in db.ledger
  {
    var r := db.rows[e.id];
    var r1 := r.(key := ObjectKey(e.writer, e.keyId), size := e.size);
    var paid := db.(ledger := Charge(db.ledger, r.owner, r1.size - e.size, 0, 0));
    match e.kept
    case None =>
      paid.(rows := db.rows[e.id := r1], minted := db.minted + {e.keyId})
    case Some((v, n)) =>
      var h := db.history[v := Version(e.id, n, r.key, r.size)];
      var drop := if Trims(cfg, r) then Dropped(e.listing, cfg.maxVersions) else [];
      var count := if Trims(cfg, r) then CountAfterTrim(e.listing, cfg.maxVersions) else r.versionCount + 1;
      paid.(rows := db.rows[e.id := r1.(versionCount := count)],
            history := h - ToSet(drop),
            queue := db.queue + VersionKeys(h, ToSet(drop)),
            minted := db.minted + {e.keyId, v})
  }

  ghost function Purged(db: Db, e: Event): Db
    requires e.Purge? && e.id in db.rows && db.rows[e.id].owner in db.ledger
  {
    var removed := Part(db.rows, e.scan);
    db.(rows := db.rows - e.scan,
        ledger := PurgeCharge(db.ledger, db.rows[e.id].owner, removed),
        history := db.history - e.released,
        queue := db.queue + RowKeys(removed) + VersionKeys(db.history, e.released))
  }

  ghost function Apply(cfg: Config, db: Db, e: Event): Db
    requires Allowed(cfg, db, e)
  {
    match e
    case AddNode(id, r) =>
      db.(rows := db.rows[id := r],
          ledger := if r.kind.File? then Charge(db.ledger, r.owner, r.size, 1, 0)
              else Charge(db.ledger, r.owner, 0, 0, 1),
          minted := db.minted + {id})
    case ReplaceContent(_, _, _, _, _, _) => Replaced(cfg, db, e)
    case Move(id, target, name) => db.(rows := WithName(cfg, Moved(db.rows, id, target), id, name))
    case Retitle(id, name) => db.(rows := WithName(cfg, db.rows, id, name))
    case Discard(id, at) => db.(rows := Discarded(db.rows, id, at))
    case Restore(id, target, name) => db.(rows := Revived(WithName(cfg, Moved(db.rows, id, target), id, name), id))
    case Purge(_, _, _) => Purged(db, e)
    case DropVersion(id, v) =>
      var r := db.rows[id];
      db.(rows := if r.versionCount > 0 then db.rows[id := r.(versionCount := r.versionCount - 1)] else db.rows,
          history := db.history - {v})
    case Enqueue(key) => db.(queue := db.queue + {key})
  }

  // ---- When an event may happen: the checks of the source ---------------------------------

  predicate Writable(t: Table, target: Uuid) {
    target == NIL || (Live(t, target) && t[target].kind.Folder?)
  }

  /** Where a node may be put: depth limit and a name no other active sibling has once folded. */
  predicate Fits(cfg: Config, t: Table, target: Uuid, name: string, except: Uuid) {
    && Writable(t, target)
    && DepthOf(t, target) + 1 < cfg.maxDepth
    && !Taken(t, target, Lower(cfg.fold, name), except)
  }

  predicate WithinQuota(l: Ledger, o: Uuid, extra: int) {
    extra > 0 && o in l && l[o].quota > 0 ==> l[o].used + extra <= l[o].quota
  }

  predicate NewRow(cfg: Config, db: Db, id: Uuid, r: Row) {
    && id !in db.minted && id != NIL
    && Fits(cfg, db.rows, r.parent, r.name, NIL)
    && r.path == ChildPath(PathOf(db.rows, r.parent), id) && r.depth == DepthOf(db.rows, r.parent) + 1
    && r.nameLower == Lower(cfg.fold, r.name)
    && r.status.Active? && r.originalParent == NIL && r.trashedAt == None && r.versionCount == 0
    && r.owner in db.ledger && r.size >= 0
    && (r.kind.File? ==> r.key == ObjectKey(r.owner, id) && WithinQuota(db.ledger, r.owner, r.size))
    && (r.kind.Folder? ==> r.key == "")
  }

  ghost predicate Overwritable(cfg: Config, db: Db, e: Event)
    requires e.ReplaceContent?
  {
    && Live(db.rows, e.id) && db.rows[e.id].kind.File? && db.rows[e.id].owner in db.ledger
    && e.size >= 0 && WithinQuota(db.ledger, db.rows[e.id].owner, e.size - db.rows[e.id].size)
    && e.keyId !in db.minted
    && (e.kept.Some? <==> cfg.keepVersions)
    && (e.kept.Some? ==>
          var (v, n) := e.kept.value;
          var h := db.history[v := Version(e.id, n, db.rows[e.id].key, db.rows[e.id].size)];
          && v !in db.minted && v != e.keyId && IsNext(db.history, e.id, n)
          && (Trims(cfg, db.rows[e.id]) ==> IsListing(h, e.id, cfg.versionLimit, e.listing)))
  }

  /** The rows a purge works on: its listing has no explicit limit, so at most `listLimit` rows. */
  ghost predicate IsScan(t: Table, id: Uuid, limit: nat, scan: set<Uuid>)
    requires id in t
  {
    scan <= Subtree(t, id) && |scan| == if |Subtree(t, id)| <= limit then |Subtree(t, id)| else limit
  }

  /** The revisions a purge releases: all of those of the removed rows, up to the listing limit. */
  ghost predicate IsRelease(vs: History, scan: set<Uuid>, limit: nat, released: set<Uuid>) {
    && (forall v | v in released :: v in vs && vs[v].node in scan)
    && (forall x | x in scan && |Of(vs, x)| <= limit :: Of(vs, x) <= released)
  }

  ghost predicate Allowed(cfg: Config, db: Db, e: Event) {
    match e
    case AddNode(id, r) => NewRow(cfg, db, id, r)
    case ReplaceContent(_, _, _, _, _, _) => Overwritable(cfg, db, e)
    case Move(id, target, name) =>
      id in db.rows && Fits(cfg, db.rows, target, name, id) && !(db.rows[id].path <= PathOf(db.rows, target))
    case Retitle(id, name) => id in db.rows && !Taken(db.rows, db.rows[id].parent, Lower(cfg.fold, name), id)
    case Discard(id, _) => id in db.rows
    case Restore(id, target, name) =>
      id in db.rows && db.rows[id].status.Trashed? && Fits(cfg, db.rows, target, name, id)
    case Purge(id, scan, released) =>
      && id in db.rows && db.rows[id].status.Trashed? && db.rows[id].owner in db.ledger
      && IsScan(db.rows, id, cfg.listLimit, scan)
      && IsRelease(db.history, scan, cfg.versionLimit, released)
    case DropVersion(id, v) => id in db.rows && v in db.history && db.history[v].node == id
    case Enqueue(key) => key != ""
  }

  // ---- Runs -------------------------------------------------------------------------------

  /** Step `i` of a run: the event was allowed in the state it met and left the next one. */
  ghost predicate StepAt(cfg: Config, es: seq<Event>, dbs: seq<Db>, i: int)
    requires 0 <= i < |es| && |dbs| == |es| + 1
  {
    Allowed(cfg, dbs[i], es[i]) && dbs[i + 1] == Apply(cfg, dbs[i], es[i])
  }

  /** A run of events with the states before, between and after them. */
  ghost predicate Run(cfg: Config, es: seq<Event>, dbs: seq<Db>) {
    |dbs| == |es| + 1 && forall i {:trigger StepAt(cfg, es, dbs, i)} | 0 <= i < |es| :: StepAt(cfg, es, dbs, i)
  }

  const EMPTY: Db := Db(map[], map[], map[], {}, {})
}
