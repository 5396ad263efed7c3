/** Object storage beside the database: what may happen between the two in any order, and why no
    clean-up ever takes content that a node or a revision refers to. */
module Content {
  import opened Ids
  import opened Paths
  import opened Tree
  import opened Trash
  import opened Names
  import opened Accounts
  import opened Versions
  import opened Database
  import opened Invariants

  // ---- Keys -------------------------------------------------------------------------------

  function SessionPath(id: Uuid): string {
    "uploads/" + Text(id)
  }

  function PartKey(id: Uuid, n: nat): string {
    SessionPath(id) + "/parts/" + Text(n)
  }

  /** What RemovePrefix takes: the key itself and everything below it. */
  predicate Below(prefix: string, key: string) {
    key == prefix || prefix + "/" <= key
  }

  predicate Staged(key: string) {
    "uploads/" <= key || "orphan/" <= key
  }

  lemma ObjectKeyIsChildPath(o: Uuid, n: Uuid)
    ensures ObjectKey(o, n) + "/" == ChildPath(ChildPath("files/", o), n)
  {
    assert ChildPath("files/", o) == "files/" + Text(o) + "/";
    assert ChildPath(ChildPath("files/", o), n) == ChildPath("files/", o) + Text(n) + "/";
  }

  /** No content key is another one's prefix, so removing the prefix of one takes that one only. */
  lemma ObjectKeysPrefixFree(o: Uuid, n: Uuid, o': Uuid, n': Uuid)
    ensures Below(ObjectKey(o, n), ObjectKey(o', n')) <==> o == o' && n == n'
  {
    var p, q := ChildPath("files/", o), ChildPath("files/", o');
    ObjectKeyIsChildPath(o, n);
    ObjectKeyIsChildPath(o', n');
    if Below(ObjectKey(o, n), ObjectKey(o', n')) {
      if ObjectKey(o, n) + "/" <= ObjectKey(o', n') {
        assert ChildPath(p, n) <= ObjectKey(o', n') + "/";
        PrefixOfChild(ChildPath(p, n), q, n');
        assert ChildPath(p, n) <= q;
        PrefixOfChild(ChildPath(p, n), "files/", o');
        assert |ChildPath(p, n)| > |p| > |"files/"|;
        ChildPathInjective(p, n, "files/", o');
        assert false;
      }
      ChildPathInjective(p, n, q, n');
      ChildPathInjective("files/", o, "files/", o');
    }
  }

  /** Staging keys and content keys never meet. */
  lemma StagingIsApart(id: Uuid, o: Uuid, n: Uuid)
    ensures !Staged(ObjectKey(o, n)) && !Below(SessionPath(id), ObjectKey(o, n))
  {
    assert ObjectKey(o, n)[0] == 'f' && SessionPath(id)[0] == 'u';
  }

  lemma SameText(a: Uuid, b: Uuid, rest: string)
    requires Text(a) + "/" <= Text(b) + "/" + rest
    ensures a == b
  {
    var x, y, i, j := Text(a) + "/", Text(b) + "/" + rest, |Text(a)|, |Text(b)|;
    assert x[i] == '/' && y[j] == '/' && x[i] == y[i];
    assert forall m | 0 <= m < i :: x[m] == Text(a)[m];
    assert forall m | 0 <= m < j :: y[m] == Text(b)[m];
    assert i == j;
    assert x[..i] == Text(a) && y[..j] == Text(b);
    TextInjective(a, b);
  }

  /** Removing the staging path of one session leaves the parts of every other alone. */
  lemma SessionsAreApart(a: Uuid, b: Uuid, n: nat)
    ensures Below(SessionPath(a), PartKey(b, n)) <==> a == b
  {
    var p, k := SessionPath(a) + "/", PartKey(b, n);
    assert p == "uploads/" + (Text(a) + "/");
    assert k == "uploads/" + (Text(b) + "/" + ("parts/" + Text(n)));
    assert k[8..][|Text(b)|] == '/' && SessionPath(a)[8..] == Text(a);
    if p <= k {
      assert p[8..] == Text(a) + "/" && k[8..] == Text(b) + "/" + ("parts/" + Text(n));
      SameText(a, b, "parts/" + Text(n));
    }
  }

  // ---- The state ----------------------------------------------------------------------------

  /** `drafts` are contents stored but not committed yet, with the account each is stored for;
      `retiring` are keys of deleted revisions that are not queued yet; `listed` are the keys that some
      drain of the queue has read and may still remove, whether or not they are queued any more; `spent`
      are all the identifiers ever generated. */
  datatype World = World(db: Db, store: set<string>, spent: set<Uuid>, drafts: map<Uuid, Uuid>, retiring: set<string>,
                         listed: set<string>)

  datatype Holder = RowOf(node: Uuid) | VersionOf(version: Uuid)

  predicate Holds(db: Db, h: Holder, k: string) {
    match h
    case RowOf(x) => x in db.rows && db.rows[x].key == k && k != ""
    case VersionOf(v) => v in db.history && db.history[v].key == k && k != ""
  }

  predicate IsContent(k: string, o: Uuid, n: Uuid) {
    k == ObjectKey(o, n)
  }

  /** The key of content that was committed, or given up, at some time. */
  ghost predicate Settled(spent: set<Uuid>, drafts: map<Uuid, Uuid>, k: string) {
    exists o, n :: IsContent(k, o, n) && n in spent && n !in drafts
  }

  ghost predicate IsSession(k: string) {
    exists id :: k == SessionPath(id)
  }

  /** Every referenced key is stored and was committed. */
  ghost predicate Backed(w: World) {
    forall h, k {:trigger Holds(w.db, h, k)} | Holds(w.db, h, k) :: k in w.store && Settled(w.spent, w.drafts, k)
  }

  /** No two rows refer to the same key. */
  ghost predicate Unshared(db: Db) {
    forall h, g, k {:trigger Holds(db, h, k), Holds(db, g, k)} | Holds(db, h, k) && Holds(db, g, k) :: h == g
  }

  predicate Doomed(w: World, q: string) {
    q in w.db.queue || q in w.retiring || q in w.listed
  }

  /** Files and revisions have content. */
  ghost predicate Keyed(db: Db) {
    && (forall x | x in db.rows && db.rows[x].kind.File? :: db.rows[x].key != "")
    && (forall v | v in db.history :: db.history[v].key != "")
  }

  /** What waits for removal is a staging path or old content that nothing refers to. */
  ghost predicate Condemned(w: World, q: string) {
    IsSession(q) || (Settled(w.spent, w.drafts, q) && forall h :: !Holds(w.db, h, q))
  }

  ghost predicate Safe(w: World) {
    && Accounted(w.db) && w.db.minted <= w.spent && w.drafts.Keys <= w.spent - w.db.minted
    && Keyed(w.db) && Backed(w) && Unshared(w.db)
    && (forall n | n in w.drafts :: ObjectKey(w.drafts[n], n) in w.store)
    && (forall q {:trigger Doomed(w, q)} | Doomed(w, q) :: Condemned(w, q))
  }

  // ---- The steps ------------------------------------------------------------------------------

  datatype Act =
    | PutPart(session: Uuid, number: nat)
    | PutContent(caller: Uuid, id: Uuid)
    | Settle(id: Uuid, e: Event)
    | Undo(id: Uuid)
    | Tidy(e: Event)
    | Retire(node: Uuid, version: Uuid)
    | Queue(key: string)
    | List(keys: set<string>)
    | Remove(prefix: string, gone: set<string>)
    | Dequeue(key: string)
    | Sweep(gone: set<string>)
    | Crash(drafts: set<Uuid>, keys: set<string>, lists: set<string>)

  /** The identifiers an event stores for the first time. */
  function NewIds(e: Event): set<Uuid> {
    match e
    case AddNode(id, _) => {id}
    case ReplaceContent(_, _, keyId, _, kept, _) => {keyId} + if kept.Some? then {kept.value.0} else {}
    case _ => {}
  }

  predicate CommitsContent(w: World, id: Uuid, e: Event) {
    && id in w.drafts
    && match e
       case AddNode(x, r) => x == id && r.kind.File? && r.owner == w.drafts[id]
       case ReplaceContent(_, writer, keyId, _, _, _) => keyId == id && writer == w.drafts[id]
       case _ => false
  }

  /** The steps of the usecases and maintenance jobs, in any order: an object is put before its row
      is committed (CompleteUpload, UploadSmallFile, copyTree), removed again when the commit fails,
      and removed for good only through the queue, a session's staging path or the orphan sweep.
      A drain first lists queued keys and removes them later, when another drain may have dequeued them
      long since. A removal may stop half-way; a crash, like a drain that ends, forgets what only memory
      knew. */
  ghost predicate Can(cfg: Config, w: World, a: Act) {
    match a
    case PutPart(_, _) => true
    case PutContent(_, id) => id !in w.spent
    case Settle(id, e) => CommitsContent(w, id, e) && Allowed(cfg, w.db, e) && (NewIds(e) - {id}) !! w.spent
    case Undo(id) => id in w.drafts
    case Tidy(e) =>
      && Allowed(cfg, w.db, e) && NewIds(e) !! w.spent
      && (e.Move? || e.Retitle? || e.Discard? || e.Restore? || e.Purge? || (e.AddNode? && e.row.kind.Folder?))
    case Retire(x, v) => Allowed(cfg, w.db, DropVersion(x, v))
    case Queue(k) => k != "" && (k in w.retiring || IsSession(k))
    case List(keys) => keys <= w.db.queue
    case Remove(p, gone) => (p in w.listed || IsSession(p)) && forall k | k in gone :: Below(p, k)
    case Dequeue(_) => true
    case Sweep(gone) => forall k | k in gone :: Staged(k)
    case Crash(_, _, _) => true
  }

  ghost function Next(cfg: Config, w: World, a: Act): World
    requires Can(cfg, w, a)
  {
    match a
    case PutPart(session, n) => w.(store := w.store + {PartKey(session, n)})
    case PutContent(caller, id) =>
      w.(store := w.store + {ObjectKey(caller, id)}, drafts := w.drafts[id := caller], spent := w.spent + {id})
    case Settle(id, e) => w.(db := Apply(cfg, w.db, e), drafts := w.drafts - {id}, spent := w.spent + NewIds(e))
    case Undo(id) => w.(store := w.store - {ObjectKey(w.drafts[id], id)}, drafts := w.drafts - {id})
    case Tidy(e) => w.(db := Apply(cfg, w.db, e), spent := w.spent + NewIds(e))
    case Retire(x, v) => w.(db := Apply(cfg, w.db, DropVersion(x, v)), retiring := w.retiring + {w.db.history[v].key})
    case Queue(k) => w.(db := Apply(cfg, w.db, Enqueue(k)), retiring := w.retiring - {k})
    case List(keys) => w.(listed := w.listed + keys)
    case Remove(_, gone) => w.(store := w.store - gone)
    case Dequeue(k) => w.(db := w.db.(queue := w.db.queue - {k}))
    case Sweep(gone) => w.(store := w.store - gone)
    case Crash(ids, keys, lists) =>
      w.(drafts := w.drafts - ids, retiring := w.retiring - keys, listed := w.listed - lists)
  }

  // ---- Who holds what after an event ----------------------------------------------------------

  lemma SameContentHolds(db: Db, db': Db, h: Holder, k: string)
    requires SameContent(db.rows, db'.rows) && db'.history == db.history
    ensures Holds(db', h, k) <==> Holds(db, h, k)
  {
  }

  /** The events that touch no content leave every holder as it was. */
  lemma TidyHolds(cfg: Config, db: Db, e: Event, h: Holder, k: string)
    requires Allowed(cfg, db, e) && Accounted(db)
    requires e.Move? || e.Retitle? || e.Discard? || e.Restore? || e.Enqueue? || (e.AddNode? && e.row.kind.Folder?)
    ensures Holds(Apply(cfg, db, e), h, k) <==> Holds(db, h, k)
  {
    if !e.AddNode? {
      TreeEventsKeepContent(cfg, db, e);
      SameContentHolds(db, Apply(cfg, db, e), h, k);
    }
  }

  /** Everything a purge queues was held by something it removed. */
  lemma PurgeQueues(cfg: Config, db: Db, e: Event, q: string) returns (h: Holder)
    requires Allowed(cfg, db, e) && Keyed(db) && e.Purge? && q in Apply(cfg, db, e).queue && q !in db.queue
    ensures Holds(db, h, q) && !Holds(Apply(cfg, db, e), h, q)
  {
    var removed := Part(db.rows, e.scan);
    if q in RowKeys(removed) {
      var x :| x in removed && q in KeyOf(removed[x]);
      h := RowOf(x);
    } else {
      var v :| v in e.released && v in db.history && db.history[v].key == q;
      h := VersionOf(v);
    }
  }

  lemma SettleHolds(cfg: Config, db: Db, e: Event, h: Holder, k: string)
    requires Allowed(cfg, db, e) && Accounted(db) && ((e.AddNode? && e.row.kind.File?) || e.ReplaceContent?)
    requires Holds(Apply(cfg, db, e), h, k)
    ensures e.AddNode? ==> if h == RowOf(e.id) then k == ObjectKey(e.row.owner, e.id) else Holds(db, h, k)
    ensures e.ReplaceContent? ==>
              if h == RowOf(e.id) then k == ObjectKey(e.writer, e.keyId)
              else if e.kept.Some? && h == VersionOf(e.kept.value.0) then Holds(db, RowOf(e.id), k)
              else Holds(db, h, k)
  {
  }

  /** Everything an overwrite queues was held by the node or one of its revisions, and is not any more. */
  lemma SettleQueues(cfg: Config, db: Db, e: Event, q: string) returns (h: Holder)
    requires Allowed(cfg, db, e) && Accounted(db) && Keyed(db) && e.ReplaceContent?
    requires q in Apply(cfg, db, e).queue && q !in db.queue
    ensures Holds(db, h, q)
    ensures e.kept.Some?
    ensures if h == RowOf(e.id) then !Holds(Apply(cfg, db, e), VersionOf(e.kept.value.0), q)
            else h.VersionOf? && h.version != e.kept.value.0 && !Holds(Apply(cfg, db, e), h, q)
  {
    var (v, n) := e.kept.value;
    var r := db.rows[e.id];
    var vs := db.history[v := Version(e.id, n, r.key, r.size)];
    var drop := if Trims(cfg, r) then Dropped(e.listing, cfg.maxVersions) else [];
    assert q in VersionKeys(vs, ToSet(drop));
    var d :| d in ToSet(drop) && d in vs && vs[d].key == q;
    h := if d == v then RowOf(e.id) else VersionOf(d);
  }

  // ---- Safety ---------------------------------------------------------------------------------

  /** The world after an event that hands no key to anybody. */
  lemma FewerHoldersSafe(w: World, db': Db, retired: set<string>)
    requires Safe(w) && Accounted(db') && Keyed(db') && db'.minted == w.db.minted
    requires forall h, k | Holds(db', h, k) :: Holds(w.db, h, k)
    requires forall q | q in db'.queue + retired && !Doomed(w, q) ::
               (exists h :: Holds(w.db, h, q) && !Holds(db', h, q)) || IsSession(q)
    ensures Safe(w.(db := db', retiring := w.retiring + retired))
  {
    var w' := w.(db := db', retiring := w.retiring + retired);
    forall q | Doomed(w', q) ensures Condemned(w', q) {
      if Doomed(w, q) {
        assert Condemned(w, q);
      } else if !IsSession(q) {
        var h :| Holds(w.db, h, q) && !Holds(db', h, q);
        assert forall g :: Holds(db', g, q) ==> g == h;
      }
    }
  }

  lemma SettleKeepsSafe(cfg: Config, w: World, id: Uuid, e: Event)
    requires Safe(w) && Can(cfg, w, Settle(id, e))
    ensures Safe(Next(cfg, w, Settle(id, e)))
  {
    var w' := Next(cfg, w, Settle(id, e));
    ApplyKeepsMinted(cfg, w.db, e);
    DraftIsNobodys(w, id);
    var newKey := ObjectKey(w.drafts[id], id);
    forall h, k | Holds(w'.db, h, k) ensures k in w'.store && Settled(w'.spent, w'.drafts, k) {
      SettleHolds(cfg, w.db, e, h, k);
      if k == newKey {
        assert IsContent(k, w.drafts[id], id);
      } else {
        SettledForward(w, w', k);
      }
    }
    forall h, g, k | Holds(w'.db, h, k) && Holds(w'.db, g, k) ensures h == g {
      SettleHolds(cfg, w.db, e, h, k);
      SettleHolds(cfg, w.db, e, g, k);
    }
    forall q | Doomed(w', q) ensures Condemned(w', q) {
      if Doomed(w, q) {
        StaysCondemned(cfg, w, id, e, q);
      } else {
        var h := SettleQueues(cfg, w.db, e, q);
        SettledForward(w, w', q);
        forall g ensures !Holds(w'.db, g, q) {
          if Holds(w'.db, g, q) { SettleHolds(cfg, w.db, e, g, q); }
        }
      }
    }
  }

  /** Content that is stored but not committed is referred to by nothing and waits for no removal. */
  lemma DraftIsNobodys(w: World, id: Uuid)
    requires Safe(w) && id in w.drafts
    ensures forall h :: !Holds(w.db, h, ObjectKey(w.drafts[id], id))
    ensures !Doomed(w, ObjectKey(w.drafts[id], id))
    ensures !Settled(w.spent, w.drafts, ObjectKey(w.drafts[id], id))
  {
    var k := ObjectKey(w.drafts[id], id);
    forall o, n | IsContent(k, o, n) ensures n == id { ObjectKeysPrefixFree(o, n, w.drafts[id], id); }
    if IsSession(k) {
      var s :| k == SessionPath(s);
      StagingIsApart(s, w.drafts[id], id);
    }
    assert Doomed(w, k) ==> Condemned(w, k);
  }

  lemma SettledForward(w: World, w': World, k: string)
    requires w.spent <= w'.spent && w'.drafts.Keys <= w.drafts.Keys && Settled(w.spent, w.drafts, k)
    ensures Settled(w'.spent, w'.drafts, k)
  {
    var o, n :| IsContent(k, o, n) && n in w.spent && n !in w.drafts;
    assert IsContent(k, o, n) && n in w'.spent && n !in w'.drafts;
  }

  lemma StaysCondemned(cfg: Config, w: World, id: Uuid, e: Event, q: string)
    requires Safe(w) && Can(cfg, w, Settle(id, e)) && Doomed(w, q)
    ensures Condemned(Next(cfg, w, Settle(id, e)), q)
  {
    var w' := Next(cfg, w, Settle(id, e));
    assert Condemned(w, q);
    DraftIsNobodys(w, id);
    if !IsSession(q) {
      SettledForward(w, w', q);
      forall g ensures !Holds(w'.db, g, q) {
        if Holds(w'.db, g, q) { SettleHolds(cfg, w.db, e, g, q); }
      }
    }
  }

  /** The events that commit no content. */
  lemma TidyKeepsSafe(cfg: Config, w: World, e: Event)
    requires Safe(w) && Can(cfg, w, Tidy(e)) && !e.Purge?
    ensures Safe(Next(cfg, w, Tidy(e)))
  {
    var db' := Apply(cfg, w.db, e);
    ApplyKeepsMinted(cfg, w.db, e);
    var w' := Next(cfg, w, Tidy(e));
    forall h, k ensures Holds(db', h, k) <==> Holds(w.db, h, k) { TidyHolds(cfg, w.db, e, h, k); }
    TidyKeyed(cfg, w.db, e);
    forall h, k | Holds(db', h, k) ensures Settled(w'.spent, w'.drafts, k) { SettledForward(w, w', k); }
    forall q | Doomed(w', q) ensures Condemned(w', q) {
      assert Doomed(w, q) && Condemned(w, q);
      if !IsSession(q) { SettledForward(w, w', q); }
    }
  }

  lemma PurgeKeepsSafe(cfg: Config, w: World, e: Event)
    requires Safe(w) && Can(cfg, w, Tidy(e)) && e.Purge?
    ensures Safe(Next(cfg, w, Tidy(e)))
  {
    var db' := Apply(cfg, w.db, e);
    ApplyKeepsMinted(cfg, w.db, e);
    forall q | q in db'.queue && !Doomed(w, q) ensures exists h :: Holds(w.db, h, q) && !Holds(db', h, q) {
      var h := PurgeQueues(cfg, w.db, e, q);
    }
    FewerHoldersSafe(w, db', {});
    assert w.retiring + {} == w.retiring && w.spent + NewIds(e) == w.spent;
  }

  lemma TidyKeyed(cfg: Config, db: Db, e: Event)
    requires Allowed(cfg, db, e) && Keyed(db)
    requires e.Move? || e.Retitle? || e.Discard? || e.Restore? || e.Enqueue? || (e.AddNode? && e.row.kind.Folder?)
    ensures Keyed(Apply(cfg, db, e))
  {
    if !e.AddNode? { TreeEventsKeepContent(cfg, db, e); }
  }

  lemma RetireKeepsSafe(cfg: Config, w: World, x: Uuid, v: Uuid)
    requires Safe(w) && Can(cfg, w, Retire(x, v))
    ensures Safe(Next(cfg, w, Retire(x, v)))
  {
    var db', k := Apply(cfg, w.db, DropVersion(x, v)), w.db.history[v].key;
    assert Holds(w.db, VersionOf(v), k) && !Holds(db', VersionOf(v), k);
    FewerHoldersSafe(w, db', {k});
  }

  /** Nothing a removal by prefix can take is referred to or about to be. */
  lemma RemovalMisses(w: World, p: string, k: string)
    requires Safe(w) && (Doomed(w, p) || IsSession(p)) && Below(p, k)
    ensures forall h :: !Holds(w.db, h, k)
    ensures forall n | n in w.drafts :: k != ObjectKey(w.drafts[n], n)
  {
    assert Doomed(w, p) ==> Condemned(w, p);
    forall h ensures !Holds(w.db, h, k) {
      if Holds(w.db, h, k) {
        assert Settled(w.spent, w.drafts, k);
        var o, n :| IsContent(k, o, n);
        OnlyItself(w, p, o, n);
      }
    }
    forall n | n in w.drafts ensures k != ObjectKey(w.drafts[n], n) {
      if k == ObjectKey(w.drafts[n], n) {
        OnlyItself(w, p, w.drafts[n], n);
        DraftIsNobodys(w, n);
      }
    }
  }

  lemma OnlyItself(w: World, p: string, o: Uuid, n: Uuid)
    requires (IsSession(p) || Settled(w.spent, w.drafts, p)) && Below(p, ObjectKey(o, n))
    ensures p == ObjectKey(o, n) && !IsSession(p)
  {
    if IsSession(p) {
      var s :| p == SessionPath(s);
      StagingIsApart(s, o, n);
    } else {
      var o', n' :| IsContent(p, o', n');
      ObjectKeysPrefixFree(o', n', o, n);
    }
  }

  lemma RemoveKeepsSafe(cfg: Config, w: World, p: string, gone: set<string>)
    requires Safe(w) && Can(cfg, w, Remove(p, gone))
    ensures Safe(Next(cfg, w, Remove(p, gone)))
  {
    var w' := Next(cfg, w, Remove(p, gone));
    forall k | k in gone
      ensures forall h :: !Holds(w.db, h, k)
      ensures forall n | n in w.drafts :: k != ObjectKey(w.drafts[n], n)
    {
      RemovalMisses(w, p, k);
    }
    SameDbSafe(w, w');
  }

  lemma SweepKeepsSafe(cfg: Config, w: World, gone: set<string>)
    requires Safe(w) && Can(cfg, w, Sweep(gone))
    ensures Safe(Next(cfg, w, Sweep(gone)))
  {
    var w' := Next(cfg, w, Sweep(gone));
    forall h, k | Holds(w.db, h, k) ensures k !in gone {
      assert Settled(w.spent, w.drafts, k);
      var o, n :| IsContent(k, o, n);
      StagingIsApart(NIL, o, n);
    }
    forall n | n in w.drafts ensures ObjectKey(w.drafts[n], n) !in gone {
      StagingIsApart(NIL, w.drafts[n], n);
    }
    SameDbSafe(w, w');
  }

  /** A change of the store alone is safe when it spares committed and stored content. */
  lemma SameDbSafe(w: World, w': World)
    requires Safe(w) && w' == w.(store := w'.store)
    requires forall h, k | Holds(w.db, h, k) :: k in w'.store
    requires forall n | n in w.drafts :: ObjectKey(w.drafts[n], n) in w'.store
    ensures Safe(w')
  {
    forall q | Doomed(w', q) ensures Condemned(w', q) { assert Doomed(w, q) && Condemned(w, q); }
  }

  lemma PutContentKeepsSafe(cfg: Config, w: World, caller: Uuid, id: Uuid)
    requires Safe(w) && id !in w.spent
    ensures Safe(Next(cfg, w, PutContent(caller, id)))
  {
    var w' := Next(cfg, w, PutContent(caller, id));
    forall k | Settled(w.spent, w.drafts, k) ensures Settled(w'.spent, w'.drafts, k) {
      var o, n :| IsContent(k, o, n) && n in w.spent && n !in w.drafts;
      assert IsContent(k, o, n) && n in w'.spent && n !in w'.drafts;
    }
    forall q | Doomed(w', q) ensures Condemned(w', q) { assert Doomed(w, q) && Condemned(w, q); }
  }

  /** Undoing, forgetting, queueing, listing and unqueueing. */
  lemma BookkeepingKeepsSafe(cfg: Config, w: World, a: Act)
    requires Safe(w) && Can(cfg, w, a) && (a.Undo? || a.Queue? || a.List? || a.Dequeue? || a.Crash?)
    ensures Safe(Next(cfg, w, a))
  {
    var w' := Next(cfg, w, a);
    if a.Undo? { DraftIsNobodys(w, a.id); }
    forall n | n in w'.drafts ensures ObjectKey(w'.drafts[n], n) in w'.store {
      if a.Undo? && ObjectKey(w.drafts[n], n) == ObjectKey(w.drafts[a.id], a.id) {
        ObjectKeysPrefixFree(w.drafts[n], n, w.drafts[a.id], a.id);
      }
    }
    forall h, k ensures Holds(w'.db, h, k) == Holds(w.db, h, k) { }
    forall h, k | Holds(w'.db, h, k) ensures k in w'.store && Settled(w'.spent, w'.drafts, k) {
      SettledForward(w, w', k);
    }
    forall q | Doomed(w', q) ensures Condemned(w', q) {
      if Doomed(w, q) {
        assert Condemned(w, q);
        if !IsSession(q) { SettledForward(w, w', q); }
      }
    }
  }

  /** Every step keeps the world safe. */
  lemma StepKeepsSafe(cfg: Config, w: World, a: Act)
    requires Safe(w) && Can(cfg, w, a)
    ensures Safe(Next(cfg, w, a))
  {
    match a
    case PutPart(_, _) => SameDbSafe(w, Next(cfg, w, a));
    case PutContent(caller, id) => PutContentKeepsSafe(cfg, w, caller, id);
    case Settle(id, e) => SettleKeepsSafe(cfg, w, id, e);
    case Tidy(e) => if e.Purge? { PurgeKeepsSafe(cfg, w, e); } else { TidyKeepsSafe(cfg, w, e); }
    case Retire(x, v) => RetireKeepsSafe(cfg, w, x, v);
    case Remove(p, gone) => RemoveKeepsSafe(cfg, w, p, gone);
    case Sweep(gone) => SweepKeepsSafe(cfg, w, gone);
    case _ => BookkeepingKeepsSafe(cfg, w, a);
  }

  // ---- Runs -----------------------------------------------------------------------------------

  ghost predicate Stepped(cfg: Config, acts: seq<Act>, ws: seq<World>, i: int)
    requires 0 <= i < |acts| && |ws| == |acts| + 1
  {
    Can(cfg, ws[i], acts[i]) && ws[i + 1] == Next(cfg, ws[i], acts[i])
  }

  /** Any interleaving of steps, crashes included. */
  ghost predicate Interleaving(cfg: Config, acts: seq<Act>, ws: seq<World>) {
    |ws| == |acts| + 1 && forall i {:trigger Stepped(cfg, acts, ws, i)} | 0 <= i < |acts| :: Stepped(cfg, acts, ws, i)
  }

  /** Along every interleaving of uploads, copies, overwrites, trims, purges, clean-ups and crashes,
      every key that a node or a revision refers to is in the store, belongs to it alone, and neither
      is nor lies below a key that is queued or that some drain has listed. */
  lemma {:induction false} ContentIsNeverLost(cfg: Config, acts: seq<Act>, ws: seq<World>, n: nat)
    requires Interleaving(cfg, acts, ws) && Safe(ws[0]) && n <= |acts|
    ensures forall h, k | Holds(ws[n].db, h, k) :: k in ws[n].store
    ensures forall h, g, k | Holds(ws[n].db, h, k) && Holds(ws[n].db, g, k) :: h == g
    ensures forall h, k, q | Holds(ws[n].db, h, k) && (q in ws[n].db.queue || q in ws[n].listed) :: !Below(q, k)
    ensures Safe(ws[n])
  {
    if n > 0 {
      ContentIsNeverLost(cfg, acts, ws, n - 1);
      assert Stepped(cfg, acts, ws, n - 1);
      StepKeepsSafe(cfg, ws[n - 1], acts[n - 1]);
    }
    forall h, k, q | Holds(ws[n].db, h, k) && (q in ws[n].db.queue || q in ws[n].listed) ensures !Below(q, k) {
      if Below(q, k) {
        assert Doomed(ws[n], q);
        RemovalMisses(ws[n], q, k);
      }
    }
  }

  /** The world before anything happened. */
  function EmptyWorld(l: Ledger): World {
    World(EMPTY.(ledger := l), {}, {}, map[], {}, {})
  }

  /** From the start on, whatever the accounts: no interleaving loses content or lets two rows share a key. */
  lemma NothingIsEverLost(cfg: Config, l: Ledger, acts: seq<Act>, ws: seq<World>)
    requires Interleaving(cfg, acts, ws) && ws[0] == EmptyWorld(l)
    ensures forall n, h, k | 0 <= n < |ws| && Holds(ws[n].db, h, k) :: k in ws[n].store
    ensures forall n, h, g, k | 0 <= n < |ws| && Holds(ws[n].db, h, k) && Holds(ws[n].db, g, k) :: h == g
  {
    forall n | 0 <= n < |ws|
      ensures forall h, k | Holds(ws[n].db, h, k) :: k in ws[n].store
      ensures forall h, g, k | Holds(ws[n].db, h, k) && Holds(ws[n].db, g, k) :: h == g
    {
      ContentIsNeverLost(cfg, acts, ws, n);
    }
  }

  // ---- Restoring a revision -------------------------------------------------------------------

  /** RestoreVersion: the current content becomes a new revision and the chosen revision's key and
      size are copied to the node. The chosen revision stays, and the count is not touched. */
  function Promoted(db: Db, id: Uuid, v: Uuid, newId: Uuid, n: int): Db
    requires id in db.rows && v in db.history && db.rows[id].owner in db.ledger
  {
    var r, chosen := db.rows[id], db.history[v];
    db.(rows := db.rows[id := r.(key := chosen.key, size := chosen.size)],
        ledger := Charge(db.ledger, r.owner, chosen.size - r.size, 0, 0),
        history := db.history[newId := Version(id, n, r.key, r.size)],
        minted := db.minted + {newId})
  }

  ghost predicate Promotable(db: Db, id: Uuid, v: Uuid, newId: Uuid, n: int) {
    && id in db.rows && db.rows[id].kind.File? && db.rows[id].owner in db.ledger
    && v in db.history && db.history[v].node == id && newId !in db.minted && IsNext(db.history, id, n)
  }

  /** Restoring a revision always leaves the node and the revision with one key between them, and one
      revision more than the node counts. */
  lemma RestoreVersionShares(db: Db, id: Uuid, v: Uuid, newId: Uuid, n: int)
    requires Accounted(db) && Keyed(db) && Promotable(db, id, v, newId, n)
    ensures !Unshared(Promoted(db, id, v, newId, n))
    ensures Counted(db) ==> !Counted(Promoted(db, id, v, newId, n))
  {
    var db' := Promoted(db, id, v, newId, n);
    var k := db.history[v].key;
    assert Holds(db', RowOf(id), k) && Holds(db', VersionOf(v), k);
    NewVersionCount(db.history, newId, db'.history[newId], id);
  }

  /** So, after a restore, deleting the restored revision takes the node's own content: the key is
      queued, and draining the queue removes it from under the node. */
  lemma RestoreThenDeleteLosesContent(cfg: Config, w: World, id: Uuid, v: Uuid, newId: Uuid, n: int)
    requires Safe(w) && Promotable(w.db, id, v, newId, n) && newId !in w.spent
    ensures var k := w.db.history[v].key;
            var w1 := w.(db := Promoted(w.db, id, v, newId, n), spent := w.spent + {newId});
            && Can(cfg, w1, Retire(id, v))
            && var w2 := Next(cfg, w1, Retire(id, v));
            && Can(cfg, w2, Queue(k))
            && var w3 := Next(cfg, w2, Queue(k));
            && Can(cfg, w3, List({k}))
            && var w4 := Next(cfg, w3, List({k}));
            && Can(cfg, w4, Remove(k, {k}))
            && var w5 := Next(cfg, w4, Remove(k, {k}));
            && Holds(w5.db, RowOf(id), k) && k !in w5.store
  {
    var w1 := w.(db := Promoted(w.db, id, v, newId, n), spent := w.spent + {newId});
    assert w.db.history[v].key != "" && w1.db.rows[id].key == w.db.history[v].key;
    DeleteThenDrain(cfg, w1, id, v);
  }

  lemma DeleteThenDrain(cfg: Config, w: World, id: Uuid, v: Uuid)
    requires id in w.db.rows && v in w.db.history && w.db.history[v].node == id
    requires w.db.history[v].key != "" && w.db.rows[id].key == w.db.history[v].key
    ensures var k := w.db.history[v].key;
            && Can(cfg, w, Retire(id, v))
            && var w2 := Next(cfg, w, Retire(id, v));
            && Can(cfg, w2, Queue(k))
            && var w3 := Next(cfg, w2, Queue(k));
            && Can(cfg, w3, List({k}))
            && var w4 := Next(cfg, w3, List({k}));
            && Can(cfg, w4, Remove(k, {k}))
            && var w5 := Next(cfg, w4, Remove(k, {k}));
            && Holds(w5.db, RowOf(id), k) && k !in w5.store
  {
  }

  /** Unlike an overwrite, a restore charges the true difference, so the counters stay right. */
  lemma RestoreVersionKeepsConserved(db: Db, id: Uuid, v: Uuid, newId: Uuid, n: int)
    requires Conserved(db.rows, db.ledger) && Promotable(db, id, v, newId, n) && db.history[v].size >= 0
    ensures Conserved(Promoted(db, id, v, newId, n).rows, Promoted(db, id, v, newId, n).ledger)
  {
    var db' := Promoted(db, id, v, newId, n);
    var o := db.rows[id].owner;
    forall q | q in db'.ledger ensures Balanced(db'.rows, db'.ledger, q) {
      assert Balanced(db.rows, db.ledger, q);
      ResizedTotals(db.rows, id, db'.rows[id], q);
    }
  }

  /** An overwrite that kept the old content can be taken back: unless it was trimmed at once, the revision it made
      brings back the key and the size that the node had. */
  lemma PromotionUndoesOverwrite(cfg: Config, db: Db, e: Event, newId: Uuid, n: int)
    requires Allowed(cfg, db, e) && e.ReplaceContent? && e.kept.Some?
    requires var db' := Apply(cfg, db, e); e.kept.value.0 in db'.history && db.rows[e.id].owner in db'.ledger
    ensures var db' := Apply(cfg, db, e);
            var r := Promoted(db', e.id, e.kept.value.0, newId, n).rows[e.id];
            r == db.rows[e.id].(versionCount := db'.rows[e.id].versionCount)
    ensures Promoted(Apply(cfg, db, e), e.id, e.kept.value.0, newId, n).rows.Keys == db.rows.Keys
  {
    var (v, number) := e.kept.value;
    var was := db.rows[e.id];
    assert Apply(cfg, db, e).history[v] == Version(e.id, number, was.key, was.size);
  }

  /** A restore can be taken back by restoring the revision it made. */
  lemma PromotionIsUndone(db: Db, id: Uuid, v: Uuid, newId: Uuid, n: int, again: Uuid, m: int)
    requires Accounted(db) && Promotable(db, id, v, newId, n)
    ensures var db' := Promoted(db, id, v, newId, n);
            && newId in db'.history && db'.history[newId].node == id && v in db'.history && id in db'.rows
            && db'.rows[id].owner in db'.ledger && Promoted(db', id, newId, again, m).rows == db.rows
  {
    var db' := Promoted(db, id, v, newId, n);
    assert Promoted(db', id, newId, again, m).rows[id] == db.rows[id];
  }

  lemma ResizedTotals(t: Table, id: Uuid, r: Row, o: Uuid)
    requires id in t && t[id].kind.File? && r == t[id].(key := r.key, size := r.size) && r.size >= 0
    requires forall x | x in t :: t[x].size >= 0
    ensures Total(t[id := r], Measure(Bytes, Some(o))) ==
            Total(t, Measure(Bytes, Some(o))) + if o == r.owner then r.size - t[id].size else 0
    ensures Total(t[id := r], Measure(Files, Some(o))) == Total(t, Measure(Files, Some(o)))
    ensures Total(t[id := r], Measure(Folders, Some(o))) == Total(t, Measure(Folders, Some(o)))
    ensures forall q: Quantity :: Total(t[id := r], Measure(q, Some(o))) >= 0
  {
    assert t[id := r] - {id} == t - {id};
    forall q: Quantity
      ensures Total(t[id := r], Measure(q, Some(o))) - Weigh(Measure(q, Some(o)), r) ==
              Total(t, Measure(q, Some(o))) - Weigh(Measure(q, Some(o)), t[id])
      ensures Total(t[id := r], Measure(q, Some(o))) >= 0
    {
      TotalRemove(t, id, Measure(q, Some(o)));
      TotalRemove(t[id := r], id, Measure(q, Some(o)));
      TotalNonNegative(t[id := r], Measure(q, Some(o)));
    }
  }
}
