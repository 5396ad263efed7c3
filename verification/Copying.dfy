/** CopyNodes and copyTree (internal/biz/file.go). */
module Copying {
  import opened Ids
  import opened Paths
  import opened Tree
  import opened Trash
  import opened Names
  import opened Accounts
  import opened Versions
  import opened Database
  import opened Invariants
  import opened Netdisk
  import opened Shapes
  import SiblingNames

  /** copyObject: reading the source content may fail. */
  type Fetch = string -> Option<Error>

  /** A row that a copy made: fresh, active, owned by the caller, with content of its own. */
  ghost predicate CopiedRow(y: Uuid, r: Row, caller: Uuid) {
    && r.owner == caller && r.status.Active? && r.versionCount == 0
    && r.key == if r.kind.File? then ObjectKey(caller, y) else ""
  }

  /** `t'` is `t` with rows made by a copy hung below `p`. */
  ghost predicate CopiedInto(t: Table, t': Table, p: Uuid, caller: Uuid) {
    && Grafted(t, t', p)
    && forall y {:trigger CopiedRow(y, t'[y], caller)} | y in t' && y !in t :: CopiedRow(y, t'[y], caller)
  }

  /** No two active siblings strictly below `src` share a folded name. */
  ghost predicate DistinctNames(t: Table, fold: CaseMap, src: Uuid)
    requires src in t
  {
    forall c, d {:trigger Siblings(t, c, d)} | c in t && d in t && c != d && Siblings(t, c, d) && c != src
        && Under(t, src, c) ::
      Lower(fold, t[c].name) != Lower(fold, t[d].name)
  }

  predicate Siblings(t: Table, c: Uuid, d: Uuid)
    requires c in t && d in t
  {
    t[c].parent == t[d].parent && t[c].status.Active? && t[d].status.Active?
  }

  /** The new top is in place: fresh, fitting, and like its source. */
  ghost predicate TopDone(cfg: Config, before: Db, mid: Db, src: Uuid, parent: Uuid, name: string, policy: Policy,
                          id: Uuid, caller: Uuid)
    requires src in before.rows
  {
    && Sound(before.rows) && Sound(mid.rows) && id in mid.rows && id !in before.rows
    && mid == before.(rows := before.rows[id := mid.rows[id]], minted := before.minted + {id})
    && NewRow(cfg, before, id, mid.rows[id]) && CopiedRow(id, mid.rows[id], caller)
    && mid.rows[id].parent == parent && mid.rows[id].kind == before.rows[src].kind
       && mid.rows[id].size == before.rows[src].size
    && IsResolved(before.rows, cfg.fold, parent, name, policy, NIL, mid.rows[id].name)
    && (Inv(before.rows) ==> Inv(mid.rows))
  }

  /** A row that can be copied to this depth: not too deep, and a file has content that can be read. */
  predicate RowFits(cfg: Config, t: Table, fetch: Fetch, x: Uuid, depth: int)
    requires x in t
  {
    depth < cfg.maxDepth && (t[x].kind.File? ==> t[x].key != "" && fetch(t[x].key).None?)
  }

  /** Nothing refuses a copy of this one row. */
  ghost predicate RowCopyable(cfg: Config, t: Table, l: Ledger, fetch: Fetch, caller: Uuid, src: Uuid, parent: Uuid,
                              name: string, policy: Policy)
    requires src in t
  {
    && Resolvable(t, cfg.fold, parent, name, policy, NIL) && RowFits(cfg, t, fetch, src, DepthOf(t, parent) + 1)
    && (t[src].kind.File? ==> QuotaAllows(l, caller, t[src].size))
  }

  /** The writes up to CreateNode: name, depth limit, quota, content, row. */
  method CopyRow(d: Netdisk, fetch: Fetch, caller: Uuid, src: Uuid, parent: Uuid, name: string, policy: Policy)
    returns (r: Result<Uuid>)
    requires d.Valid() && NIL !in d.ledger && src in d.rows && Writable(d.rows, parent) && caller in d.ledger
    modifies d`rows, d`minted
    ensures d.Valid()
    ensures r.Err? ==> d.rows == old(d.rows) && d.minted == old(d.minted)
    ensures r.Ok? <==> old(RowCopyable(d.cfg, d.rows, d.ledger, fetch, caller, src, parent, name, policy))
    ensures r.Ok? ==> TopDone(d.cfg, old(d.State()), d.State(), src, parent, name, policy, r.value, caller)
    ensures r.Ok? ==> d.rows[r.value].depth < d.cfg.maxDepth
    ensures r.Err? || old(d.rows)[src].kind.Folder?
            || (old(d.rows)[src].key != "" && fetch(old(d.rows)[src].key) == None)
  {
    var resolved := ResolveName(d.rows, d.cfg.fold, parent, name, policy, NIL);
    if resolved.Err? { return Err(resolved.error); }
    var id := NewID(d.minted);
    var s := d.rows[src];
    var copied := Row(parent, resolved.value, Lower(d.cfg.fold, resolved.value), s.kind, caller, s.size, "", Active,
                      ChildPath(PathOf(d.rows, parent), id), DepthOf(d.rows, parent) + 1, NIL, None, 0);
    if copied.depth >= d.cfg.maxDepth { return Err(InvalidArgument); }
    if s.kind.File? {
      var refusal := d.CheckQuota(caller, s.size);
      if refusal.Some? { return Err(refusal.value); }
      if s.key == "" { return Err(Unsupported); }
      var failure := fetch(s.key);
      if failure.Some? { return Err(failure.value); }
      copied := copied.(key := ObjectKey(caller, id));
    }
    CreatedKeeps(d.rows, id, copied);
    SiblingNames.CreatedStaysRight(d.cfg.fold, d.rows, id, copied);
    d.rows := d.rows[id := copied];
    d.minted := d.minted + {id};
    r := Ok(id);
  }

  /** Some children of `x`, each once. */
  ghost predicate KidList(t: Table, x: Uuid, kids: seq<Uuid>) {
    && (forall i | 0 <= i < |kids| :: kids[i] in Kids(t, x))
    && (forall i, j | 0 <= i < j < |kids| :: kids[i] != kids[j])
  }

  lemma FrontOfList(t: Table, x: Uuid, kids: seq<Uuid>, i: nat)
    requires KidList(t, x, kids) && i < |kids|
    ensures KidList(t, x, kids[..i]) && kids[i] in Kids(t, x) && kids[i] !in kids[..i]
    ensures kids[..i + 1] == kids[..i] + [kids[i]]
  {
  }

  /** ListNodes by parent, cut at the default limit. */
  method ListKids(d: Netdisk, x: Uuid) returns (kids: seq<Uuid>)
    ensures KidList(d.rows, x, kids)
    ensures |kids| <= d.cfg.listLimit
    ensures forall i | 0 <= i < |kids| ::
              kids[i] in d.rows && d.rows[kids[i]].parent == x && d.rows[kids[i]].status.Active?
    ensures |Kids(d.rows, x)| <= d.cfg.listLimit <==> ToSet(kids) == Kids(d.rows, x)
  {
    kids := [];
    var left := Kids(d.rows, x);
    while left != {} && |kids| < d.cfg.listLimit
      invariant left <= Kids(d.rows, x) && |kids| <= d.cfg.listLimit
      invariant ToSet(kids) == Kids(d.rows, x) - left
      invariant forall i, j | 0 <= i < j < |kids| :: kids[i] != kids[j]
      decreases left
    {
      var c: Uuid :| c in left;
      left := left - {c};
      AppendToSet(kids, c);
      kids := kids + [c];
    }
    CutListing(kids, left, Kids(d.rows, x));
    DistinctSize(kids);
  }

  /** A run of node creations. */
  ghost predicate Created(cfg: Config, before: Db, es: seq<Event>, after: Db) {
    Committed(cfg, before, es, after) && forall e | e in es :: e.AddNode?
  }

  lemma CreateMore(cfg: Config, before: Db, es: seq<Event>, mid: Db, fs: seq<Event>, after: Db)
    requires Created(cfg, before, es, mid) && Created(cfg, mid, fs, after)
    ensures Created(cfg, before, es + fs, after)
  {
    CommitMore(cfg, before, es, mid, fs, after);
  }

  /** Creations of any number keep every counter right and every account within its quota. */
  lemma {:induction false} CreationsConserve(cfg: Config, before: Db, es: seq<Event>, after: Db)
    requires Created(cfg, before, es, after) && Healthy(before)
    requires Conserved(before.rows, before.ledger) && QuotasHold(before.ledger)
    ensures Conserved(after.rows, after.ledger) && QuotasHold(after.ledger)
  {
    var dbs :| Run(cfg, es, dbs) && dbs[0] == before && dbs[|es|] == after;
    assert forall i | 0 <= i < |es| :: es[i] in es;
    RunsConserveUsage(cfg, es, dbs, |es|);
  }

  /** What copying `src` into `parent` leaves: the new top `id`, rows of its own below it only, and
      usage grown by exactly what hangs below the new top. */
  ghost predicate Copied(t: Table, l: Ledger, t': Table, l': Ledger, src: Uuid, parent: Uuid, id: Uuid, caller: Uuid) {
    && caller in l && src in t && id in t' && id !in t
    && Indexed(t) && Indexed(t') && CopiedInto(t, t', parent, caller)
    && t'[id].parent == parent && t'[id].kind == t[src].kind && t'[id].size == t[src].size && t'[id].status.Active?
    && Grafted(t[id := t'[id]], t', id)
    && Grown(l, l', caller, ShapeOf(t', id, false))
  }

  ghost predicate Grown(l: Ledger, l': Ledger, caller: Uuid, s: Shape)
    requires caller in l
  {
    l' == l[caller := Added(l[caller], s.Bytes(), s.Files(), s.Folders())]
  }

  ghost predicate GrownBy(l: Ledger, l': Ledger, caller: Uuid, g: Grove)
    requires caller in l
  {
    l' == l[caller := Added(l[caller], g.bytes, g.files, g.folders)]
  }

  lemma GrownTwice(l: Ledger, l1: Ledger, l2: Ledger, caller: Uuid, g: Grove, s: Shape)
    requires caller in l && GrownBy(l, l1, caller, g) && Grown(l1, l2, caller, s)
    ensures GrownBy(l, l2, caller, Plant(g, s))
  {
  }

  /** The shape of the copy is the shape of the source, but for the name of the top. */
  ghost predicate SameShape(t: Table, t': Table, src: Uuid, id: Uuid, named: bool)
    requires src in t && id in t' && Indexed(t) && Indexed(t')
  {
    ShapeOf(t', id, named) == ShapeOf(t, src, named).(name := if named then t'[id].name else "")
  }

  /** Some folder of the source has more active children than a listing returns. */
  ghost predicate TooWide(t: Table, src: Uuid, limit: nat)
    requires src in t
  {
    exists x :: x in t && Under(t, src, x) && |Kids(t, x)| > limit
  }

  ghost predicate Crowded(t: Table, limit: nat) {
    exists x :: x in t && |Kids(t, x)| > limit
  }

  lemma CrowdedGrows(t: Table, t': Table, p: Uuid, limit: nat)
    requires Grafted(t, t', p) && Crowded(t, limit)
    ensures Crowded(t', limit)
  {
    var x :| x in t && |Kids(t, x)| > limit;
    assert Kids(t, x) <= Kids(t', x);
    Smaller(Kids(t, x), Kids(t', x));
  }

  /** Names survive a copy that gets through: always when a conflict is refused, and when no two siblings fold
      alike. */
  ghost predicate KeepsNames(t: Table, fold: CaseMap, src: Uuid, policy: Policy)
    requires src in t
  {
    policy.Rename? ==> DistinctNames(t, fold, src)
  }

  /** Every folder that is in `t'` only is no wider than a listing. */
  ghost predicate Narrow(t: Table, t': Table, limit: nat) {
    forall y {:trigger Kids(t', y)} | y in t' && y !in t :: |Kids(t', y)| <= limit
  }

  /** How good the copy `id` of `src` is. It has the kinds and sizes of the source exactly when no folder of the
      source is wider than a listing, and the names as well exactly when, besides, no two siblings of the source
      fold to one name. A copy that may not rename only gets through in that case. */
  ghost predicate Faithful(cfg: Config, t: Table, t': Table, src: Uuid, id: Uuid, policy: Policy)
    requires src in t && id in t' && Indexed(t) && Indexed(t')
  {
    && (SameShape(t, t', src, id, false) <==> !TooWide(t, src, cfg.listLimit))
    && (SameShape(t, t', src, id, true) <==> !TooWide(t, src, cfg.listLimit) && DistinctNames(t, cfg.fold, src))
    && (!policy.Rename? && !TooWide(t, src, cfg.listLimit) ==> DistinctNames(t, cfg.fold, src))
  }

  /** New rows carry folded names that none of their active siblings carries. */
  ghost predicate FreshlyNamed(fold: CaseMap, t: Table, t': Table) {
    && (forall c | c in t' && c !in t :: t'[c].nameLower == Lower(fold, t'[c].name))
    && (forall c, d {:trigger Siblings(t', c, d)} | c in t' && d in t' && c !in t && c != d && Siblings(t', c, d) ::
          t'[c].nameLower != t'[d].nameLower)
  }

  lemma {:induction false} CreationsNameFreshly(cfg: Config, before: Db, es: seq<Event>, after: Db)
    requires Created(cfg, before, es, after) && Accounted(before) && NIL !in before.rows
    ensures Accounted(after) && NIL !in after.rows && before.rows.Keys <= after.rows.Keys
    ensures FreshlyNamed(cfg.fold, before.rows, after.rows)
    decreases |es|
  {
    var mid := LastCommit(cfg, before, es, after);
    if es != [] {
      var n := |es| - 1;
      assert es[n] in es && forall e | e in es[..n] :: e in es;
      CreationsNameFreshly(cfg, before, es[..n], mid);
      ApplyKeepsMinted(cfg, mid, es[n]);
      OneMoreName(cfg, before.rows, mid.rows, es[n].id, es[n].row);
    }
  }

  lemma OneMoreName(cfg: Config, t: Table, mid: Table, id: Uuid, r: Row)
    requires FreshlyNamed(cfg.fold, t, mid) && t.Keys <= mid.Keys && id !in mid && NIL !in mid
    requires r.nameLower == Lower(cfg.fold, r.name) && !Taken(mid, r.parent, r.nameLower, NIL)
    ensures FreshlyNamed(cfg.fold, t, mid[id := r])
  {
    var now := mid[id := r];
    forall c, d | c in now && d in now && c !in t && c != d && Siblings(now, c, d)
      ensures now[c].nameLower != now[d].nameLower
    {
      if c != id && d != id { assert Siblings(mid, c, d); }
    }
  }

  /** What was there before is not below a new row. */
  lemma {:induction false} OldRowsOutside(t: Table, t': Table, id: Uuid, x: Uuid)
    requires Indexed(t) && Indexed(t') && t.Keys <= t'.Keys && (forall y | y in t :: t'[y] == t[y])
    requires id in t' && id !in t && x in t
    ensures !Under(t', id, x)
    decreases |t[x].path|
  {
    UnderStep(t', id, x);
    assert Placed(t, x);
    if t[x].parent in t {
      UnderStep(t, x, x);
      OldRowsOutside(t, t', id, t[x].parent);
    }
  }

  lemma CopyIsNarrow(t: Table, t': Table, id: Uuid, limit: nat)
    requires Indexed(t) && Indexed(t') && t.Keys <= t'.Keys && (forall y | y in t :: t'[y] == t[y])
    requires id in t' && id !in t && Narrow(t, t', limit)
    ensures !TooWide(t', id, limit)
  {
    forall x | x in t' && Under(t', id, x) ensures |Kids(t', x)| <= limit {
      if x in t { OldRowsOutside(t, t', id, x); }
    }
  }

  /** A source with a folder wider than a listing has another shape than any copy without one. */
  lemma WideShapesDiffer(t: Table, t': Table, src: Uuid, id: Uuid, limit: nat, named: bool)
    requires Sound(t) && Indexed(t') && src in t && id in t'
    requires TooWide(t, src, limit) && !TooWide(t', id, limit)
    ensures !SameShape(t, t', src, id, named)
  {
    if SameShape(t, t', src, id, named) {
      var x :| x in t && Under(t, src, x) && |Kids(t, x)| > limit;
      var c :| c in Kids(t, x);
      assert Sheltered(t, c) && Placed(t, c);
      var z := Mirror(t, src, t', id, named, x);
      GroveWidth(t, x, Kids(t, x), named);
      GroveWidth(t', z, Kids(t', z), named);
      assert false;
    }
  }

  /** A source with two siblings that fold alike has other names than any copy without. */
  lemma AlikeNamesDiffer(t: Table, t': Table, fold: CaseMap, src: Uuid, id: Uuid)
    requires Sound(t) && Indexed(t') && src in t && id in t'
    requires !DistinctNames(t, fold, src) && DistinctNames(t', fold, id)
    ensures !SameShape(t, t', src, id, true)
  {
    if SameShape(t, t', src, id, true) {
      var c, d :| c in t && d in t && c != d && Siblings(t, c, d) && c != src && Under(t, src, c)
                  && Lower(fold, t[c].name) == Lower(fold, t[d].name);
      var y := t[c].parent;
      UnderStep(t, src, c);
      assert Sheltered(t, c);
      var z := Mirror(t, src, t', id, true, y);
      var c', d' := MirrorTwins(t, y, t', z, c, d);
      UnderStep(t', id, c');
      assert Siblings(t', c', d');
      assert false;
    }
  }

  /** The verdict on a finished copy: `cut` says whether some listing was cut on the way. */
  lemma FinishedCopy(cfg: Config, t: Table, t': Table, src: Uuid, id: Uuid, policy: Policy, cut: bool)
    requires Sound(t) && Indexed(t') && src in t && id in t'
    requires !TooWide(t', id, cfg.listLimit) && DistinctNames(t', cfg.fold, id)
    requires cut ==> TooWide(t, src, cfg.listLimit)
    requires !cut ==> SameShape(t, t', src, id, KeepsNames(t, cfg.fold, src, policy))
    ensures Faithful(cfg, t, t', src, id, policy)
  {
    if TooWide(t, src, cfg.listLimit) {
      WideShapesDiffer(t, t', src, id, cfg.listLimit, false);
      WideShapesDiffer(t, t', src, id, cfg.listLimit, true);
    }
    if !DistinctNames(t, cfg.fold, src) { AlikeNamesDiffer(t, t', cfg.fold, src, id); }
    if SameShape(t, t', src, id, true) { ForgetNames(t, src, t', id); }
  }

  predicate Inside(t: Table, src: Uuid, parent: Uuid)
    requires src in t
  {
    parent in t && Under(t, src, parent)
  }

  // ---- Steps of the children loop -----------------------------------------------------------

  /** What the loop over the children keeps: `done` is the set of children copied so far. */
  ghost predicate KidsCopied(t: Table, l: Ledger, t': Table, l': Ledger, src: Uuid, id: Uuid, caller: Uuid,
                             done: set<Uuid>, named: bool, exact: bool)
  {
    && Indexed(t) && Indexed(t') && src in t && id in t && caller in l && done <= Kids(t, src)
    && CopiedInto(t, t', id, caller)
    && GrownBy(l, l', caller, GroveOf(t', id, Kids(t', id), false))
    && (exact ==> GroveOf(t', id, Kids(t', id), named) == GroveOf(t, src, done, named))
  }

  /** A copied child widens only the folder it was put into. */
  lemma NarrowGrows(t: Table, t1: Table, t2: Table, id: Uuid, y: Uuid, limit: nat)
    requires id in t && t.Keys <= t1.Keys && Narrow(t, t1, limit) && Grafted(t1, t2, id) && Narrow(t1, t2, limit)
    ensures Narrow(t, t2, limit)
  {
    forall z | z in t2 && z !in t ensures |Kids(t2, z)| <= limit {
      if z in t1 {
        assert forall w | w in t2 && w !in t1 :: HangsBelow(t1, t2, id, w);
        assert Kids(t2, z) == Kids(t1, z);
      }
    }
  }

  lemma KidsOfNewTop(t: Table, t': Table, id: Uuid, y: Uuid)
    requires id in t && y !in t && y in t' && t'[y].parent == id && t'[y].status.Active?
    requires Grafted(t, t', id) && Grafted(t[y := t'[y]], t', y)
    ensures Kids(t', id) == Kids(t, id) + {y}
  {
    var t1 := t[y := t'[y]];
    assert forall z | z in t' && z !in t1 :: HangsBelow(t1, t', y, z);
  }

  /** One more child: the grove below the copy gains the child's shape, and so does the ledger. */
  lemma KidGrows(t: Table, l: Ledger, t1: Table, l1: Ledger, t2: Table, l2: Ledger, src: Uuid, id: Uuid, caller: Uuid,
                 c: Uuid, y: Uuid, done: set<Uuid>, named: bool, exact: bool)
    requires KidsCopied(t, l, t1, l1, src, id, caller, done, named, exact)
    requires c in Kids(t, src) && c !in done && Copied(t1, l1, t2, l2, c, id, y, caller)
    requires exact ==> !Under(t, c, id) && SameShape(t1, t2, c, y, named) && (named ==> t2[y].name == t1[c].name)
    ensures KidsCopied(t, l, t2, l2, src, id, caller, done + {c}, named, exact)
  {
    KidsOfNewTop(t1, t2, id, y);
    CopiedTwice(t, t1, t2, id, caller);
    KidsPlanted(t1, t2, id, y, false);
    GrownTwice(l, l1, l2, caller, GroveOf(t1, id, Kids(t1, id), false), ShapeOf(t2, y, false));
    if exact {
      KidsPlanted(t1, t2, id, y, named);
      KidMatches(t, t1, t2, src, id, c, y, done, named);
    }
  }

  lemma CopiedTwice(t: Table, t1: Table, t2: Table, id: Uuid, caller: Uuid)
    requires CopiedInto(t, t1, id, caller) && CopiedInto(t1, t2, id, caller)
    ensures CopiedInto(t, t2, id, caller)
  {
    GraftedTwice(t, t1, t2, id);
    forall z | z in t2 && z !in t ensures CopiedRow(z, t2[z], caller) {
      if z in t1 { assert CopiedRow(z, t1[z], caller) && t2[z] == t1[z]; }
    }
  }

  lemma KidMatches(t: Table, t1: Table, t2: Table, src: Uuid, id: Uuid, c: Uuid, y: Uuid, done: set<Uuid>, named: bool)
    requires Indexed(t) && Indexed(t1) && Indexed(t2) && Grafted(t, t1, id) && id in t && src in t && y in t2
    requires c in Kids(t, src) && c !in done && done <= Kids(t, src)
    requires !Under(t, c, id) && SameShape(t1, t2, c, y, named) && (named ==> t2[y].name == t1[c].name)
    ensures GroveOf(t, src, done + {c}, named) == Plant(GroveOf(t, src, done, named), ShapeOf(t2, y, named))
  {
    UnderThrough(t, src, c, id);
    ShapeFrame(t, t1, id, c, named);
    GrovePick(t, src, done + {c}, c, named);
    assert done + {c} - {c} == done;
  }

  lemma KidsPlanted(t1: Table, t2: Table, id: Uuid, y: Uuid, named: bool)
    requires Indexed(t1) && Indexed(t2) && id in t1 && y !in t1 && y in t2
    requires Grafted(t1, t2, id) && Kids(t2, id) == Kids(t1, id) + {y}
    ensures GroveOf(t2, id, Kids(t2, id), named) == Plant(GroveOf(t1, id, Kids(t1, id), named), ShapeOf(t2, y, named))
  {
    GroveFrameAt(t1, t2, id, Kids(t1, id), named);
    GrovePick(t2, id, Kids(t2, id), y, named);
    assert Kids(t2, id) - {y} == Kids(t1, id);
  }

  /** Rows hung outside a subtree do not change whether its sibling names are distinct. */
  lemma DistinctFrame(t: Table, t': Table, fold: CaseMap, p: Uuid, a: Uuid)
    requires Indexed(t) && Indexed(t') && Grafted(t, t', p) && a in t && !(p in t && Under(t, a, p))
    requires DistinctNames(t, fold, a)
    ensures DistinctNames(t', fold, a)
  {
    forall x, y | x in t' && y in t' && x != y && Siblings(t', x, y) && x != a && Under(t', a, x)
      ensures Lower(fold, t'[x].name) != Lower(fold, t'[y].name)
    {
      if x !in t { NewRowsOutside(t, t', p, a, x); }
      if y !in t { NewRowsOutside(t, t', p, a, y); }
      UnderStep(t', a, x);
      UnderStep(t', a, y);
      assert Siblings(t, x, y);
    }
  }

  lemma DistinctThrough(t: Table, fold: CaseMap, src: Uuid, c: Uuid)
    requires Indexed(t) && src in t && c in Kids(t, src) && DistinctNames(t, fold, src)
    ensures DistinctNames(t, fold, c)
  {
    forall x, y | x in t && y in t && x != y && Siblings(t, x, y) && x != c && Under(t, c, x)
      ensures Lower(fold, t[x].name) != Lower(fold, t[y].name)
    {
      UnderThrough(t, src, c, x);
      NotUnderOwnChild(t, src, c);
    }
  }

  /** Rows hung outside a subtree do not make one of its folders wider. */
  lemma WideFrame(t: Table, t': Table, p: Uuid, a: Uuid, limit: nat)
    requires Indexed(t) && Indexed(t') && Grafted(t, t', p) && a in t
    requires !(p in t && Under(t, a, p)) && TooWide(t', a, limit)
    ensures TooWide(t, a, limit)
  {
    var x :| x in t' && Under(t', a, x) && |Kids(t', x)| > limit;
    if x !in t { NewRowsOutside(t, t', p, a, x); }
    UnderDeeper(t, a, x, p);
    ShapeFrame(t, t', p, x, false);
  }

  lemma UnderDeeper(t: Table, a: Uuid, x: Uuid, p: Uuid)
    requires Indexed(t) && a in t && x in t && Under(t, a, x)
    ensures p in t && Under(t, x, p) ==> Under(t, a, p)
  {
  }

  lemma WideThrough(t: Table, src: Uuid, c: Uuid, limit: nat)
    requires Indexed(t) && src in t && c in Kids(t, src) && TooWide(t, c, limit)
    ensures TooWide(t, src, limit)
  {
    var x :| x in t && Under(t, c, x) && |Kids(t, x)| > limit;
    UnderThrough(t, src, c, x);
  }

  lemma NothingCopied(t: Table, l: Ledger, src: Uuid, id: Uuid, caller: Uuid, named: bool)
    requires Indexed(t) && src in t && id in t && caller in l && Kids(t, id) == {}
    ensures KidsCopied(t, l, t, l, src, id, caller, {}, named, true)
  {
  }

  /** The next child, seen before it is copied: nothing it needs has changed since the start. */
  lemma BeforeKid(t: Table, mid: Table, fold: CaseMap, src: Uuid, id: Uuid, c: Uuid, policy: Policy, named: bool)
    requires Indexed(t) && Indexed(mid) && Grafted(t, mid, id) && src in t && c in Kids(t, src) && id in t && id != NIL
    requires Live(t, id) && t[id].kind.Folder?
    requires named ==> !Inside(t, src, id) && KeepsNames(t, fold, src, policy)
    ensures c in mid && mid[c] == t[c] && Writable(mid, id) && Inside(mid, c, id) == Inside(t, c, id)
    ensures Inside(t, c, id) ==> Inside(t, src, id)
    ensures named ==> !Inside(mid, c, id) && KeepsNames(mid, fold, c, policy)
  {
    UnderThrough(t, src, c, id);
    if named && policy.Rename? {
      DistinctThrough(t, fold, src, c);
      DistinctFrame(t, mid, fold, id, c);
    }
  }

  /** Children copied so far carry the folded names of their sources. */
  ghost predicate NamesFrom(t: Table, t': Table, fold: CaseMap, id: Uuid, done: seq<Uuid>) {
    forall y {:trigger t'[y].nameLower} | y in Kids(t', id) ::
      exists k :: 0 <= k < |done| && done[k] in t && t'[y].nameLower == Lower(fold, t[done[k]].name)
  }

  lemma NameIsFree(t: Table, mid: Table, fold: CaseMap, src: Uuid, id: Uuid, done: seq<Uuid>, c: Uuid)
    requires Indexed(t) && src in t && c in Kids(t, src) && c !in done && DistinctNames(t, fold, src) && id in t
             && NIL !in mid
    requires (forall k | 0 <= k < |done| :: done[k] in Kids(t, src)) && NamesFrom(t, mid, fold, id, done)
    ensures !Taken(mid, id, Lower(fold, t[c].name), NIL)
  {
    UnderStep(t, src, c);
    UnderStep(t, src, src);
    NotUnderOwnChild(t, src, c);
    if Taken(mid, id, Lower(fold, t[c].name), NIL) {
      var y :| y in mid && y != NIL && mid[y].parent == id && mid[y].status.Active?
          && mid[y].nameLower == Lower(fold, t[c].name);
      assert y in Kids(mid, id);
      var k :| 0 <= k < |done| && done[k] in t && mid[y].nameLower == Lower(fold, t[done[k]].name);
      assert Siblings(t, c, done[k]);
      assert false;
    }
  }

  lemma NamesGrow(t: Table, mid: Table, t': Table, fold: CaseMap, id: Uuid, done: seq<Uuid>, c: Uuid, y: Uuid)
    requires c in t && NamesFrom(t, mid, fold, id, done)
    requires Grafted(mid, t', id) && y in t' && Kids(t', id) == Kids(mid, id) + {y}
             && t'[y].nameLower == Lower(fold, t[c].name)
    ensures NamesFrom(t, t', fold, id, done + [c])
  {
    var more := done + [c];
    forall z | z in Kids(t', id) ensures exists k ::
                                           0 <= k < |more| && more[k] in t
                                           && t'[z].nameLower == Lower(fold, t[more[k]].name) {
      if z == y {
        assert more[|done|] == c;
      } else {
        assert t'[z].nameLower == mid[z].nameLower;
        var k :| 0 <= k < |done| && done[k] in t && mid[z].nameLower == Lower(fold, t[done[k]].name);
        assert more[k] == done[k];
      }
    }
  }

  // ---- Steps of the whole copy --------------------------------------------------------------

  lemma NewTopHasNoKids(t: Table, id: Uuid, r: Row)
    requires Indexed(t) && id !in t && id != NIL && IsParent(t, r.parent)
    ensures Kids(t[id := r], id) == {}
  {
    assert forall x | x in t :: Placed(t, x);
  }

  lemma FilesHaveNoKids(t: Table, src: Uuid)
    requires Indexed(t) && src in t && t[src].kind.File?
    ensures Kids(t, src) == {}
  {
    assert forall x | x in t :: Placed(t, x);
  }

  /** Below the new top or at it: either way below the folder it was put into. */
  lemma GraftBelow(t: Table, id: Uuid, r: Row, t2: Table, caller: Uuid)
    requires id !in t && CopiedRow(id, r, caller) && CopiedInto(t[id := r], t2, id, caller)
    ensures CopiedInto(t, t2, r.parent, caller)
  {
    var t1 := t[id := r];
    forall y | y in t2 && y !in t
      ensures HangsBelow(t, t2, r.parent, y)
      ensures CopiedRow(y, t2[y], caller)
    {
      if y == id {
        assert t2[y] == r;
      } else {
        assert HangsBelow(t1, t2, id, y) && CopiedRow(y, t2[y], caller);
      }
    }
  }

  /** The top, its charge and the loop over the children make up the whole copy. */
  lemma TopCopied(t: Table, r: Row, l: Ledger, t2: Table, l2: Ledger, l3: Ledger, src: Uuid, id: Uuid, caller: Uuid,
                  done: set<Uuid>, named: bool, exact: bool)
    requires Indexed(t) && src in t && id !in t && CopiedRow(id, r, caller) && r.kind == t[src].kind
             && r.size == t[src].size
    requires KidsCopied(t[id := r], l, t2, l2, src, id, caller, done, named, exact) && caller in l2
    requires l3 == l2[caller := Added(l2[caller], if r.kind.File? then r.size else 0, if r.kind.File? then 1 else 0,
                                      if r.kind.Folder? then 1 else 0)]
    ensures Copied(t, l, t2, l3, src, r.parent, id, caller)
    ensures exact && done == Kids(t[id := r], src) && !Inside(t, src, r.parent) && src != r.parent
            ==> SameShape(t, t2, src, id, named)
  {
    var t1 := t[id := r];
    GraftBelow(t, id, r, t2, caller);
    assert t2[id] == r;
    if exact && done == Kids(t1, src) && !Inside(t, src, r.parent) && src != r.parent {
      ShapeFrame(t, t1, r.parent, src, named);
    }
  }

  /** The state with the folder charges still to come: copyTree bills a folder after its children. */
  ghost function Owing(db: Db, caller: Uuid, k: int): Db
    requires caller in db.ledger
  {
    db.(ledger := db.ledger[caller := Added(db.ledger[caller], 0, 0, k)])
  }

  lemma TopCommitted(cfg: Config, db: Db, after: Db, id: Uuid, r: Row, caller: Uuid, owed: int)
    requires Healthy(db) && NewRow(cfg, db, id, r) && r.owner == caller
    requires after == db.(rows := db.rows[id := r], minted := db.minted + {id})
    ensures r.kind.Folder? ==> Created(cfg, Owing(db, caller, owed), [AddNode(id, r)], Owing(after, caller, owed + 1))
    ensures r.kind.File? ==> Created(cfg, Owing(db, caller, owed), [AddNode(id, r)],
                                      Owing(after.(ledger := Charge(db.ledger, caller, r.size, 1, 0)), caller, owed))
  {
    var before, e := Owing(db, caller, owed), AddNode(id, r);
    CommitOne(cfg, before, e);
  }

  /** A new top inside the source is below one of its children. */
  lemma SomeKidAbove(t: Table, id: Uuid, r: Row, src: Uuid) returns (g: Uuid)
    requires Sound(t) && src in t && id !in t && id != NIL && Sound(t[id := r]) && r.status.Active?
             && Inside(t, src, r.parent)
    ensures g in Kids(t[id := r], src) && Inside(t[id := r], g, id)
  {
    var t1 := t[id := r];
    UnderStep(t1, src, id);
    g := StepDown(t1, src, id);
  }

  /** What a copy of `src` into `parent` does. Outside its own subtree the copy is as faithful as the listings
      let it be; inside its own subtree a copy only ends well when a listing was cut, so that some folder is
      wider than a listing in the end. */
  ghost predicate TreeDone(cfg: Config, before: Db, now: Db, src: Uuid, parent: Uuid, name: string, policy: Policy,
                           id: Uuid, caller: Uuid)
    requires src in before.rows
  {
    && Copied(before.rows, before.ledger, now.rows, now.ledger, src, parent, id, caller)
    && (Inv(before.rows) ==> Inv(now.rows))
    && Narrow(before.rows, now.rows, cfg.listLimit)
    && (Inside(before.rows, src, parent) ==> Crowded(now.rows, cfg.listLimit))
    && (!Inside(before.rows, src, parent) ==> Faithful(cfg, before.rows, now.rows, src, id, policy))
    && now.rows[id].nameLower == Lower(cfg.fold, now.rows[id].name)
    && IsResolved(before.rows, cfg.fold, parent, name, policy, NIL, now.rows[id].name)
  }

  lemma FolderIsNarrow(t: Table, mid: Table, now: Table, id: Uuid, limit: nat)
    requires Narrow(mid, now, limit) && id in now && |Kids(now, id)| <= limit && mid.Keys == t.Keys + {id}
    ensures Narrow(t, now, limit)
  {
  }

  lemma FolderDone(cfg: Config, before: Db, mid: Db, now: Db, src: Uuid, parent: Uuid, name: string, policy: Policy,
                   id: Uuid, caller: Uuid, kids: seq<Uuid>, named: bool, kidCut: bool)
    requires src in before.rows && TopDone(cfg, before, mid, src, parent, name, policy, id, caller)
    requires before.rows[src].kind.Folder? && Sound(before.rows)
    requires KidsDone(cfg, mid, now, src, id, caller, kids, policy, named, kidCut) && caller in now.ledger
    requires |kids| <= cfg.listLimit
    requires ToSet(kids) == Kids(mid.rows, src) || |Kids(mid.rows, src)| > cfg.listLimit
    requires named == (!Inside(before.rows, src, parent) && KeepsNames(before.rows, cfg.fold, src, policy))
    requires FreshlyNamed(cfg.fold, mid.rows, now.rows)
    ensures TreeDone(cfg, before, now.(ledger := Charge(now.ledger, caller, 0, 0, 1)), src, parent, name, policy, id,
            caller)
  {
    var top := mid.rows[id];
    var cut := kidCut || ToSet(kids) != Kids(mid.rows, src);
    TopCopied(before.rows, top, before.ledger, now.rows, now.ledger, Charge(now.ledger, caller, 0, 0, 1), src, id,
              caller, ToSet(kids), named, !kidCut && !Inside(mid.rows, src, id));
    FolderCut(before.rows, mid.rows, now.rows, src, id, kids, kidCut, cfg.listLimit);
    FolderIsNarrow(before.rows, mid.rows, now.rows, id, cfg.listLimit);
    if !Inside(before.rows, src, parent) {
      NewTopIsDistinct(before.rows, mid.rows, now.rows, cfg.fold, id);
      CopyIsNarrow(before.rows, now.rows, id, cfg.listLimit);
      FinishedCopy(cfg, before.rows, now.rows, src, id, policy, cut);
    }
  }

  /** The node is below none of the listed ones. */
  predicate NoneInside(t: Table, kids: seq<Uuid>, id: Uuid) {
    forall k | 0 <= k < |kids| :: kids[k] in t && !Inside(t, kids[k], id)
  }

  lemma NoneInsideGrows(t: Table, kids: seq<Uuid>, c: Uuid, id: Uuid)
    requires NoneInside(t, kids, id) && c in t && !Inside(t, c, id)
    ensures NoneInside(t, kids + [c], id)
  {
  }

  /** What it means for a folder that a listing was cut, its own or one further down. */
  lemma FolderCut(t: Table, mid: Table, now: Table, src: Uuid, id: Uuid, kids: seq<Uuid>, kidCut: bool, limit: nat)
    requires Sound(t) && Sound(mid) && src in t && id !in t && id != NIL && id in mid && mid == t[id := mid[id]]
    requires mid[id].status.Active? && Grafted(mid, now, id)
    requires ToSet(kids) == Kids(mid, src) || |Kids(mid, src)| > limit
    requires kidCut ==> Crowded(now, limit) && (!Inside(mid, src, id) ==> TooWide(mid, src, limit))
    requires !kidCut ==> NoneInside(mid, kids, id)
    ensures Inside(mid, src, id) <==> Inside(t, src, mid[id].parent)
    ensures Inside(t, src, mid[id].parent) ==> Crowded(now, limit)
    ensures !Inside(t, src, mid[id].parent) && (kidCut || ToSet(kids) != Kids(mid, src)) ==> TooWide(t, src, limit)
  {
    UnderStep(mid, src, id);
    UnderStep(mid, src, src);
    if |Kids(mid, src)| > limit { CrowdedGrows(mid, now, id, limit); }
    if Inside(t, src, mid[id].parent) {
      var g := SomeKidAbove(t, id, mid[id], src);
      assert ToSet(kids) == Kids(mid, src) ==> g in ToSet(kids);
    } else if kidCut || ToSet(kids) != Kids(mid, src) {
      assert TooWide(mid, src, limit);
      WideFrame(t, mid, mid[id].parent, src, limit);
    }
  }

  lemma NewTopIsDistinct(t: Table, mid: Table, now: Table, fold: CaseMap, id: Uuid)
    requires Indexed(t) && Indexed(mid) && Indexed(now) && id !in t && mid.Keys == t.Keys + {id} && id in now
    requires t.Keys <= now.Keys && (forall y | y in t :: now[y] == t[y]) && FreshlyNamed(fold, mid, now)
    ensures DistinctNames(now, fold, id)
  {
    forall c, d | c in now && d in now && c != d && Siblings(now, c, d) && c != id && Under(now, id, c)
      ensures Lower(fold, now[c].name) != Lower(fold, now[d].name)
    {
      UnderStep(now, id, c);
      UnderStep(now, id, d);
      if c in t { OldRowsOutside(t, now, id, c); }
      if d in t { OldRowsOutside(t, now, id, d); }
    }
  }

  lemma FileDone(cfg: Config, before: Db, mid: Db, src: Uuid, parent: Uuid, name: string, policy: Policy, id: Uuid,
                 caller: Uuid)
    requires src in before.rows && TopDone(cfg, before, mid, src, parent, name, policy, id, caller)
    requires before.rows[src].kind.File? && Sound(before.rows) && Writable(before.rows, parent)
    ensures TreeDone(cfg, before, mid.(ledger := Charge(mid.ledger, caller, before.rows[src].size, 1, 0)), src,
            parent, name,
                     policy, id, caller)
  {
    var top := mid.rows[id];
    var named := KeepsNames(before.rows, cfg.fold, src, policy);
    NewTopHasNoKids(before.rows, id, top);
    NothingCopied(mid.rows, mid.ledger, src, id, caller, named);
    FilesHaveNoKids(mid.rows, src);
    UnderStep(before.rows, src, src);
    if Inside(before.rows, src, parent) {
      FilesHaveNoDescendants(before.rows, src, parent);
      assert false;
    }
    TopCopied(before.rows, top, before.ledger, mid.rows, mid.ledger,
        Charge(mid.ledger, caller, before.rows[src].size, 1, 0),
              src, id, caller, {}, named, true);
    NewTopIsDistinct(before.rows, mid.rows, mid.rows, cfg.fold, id);
    CopyIsNarrow(before.rows, mid.rows, id, cfg.listLimit);
    FinishedCopy(cfg, before.rows, mid.rows, src, id, policy, false);
  }

  // ---- When a copy gets through -------------------------------------------------------------------

  /** Every row that a copy whose top is at this depth takes along can be copied. */
  ghost predicate AllFit(cfg: Config, t: Table, fetch: Fetch, src: Uuid, depth: int)
    requires src in t
  {
    forall x {:trigger Under(t, src, x)} | x in t && Under(t, src, x) && (x == src || t[x].status.Active?) ::
      RowFits(cfg, t, fetch, x, depth + t[x].depth - t[src].depth)
  }

  /** Nothing in the source itself refuses a copy below `parent`: it is elsewhere, no listing of it is cut, no names in
      it clash and all its rows fit. */
  ghost predicate SourceReady(cfg: Config, t: Table, fetch: Fetch, src: Uuid, parent: Uuid)
    requires src in t
  {
    && !Inside(t, src, parent) && DistinctNames(t, cfg.fold, src) && !TooWide(t, src, cfg.listLimit)
    && AllFit(cfg, t, fetch, src, DepthOf(t, parent) + 1)
  }

  /** Told before the call: nothing refuses a copy of the whole tree. */
  ghost predicate Copyable(cfg: Config, t: Table, l: Ledger, fetch: Fetch, caller: Uuid, src: Uuid, parent: Uuid,
                           name: string, policy: Policy)
    requires Indexed(t) && src in t
  {
    && SourceReady(cfg, t, fetch, src, parent) && Resolvable(t, cfg.fold, parent, name, policy, NIL)
    && QuotaAllows(l, caller, ShapeOf(t, src, false).Bytes())
  }

  /** The same for the children of `src`, to be copied into the new folder `id`. */
  ghost predicate KidsCopyable(cfg: Config, t: Table, l: Ledger, fetch: Fetch, caller: Uuid, src: Uuid, id: Uuid)
    requires Indexed(t) && src in t
  {
    && !Inside(t, src, id) && DistinctNames(t, cfg.fold, src) && !TooWide(t, src, cfg.listLimit)
    && AllFit(cfg, t, fetch, src, DepthOf(t, id)) && QuotaAllows(l, caller, GroveOf(t, src, Kids(t, src), false).bytes)
  }

  /** More in a grove is never fewer bytes. */
  lemma {:induction false} BytesGrow(t: Table, x: Uuid, s: set<Uuid>, all: set<Uuid>)
    requires Indexed(t) && x in t && s <= all <= Kids(t, x) && forall y | y in t :: t[y].size >= 0
    ensures GroveOf(t, x, s, false).bytes <= GroveOf(t, x, all, false).bytes
    decreases Subtree(t, x), 0, |all|
  {
    if s != all {
      var c :| c in all && c !in s;
      KidBelow(t, x, c);
      GrovePick(t, x, all, c, false);
      BytesNotNegative(t, c);
      BytesGrow(t, x, s, all - {c});
    }
  }

  lemma {:induction false} BytesNotNegative(t: Table, x: Uuid)
    requires Indexed(t) && x in t && forall y | y in t :: t[y].size >= 0
    ensures ShapeOf(t, x, false).Bytes() >= GroveOf(t, x, Kids(t, x), false).bytes >= 0
    decreases Subtree(t, x), 1, 0
  {
    BytesGrow(t, x, {}, Kids(t, x));
  }

  lemma TopIsCopyable(cfg: Config, db: Db, fetch: Fetch, caller: Uuid, src: Uuid, parent: Uuid, name: string,
                      policy: Policy)
    requires Healthy(db) && src in db.rows
    ensures Copyable(cfg, db.rows, db.ledger, fetch, caller, src, parent, name, policy) ==>
              RowCopyable(cfg, db.rows, db.ledger, fetch, caller, src, parent, name, policy)
  {
    UnderStep(db.rows, src, src);
    BytesNotNegative(db.rows, src);
  }

  /** Rows hung outside a source take no part in its copy. */
  lemma FitFrame(cfg: Config, t: Table, t': Table, fetch: Fetch, p: Uuid, src: Uuid, depth: int)
    requires Indexed(t) && Indexed(t') && Grafted(t, t', p) && src in t && !Inside(t, src, p)
    requires AllFit(cfg, t, fetch, src, depth)
    ensures AllFit(cfg, t', fetch, src, depth)
  {
    forall x | x in t' && Under(t', src, x) && (x == src || t'[x].status.Active?)
      ensures RowFits(cfg, t', fetch, x, depth + t'[x].depth - t'[src].depth)
    {
      if x !in t { NewRowsOutside(t, t', p, src, x); }
      assert Under(t, src, x);
    }
  }

  lemma FitThrough(cfg: Config, t: Table, fetch: Fetch, src: Uuid, c: Uuid, depth: int)
    requires Indexed(t) && src in t && c in Kids(t, src) && AllFit(cfg, t, fetch, src, depth)
    ensures AllFit(cfg, t, fetch, c, depth + 1)
  {
    assert Placed(t, c);
    forall x | x in t && Under(t, c, x) && (x == c || t[x].status.Active?)
      ensures RowFits(cfg, t, fetch, x, depth + 1 + t[x].depth - t[c].depth)
    {
      UnderThrough(t, src, c, x);
      assert Under(t, src, x);
    }
  }

  lemma KidsAreCopyable(cfg: Config, before: Db, mid: Db, fetch: Fetch, caller: Uuid, src: Uuid, parent: Uuid,
                        name: string, policy: Policy, id: Uuid)
    requires Healthy(before) && src in before.rows && TopDone(cfg, before, mid, src, parent, name, policy, id, caller)
    requires Writable(before.rows, parent)
    ensures Copyable(cfg, before.rows, before.ledger, fetch, caller, src, parent, name, policy) ==>
              KidsCopyable(cfg, mid.rows, mid.ledger, fetch, caller, src, id)
  {
    var t := before.rows;
    if !Copyable(cfg, t, before.ledger, fetch, caller, src, parent, name, policy) { return; }
    assert Grafted(t, mid.rows, parent);
    SourceFrame(t, mid.rows, parent, src, cfg.fold, cfg.listLimit);
    FitFrame(cfg, t, mid.rows, fetch, parent, src, DepthOf(t, parent) + 1);
    UnderStep(mid.rows, src, id);
    UnderStep(mid.rows, src, src);
    assert Placed(mid.rows, id);
    BytesNotNegative(t, src);
    assert ShapeOf(mid.rows, src, false).below == GroveOf(mid.rows, src, Kids(mid.rows, src), false);
  }

  lemma NextIsCopyable(cfg: Config, start: Db, mid: Db, fetch: Fetch, caller: Uuid, src: Uuid, id: Uuid,
                       done: seq<Uuid>, c: Uuid, policy: Policy, named: bool, cut: bool)
    requires Healthy(start) && NIL !in mid.rows && src in start.rows && id in start.rows && caller in mid.ledger
    requires KidsDone(cfg, start, mid, src, id, caller, done, policy, named, cut) && KidList(start.rows, src, done)
    requires c in Kids(start.rows, src) && c !in done && c in mid.rows
    ensures named && !cut && KidsCopyable(cfg, start.rows, start.ledger, fetch, caller, src, id) ==>
              Copyable(cfg, mid.rows, mid.ledger, fetch, caller, c, id, start.rows[c].name, policy)
              && !Inside(mid.rows, c, id) && !TooWide(mid.rows, c, cfg.listLimit)
  {
    var t := start.rows;
    if !named || cut || !KidsCopyable(cfg, t, start.ledger, fetch, caller, src, id) { return; }
    UnderThrough(t, src, c, id);
    NameIsFree(t, mid.rows, cfg.fold, src, id, done, c);
    DistinctThrough(t, cfg.fold, src, c);
    if TooWide(t, c, cfg.listLimit) { WideThrough(t, src, c, cfg.listLimit); }
    SourceFrame(t, mid.rows, id, c, cfg.fold, cfg.listLimit);
    FitThrough(cfg, t, fetch, src, c, DepthOf(t, id));
    FitFrame(cfg, t, mid.rows, fetch, id, c, DepthOf(t, id) + 1);
    NextHasRoom(t, start.ledger, mid.rows, mid.ledger, caller, src, id, ToSet(done), c);
  }

  lemma NextHasRoom(t: Table, l: Ledger, mid: Table, l': Ledger, caller: Uuid, src: Uuid, id: Uuid, done: set<Uuid>,
                    c: Uuid)
    requires Indexed(t) && (forall y | y in t :: t[y].size >= 0) && c in Kids(t, src) && c !in done && caller in l'
    requires KidsCopied(t, l, mid, l', src, id, caller, done, true, true)
    requires QuotaAllows(l, caller, GroveOf(t, src, Kids(t, src), false).bytes)
    ensures QuotaAllows(l', caller, ShapeOf(t, c, false).Bytes())
  {
    ForgetGrove(mid, id, Kids(mid, id), t, src, done);
    GrovePick(t, src, done + {c}, c, false);
    assert done + {c} - {c} == done;
    BytesGrow(t, src, done + {c}, Kids(t, src));
    BytesGrow(t, src, {}, done);
    BytesNotNegative(t, c);
  }

  /** copyTree. It ends for every source and target: each level of recursion is one deeper. */
  method CopyTree(d: Netdisk, fetch: Fetch, caller: Uuid, src: Uuid, parent: Uuid, name: string, policy: Policy,
                  ghost owed: int)
    returns (r: Result<Uuid>, ghost es: seq<Event>)
    requires d.Valid() && NIL !in d.ledger && caller in d.ledger && src in d.rows && Writable(d.rows, parent)
    modifies d`rows, d`minted, d`ledger
    ensures old(d.minted) <= d.minted && d.ledger.Keys == old(d.ledger).Keys
    ensures r.Err?
            || (d.Valid() && TreeDone(d.cfg, old(d.State()), d.State(), src, parent, name, policy, r.value, caller)
                && Created(d.cfg, Owing(old(d.State()), caller, owed), es, Owing(d.State(), caller, owed)))
    ensures old(Copyable(d.cfg, d.rows, d.ledger, fetch, caller, src, parent, name, policy)) ==> r.Ok?
    decreases d.cfg.maxDepth - DepthOf(d.rows, parent), 1
  {
    es := [];
    ghost var before := d.State();
    TopIsCopyable(d.cfg, before, fetch, caller, src, parent, name, policy);
    r := CopyRow(d, fetch, caller, src, parent, name, policy);
    if r.Err? { return; }
    var id := r.value;
    ghost var mid := d.State();
    TopCommitted(d.cfg, before, mid, id, d.rows[id], caller, owed);
    es := [AddNode(id, d.rows[id])];
    if d.rows[src].kind.Folder? {
      ghost var below;
      var failure;
      failure, below := CopyBelow(d, fetch, caller, before, src, parent, name, policy, id, owed);
      if failure.Some? { return Err(failure.value), es; }
      CreateMore(d.cfg, Owing(before, caller, owed), es, Owing(mid, caller, owed + 1), below,
          Owing(d.State(), caller, owed));
      es := es + below;
    } else {
      BillFile(d, before, src, parent, name, policy, id, caller);
    }
  }

  /** The charge for a file that is copied. */
  method BillFile(d: Netdisk, ghost before: Db, src: Uuid, ghost parent: Uuid, ghost name: string, ghost policy: Policy,
                  id: Uuid, caller: Uuid)
    requires d.Valid() && caller in d.ledger && src in before.rows && Sound(before.rows) && before.rows[src].kind.File?
    requires Writable(before.rows, parent) && TopDone(d.cfg, before, d.State(), src, parent, name, policy, id, caller)
    modifies d`ledger
    ensures d.Valid() && d.ledger == Charge(old(d.ledger), caller, before.rows[src].size, 1, 0)
    ensures TreeDone(d.cfg, before, d.State(), src, parent, name, policy, id, caller)
  {
    FileDone(d.cfg, before, d.State(), src, parent, name, policy, id, caller);
    d.ledger := Charge(d.ledger, caller, d.rows[src].size, 1, 0);
  }

  /** The folder branch: list the children, copy each, bill the folder. */
  method CopyBelow(d: Netdisk, fetch: Fetch, caller: Uuid, ghost before: Db, src: Uuid, ghost parent: Uuid,
                   ghost name: string, policy: Policy, id: Uuid, ghost owed: int)
    returns (failure: Option<Error>, ghost es: seq<Event>)
    requires d.Valid() && NIL !in d.ledger && caller in d.ledger && Healthy(before)
    requires src in before.rows && before.rows[src].kind.Folder?
    requires Writable(before.rows, parent) && TopDone(d.cfg, before, d.State(), src, parent, name, policy, id, caller)
    modifies d`rows, d`minted, d`ledger
    ensures old(d.minted) <= d.minted && d.ledger.Keys == old(d.ledger).Keys
    ensures failure.None? ==> d.Valid() && TreeDone(d.cfg, before, d.State(), src, parent, name, policy, id, caller)
    ensures failure.None? ==>
              Created(d.cfg, Owing(old(d.State()), caller, owed + 1), es, Owing(d.State(), caller, owed))
    ensures Copyable(d.cfg, before.rows, before.ledger, fetch, caller, src, parent, name, policy) ==> failure.None?
    decreases d.cfg.maxDepth - DepthOf(d.rows, id), 4
  {
    ghost var mid := d.State();
    ghost var named := !Inside(before.rows, src, parent) && KeepsNames(before.rows, d.cfg.fold, src, policy);
    CopyStart(before.rows, mid.rows, d.cfg.fold, id, src, policy, named);
    KidsAreCopyable(d.cfg, before, mid, fetch, caller, src, parent, name, policy, id);
    var kids := ListKids(d, src);
    ghost var kidCut;
    ghost var sure := Copyable(d.cfg, before.rows, before.ledger, fetch, caller, src, parent, name, policy);
    failure, kidCut, es := CopyKids(d, fetch, caller, src, id, kids, policy, named, sure, owed + 1);
    if failure.None? {
      CreationsNameFreshly(d.cfg, Owing(mid, caller, owed + 1), es, Owing(d.State(), caller, owed + 1));
      BillFolder(d, before, mid, src, parent, name, policy, id, caller, kids, named, kidCut, owed);
    }
  }

  /** The charge for a folder whose children are copied. */
  method BillFolder(d: Netdisk, ghost before: Db, ghost mid: Db, src: Uuid, ghost parent: Uuid, ghost name: string,
                    policy: Policy, id: Uuid, caller: Uuid, kids: seq<Uuid>, ghost named: bool, ghost kidCut: bool,
                    ghost owed: int)
    requires d.Valid() && caller in d.ledger && src in before.rows && before.rows[src].kind.Folder?
    requires TopDone(d.cfg, before, mid, src, parent, name, policy, id, caller)
    requires KidsDone(d.cfg, mid, d.State(), src, id, caller, kids, policy, named, kidCut) && |kids| <= d.cfg.listLimit
    requires ToSet(kids) == Kids(mid.rows, src) || |Kids(mid.rows, src)| > d.cfg.listLimit
    requires named == (!Inside(before.rows, src, parent) && KeepsNames(before.rows, d.cfg.fold, src, policy))
    requires FreshlyNamed(d.cfg.fold, mid.rows, d.rows)
    modifies d`ledger
    ensures d.Valid() && d.ledger.Keys == old(d.ledger).Keys
    ensures TreeDone(d.cfg, before, d.State(), src, parent, name, policy, id, caller)
    ensures Owing(d.State(), caller, owed) == Owing(old(d.State()), caller, owed + 1)
  {
    FolderDone(d.cfg, before, mid, d.State(), src, parent, name, policy, id, caller, kids, named, kidCut);
    OneChargeLess(d.State(), caller, owed);
    d.ledger := Charge(d.ledger, caller, 0, 0, 1);
  }

  lemma OneChargeLess(db: Db, caller: Uuid, owed: int)
    requires caller in db.ledger
    ensures Owing(db, caller, owed + 1) == Owing(db.(ledger := Charge(db.ledger, caller, 0, 0, 1)), caller, owed)
  {
    assert db.ledger[caller := Added(db.ledger[caller], 0, 0, owed + 1)]
        == Charge(db.ledger, caller, 0, 0, 1)[caller := Added(Charge(db.ledger, caller, 0, 0, 1)[caller], 0, 0, owed)];
  }

  lemma CopyStart(t: Table, mid: Table, fold: CaseMap, id: Uuid, src: Uuid, policy: Policy, named: bool)
    requires Indexed(t) && Indexed(mid) && id in mid && id !in t && id != NIL && mid == t[id := mid[id]] && src in t
             && IsParent(t, mid[id].parent)
    requires named ==> !Inside(t, src, mid[id].parent) && KeepsNames(t, fold, src, policy)
    ensures Kids(mid, id) == {}
    ensures named ==> !Inside(mid, src, id) && KeepsNames(mid, fold, src, policy)
  {
    NewTopHasNoKids(t, id, mid[id]);
    UnderStep(mid, src, id);
    UnderStep(mid, src, src);
    if named && policy.Rename? { DistinctFrame(t, mid, fold, mid[id].parent, src); }
  }

  /** The loop of copyTree over the children of a folder. */
  method CopyKids(d: Netdisk, fetch: Fetch, caller: Uuid, src: Uuid, id: Uuid, kids: seq<Uuid>, policy: Policy,
                  ghost named: bool, ghost sure: bool, ghost owed: int)
    returns (failure: Option<Error>, ghost cut: bool, ghost es: seq<Event>)
    requires d.Valid() && NIL !in d.ledger && caller in d.ledger && src in d.rows
    requires Live(d.rows, id) && d.rows[id].kind.Folder? && Kids(d.rows, id) == {} && id != NIL
    requires KidList(d.rows, src, kids)
    requires named ==> !Inside(d.rows, src, id) && KeepsNames(d.rows, d.cfg.fold, src, policy)
    requires sure ==> named && KidsCopyable(d.cfg, d.rows, d.ledger, fetch, caller, src, id)
    modifies d`rows, d`minted, d`ledger
    ensures old(d.minted) <= d.minted && d.ledger.Keys == old(d.ledger).Keys
    ensures failure.Some?
            || (d.Valid() && KidsDone(d.cfg, old(d.State()), d.State(), src, id, caller, kids, policy, named, cut))
    ensures failure.None? ==> Created(d.cfg, Owing(old(d.State()), caller, owed), es, Owing(d.State(), caller, owed))
    ensures sure ==> failure.None?
    decreases d.cfg.maxDepth - DepthOf(d.rows, id), 3
  {
    failure, cut, es := None, false, [];
    ghost var start := d.State();
    KidsStart(d.cfg, start, src, id, caller, policy, named);
    CommitNothing(d.cfg, Owing(start, caller, owed));
    assert kids[..0] == [];
    var i := 0;
    while i < |kids|
      invariant 0 <= i <= |kids| && d.Valid() && d.ledger.Keys == start.ledger.Keys && start.minted <= d.minted
      invariant failure.None? && (sure ==> !cut)
      invariant failure.Some?
                || Halfway(d.cfg, start, d.State(), src, id, caller, kids, i, policy, named, owed, cut, es)
    {
      failure, cut, es := CopyNext(d, fetch, caller, start, src, id, kids, i, policy, named, sure, owed, cut, es);
      if failure.Some? { return; }
      i := i + 1;
    }
    assert kids[..|kids|] == kids;
  }

  /** The state of the loop before child number `i`. */
  ghost predicate Halfway(cfg: Config, start: Db, now: Db, src: Uuid, id: Uuid, caller: Uuid, kids: seq<Uuid>, i: nat,
                          policy: Policy, named: bool, owed: int, cut: bool, es: seq<Event>)
  {
    && src in start.rows && caller in start.ledger && caller in now.ledger && i <= |kids|
    && KidsDone(cfg, start, now, src, id, caller, kids[..i], policy, named, cut)
    && Created(cfg, Owing(start, caller, owed), es, Owing(now, caller, owed))
  }

  /** What the loop keeps, for the children `done` copied since `start`. */
  ghost predicate KidsDone(cfg: Config, start: Db, now: Db, src: Uuid, id: Uuid, caller: Uuid, done: seq<Uuid>,
                           policy: Policy, named: bool, cut: bool)
    requires src in start.rows
  {
    && KidsCopied(start.rows, start.ledger, now.rows, now.ledger, src, id, caller, ToSet(done), named,
                  !cut && !Inside(start.rows, src, id))
    && (Inv(start.rows) ==> Inv(now.rows))
    && Narrow(start.rows, now.rows, cfg.listLimit) && |Kids(now.rows, id)| == |done|
    && (cut ==> Crowded(now.rows, cfg.listLimit))
    && (cut && !Inside(start.rows, src, id) ==> TooWide(start.rows, src, cfg.listLimit))
    && (!cut ==> NoneInside(start.rows, done, id))
    && (named ==> NamesFrom(start.rows, now.rows, cfg.fold, id, done))
  }

  lemma KidsStart(cfg: Config, start: Db, src: Uuid, id: Uuid, caller: Uuid, policy: Policy, named: bool)
    requires Indexed(start.rows) && src in start.rows && id in start.rows && caller in start.ledger
             && Kids(start.rows, id) == {}
    ensures KidsDone(cfg, start, start, src, id, caller, [], policy, named, false)
  {
    NothingCopied(start.rows, start.ledger, src, id, caller, named);
    assert ToSet([]) == {};
  }

  method CopyNext(d: Netdisk, fetch: Fetch, caller: Uuid, ghost start: Db, src: Uuid, id: Uuid, kids: seq<Uuid>, i: nat,
                  policy: Policy, ghost named: bool, ghost sure: bool, ghost owed: int, ghost cut: bool,
                  ghost es: seq<Event>)
    returns (failure: Option<Error>, ghost cutNow: bool, ghost more: seq<Event>)
    requires d.Valid() && NIL !in d.ledger && caller in d.ledger && Healthy(start) && src in start.rows && i < |kids|
    requires Live(start.rows, id) && start.rows[id].kind.Folder? && id != NIL
    requires KidList(start.rows, src, kids)
    requires named ==> !Inside(start.rows, src, id) && KeepsNames(start.rows, d.cfg.fold, src, policy)
    requires sure ==> named && !cut && KidsCopyable(d.cfg, start.rows, start.ledger, fetch, caller, src, id)
    requires Halfway(d.cfg, start, d.State(), src, id, caller, kids, i, policy, named, owed, cut, es)
    modifies d`rows, d`minted, d`ledger
    ensures old(d.minted) <= d.minted && d.ledger.Keys == old(d.ledger).Keys
    ensures failure.None? ==>
              d.Valid() && Halfway(d.cfg, start, d.State(), src, id, caller, kids, i + 1, policy, named, owed, cutNow,
              more)
    ensures sure ==> failure.None? && !cutNow
    decreases d.cfg.maxDepth - DepthOf(start.rows, id), 2
  {
    ghost var mid, done := d.State(), kids[..i];
    var c := kids[i];
    FrontOfList(start.rows, src, kids, i);
    BeforeKid(start.rows, mid.rows, d.cfg.fold, src, id, c, policy, named);
    if named && policy.Rename? { NameIsFree(start.rows, mid.rows, d.cfg.fold, src, id, done, c); }
    NextIsCopyable(d.cfg, start, mid, fetch, caller, src, id, done, c, policy, named, cut);
    var copy;
    ghost var step;
    copy, step := CopyTree(d, fetch, caller, c, id, d.rows[c].name, policy, owed);
    more := es + step;
    cutNow := cut || Inside(mid.rows, c, id) || TooWide(mid.rows, c, d.cfg.listLimit);
    if copy.Err? { return Some(copy.error), cutNow, more; }
    KidDone(d.cfg, start, mid, d.State(), src, id, caller, done, c, copy.value, policy, named, cut);
    CreateMore(d.cfg, Owing(start, caller, owed), es, Owing(mid, caller, owed), step, Owing(d.State(), caller, owed));
    failure := None;
  }

  /** Everything the loop keeps, after one more child. */
  lemma KidDone(cfg: Config, start: Db, mid: Db, now: Db, src: Uuid, id: Uuid, caller: Uuid, done: seq<Uuid>, c: Uuid,
                y: Uuid, policy: Policy, named: bool, cut: bool)
    requires src in start.rows && KidsDone(cfg, start, mid, src, id, caller, done, policy, named, cut)
    requires c in Kids(start.rows, src) && c !in done && caller in mid.ledger && c in mid.rows
    requires TreeDone(cfg, mid, now, c, id, start.rows[c].name, policy, y, caller)
    requires named ==> !Inside(start.rows, src, id) && KeepsNames(mid.rows, cfg.fold, c, policy)
    requires named ==> now.rows[y].name == start.rows[c].name
    ensures KidsDone(cfg, start, now, src, id, caller, done + [c], policy, named,
                     cut || Inside(mid.rows, c, id) || TooWide(mid.rows, c, cfg.listLimit))
  {
    ghost var t := start.rows;
    var cutHere := Inside(mid.rows, c, id) || TooWide(mid.rows, c, cfg.listLimit);
    UnderThrough(t, src, c, id);
    AppendToSet(done, c);
    KidGrows(t, start.ledger, mid.rows, mid.ledger, now.rows, now.ledger, src, id, caller, c, y, ToSet(done), named,
             !cut && !cutHere && !Inside(t, src, id));
    KidsOfNewTop(mid.rows, now.rows, id, y);
    NarrowGrows(t, mid.rows, now.rows, id, y, cfg.listLimit);
    if named { NamesGrow(t, mid.rows, now.rows, cfg.fold, id, done, c, y); }
    KidCut(t, mid.rows, now.rows, src, id, c, cfg.listLimit, cut);
    if !cut && !cutHere { NoneInsideGrows(t, done, c, id); }
  }

  /** What it means for the loop that a listing was cut, for this child or an earlier one. */
  lemma KidCut(t: Table, mid: Table, now: Table, src: Uuid, id: Uuid, c: Uuid, limit: nat, cut: bool)
    requires Indexed(t) && Indexed(mid) && src in t && id in t && c in Kids(t, src) && c in mid && mid[c] == t[c]
    requires Grafted(t, mid, id) && Grafted(mid, now, id)
    requires cut ==> Crowded(mid, limit) && (!Inside(t, src, id) ==> TooWide(t, src, limit))
    requires Inside(mid, c, id) ==> Crowded(now, limit)
    ensures cut || Inside(mid, c, id) || TooWide(mid, c, limit) ==> Crowded(now, limit)
    ensures (cut || Inside(mid, c, id) || TooWide(mid, c, limit)) && !Inside(t, src, id) ==> TooWide(t, src, limit)
    ensures Inside(mid, c, id) ==> Inside(t, src, id)
  {
    UnderThrough(t, src, c, id);
    if cut || TooWide(mid, c, limit) { CrowdedGrows(mid, now, id, limit); }
    if !Inside(t, src, id) && TooWide(mid, c, limit) {
      WideFrame(t, mid, id, c, limit);
      WideThrough(t, src, c, limit);
    }
  }

  // ---- The batch ------------------------------------------------------------------------------

  lemma OwingNothing(db: Db, caller: Uuid)
    requires caller in db.ledger
    ensures Owing(db, caller, 0) == db
  {
    assert db.ledger[caller := db.ledger[caller]] == db.ledger;
  }

  /** What a batch owes to one source it was given at the start. */
  ghost predicate Delivered(cfg: Config, start: Table, now: Table, target: Uuid, src: Uuid, copy: Uuid, policy: Policy)
    requires src in start
  {
    && Indexed(start) && Indexed(now) && Live(now, copy) && now[copy].parent == target
    && (Inside(start, src, target) ==> Crowded(now, cfg.listLimit))
    && (!Inside(start, src, target) ==> Faithful(cfg, start, now, src, copy, policy))
  }

  ghost predicate AllDelivered(cfg: Config, start: Table, now: Table, target: Uuid, ids: seq<Uuid>, copies: seq<Uuid>,
                               policy: Policy) {
    && |copies| <= |ids|
    && forall i | 0 <= i < |copies| ::
         copies[i] in now && copies[i] !in start && now[copies[i]].parent == target
         && (ids[i] in start ==> Delivered(cfg, start, now, target, ids[i], copies[i], policy))
  }

  /** The name a batch was asked to give a copy. */
  function AskedName(t: Table, ids: seq<Uuid>, newNames: seq<string>, i: nat): string
    requires i < |ids| && (newNames == [] || |newNames| == |ids|) && ids[i] in t
  {
    if newNames != [] && newNames[i] != "" then newNames[i] else t[ids[i]].name
  }

  /** Every copy has the name asked for, or one of its candidates where that may be replaced. */
  ghost predicate AllNamed(start: Table, now: Table, ids: seq<Uuid>, copies: seq<Uuid>, newNames: seq<string>,
                           policy: Policy)
    requires newNames == [] || |newNames| == |ids|
  {
    && |copies| <= |ids|
    && forall i | 0 <= i < |copies| && ids[i] in start ::
         && copies[i] in now
         && NamedFrom(if newNames == [] || newNames[i] == "" then start[ids[i]].name else newNames[i], policy,
                      now[copies[i]].name)
  }

  /** Later copies into the same folder do not disturb an earlier one. */
  lemma StaysDelivered(cfg: Config, start: Table, mid: Table, now: Table, target: Uuid, src: Uuid, copy: Uuid,
                       policy: Policy)
    requires src in start && Delivered(cfg, start, mid, target, src, copy, policy) && Indexed(now)
             && Grafted(mid, now, target)
    ensures Delivered(cfg, start, now, target, src, copy, policy)
  {
    if Inside(start, src, target) {
      CrowdedGrows(mid, now, target, cfg.listLimit);
    }
    if target in mid { NotUnderOwnChild(mid, target, copy); }
    UnderStep(mid, copy, copy);
    ShapeFrame(mid, now, target, copy, false);
    ShapeFrame(mid, now, target, copy, true);
  }

  /** Rows hung outside a source leave its shape, its width and the distinctness of its names alone. */
  lemma SourceFrame(t: Table, t': Table, p: Uuid, src: Uuid, fold: CaseMap, limit: nat)
    requires Indexed(t) && Indexed(t') && Grafted(t, t', p) && src in t && !Inside(t, src, p)
    ensures ShapeOf(t', src, false) == ShapeOf(t, src, false) && ShapeOf(t', src, true) == ShapeOf(t, src, true)
    ensures TooWide(t', src, limit) <==> TooWide(t, src, limit)
    ensures DistinctNames(t', fold, src) <==> DistinctNames(t, fold, src)
  {
    UnderStep(t, src, src);
    ShapeFrame(t, t', p, src, false);
    ShapeFrame(t, t', p, src, true);
    if TooWide(t', src, limit) { WideFrame(t, t', p, src, limit); }
    if TooWide(t, src, limit) {
      var x :| x in t && Under(t, src, x) && |Kids(t, x)| > limit;
      UnderDeeper(t, src, x, p);
      ShapeFrame(t, t', p, x, false);
      assert x in t' && Under(t', src, x) && |Kids(t', x)| > limit;
    }
    if DistinctNames(t, fold, src) { DistinctFrame(t, t', fold, p, src); }
    if DistinctNames(t', fold, src) { DistinctBefore(t, t', fold, src); }
  }

  lemma DistinctBefore(t: Table, t': Table, fold: CaseMap, src: Uuid)
    requires t.Keys <= t'.Keys && (forall x | x in t :: t'[x] == t[x]) && src in t && DistinctNames(t', fold, src)
    ensures DistinctNames(t, fold, src)
  {
    forall c, d | c in t && d in t && c != d && Siblings(t, c, d) && c != src && Under(t, src, c)
      ensures Lower(fold, t[c].name) != Lower(fold, t[d].name)
    {
      assert Siblings(t', c, d) && Under(t', src, c);
    }
  }

  lemma NewlyDelivered(cfg: Config, start: Table, mid: Db, now: Db, target: Uuid, src: Uuid, copy: Uuid, name: string,
                       policy: Policy, caller: Uuid)
    requires src in start && Indexed(start) && Grafted(start, mid.rows, target) && IsParent(start, target)
    requires TreeDone(cfg, mid, now, src, target, name, policy, copy, caller)
    ensures Delivered(cfg, start, now.rows, target, src, copy, policy)
  {
    if !Inside(start, src, target) {
      SourceFrame(start, mid.rows, target, src, cfg.fold, cfg.listLimit);
    }
  }

  // ---- When a batch gets through ------------------------------------------------------------------

  ghost function BytesOf(t: Table, ids: seq<Uuid>): int
    requires Indexed(t) && forall i | 0 <= i < |ids| :: ids[i] in t
  {
    if ids == [] then 0 else BytesOf(t, ids[..|ids| - 1]) + ShapeOf(t, ids[|ids| - 1], false).Bytes()
  }

  ghost function LowerAsked(fold: CaseMap, t: Table, ids: seq<Uuid>, newNames: seq<string>, i: nat): string
    requires i < |ids| && (newNames == [] || |newNames| == |ids|) && ids[i] in t
  {
    Lower(fold, AskedName(t, ids, newNames, i))
  }

  /** The caller may see and download the node, whatever the state of the table. */
  ghost predicate AlwaysReadable(gate: Gate, id: Uuid) {
    forall s: Table :: gate(s, id, ToView) == None && gate(s, id, ToDownload) == None
  }

  /** Told before the call: nothing refuses a batch of copies. The names asked for are free and do not clash, and the
      quota has room for everything together. */
  ghost predicate BatchCopyable(cfg: Config, gate: Gate, t: Table, l: Ledger, fetch: Fetch, caller: Uuid,
                                ids: seq<Uuid>, newNames: seq<string>, target: Uuid)
    requires Indexed(t)
  {
    && ids != [] && (newNames == [] || |newNames| == |ids|) && caller in l
    && Writable(t, target) && (target != NIL ==> gate(t, target, ToUpload) == None)
    && (forall i | 0 <= i < |ids| ::
          ids[i] in t && SourceReady(cfg, t, fetch, ids[i], target) && AlwaysReadable(gate, ids[i]))
    && (forall i | 0 <= i < |ids| :: !Taken(t, target, LowerAsked(cfg.fold, t, ids, newNames, i), NIL))
    && (forall i, j | 0 <= i < j < |ids| ::
          LowerAsked(cfg.fold, t, ids, newNames, i) != LowerAsked(cfg.fold, t, ids, newNames, j))
    && QuotaAllows(l, caller, BytesOf(t, ids))
  }

  /** The same after the first `n` copies, for the rest. */
  ghost predicate RestReady(cfg: Config, t: Table, now: Db, caller: Uuid, ids: seq<Uuid>, n: nat, newNames: seq<string>,
                            target: Uuid)
    requires Indexed(t) && (forall i | 0 <= i < |ids| :: ids[i] in t) && (newNames == [] || |newNames| == |ids|)
  {
    && n <= |ids| && (forall i | n <= i < |ids| ::
                        !Taken(now.rows, target, LowerAsked(cfg.fold, t, ids, newNames, i), NIL))
    && QuotaAllows(now.ledger, caller, BytesOf(t, ids) - BytesOf(t, ids[..n]))
  }

  lemma {:induction false} BytesAdd(t: Table, ids: seq<Uuid>, n: nat)
    requires Indexed(t) && (forall i | 0 <= i < |ids| :: ids[i] in t) && n <= |ids|
             && forall y | y in t :: t[y].size >= 0
    ensures BytesOf(t, ids[..n]) <= BytesOf(t, ids)
  {
    if n == |ids| {
      assert ids[..n] == ids;
    } else {
      BytesAdd(t, ids[..|ids| - 1], n);
      assert ids[..|ids| - 1][..n] == ids[..n];
      BytesNotNegative(t, ids[|ids| - 1]);
    }
  }

  lemma OneMoreByte(t: Table, ids: seq<Uuid>, i: nat)
    requires Indexed(t) && (forall k | 0 <= k < |ids| :: ids[k] in t) && i < |ids|
    ensures BytesOf(t, ids[..i + 1]) == BytesOf(t, ids[..i]) + ShapeOf(t, ids[i], false).Bytes()
  {
    assert ids[..i + 1][..i] == ids[..i];
  }

  lemma NextInBatch(cfg: Config, gate: Gate, start: Db, mid: Db, fetch: Fetch, caller: Uuid, ids: seq<Uuid>, i: nat,
                    newNames: seq<string>, target: Uuid, policy: Policy)
    requires Healthy(start) && Indexed(mid.rows) && i < |ids| && Grafted(start.rows, mid.rows, target)
    requires BatchCopyable(cfg, gate, start.rows, start.ledger, fetch, caller, ids, newNames, target)
    requires RestReady(cfg, start.rows, mid, caller, ids, i, newNames, target)
    ensures ids[i] in mid.rows && gate(mid.rows, ids[i], ToView) == None && gate(mid.rows, ids[i], ToDownload) == None
    ensures !Taken(mid.rows, target, LowerAsked(cfg.fold, start.rows, ids, newNames, i), NIL)
    ensures Copyable(cfg, mid.rows, mid.ledger, fetch, caller, ids[i], target, AskedName(start.rows, ids, newNames, i),
                     policy)
  {
    var t := start.rows;
    SourceFrame(t, mid.rows, target, ids[i], cfg.fold, cfg.listLimit);
    FitFrame(cfg, t, mid.rows, fetch, target, ids[i], DepthOf(t, target) + 1);
    OneMoreByte(t, ids, i);
    BytesAdd(t, ids, i + 1);
    BytesNotNegative(t, ids[i]);
    assert AlwaysReadable(gate, ids[i]);
  }

  lemma RestStaysReady(cfg: Config, gate: Gate, start: Db, mid: Db, now: Db, fetch: Fetch, caller: Uuid, ids: seq<Uuid>,
                       i: nat, copy: Uuid, newNames: seq<string>, target: Uuid, policy: Policy)
    requires Healthy(start) && Indexed(mid.rows) && i < |ids| && Grafted(start.rows, mid.rows, target)
    requires BatchCopyable(cfg, gate, start.rows, start.ledger, fetch, caller, ids, newNames, target)
    requires RestReady(cfg, start.rows, mid, caller, ids, i, newNames, target) && ids[i] in mid.rows
    requires TreeDone(cfg, mid, now, ids[i], target, AskedName(start.rows, ids, newNames, i), policy, copy, caller)
    ensures RestReady(cfg, start.rows, now, caller, ids, i + 1, newNames, target)
  {
    var t := start.rows;
    assert !Taken(mid.rows, target, LowerAsked(cfg.fold, t, ids, newNames, i), NIL);
    forall j | i < j < |ids| ensures !Taken(now.rows, target, LowerAsked(cfg.fold, t, ids, newNames, j), NIL) {
      StillFree(mid.rows, now.rows, target, copy, LowerAsked(cfg.fold, t, ids, newNames, j));
    }
    RestHasRoom(cfg, t, mid, now, caller, ids, i, target, AskedName(t, ids, newNames, i), policy, copy);
  }

  lemma RestHasRoom(cfg: Config, t: Table, mid: Db, now: Db, caller: Uuid, ids: seq<Uuid>, i: nat, target: Uuid,
                    name: string, policy: Policy, copy: Uuid)
    requires Indexed(t) && (forall y | y in t :: t[y].size >= 0) && (forall k | 0 <= k < |ids| :: ids[k] in t)
    requires Indexed(mid.rows) && i < |ids| && Grafted(t, mid.rows, target) && IsParent(t, target)
    requires !Inside(t, ids[i], target) && !TooWide(t, ids[i], cfg.listLimit)
    requires QuotaAllows(mid.ledger, caller, BytesOf(t, ids) - BytesOf(t, ids[..i])) && ids[i] in mid.rows
    requires TreeDone(cfg, mid, now, ids[i], target, name, policy, copy, caller)
    ensures QuotaAllows(now.ledger, caller, BytesOf(t, ids) - BytesOf(t, ids[..i + 1]))
  {
    SourceFrame(t, mid.rows, target, ids[i], cfg.fold, cfg.listLimit);
    OneMoreByte(t, ids, i);
    BytesNotNegative(t, ids[i]);
    assert !Inside(mid.rows, ids[i], target) && SameShape(mid.rows, now.rows, ids[i], copy, false);
  }

  /** A copy takes no name in the target folder but its own. */
  lemma StillFree(t: Table, t': Table, target: Uuid, copy: Uuid, low: string)
    requires Indexed(t) && Indexed(t') && copy in t' && copy !in t && t'[copy].parent == target
             && t'[copy].status.Active?
    requires Grafted(t[copy := t'[copy]], t', copy) && IsParent(t, target)
    requires !Taken(t, target, low, NIL) && t'[copy].nameLower != low
    ensures !Taken(t', target, low, NIL)
  {
    var t1 := t[copy := t'[copy]];
    assert forall x | x in t :: t'[x] == t1[x] == t[x];
    forall x | x in t' && x !in t1 ensures t'[x].parent != target {
      assert HangsBelow(t1, t', copy, x);
    }
  }

  /** What can refuse a source. */
  method CheckSource(d: Netdisk, gate: Gate, id: Uuid) returns (refusal: Option<Error>)
    ensures refusal.None? <==> id in d.rows && gate(d.rows, id, ToView) == None && gate(d.rows, id, ToDownload) == None
  {
    if id !in d.rows { return Some(NotFound); }
    refusal := gate(d.rows, id, ToView);
    if refusal.None? && gate(d.rows, id, ToDownload).Some? { refusal := Some(PermissionDenied); }
  }

  method CopyOne(d: Netdisk, gate: Gate, fetch: Fetch, caller: Uuid, ghost start: Db, ghost es: seq<Event>,
                 ghost copies: seq<Uuid>, ids: seq<Uuid>, i: nat, target: Uuid, newNames: seq<string>, policy: Policy,
                 ghost sure: bool)
    returns (r: Result<Uuid>, ghost more: seq<Event>)
    requires d.Valid() && NIL !in d.ledger && caller in d.ledger && Writable(start.rows, target) && i < |ids|
             && |copies| == i
    requires newNames == [] || |newNames| == |ids|
    requires BatchDone(d.cfg, start, d.State(), target, caller, ids, copies, newNames, policy, es)
    requires sure ==>
               Healthy(start)
               && BatchCopyable(d.cfg, gate, start.rows, start.ledger, fetch, caller, ids, newNames, target)
               && RestReady(d.cfg, start.rows, d.State(), caller, ids, i, newNames, target)
    modifies d`rows, d`minted, d`ledger
    ensures old(d.minted) <= d.minted && d.ledger.Keys == old(d.ledger).Keys
    ensures r.Ok? ==> ids[i] in old(d.rows) && gate(old(d.rows), ids[i], ToView) == None
                      && gate(old(d.rows), ids[i], ToDownload) == None
    ensures r.Ok? ==>
              d.Valid() && BatchDone(d.cfg, start, d.State(), target, caller, ids, copies + [r.value], newNames,
              policy, more)
    ensures sure ==> r.Ok? && RestReady(d.cfg, start.rows, d.State(), caller, ids, i + 1, newNames, target)
  {
    more := [];
    var id := ids[i];
    if sure { NextInBatch(d.cfg, gate, start, d.State(), fetch, caller, ids, i, newNames, target, policy); }
    var refusal := CheckSource(d, gate, id);
    if refusal.Some? { return Err(refusal.value), []; }
    var name := if newNames != [] && newNames[i] != "" then newNames[i] else d.rows[id].name;
    ghost var mid := d.State();
    ghost var step;
    r, step := CopyTree(d, fetch, caller, id, target, name, policy, 0);
    if r.Ok? {
      more := es + step;
      BatchStep(d.cfg, start, mid, d.State(), target, caller, ids, copies, r.value, newNames, name, policy, es, step);
      if sure {
        RestStaysReady(d.cfg, gate, start, mid, d.State(), fetch, caller, ids, i, r.value, newNames, target, policy);
      }
    }
  }

  /** What the batch keeps after some copies. */
  ghost predicate BatchDone(cfg: Config, start: Db, now: Db, target: Uuid, caller: Uuid, ids: seq<Uuid>,
                            copies: seq<Uuid>, newNames: seq<string>, policy: Policy, es: seq<Event>)
    requires newNames == [] || |newNames| == |ids|
  {
    && Sound(start.rows) && Indexed(now.rows) && CopiedInto(start.rows, now.rows, target, caller)
    && AllDelivered(cfg, start.rows, now.rows, target, ids, copies, policy)
    && AllNamed(start.rows, now.rows, ids, copies, newNames, policy)
    && (Inv(start.rows) ==> Inv(now.rows))
    && Created(cfg, start, es, now)
  }

  lemma BatchGrows(cfg: Config, start: Db, mid: Db, now: Db, target: Uuid, caller: Uuid, ids: seq<Uuid>,
                   copies: seq<Uuid>, copy: Uuid, name: string, policy: Policy)
    requires Sound(start.rows) && IsParent(start.rows, target) && CopiedInto(start.rows, mid.rows, target, caller)
    requires |copies| < |ids| && AllDelivered(cfg, start.rows, mid.rows, target, ids, copies, policy)
             && ids[|copies|] in mid.rows
    requires TreeDone(cfg, mid, now, ids[|copies|], target, name, policy, copy, caller)
    ensures CopiedInto(start.rows, now.rows, target, caller)
    ensures AllDelivered(cfg, start.rows, now.rows, target, ids, copies + [copy], policy)
  {
    CopiedTwice(start.rows, mid.rows, now.rows, target, caller);
    var all := copies + [copy];
    forall i | 0 <= i < |all|
      ensures all[i] in now.rows && all[i] !in start.rows && now.rows[all[i]].parent == target
      ensures ids[i] in start.rows ==> Delivered(cfg, start.rows, now.rows, target, ids[i], all[i], policy)
    {
      if i < |copies| {
        assert now.rows[copies[i]] == mid.rows[copies[i]];
        if ids[i] in start.rows {
          StaysDelivered(cfg, start.rows, mid.rows, now.rows, target, ids[i], copies[i], policy);
        }
      } else if ids[i] in start.rows {
        NewlyDelivered(cfg, start.rows, mid, now, target, ids[i], copy, name, policy, caller);
      }
    }
  }

  lemma BatchStep(cfg: Config, start: Db, mid: Db, now: Db, target: Uuid, caller: Uuid, ids: seq<Uuid>,
                  copies: seq<Uuid>, copy: Uuid, newNames: seq<string>, name: string, policy: Policy, es: seq<Event>,
                  step: seq<Event>)
    requires newNames == [] || |newNames| == |ids|
    requires BatchDone(cfg, start, mid, target, caller, ids, copies, newNames, policy, es)
             && IsParent(start.rows, target)
    requires |copies| < |ids| && ids[|copies|] in mid.rows && caller in mid.ledger && caller in now.ledger
    requires TreeDone(cfg, mid, now, ids[|copies|], target, name, policy, copy, caller)
    requires Created(cfg, Owing(mid, caller, 0), step, Owing(now, caller, 0))
    requires ids[|copies|] in start.rows ==> name == AskedName(start.rows, ids, newNames, |copies|)
    ensures BatchDone(cfg, start, now, target, caller, ids, copies + [copy], newNames, policy, es + step)
  {
    OwingNothing(mid, caller);
    OwingNothing(now, caller);
    CreateMore(cfg, start, es, mid, step, now);
    BatchGrows(cfg, start, mid, now, target, caller, ids, copies, copy, name, policy);
    NamedGrows(start.rows, mid.rows, now.rows, target, ids, copies, copy, newNames, name, policy);
  }

  lemma NamedGrows(start: Table, mid: Table, now: Table, target: Uuid, ids: seq<Uuid>, copies: seq<Uuid>, copy: Uuid,
                   newNames: seq<string>, name: string, policy: Policy)
    requires newNames == [] || |newNames| == |ids|
    requires |copies| < |ids| && AllNamed(start, mid, ids, copies, newNames, policy) && Grafted(mid, now, target)
    requires copy in now && NamedFrom(name, policy, now[copy].name)
    requires ids[|copies|] in start ==> name == AskedName(start, ids, newNames, |copies|)
    ensures AllNamed(start, now, ids, copies + [copy], newNames, policy)
  {
    assert forall i | 0 <= i < |copies| && ids[i] in start :: now[copies[i]] == mid[copies[i]];
  }

  /** The loop of the transaction. A failure leaves the earlier copies to the rollback. */
  method CopyAll(d: Netdisk, gate: Gate, fetch: Fetch, caller: Uuid, ids: seq<Uuid>, target: Uuid,
                 newNames: seq<string>, policy: Policy, ghost sure: bool)
    returns (r: Result<seq<Uuid>>, ghost es: seq<Event>)
    requires d.Valid() && NIL !in d.ledger && caller in d.ledger && Writable(d.rows, target)
    requires newNames == [] || |newNames| == |ids|
    requires sure ==> BatchCopyable(d.cfg, gate, d.rows, d.ledger, fetch, caller, ids, newNames, target)
    modifies d`rows, d`minted, d`ledger
    ensures old(d.minted) <= d.minted
    ensures r.Err?
            || (d.Valid() && |r.value| == |ids|
                && BatchDone(d.cfg, old(d.State()), d.State(), target, caller, ids, r.value, newNames, policy, es))
    ensures sure ==> r.Ok?
  {
    ghost var start := d.State();
    CommitNothing(d.cfg, start);
    es := [];
    var copies := [];
    var i := 0;
    while i < |ids|
      invariant 0 <= i <= |ids| && |copies| == i && d.Valid() && d.ledger.Keys == start.ledger.Keys
                && start.minted <= d.minted
      invariant BatchDone(d.cfg, start, d.State(), target, caller, ids, copies, newNames, policy, es)
      invariant sure ==> RestReady(d.cfg, start.rows, d.State(), caller, ids, i, newNames, target)
    {
      var copy;
      copy, es := CopyOne(d, gate, fetch, caller, start, es, copies, ids, i, target, newNames, policy, sure);
      if copy.Err? { return Err(copy.error), es; }
      copies := copies + [copy.value];
      i := i + 1;
    }
    r := Ok(copies);
  }

  /** CopyNodes: the whole batch or nothing. Unlike a move, a new name is taken as it is. */
  method CopyNodes(d: Netdisk, gate: Gate, fetch: Fetch, caller: Uuid, ids: seq<Uuid>, target: Uuid,
                   newNames: seq<string>, policy: Policy)
    returns (r: Result<seq<Uuid>>, ghost es: seq<Event>)
    requires d.Valid() && NIL !in d.ledger
    modifies d`rows, d`minted, d`ledger
    ensures d.Valid() && (old(Inv(d.rows)) ==> Inv(d.rows))
    ensures r.Err? ==> d.rows == old(d.rows) && d.ledger == old(d.ledger)
    ensures r.Ok? ==> |r.value| == |ids| && Created(d.cfg, old(d.State()), es, d.State())
    ensures r.Ok? ==> CopiedInto(old(d.rows), d.rows, target, caller)
    ensures r.Ok? ==> AllDelivered(d.cfg, old(d.rows), d.rows, target, ids, r.value, policy)
    ensures r.Ok? ==>
              (newNames == [] || |newNames| == |ids|) && AllNamed(old(d.rows), d.rows, ids, r.value, newNames, policy)
    ensures old(Conserved(d.rows, d.ledger) && QuotasHold(d.ledger)) ==>
              Conserved(d.rows, d.ledger) && QuotasHold(d.ledger)
    ensures old(BatchCopyable(d.cfg, gate, d.rows, d.ledger, fetch, caller, ids, newNames, target)) ==> r.Ok?
  {
    es := [];
    if ids == [] || (newNames != [] && |newNames| != |ids|) { return Err(InvalidArgument), []; }
    var refusal := d.LoadWritableParent(gate, target);
    if refusal.Some? { return Err(refusal.value), []; }
    if caller !in d.ledger { return Err(NotFound), []; }
    var savedRows, savedLedger := d.rows, d.ledger;
    ghost var start := d.State();
    ghost var sure := BatchCopyable(d.cfg, gate, start.rows, start.ledger, fetch, caller, ids, newNames, target);
    r, es := CopyAll(d, gate, fetch, caller, ids, target, newNames, policy, sure);
    if r.Err? {
      d.rows, d.ledger := savedRows, savedLedger;
      return r, [];
    }
    if Conserved(start.rows, start.ledger) && QuotasHold(start.ledger) {
      CreationsConserve(d.cfg, start, es, d.State());
    }
  }

  // ---- Where copies fall short ------------------------------------------------------------------

  /** A folder with one file more than a listing returns; the limit of the source is fifty. A finished copy is no wider
      than a listing, so it never has the shape of this folder. */
  lemma FullFolderLosesFiles(cfg: Config, t': Table, id: Uuid)
    requires Indexed(t') && id in t' && !TooWide(t', id, cfg.listLimit)
    ensures var t := FolderOfFiles(cfg.listLimit + 1, Active);
            && Inv(t) && 1 in t && TooWide(t, 1, cfg.listLimit)
            && !SameShape(t, t', 1, id, false) && !SameShape(t, t', 1, id, true)
  {
    var n := cfg.listLimit + 1;
    var t := FolderOfFiles(n, Active);
    FolderOfFilesIsSound(n, Active);
    FolderOfFilesSize(n, Active);
    assert Kids(t, 1) == t.Keys - {1};
    assert |Kids(t, 1)| == n && Under(t, 1, 1);
    WideShapesDiffer(t, t', 1, id, cfg.listLimit, false);
    WideShapesDiffer(t, t', 1, id, cfg.listLimit, true);
  }

  /** A file deleted from a folder, a new one with a name that folds alike, then the folder deleted and restored:
      both files are active again, and a copy of the folder gives one of them another name. */
  lemma TwinsComeBack(cfg: Config, t: Table, folder: Uuid, x: Uuid, y: Uuid, now: int)
    requires Inv(t) && Live(t, folder) && t[folder].kind.Folder? && x in t && y in t
             && t[x].parent == t[y].parent == folder
    requires t[x].status.Trashed? && t[y].status.Active? && Lower(cfg.fold, t[x].name) == Lower(cfg.fold, t[y].name)
    ensures var home := t[folder].parent;
            var t' := Restored(Discarded(t, folder, now), folder, home);
            && Inv(t') && Live(t', x) && Live(t', y) && Siblings(t', x, y) && !DistinctNames(t', cfg.fold, folder)
  {
    var home, mid := t[folder].parent, Discarded(t, folder, now);
    assert Placed(t, folder) && Sheltered(t, folder);
    DiscardKeepsIff(t, folder, now);
    UnderStep(t, folder, folder);
    UnderStep(t, folder, x);
    UnderStep(t, folder, y);
    if home in t {
      UnderStep(t, folder, home);
      UnderStep(t, home, folder);
    }
    RestoreCannotCycle(mid, folder, home);
    RestoreKeeps(mid, folder, home);
    var t' := Restored(mid, folder, home);
    UnderStep(t', folder, folder);
    UnderStep(t', folder, x);
    assert Siblings(t', x, y);
  }

  /** Two files in one folder with names that differ in case only, the first one trashed. */
  function TwinTable(fold: CaseMap, x: Uuid, y: Uuid): Table {
    map[1 := FolderOrFile(1, Active), x := Twin(fold, x, Trashed, "a"), y := Twin(fold, y, Active, "A")]
  }

  function Twin(fold: CaseMap, x: Uuid, status: Status, name: string): Row {
    FolderOrFile(x, status).(name := name, nameLower := Lower(fold, name),
                             originalParent := if status.Trashed? then 1 else NIL)
  }

  lemma TwinFits(t: Table, fold: CaseMap, x: Uuid, status: Status, name: string)
    requires x > 1 && x in t && t[x] == Twin(fold, x, status, name)
    requires 1 in t && t[1] == FolderOrFile(1, Active) && NIL !in t
    ensures Placed(t, x) && Sheltered(t, x) && OriginRight(t, x)
  {
  }

  lemma TwinTableComesBack(cfg: Config, x: Uuid, y: Uuid, now: int)
    requires cfg.fold('A') == cfg.fold('a') && x > 1 && y > 1 && x != y
    ensures var t := TwinTable(cfg.fold, x, y);
            && Inv(t) && 1 in t
            && !DistinctNames(Restored(Discarded(t, 1, now), 1, NIL), cfg.fold, 1)
  {
    var t := TwinTable(cfg.fold, x, y);
    FolderOrFileFits(t, 1, Active);
    TwinFits(t, cfg.fold, x, Trashed, "a");
    TwinFits(t, cfg.fold, y, Active, "A");
    TwinsComeBack(cfg, t, 1, x, y, now);
  }
}
