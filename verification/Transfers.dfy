/** The upload usecases over the database and the object store together (internal/biz/file.go and
    expireUploads of internal/biz/system.go). */
module Transfers {
  import opened Ids
  import opened Tree
  import opened Trash
  import opened Names
  import opened Versions
  import opened Database
  import opened Invariants
  import opened Netdisk
  import opened Content
  import opened Storage
  import opened Uploads

  const MAX_COMPOSE_PARTS := 10000
  const EXPIRE_LIMIT := 500
  const LIVE_LIMIT := 10000

  datatype UploadStatus = Pending | InProgress | Completed | Aborted | Expired

  datatype Upload = Upload(parent: Uuid, name: string, owner: Uuid, plan: Plan, policy: Policy, status: UploadStatus,
                           expires: int, received: int)

  /** At most one recorded part per session and number. */
  predicate OnePer(parts: map<Uuid, Part>) {
    forall a, b | a in parts && b in parts && parts[a].upload == parts[b].upload
        && parts[a].number == parts[b].number :: a == b
  }

  function PartsOf(parts: map<Uuid, Part>, id: Uuid): set<Part> {
    set a | a in parts && parts[a].upload == id :: parts[a]
  }

  /** What a listing of the parts of a session returns: all of them, in order of their numbers. */
  predicate IsPartList(parts: map<Uuid, Part>, id: Uuid, list: seq<Part>) {
    && (set p | p in list) == PartsOf(parts, id)
    && forall i, j | 0 <= i < j < |list| :: list[i].number < list[j].number
  }

  function SizeOf(list: seq<Part>, n: nat): int
    requires n <= |list|
  {
    if n == 0 then 0 else SizeOf(list, n - 1) + list[n - 1].size
  }

  method ListUploadParts(parts: map<Uuid, Part>, id: Uuid) returns (list: seq<Part>)
    requires OnePer(parts)
    ensures IsPartList(parts, id, list)
  {
    list := [];
    var left := PartsOf(parts, id);
    while left != {}
      invariant left <= PartsOf(parts, id)
      invariant (set p | p in list) == PartsOf(parts, id) - left
      invariant forall i, j | 0 <= i < j < |list| :: list[i].number < list[j].number
      invariant forall i, p | 0 <= i < |list| && p in left :: list[i].number < p.number
      decreases left
    {
      var lowest := Lowest(parts, id, left);
      assert (set p | p in list + [lowest]) == (set p | p in list) + {lowest};
      list, left := list + [lowest], left - {lowest};
    }
  }

  method Lowest(parts: map<Uuid, Part>, id: Uuid, s: set<Part>) returns (lowest: Part)
    requires OnePer(parts) && s != {} && s <= PartsOf(parts, id)
    ensures lowest in s && forall p | p in s && p != lowest :: lowest.number < p.number
  {
    lowest :| lowest in s;
    var left := s - {lowest};
    while left != {}
      invariant left <= s && lowest in s
      invariant forall p | p in s && p !in left && p != lowest :: lowest.number < p.number
      decreases left
    {
      var p :| p in left;
      left := left - {p};
      if p.number < lowest.number { lowest := p; }
    }
  }

  /** PutUploadPart: an earlier part with the same number goes first. */
  function WithPart(parts: map<Uuid, Part>, row: Uuid, p: Part): (r: map<Uuid, Part>)
    requires row !in parts
    ensures OnePer(parts) ==> OnePer(r)
    ensures forall q :: q in PartsOf(r, p.upload) <==>
              q == p || (q in PartsOf(parts, p.upload) && q.number != p.number)
    ensures forall id | id != p.upload :: PartsOf(r, id) == PartsOf(parts, id)
  {
    var rest := map a | a in parts && !(parts[a].upload == p.upload && parts[a].number == p.number) :: parts[a];
    var r := rest[row := p];
    assert r[row] == p;
    assert forall a | a in parts && (parts[a].upload != p.upload || parts[a].number != p.number) :: r[a] == parts[a];
    r
  }

  // ---- The committed steps as steps of the world --------------------------------------------------

  /** The world as one process sees it between its own steps. */
  ghost function Now(d: Netdisk, b: Bucket): World
    reads d, b
  {
    World(d.State(), b.keys, d.minted, map[], {}, {})
  }

  lemma StoredAndCommitted(cfg: Config, w: World, caller: Uuid, nodeId: Uuid, id: Uuid, e: Event)
    requires Safe(w) && w.spent == w.db.minted && w.drafts == map[] && nodeId !in w.spent
    requires Allowed(cfg, w.db, e) && Netdisk.StoresContent(e, id, caller, nodeId)
    ensures var db' := Apply(cfg, w.db, e);
            Safe(World(db', w.store + {ObjectKey(caller, nodeId)}, db'.minted, map[], w.retiring, w.listed))
  {
    var w1 := Next(cfg, w, PutContent(caller, nodeId));
    StepKeepsSafe(cfg, w, PutContent(caller, nodeId));
    StepKeepsSafe(cfg, w1, Settle(nodeId, e));
    var w2 := Next(cfg, w1, Settle(nodeId, e));
    assert w2.drafts == map[];
    assert w2.spent == w2.db.minted;
  }

  /** Whether or not the object could be removed after a failed commit. */
  lemma StoredAndGivenUp(cfg: Config, w: World, caller: Uuid, nodeId: Uuid, store: set<string>)
    requires Safe(w) && w.spent == w.db.minted && w.drafts == map[] && nodeId !in w.spent
    requires store == w.store + {ObjectKey(caller, nodeId)}
             || store == (w.store + {ObjectKey(caller, nodeId)}) - {ObjectKey(caller, nodeId)}
    ensures var m := w.db.minted + {nodeId}; Safe(World(w.db.(minted := m), store, m, map[], w.retiring, w.listed))
  {
    var w1 := Next(cfg, w, PutContent(caller, nodeId));
    StepKeepsSafe(cfg, w, PutContent(caller, nodeId));
    var a := if store == w1.store then Crash({nodeId}, {}, {}) else Undo(nodeId);
    StepKeepsSafe(cfg, w1, a);
    var w2 := Next(cfg, w1, a);
    assert w2.drafts == map[] && w2.retiring == w.retiring && w2.listed == w.listed;
    IdsSpent(w2, w.db.minted + {nodeId});
  }

  /** Identifiers may be used up without being stored. */
  lemma IdsSpent(w: World, m: set<Uuid>)
    requires Safe(w) && w.drafts == map[] && w.spent <= m
    ensures Safe(World(w.db.(minted := m), w.store, m, map[], w.retiring, w.listed))
  {
    var w' := World(w.db.(minted := m), w.store, m, map[], w.retiring, w.listed);
    forall h, k | Holds(w'.db, h, k) ensures k in w'.store && Settled(w'.spent, w'.drafts, k) {
      assert Holds(w.db, h, k);
      SettledForward(w, w', k);
    }
    forall h, g, k | Holds(w'.db, h, k) && Holds(w'.db, g, k) ensures h == g {
      assert Holds(w.db, h, k) && Holds(w.db, g, k);
    }
    forall q | Doomed(w', q) ensures Condemned(w', q) {
      assert Doomed(w, q) && Condemned(w, q);
      forall h ensures Holds(w'.db, h, q) == Holds(w.db, h, q) { }
      if !IsSession(q) { SettledForward(w, w', q); }
    }
  }

  lemma OneCommit(cfg: Config, before: Db, es: seq<Event>, after: Db)
    requires Committed(cfg, before, es, after) && |es| == 1
    ensures Allowed(cfg, before, es[0]) && after == Apply(cfg, before, es[0])
  {
    var mid := LastCommit(cfg, before, es, after);
    var start := LastCommit(cfg, before, es[..0], mid);
  }

  lemma ContentCommitted(cfg: Config, w: World, es: seq<Event>, after: Db, caller: Uuid, nodeId: Uuid, id: Uuid)
    requires Safe(w) && w.spent == w.db.minted && w.drafts == map[] && nodeId !in w.spent
    requires Committed(cfg, w.db, es, after) && |es| == 1 && Netdisk.StoresContent(es[0], id, caller, nodeId)
    ensures Safe(World(after, w.store + {ObjectKey(caller, nodeId)}, after.minted, map[], w.retiring, w.listed))
    ensures after.ledger.Keys == w.db.ledger.Keys
  {
    OneCommit(cfg, w.db, es, after);
    StoredAndCommitted(cfg, w, caller, nodeId, id, es[0]);
  }

  predicate CommitsNoContent(e: Event) {
    e.Move? || e.Retitle? || e.Discard? || e.Restore? || e.Purge? || (e.AddNode? && e.row.kind.Folder?)
  }

  /** The transactions that commit no content, purges of any number of nodes among them, keep the world
      safe. */
  lemma {:induction false} TransactionsKeepSafe(cfg: Config, w: World, es: seq<Event>, after: Db)
    requires Safe(w) && w.spent == w.db.minted && w.drafts == map[] && Committed(cfg, w.db, es, after)
    requires forall i | 0 <= i < |es| :: CommitsNoContent(es[i])
    ensures Safe(World(after, w.store, after.minted, map[], w.retiring, w.listed))
    decreases |es|
  {
    var mid := LastCommit(cfg, w.db, es, after);
    if es != [] {
      var n := |es| - 1;
      TransactionsKeepSafe(cfg, w, es[..n], mid);
      var w1 := World(mid, w.store, mid.minted, map[], w.retiring, w.listed);
      FreshIds(cfg, mid, es[n]);
      StepKeepsSafe(cfg, w1, Tidy(es[n]));
    }
  }

  lemma FreshIds(cfg: Config, db: Db, e: Event)
    requires Allowed(cfg, db, e) && CommitsNoContent(e)
    ensures NewIds(e) !! db.minted && Apply(cfg, db, e).minted == db.minted + NewIds(e)
  {
  }

  /** The keys of the files that a run of creations brings in. */
  function NewKeys(es: seq<Event>): set<string>
    requires forall i | 0 <= i < |es| :: es[i].AddNode?
  {
    if es == [] then {}
    else
      var e := es[|es| - 1];
      NewKeys(es[..|es| - 1]) + if e.row.kind.File? then {ObjectKey(e.row.owner, e.id)} else {}
  }

  /** A copy puts every object before its row: with its objects stored, the whole run of creations
      keeps the world safe. */
  lemma {:induction false} StoredCopiesKeepSafe(cfg: Config, w: World, es: seq<Event>, after: Db)
    requires Safe(w) && w.spent == w.db.minted && w.drafts == map[]
    requires Committed(cfg, w.db, es, after) && forall i | 0 <= i < |es| :: es[i].AddNode?
    ensures Safe(World(after, w.store + NewKeys(es), after.minted, map[], w.retiring, w.listed))
    decreases |es|
  {
    var mid := LastCommit(cfg, w.db, es, after);
    if es == [] {
      assert w.store + NewKeys(es) == w.store;
    } else {
      var n := |es| - 1;
      var front, e := es[..n], es[n];
      StoredCopiesKeepSafe(cfg, w, front, mid);
      var w1 := World(mid, w.store + NewKeys(front), mid.minted, map[], w.retiring, w.listed);
      if e.row.kind.File? {
        StoredAndCommitted(cfg, w1, e.row.owner, e.id, e.id, e);
        assert w1.store + {ObjectKey(e.row.owner, e.id)} == w.store + NewKeys(es);
      } else {
        FreshIds(cfg, mid, e);
        StepKeepsSafe(cfg, w1, Tidy(e));
        assert w1.store == w.store + NewKeys(es);
      }
    }
  }

  /** An identifier that was used up for nothing. */
  method SpendId(d: Netdisk, b: Bucket, nodeId: Uuid)
    requires d.Valid() && Safe(Now(d, b))
    modifies d`minted
    ensures d.Valid() && d.minted == old(d.minted) + {nodeId}
    ensures Safe(Now(d, b))
  {
    IdsSpent(Now(d, b), d.minted + {nodeId});
    d.minted := d.minted + {nodeId};
  }

  /** After a failed commit: the object is removed again, if that works. */
  method GiveUp(d: Netdisk, b: Bucket, ghost w: World, caller: Uuid, nodeId: Uuid, undo: bool)
    requires d.Valid() && d.State() == w.db && nodeId !in d.minted
    requires b.keys == w.store + {ObjectKey(caller, nodeId)} && w == World(w.db, w.store, w.db.minted, map[], {}, {})
    requires Safe(w)
    modifies d`minted, b`keys
    ensures d.Valid() && d.minted == old(d.minted) + {nodeId}
    ensures Safe(Now(d, b))
  {
    if undo { b.keys := b.keys - {ObjectKey(caller, nodeId)}; }
    StoredAndGivenUp(d.cfg, w, caller, nodeId, b.keys);
    d.minted := d.minted + {nodeId};
  }

  /** Storing content under a fresh identifier and committing it: the order shared by CompleteUpload
      and UploadSmallFile. `put` and `undo` say how the store answers. */
  method StoreAndCommit(d: Netdisk, b: Bucket, gate: Gate, caller: Uuid, parent: Uuid, name: string, policy: Policy,
                        size: int, put: bool, rejected: bool, undo: bool)
    returns (r: Result<Uuid>, ghost es: seq<Event>)
    requires d.Valid() && NIL !in d.ledger && size >= 0 && Safe(Now(d, b))
    modifies d, b
    ensures d.Valid() && d.ledger.Keys == old(d.ledger).Keys && Safe(Now(d, b))
    ensures r.Err? ==> d.State() == old(d.State()).(minted := d.minted)
    ensures r.Err? || (|es| == 1 && Committed(d.cfg, old(d.State()), es, d.State()))
    ensures r.Ok? ==> r.value in d.rows && d.rows[r.value].key in b.keys && d.rows[r.value].size == size
                      && d.rows[r.value].parent == parent && Live(d.rows, r.value) && d.rows[r.value].kind.File?
    ensures r.Ok? ==> old(b.keys) <= b.keys
    ensures !put || rejected ==> r.Err?
  {
    es := [];
    var nodeId := NewID(d.minted);
    ghost var w := Now(d, b);
    if !put {
      SpendId(d, b, nodeId);
      return Err(StorageFailure), [];
    }
    b.keys := b.keys + {ObjectKey(caller, nodeId)};
    if rejected {
      r := Err(PreconditionFailed);
    } else {
      r, es := d.CommitNode(gate, caller, nodeId, parent, name, policy, size);
    }
    if r.Ok? {
      ContentCommitted(d.cfg, w, es, d.State(), caller, nodeId, r.value);
    } else {
      GiveUp(d, b, w, caller, nodeId, undo);
    }
  }

  /** Every recorded part of a session is within what UploadChunk takes under the session's plan. */
  predicate Sent(sessions: map<Uuid, Upload>, parts: map<Uuid, Part>, id: Uuid)
    requires id in sessions
  {
    forall p | p in PartsOf(parts, id) :: p.size <= Cap(sessions[id].plan, p.number)
  }

  /** Under its key, with a number and a size that make sense. */
  predicate WellStored(p: Part) {
    p.number >= 1 && p.size >= 0 && p.key == PartKey(p.upload, p.number)
  }

  /** The sizes of the recorded parts of a session add up to `n`. */
  ghost predicate Received(parts: map<Uuid, Part>, id: Uuid, n: int) {
    exists list :: IsPartList(parts, id, list) && SizeOf(list, |list|) == n
  }

  function Progressed(u: Upload, n: int): Upload {
    u.(received := n, status := if u.status.Pending? then InProgress else u.status)
  }

  /** What expireUploads does to a session: nothing, or all of it. */
  predicate KeptOrExpired(id: Uuid, was: Upload, wasParts: map<Uuid, Part>, u: Upload, parts: map<Uuid, Part>,
                          queue: set<string>, now: int) {
    || (u == was && PartsOf(parts, id) == PartsOf(wasParts, id))
    || ((was.status.Pending? || was.status.InProgress?) && was.expires < now && u == was.(status := Expired)
        && PartsOf(parts, id) == {} && SessionPath(id) in queue)
  }

  /** How many of the three writes that retire a session work: its status, its parts, its staging path. */
  datatype Written = Nothing | StatusOnly | StatusAndParts | Everything

  /** What these writes leave of the session. */
  predicate HalfExpired(w: Written, id: Uuid, was: Upload, wasParts: map<Uuid, Part>, u: Upload,
                        parts: map<Uuid, Part>) {
    && u == (if w.Nothing? then was else was.(status := Expired))
    && PartsOf(parts, id) == if w.Nothing? || w.StatusOnly? then PartsOf(wasParts, id) else {}
  }

  /** The sessions that liveUploadPrefixes spares. */
  function OpenSessions(sessions: map<Uuid, Upload>, now: int): set<Uuid> {
    set id | id in sessions && (sessions[id].status.Pending? || sessions[id].status.InProgress?)
        && now <= sessions[id].expires
  }

  function OverdueSessions(sessions: map<Uuid, Upload>, now: int): set<Uuid> {
    set id | id in sessions && Overdue(sessions[id], now)
  }

  lemma OneLessOverdue(sessions: map<Uuid, Upload>, id: Uuid, now: int)
    requires id in sessions
    ensures OverdueSessions(sessions[id := sessions[id].(status := Expired)], now) ==
            OverdueSessions(sessions, now) - {id}
  {
  }

  lemma OpenStayOpen(was: map<Uuid, Upload>, sessions: map<Uuid, Upload>, now: int)
    requires sessions.Keys == was.Keys
    requires forall id | id in sessions ::
               sessions[id] == was[id] || (was[id].expires < now && sessions[id].expires == was[id].expires)
    ensures OpenSessions(sessions, now) == OpenSessions(was, now)
  {
    forall id | id in sessions ensures id in OpenSessions(sessions, now) <==> id in OpenSessions(was, now) {
      assert sessions[id] == was[id] || (was[id].expires < now && sessions[id].expires == was[id].expires);
    }
  }

  /** What the job keeps while the sessions in `left` are still to come. */
  ghost predicate ExpiredSoFar(was: map<Uuid, Upload>, wasParts: map<Uuid, Part>, sessions: map<Uuid, Upload>,
                               parts: map<Uuid, Part>, queue: set<string>, now: int, left: set<Uuid>) {
    && sessions.Keys == was.Keys && left == OverdueSessions(sessions, now) && left <= OverdueSessions(was, now)
    && (forall id | id in sessions :: KeptOrExpired(id, was[id], wasParts, sessions[id], parts, queue, now))
    && (forall id | id in left :: sessions[id] == was[id] && PartsOf(parts, id) == PartsOf(wasParts, id))
  }

  lemma OneMoreExpired(was: map<Uuid, Upload>, wasParts: map<Uuid, Part>, sessions: map<Uuid, Upload>,
                       parts: map<Uuid, Part>, queue: set<string>, sessions': map<Uuid, Upload>,
                       parts': map<Uuid, Part>, now: int, left: set<Uuid>, id: Uuid)
    requires ExpiredSoFar(was, wasParts, sessions, parts, queue, now, left) && id in left
    requires sessions' == sessions[id := sessions[id].(status := Expired)]
    requires PartsOf(parts', id) == {} && forall x | x != id :: PartsOf(parts', x) == PartsOf(parts, x)
    ensures ExpiredSoFar(was, wasParts, sessions', parts', queue + {SessionPath(id)}, now, left - {id})
  {
    OneLessOverdue(sessions, id, now);
    forall x | x in sessions'
      ensures KeptOrExpired(x, was[x], wasParts, sessions'[x], parts', queue + {SessionPath(id)}, now)
    {
      assert KeptOrExpired(x, was[x], wasParts, sessions[x], parts, queue, now);
    }
  }

  /** The job stopped at this session: some of its writes are done, and it is listed again only if none is. */
  predicate LeftHalfway(w: Written, id: Uuid, was: map<Uuid, Upload>, wasParts: map<Uuid, Part>,
                        sessions: map<Uuid, Upload>, parts: map<Uuid, Part>, now: int) {
    && id in was && id in sessions && Overdue(was[id], now)
    && HalfExpired(w, id, was[id], wasParts, sessions[id], parts) && (Overdue(sessions[id], now) <==> w.Nothing?)
  }

  /** What is left where the job stopped. */
  lemma StuckAt(was: map<Uuid, Upload>, wasParts: map<Uuid, Part>, sessions: map<Uuid, Upload>, parts: map<Uuid, Part>,
                sessions': map<Uuid, Upload>, parts': map<Uuid, Part>, queue: set<string>, now: int, left: set<Uuid>,
                id: Uuid, w: Written)
    requires ExpiredSoFar(was, wasParts, sessions, parts, queue, now, left) && id in left
    requires id in sessions' && sessions' == sessions[id := sessions'[id]]
    requires HalfExpired(w, id, sessions[id], parts, sessions'[id], parts')
    requires forall x | x != id :: PartsOf(parts', x) == PartsOf(parts, x)
    ensures sessions'.Keys == was.Keys && LeftHalfway(w, id, was, wasParts, sessions', parts', now)
    ensures forall x | x in sessions' && x != id :: KeptOrExpired(x, was[x], wasParts, sessions'[x], parts', queue, now)
    ensures OpenSessions(sessions', now) == OpenSessions(was, now)
  {
    forall x | x in sessions' && x != id ensures KeptOrExpired(x, was[x], wasParts, sessions'[x], parts', queue, now) {
      assert KeptOrExpired(x, was[x], wasParts, sessions[x], parts, queue, now);
    }
    OpenStayOpen(was, sessions', now);
  }

  predicate Overdue(u: Upload, now: int) {
    u.expires < now && (u.status.Pending? || u.status.InProgress?)
  }

  /** It takes parts. */
  predicate TakesParts(u: Upload) {
    u.status.Pending? || u.status.InProgress?
  }

  /** The session `id` that is handed out for an upload of `caller` to `parent`, and what becomes of it. It is the
      caller's own and open. One the caller asks to go on with, its own, not completed and not past its expiry, is
      handed out as it was, reopened if need be. Otherwise the session is for that destination and ends at `until`;
      it is an open one that was there before whenever there is such a one. */
  predicate Picked(fold: CaseMap, was: map<Uuid, Upload>, sessions: map<Uuid, Upload>, id: Uuid, caller: Uuid,
                   parent: Uuid, name: string, resume: Uuid, now: int, until: int) {
    && id in sessions && sessions[id].owner == caller && TakesParts(sessions[id])
    && (id in was ==>
          && was[id].owner == caller && now < was[id].expires
          && sessions[id] == was[id].(plan := sessions[id].plan, status := sessions[id].status,
                                      expires := sessions[id].expires))
    && if resume != NIL && resume in was && was[resume].owner == caller && !was[resume].status.Completed?
         && now < was[resume].expires
       then
         && id == resume && sessions[id].expires == was[id].expires
         && sessions[id].status == if TakesParts(was[id]) then was[id].status else Pending
       else
         && sessions[id].parent == parent && Lower(fold, sessions[id].name) == Lower(fold, name)
         && sessions[id].expires == until
         && if id in was then sessions[id].status == was[id].status
            else
              && sessions[id].status.Pending? && sessions[id].received == 0
              && forall x | x in was && was[x].owner == caller && TakesParts(was[x]) && now < was[x].expires
                   && was[x].parent == parent :: Lower(fold, was[x].name) != Lower(fold, name)
  }

  class UploadDesk {
    const disk: Netdisk
    const bucket: Bucket
    const limits: Limits
    var sessions: map<Uuid, Upload>
    var parts: map<Uuid, Part>

    ghost predicate Valid()
      reads this, disk, bucket
    {
      && disk.Valid() && NIL !in disk.ledger && Safe(Now(disk, bucket)) && 0 < limits.minChunk <= limits.maxChunk
      && OnePer(parts) && forall a | a in parts :: WellStored(parts[a])
    }

    constructor (disk: Netdisk, bucket: Bucket, limits: Limits)
      requires disk.Valid() && NIL !in disk.ledger && Safe(Now(disk, bucket)) && 0 < limits.minChunk <= limits.maxChunk
      ensures Valid() && this.disk == disk && this.bucket == bucket && sessions == map[] && parts == map[]
    {
      this.disk, this.bucket, this.limits := disk, bucket, limits;
      sessions, parts := map[], map[];
    }

    /** An open session of the account for the same destination. */
    predicate Reusable(id: Uuid, caller: Uuid, parent: Uuid, lowered: string, now: int)
      requires id in sessions
      reads this, disk
    {
      var u := sessions[id];
      u.owner == caller && u.parent == parent && Lower(disk.cfg.fold, u.name) == lowered
      && (u.status.Pending? || u.status.InProgress?) && u.expires > now
    }

    /** The session the caller asks to go on with, if it still may. */
    predicate Resumable(resume: Uuid, caller: Uuid, now: int)
      reads this
    {
      resume != NIL && resume in sessions && sessions[resume].owner == caller && !sessions[resume].status.Completed?
      && now < sessions[resume].expires
    }

    /** What the plan of a session made of `size` bytes satisfies. */
    predicate Planned(plan: Plan, size: int) {
      && plan.size == size >= 0 && plan.total <= limits.maxParts && (limits.maxFile > 0 ==> size <= limits.maxFile)
      && (size == 0 ==> plan.chunk == limits.minChunk && plan.total == 1)
      && (size > 0 ==> plan.chunk % ALIGN == 0 && limits.minChunk <= plan.chunk < limits.maxChunk + ALIGN)
      && (0 < size < TWO_63 && plan.chunk < TWO_63 ==>
            (Fills(size, plan.chunk, plan.total) <==> size <= (TWO_31 - 1) * plan.chunk && size + plan.chunk <= TWO_63))
    }

    /** InitiateUpload: a resumed or reused session takes the new plan and keeps its recorded parts. */
    method InitiateUpload(gate: Gate, caller: Uuid, parent: Uuid, name: string, size: int, requested: int,
                          policy: Policy, resume: Uuid, now: int, ttl: int) returns (r: Result<Uuid>)
      requires Valid()
      modifies this`sessions
      ensures Valid()
      ensures r.Err? ==> sessions == old(sessions)
      ensures r.Ok? <==> Plannable(size, requested, limits) && QuotaAllows(disk.ledger, caller, size)
                         && Writable(disk.rows, parent) && (parent != NIL ==> gate(disk.rows, parent, ToUpload) == None)
      ensures r.Ok? ==> r.value in sessions && Planned(sessions[r.value].plan, size)
      ensures forall id | id in old(sessions) && (old(sessions)[id].owner != caller || r != Ok(id)) ::
                id in sessions && sessions[id] == old(sessions)[id]
      ensures r.Err?
              || Picked(disk.cfg.fold, old(sessions), sessions, r.value, caller, parent, name, resume, now, now + ttl)
      ensures r.Ok? && r.value !in old(sessions) ==>
                sessions[r.value].name == name && sessions[r.value].policy == policy && PartsOf(parts, r.value) == {}
    {
      var plan := PlanUpload(size, requested, limits);
      if plan.Err? { return Err(plan.error); }
      var refusal := disk.CheckQuota(caller, size);
      if refusal.Some? { return Err(refusal.value); }
      refusal := disk.LoadWritableParent(gate, parent);
      if refusal.Some? { return Err(refusal.value); }
      var id := PickSession(caller, parent, name, plan.value, policy, resume, now, ttl);
      r := Ok(id);
    }

    /** The session a plan goes to: the one to be resumed, or another open one for the same destination, or a new
        one. */
    method PickSession(caller: Uuid, parent: Uuid, name: string, plan: Plan, policy: Policy, resume: Uuid, now: int,
                       ttl: int) returns (id: Uuid)
      modifies this`sessions
      ensures id in sessions && sessions == old(sessions)[id := sessions[id]] && sessions[id].plan == plan
      ensures forall x | x in old(sessions) && old(sessions)[x].owner != caller ::
                x in sessions && sessions[x] == old(sessions)[x]
      ensures Picked(disk.cfg.fold, old(sessions), sessions, id, caller, parent, name, resume, now, now + ttl)
      ensures id !in old(sessions) ==>
                sessions[id].name == name && sessions[id].policy == policy && PartsOf(parts, id) == {}
    {
      if Resumable(resume, caller, now) {
        var u := sessions[resume].(plan := plan);
        if u.status.Expired? || u.status.Aborted? { u := u.(status := Pending); }
        sessions := sessions[resume := u];
        return resume;
      }
      if found: Uuid :| found in sessions && Reusable(found, caller, parent, Lower(disk.cfg.fold, name), now) {
        sessions := sessions[found := sessions[found].(plan := plan, expires := now + ttl)];
        return found;
      }
      var used: set<Uuid> := set a | a in parts :: parts[a].upload;
      id := NewID(sessions.Keys + used);
      sessions := sessions[id := Upload(parent, name, caller, plan, policy, Pending, now + ttl, 0)];
    }

    /** An open, unexpired session of the caller, or of anybody for a storage manager. */
    predicate MayReceive(caller: Uuid, manager: bool, id: Uuid, now: int)
      reads this
    {
      id != NIL && id in sessions && (sessions[id].owner == caller || manager)
      && (sessions[id].status.Pending? || sessions[id].status.InProgress?) && now <= sessions[id].expires
    }

    /** The session takes a part with this number and size. */
    predicate Receives(caller: Uuid, manager: bool, id: Uuid, number: int, size: int, now: int)
      reads this
    {
      MayReceive(caller, manager, id, now) && 1 <= number <= sessions[id].plan.total
          && size <= Cap(sessions[id].plan, number)
    }

    /** loadOwnedUpload and assertSessionOpen together. */
    method LoadOpen(caller: Uuid, manager: bool, id: Uuid, now: int) returns (refusal: Option<Error>)
      ensures refusal == None <==> MayReceive(caller, manager, id, now)
      ensures refusal == None <==>
                && id != NIL && id in sessions && (caller == sessions[id].owner || manager)
                && (sessions[id].status.Pending? || sessions[id].status.InProgress?) && now <= sessions[id].expires
      ensures id != NIL && id in sessions && sessions[id].owner != caller && !manager ==>
                refusal == Some(PermissionDenied)
    {
      if id == NIL { return Some(InvalidArgument); }
      if id !in sessions { return Some(NotFound); }
      var upload := sessions[id];
      if upload.owner != caller && !manager { return Some(PermissionDenied); }
      match upload.status
      case Aborted => return Some(UploadAborted);
      case Completed => return Some(InvalidArgument);
      case Expired => return Some(UploadExpired);
      case _ =>
        if now > upload.expires { return Some(UploadExpired); }
        refusal := None;
    }

    /** PutUploadPart and refreshProgress, in one transaction. */
    method Record(id: Uuid, p: Part) returns (row: Uuid, bytes: int)
      requires id in sessions && OnePer(parts) && p.upload == id
      modifies this
      ensures OnePer(parts)
      ensures row !in old(parts) && parts == WithPart(old(parts), row, p)
      ensures Received(parts, id, bytes) && sessions == old(sessions)[id := Progressed(old(sessions)[id], bytes)]
      ensures sessions[id].received == bytes && sessions[id].plan == old(sessions)[id].plan
      ensures sessions[id].status == if old(sessions)[id].status.Pending? then InProgress else old(sessions)[id].status
    {
      row := NewID(parts.Keys);
      parts := WithPart(parts, row, p);
      var list := ListUploadParts(parts, id);
      assert list != [] by { assert p in set q | q in list; }
      bytes := AddUp(list);
      assert Received(parts, id, bytes);
      var upload := sessions[id].(received := bytes);
      if |list| > 0 && upload.status.Pending? { upload := upload.(status := InProgress); }
      sessions := sessions[id := upload];
    }

    /** Recording a part within its cap keeps every session within its caps. */
    static lemma RecordKeeps(sessions: map<Uuid, Upload>, parts: map<Uuid, Part>, id: Uuid, row: Uuid, p: Part,
                             bytes: int)
      requires id in sessions && row !in parts && p.upload == id && OnePer(parts) && WellStored(p)
               && forall a | a in parts :: WellStored(parts[a])
      ensures var ss, ps := sessions[id := Progressed(sessions[id], bytes)], WithPart(parts, row, p);
              && ss.Keys == sessions.Keys && (forall x | x in ss :: ss[x].plan == sessions[x].plan)
              && OnePer(ps) && (forall a | a in ps :: WellStored(ps[a]))
              && (forall x | x in sessions && x != id && Sent(sessions, parts, x) :: Sent(ss, ps, x))
              && (Sent(sessions, parts, id) && p.size <= Cap(sessions[id].plan, p.number) ==> Sent(ss, ps, id))
    {
    }

    static method AddUp(list: seq<Part>) returns (bytes: int)
      ensures bytes == SizeOf(list, |list|)
    {
      bytes := 0;
      var i := 0;
      while i < |list|
        invariant 0 <= i <= |list| && bytes == SizeOf(list, i)
      {
        bytes := bytes + list[i].size;
        i := i + 1;
      }
    }

    /** UploadChunk: no part larger than the plan has room for is recorded. */
    method UploadChunk(caller: Uuid, manager: bool, id: Uuid, number: int, size: nat, now: int, put: bool, tagOk: bool)
      returns (r: Result<Part>)
      requires Valid()
      modifies this, bucket
      ensures Valid() && sessions.Keys == old(sessions).Keys
      ensures r.Ok? <==> old(Receives(caller, manager, id, number, size, now)) && put && tagOk
      ensures r.Ok? ==>
                id in sessions && 1 <= number <= sessions[id].plan.total && size <= Cap(sessions[id].plan, number)
                        && r.value == Part(id, number, size, PartKey(id, number))
                        && r.value in PartsOf(parts, id) && r.value.key in bucket.keys
      ensures r.Ok? ==> sessions[id].status.InProgress? && Received(parts, id, sessions[id].received)
      ensures r.Err? ==> parts == old(parts) && sessions == old(sessions)
      ensures forall x | x in sessions :: sessions[x].plan == old(sessions)[x].plan
      ensures forall x | x in sessions && Sent(old(sessions), old(parts), x) :: Sent(sessions, parts, x)
      ensures forall x | x in sessions && x != id :: PartsOf(parts, x) == PartsOf(old(parts), x)
    {
      var refusal := CheckChunk(caller, manager, id, number, size, now, put);
      if refusal.Some? { return Err(refusal.value); }
      StorePart(id, number, tagOk);
      if !tagOk { return Err(PreconditionFailed); }
      var p := Part(id, number, size, PartKey(id, number));
      RecordPart(id, p);
      r := Ok(p);
    }

    /** Everything that can refuse a chunk before its object is stored. */
    method CheckChunk(caller: Uuid, manager: bool, id: Uuid, number: int, size: nat, now: int, put: bool)
      returns (refusal: Option<Error>)
      ensures refusal.None? <==> Receives(caller, manager, id, number, size, now) && put
    {
      refusal := LoadOpen(caller, manager, id, now);
      if refusal.Some? { return; }
      var plan := sessions[id].plan;
      if number < 1 || number > plan.total { return Some(InvalidArgument); }
      if size > Cap(plan, number) { return Some(TooLarge); }
      if !put { return Some(StorageFailure); }
      refusal := None;
    }

    method RecordPart(id: Uuid, p: Part)
      requires Valid() && id in sessions && p.upload == id && WellStored(p)
      modifies this
      ensures Valid() && sessions.Keys == old(sessions).Keys && p in PartsOf(parts, id)
      ensures Received(parts, id, sessions[id].received)
      ensures sessions[id].status == if old(sessions)[id].status.Pending? then InProgress else old(sessions)[id].status
      ensures forall x | x in sessions :: sessions[x].plan == old(sessions)[x].plan
      ensures forall x | x in sessions && x != id && Sent(old(sessions), old(parts), x) :: Sent(sessions, parts, x)
      ensures Sent(old(sessions), old(parts), id) && p.size <= Cap(sessions[id].plan, p.number) ==>
                Sent(sessions, parts, id)
      ensures forall x | x in sessions && x != id :: PartsOf(parts, x) == PartsOf(old(parts), x)
    {
      var row, bytes := Record(id, p);
      RecordKeeps(old(sessions), old(parts), id, row, p, bytes);
    }

    /** The object of a part is stored, and removed again when its tag is not the expected one. */
    method StorePart(id: Uuid, number: nat, tagOk: bool)
      requires Safe(Now(disk, bucket))
      modifies bucket
      ensures Safe(Now(disk, bucket))
      ensures bucket.keys == if tagOk then old(bucket.keys) + {PartKey(id, number)}
              else old(bucket.keys) - {PartKey(id, number)}
    {
      ghost var w := Now(disk, bucket);
      bucket.keys := bucket.keys + {PartKey(id, number)};
      StepKeepsSafe(disk.cfg, w, PutPart(id, number));
      if !tagOk {
        SweepOne(disk.cfg, Now(disk, bucket), id, number);
        bucket.keys := bucket.keys - {PartKey(id, number)};
      }
    }

    static lemma SweepOne(cfg: Config, w: World, id: Uuid, number: nat)
      requires Safe(w)
      ensures Safe(w.(store := w.store - {PartKey(id, number)}))
    {
      assert "uploads/" <= PartKey(id, number);
      StepKeepsSafe(cfg, w, Sweep({PartKey(id, number)}));
    }

    /** ConfirmUploadPart: the stored object's size is recorded as it is; no upper bound is checked. */
    method ConfirmUploadPart(caller: Uuid, manager: bool, id: Uuid, number: int, stat: Option<int>, tagOk: bool,
                             now: int)
      returns (r: Result<Part>)
      requires Valid()
      modifies this
      ensures Valid() && sessions.Keys == old(sessions).Keys
      ensures r.Ok? ==> id in sessions && 1 <= number <= sessions[id].plan.total && stat == Some(r.value.size)
                        && r.value in PartsOf(parts, id) && r.value.number == number
                        && (r.value.size > 0 || (sessions[id].plan.size == 0 && sessions[id].plan.total == 1))
      ensures r.Ok? ==> sessions[id].status.InProgress? && Received(parts, id, sessions[id].received)
      ensures r.Err? ==> parts == old(parts) && sessions == old(sessions)
      ensures forall x | x in sessions && x != id && Sent(old(sessions), old(parts), x) :: Sent(sessions, parts, x)
    {
      var refusal := LoadOpen(caller, manager, id, now);
      if refusal.Some? { return Err(refusal.value); }
      var plan := sessions[id].plan;
      if number < 1 || number > plan.total { return Err(InvalidArgument); }
      if stat.None? { return Err(UploadIncomplete); }
      if stat.value < 0 || (stat.value == 0 && !(plan.size == 0 && plan.total == 1 && number == 1)) {
        return Err(UploadIncomplete);
      }
      if !tagOk { return Err(PreconditionFailed); }
      var p := Part(id, number, stat.value, PartKey(id, number));
      RecordPart(id, p);
      r := Ok(p);
    }

    /** Dropping the staged objects of a session; what cannot be removed now is queued, if that works. */
    method ReleaseStaging(id: Uuid, removeNow: bool, queued: bool, backend: Backend, pageSize: nat)
      returns (clean: bool, ghost es: seq<Event>)
      requires disk.Valid() && Safe(Now(disk, bucket)) && pageSize > 0
      modifies disk`queue, bucket
      ensures disk.Valid() && Safe(Now(disk, bucket))
      ensures bucket.keys <= old(bucket.keys)
              && forall k | k in old(bucket.keys) - bucket.keys :: Below(SessionPath(id), k)
      ensures !removeNow ==> bucket.keys == old(bucket.keys)
      ensures Committed(disk.cfg, old(disk.State()), es, disk.State())
      ensures es == [] || es == [Enqueue(SessionPath(id))]
      ensures BelowIn(bucket.keys, SessionPath(id)) == {} || SessionPath(id) in disk.queue || !clean
      ensures clean || (!queued && disk.queue == old(disk.queue))
      ensures queued || (removeNow && Obliging(backend)) ==> clean
    {
      clean, es := false, [];
      ghost var w := Now(disk, bucket);
      CommitNothing(disk.cfg, w.db);
      if removeNow {
        clean := bucket.RemovePrefix(backend, SessionPath(id), pageSize);
        RemoveKeepsSafe(disk.cfg, w, SessionPath(id), w.store - bucket.keys);
        assert w.store - (w.store - bucket.keys) == bucket.keys;
      }
      if !clean && queued {
        QueueStaging(id);
        clean, es := true, [Enqueue(SessionPath(id))];
      }
    }

    /** EnqueueDeletion for the staging path of a session. */
    method QueueStaging(id: Uuid)
      requires disk.Valid() && Safe(Now(disk, bucket))
      modifies disk`queue
      ensures disk.Valid() && Safe(Now(disk, bucket)) && disk.queue == old(disk.queue) + {SessionPath(id)}
      ensures Committed(disk.cfg, old(disk.State()), [Enqueue(SessionPath(id))], disk.State())
    {
      ghost var w, k := Now(disk, bucket), SessionPath(id);
      BookkeepingKeepsSafe(disk.cfg, w, Queue(k));
      disk.queue := disk.queue + {SessionPath(id)};
      assert Next(disk.cfg, w, Queue(k)) == Now(disk, bucket);
      CommitOne(disk.cfg, w.db, Enqueue(k));
    }

    /** ComposeObject, seen from the set of keys: every source has to be there. */
    method Composable(keys: seq<string>, compose: seq<string> -> bool) returns (ok: bool)
      ensures ok ==> 0 < |keys| <= MAX_COMPOSE_PARTS && compose(keys) && forall k | k in keys :: k in bucket.keys
    {
      if |keys| == 0 || |keys| > MAX_COMPOSE_PARTS { return false; }
      var i := 0;
      while i < |keys|
        invariant 0 <= i <= |keys| && forall j | 0 <= j < i :: keys[j] in bucket.keys
      {
        if keys[i] !in bucket.keys { return false; }
        i := i + 1;
      }
      ok := compose(keys);
    }

    /** The first half of a completion: the parts of the session, if they are complete, and whether they could be put
        together. */
    method GatherParts(id: Uuid, compose: seq<string> -> bool)
      returns (complete: bool, composed: bool, total: int, ghost list: seq<Part>)
      requires Valid() && id in sessions
      ensures IsPartList(parts, id, list) && (complete <==> Complete(list, sessions[id].plan, limits.minChunk))
      ensures complete ==> total == CollectedSize(list, sessions[id].plan.total) && total >= 0
      ensures complete && composed ==> forall i | 0 <= i < |list| :: list[i].key in bucket.keys
    {
      composed := false;
      var upload := sessions[id];
      var listed := ListUploadParts(parts, id);
      list := listed;
      var keys;
      complete, keys, total := CollectParts(listed, upload.plan, limits.minChunk);
      if !complete { return; }
      ListedSizes(parts, id, listed, upload.plan.total);
      composed := Composable(keys, compose);
      if composed { KeysCover(listed, upload.plan.total, keys, bucket.keys); }
    }

    /** The second half: staging, parts and session of the finished upload go, as far as these writes work. */
    method FinishUpload(id: Uuid, file: Uuid, partsGone: bool, queued: bool, retired: bool, backend: Backend,
                        pageSize: nat)
      returns (ghost es: seq<Event>)
      requires Valid() && pageSize > 0 && id in sessions
      requires file in disk.rows && disk.rows[file].key != "" && disk.rows[file].key in bucket.keys
      modifies this`sessions, this`parts, disk`queue, bucket
      ensures Valid()
      ensures sessions == if retired then old(sessions) - {id} else old(sessions)
      ensures parts == if partsGone then WithoutParts(old(parts), id) else old(parts)
      ensures forall k | k in old(bucket.keys) - bucket.keys :: Below(SessionPath(id), k)
      ensures !partsGone ==> bucket.keys == old(bucket.keys)
      ensures disk.rows[file].key in bucket.keys
      ensures Committed(disk.cfg, old(disk.State()), es, disk.State())
    {
      var clean;
      clean, es := ReleaseStaging(id, partsGone, queued, backend, pageSize);
      assert Holds(disk.State(), RowOf(file), disk.rows[file].key);
      if partsGone { parts := WithoutParts(parts, id); }
      if retired { sessions := sessions - {id}; }
    }

    /** CompleteUpload: assemble, commit, release. `list` is the listing of the parts it worked on and `made` the
        file it committed, if it came so far. Parts and session go after the commit, and each of these writes may
        fail: `partsGone`, `queued` and `retired` say whether they work. When the session cannot be deleted the
        call ends with an error although the file is there, and the session is still open. */
    method CompleteUpload(gate: Gate, caller: Uuid, manager: bool, id: Uuid, now: int, compose: seq<string> -> bool,
                          rejected: bool, undo: bool, partsGone: bool, queued: bool, retired: bool, backend: Backend,
                          pageSize: nat)
      returns (r: Result<Uuid>, ghost es: seq<Event>, ghost list: seq<Part>, ghost made: Option<Uuid>)
      requires Valid() && pageSize > 0
      modifies this, disk, bucket
      ensures Valid()
      ensures r.Ok? <==> made.Some? && retired
      ensures r.Ok? ==> made == Some(r.value)
      ensures made.None? ==>
                sessions == old(sessions) && parts == old(parts)
                && disk.State() == old(disk.State()).(minted := disk.minted)
      ensures made.Some? ==> old(MayReceive(caller, manager, id, now))
                             && sessions == (if retired then old(sessions) - {id} else old(sessions))
                             && parts == (if partsGone then WithoutParts(old(parts), id) else old(parts))
      ensures made.Some? ==> forall k | k in old(bucket.keys) - bucket.keys :: Below(SessionPath(id), k)
      ensures made.Some? && !partsGone ==> old(bucket.keys) <= bucket.keys
      ensures made.Some? ==> IsPartList(old(parts), id, list) && Complete(list, old(sessions)[id].plan, limits.minChunk)
                             && forall i | 0 <= i < |list| :: list[i].key in old(bucket.keys)
      ensures made.None? || Committed(disk.cfg, old(disk.State()), es, disk.State())
      ensures made.Some? ==>
                made.value in disk.rows && Live(disk.rows, made.value)
                && disk.rows[made.value].parent == old(sessions)[id].parent
                && disk.rows[made.value].size == CollectedSize(list, old(sessions)[id].plan.total)
                && disk.rows[made.value].key in bucket.keys
      ensures made.Some? && old(sessions)[id].plan.size > 0 ==>
                disk.rows[made.value].size == old(sessions)[id].plan.size
    {
      es, list, made := [], [], None;
      var refusal := LoadOpen(caller, manager, id, now);
      if refusal.Some? { return Err(refusal.value), es, list, made; }
      var upload := sessions[id];
      var complete, composed, total;
      complete, composed, total, list := GatherParts(id, compose);
      if !complete { return Err(UploadIncomplete), es, list, made; }
      r, es := StoreAndCommit(disk, bucket, gate, caller, upload.parent, upload.name, upload.policy, total, composed,
          rejected, undo);
      if r.Err? { return; }
      made := Some(r.value);
      ghost var mid := disk.State();
      ghost var more := FinishUpload(id, r.value, partsGone, queued, retired, backend, pageSize);
      CommitMore(disk.cfg, old(disk.State()), es, mid, more, disk.State());
      es := es + more;
      if !retired { r := Err(StorageFailure); }
    }

    static lemma {:induction false} ListedSizes(parts: map<Uuid, Part>, id: Uuid, list: seq<Part>, n: nat)
      requires IsPartList(parts, id, list) && forall a | a in parts :: WellStored(parts[a])
      ensures CollectedSize(list, n) >= 0
    {
      if n > 0 {
        ListedSizes(parts, id, list, n - 1);
        forall j | 0 <= j < |list| ensures list[j].size >= 0 {
          assert list[j] in PartsOf(parts, id);
        }
        SizeAtAtLeast(list, n, |list|);
      }
    }

    static lemma {:induction false} SizeAtAtLeast(list: seq<Part>, n: int, k: nat)
      requires k <= |list| && forall j | 0 <= j < |list| :: list[j].size >= 0
      ensures SizeAt(list, n, k) >= 0
    {
      if k > 0 { SizeAtAtLeast(list, n, k - 1); }
    }

    /** When every composed key is stored, so is every listed part's. */
    static lemma KeysCover(list: seq<Part>, total: nat, keys: seq<string>, stored: set<string>)
      requires AllNumbers(list, total) && KeysMatch(keys, Collected(list, total)) && forall k | k in keys :: k in stored
      ensures forall i | 0 <= i < |list| :: list[i].key in stored
    {
      CollectedOnce(list, total);
      forall i | 0 <= i < |list| ensures list[i].key in stored {
        assert keys[list[i].number - 1] == list[i].key;
      }
    }

    /** UploadSmallFile: the payload is stored, then committed; a failed commit takes it back. */
    method UploadSmallFile(gate: Gate, caller: Uuid, parent: Uuid, name: string, policy: Policy, size: nat, put: bool,
                           undo: bool)
      returns (r: Result<Uuid>, ghost es: seq<Event>)
      requires Valid()
      modifies disk, bucket
      ensures Valid()
      ensures size > limits.maxInline ==> r == Err(TooLarge)
      ensures r.Err? ==> disk.State() == old(disk.State()).(minted := disk.minted)
      ensures r.Ok? ==>
                Committed(disk.cfg, old(disk.State()), es, disk.State()) && r.value in disk.rows
                && Live(disk.rows, r.value)
                        && disk.rows[r.value].size == size && disk.rows[r.value].parent == parent
                           && disk.rows[r.value].key in bucket.keys
    {
      es := [];
      if size > limits.maxInline { return Err(TooLarge), es; }
      r, es := StoreAndCommit(disk, bucket, gate, caller, parent, name, policy, size, put, false, undo);
    }

    /** The caller may abort the session: it is not completed, and the caller's or the caller a manager. */
    predicate MayAbort(caller: Uuid, manager: bool, id: Uuid)
      reads this
    {
      && id != NIL && id in sessions && (sessions[id].owner == caller || manager)
      && !sessions[id].status.Completed?
    }

    /** AbortUpload. `saved` says whether the transaction commits and `queued` whether a key can be queued after it.
        When the staged objects can neither be removed nor queued the call ends with an error although the session
        is aborted. */
    method AbortUpload(caller: Uuid, manager: bool, id: Uuid, saved: bool, queued: bool, backend: Backend,
                       pageSize: nat)
      returns (refusal: Option<Error>)
      requires Valid() && pageSize > 0
      modifies this, disk, bucket
      ensures Valid()
      ensures old(MayAbort(caller, manager, id)) && saved ==>
                sessions == old(sessions)[id := old(sessions)[id].(status := Aborted)]
                && parts == WithoutParts(old(parts), id)
      ensures sessions != old(sessions) ==>
                id in old(sessions) && (old(sessions)[id].owner == caller || manager)
                && !old(sessions)[id].status.Completed?
      ensures saved && (queued || Obliging(backend)) && id != NIL && id in old(sessions)
              && (old(sessions)[id].owner == caller || manager) && !old(sessions)[id].status.Completed? ==>
                refusal.None? && sessions[id].status.Aborted? && PartsOf(parts, id) == {}
      ensures !(old(MayAbort(caller, manager, id)) && saved) ==>
                refusal.Some? && sessions == old(sessions) && parts == old(parts) && bucket.keys == old(bucket.keys)
                && disk.State() == old(disk.State())
      ensures refusal.None? ==> BelowIn(bucket.keys, SessionPath(id)) == {} || SessionPath(id) in disk.queue
      ensures refusal.Some? ==> disk.State() == old(disk.State())
      ensures old(MayAbort(caller, manager, id)) && saved && (queued || Obliging(backend)) ==> refusal.None?
      ensures forall k | k in old(bucket.keys) - bucket.keys :: Below(SessionPath(id), k)
    {
      if id == NIL { return Some(InvalidArgument); }
      if id !in sessions { return Some(NotFound); }
      if sessions[id].owner != caller && !manager { return Some(PermissionDenied); }
      if sessions[id].status.Completed? { return Some(InvalidArgument); }
      if !saved { return Some(StorageFailure); }
      sessions := sessions[id := sessions[id].(status := Aborted)];
      parts := WithoutParts(parts, id);
      var clean;
      ghost var es;
      clean, es := ReleaseStaging(id, true, queued, backend, pageSize);
      refusal := if clean then None else Some(StorageFailure);
    }

    /** expireUploads: at most 500 sessions past their expiry are retired, their parts dropped and their staging paths
        queued, by three writes of their own; `written` says how far they come for a session. The first failure
        ends the job and leaves one session half-way: `stuck`. Open sessions keep everything. A session that was
        marked expired is not listed again, so what is left of it waits for the orphan sweep. */
    method ExpireUploads(written: Uuid -> Written, now: int) returns (count: nat, ok: bool, ghost stuck: Option<Uuid>)
      requires Valid()
      modifies this, disk`queue
      ensures Valid() && sessions.Keys == old(sessions).Keys
      ensures ok <==> stuck.None?
      ensures forall id | id in sessions && Some(id) != stuck ::
                KeptOrExpired(id, old(sessions)[id], old(parts), sessions[id], parts, disk.queue, now)
      ensures stuck.None?
              || LeftHalfway(written(stuck.value), stuck.value, old(sessions), old(parts), sessions, parts, now)
      ensures OpenSessions(sessions, now) == OpenSessions(old(sessions), now)
      ensures ok && count < EXPIRE_LIMIT ==>
                forall id | id in sessions && (sessions[id].status.Pending? || sessions[id].status.InProgress?) ::
                  now <= sessions[id].expires
      ensures (forall id :: written(id).Everything?) ==> ok
    {
      ghost var was, wasParts := sessions, parts;
      var left := OverdueSessions(sessions, now);
      count, ok, stuck := 0, true, None;
      while left != {} && count < EXPIRE_LIMIT
        invariant Valid() && count <= EXPIRE_LIMIT
        invariant ExpiredSoFar(was, wasParts, sessions, parts, disk.queue, now, left)
        decreases left
      {
        var id :| id in left;
        ghost var before, beforeParts, beforeQueue := sessions, parts, disk.queue;
        left := left - {id};
        ok := Expire(id, written(id));
        if !ok {
          stuck := Some(id);
          StuckAt(was, wasParts, before, beforeParts, sessions, parts, disk.queue, now, left + {id}, id, written(id));
          return;
        }
        count := count + 1;
        OneMoreExpired(was, wasParts, before, beforeParts, beforeQueue, sessions, parts, now, left + {id}, id);
        assert left + {id} - {id} == left;
      }
      OpenStayOpen(was, sessions, now);
    }

    static function WithStatus(sessions: map<Uuid, Upload>, status: UploadStatus): set<Uuid> {
      set id | id in sessions && sessions[id].status == status
    }

    /** The unexpired ones among the sessions that one listing by status returns. */
    method ListLive(status: UploadStatus, now: int) returns (live: set<Uuid>)
      ensures forall id | id in live :: id in WithStatus(sessions, status) && now <= sessions[id].expires
      ensures |WithStatus(sessions, status)| <= LIVE_LIMIT ==>
                forall id | id in WithStatus(sessions, status) && now <= sessions[id].expires :: id in live
    {
      var all := WithStatus(sessions, status);
      var left := all;
      live := {};
      var listed := 0;
      while left != {} && listed < LIVE_LIMIT
        invariant left <= all && listed + |left| == |all| && listed <= LIVE_LIMIT && live <= all - left
        invariant forall id | id in all - left :: id in live <==> now <= sessions[id].expires
        decreases left
      {
        var id :| id in left;
        left, listed := left - {id}, listed + 1;
        if sessions[id].expires >= now { live := live + {id}; }
      }
    }

    /** liveUploadPrefixes, as the sessions whose staging paths are spared: only open ones, and all of them as
        long as each listing is complete. */
    method LiveUploads(now: int) returns (live: set<Uuid>)
      ensures live <= OpenSessions(sessions, now)
      ensures |WithStatus(sessions, Pending)| <= LIVE_LIMIT && |WithStatus(sessions, InProgress)| <= LIVE_LIMIT ==>
                live == OpenSessions(sessions, now)
    {
      var pending := ListLive(Pending, now);
      var started := ListLive(InProgress, now);
      live := pending + started;
    }

    /** gcOrphans with its listing of the open sessions: what it leaves staged belongs to one of them, and while each
        listing is complete it takes nothing of theirs, nor any content ever. */
    method SweepOrphans(sweeper: Maintenance, answer: string -> bool, now: int) returns (removed: nat, ok: bool)
      requires Valid() && sweeper.bucket == bucket
      modifies bucket
      ensures Valid() && bucket.keys <= old(bucket.keys) && removed == |old(bucket.keys)| - |bucket.keys|
      ensures forall k | k in old(bucket.keys) - bucket.keys :: Staged(k)
      ensures ok ==> forall k | k in bucket.keys && ("uploads/" <= k || "orphan/" <= k) ::
                SparedBy(OpenSessions(sessions, now), k)
      ensures |WithStatus(sessions, Pending)| <= LIVE_LIMIT && |WithStatus(sessions, InProgress)| <= LIVE_LIMIT ==>
                forall k | k in old(bucket.keys) - bucket.keys :: !SparedBy(OpenSessions(sessions, now), k)
      ensures (forall k :: answer(k)) ==> ok
    {
      var live := LiveUploads(now);
      removed, ok := sweeper.GcOrphans(answer, live, disk.cfg, Now(disk, bucket));
      assert Now(disk, bucket) == old(Now(disk, bucket)).(store := bucket.keys);
    }

    /** The three writes of one session. */
    method Expire(id: Uuid, w: Written) returns (ok: bool)
      requires Valid() && id in sessions
      modifies this, disk`queue
      ensures Valid() && (ok <==> w.Everything?)
      ensures id in sessions && sessions == old(sessions)[id := sessions[id]]
      ensures HalfExpired(w, id, old(sessions)[id], old(parts), sessions[id], parts)
      ensures forall x | x != id :: PartsOf(parts, x) == PartsOf(old(parts), x)
      ensures disk.queue == if ok then old(disk.queue) + {SessionPath(id)} else old(disk.queue)
    {
      ok := false;
      if w.Nothing? { return; }
      sessions := sessions[id := sessions[id].(status := Expired)];
      if w.StatusOnly? { return; }
      parts := WithoutParts(parts, id);
      if w.StatusAndParts? { return; }
      QueueStaging(id);
      ok := true;
    }

    static function WithoutParts(parts: map<Uuid, Part>, id: Uuid): (r: map<Uuid, Part>)
      ensures PartsOf(r, id) == {} && forall x | x != id :: PartsOf(r, x) == PartsOf(parts, x)
      ensures OnePer(parts) ==> OnePer(r)
      ensures forall a | a in r :: a in parts && r[a] == parts[a]
    {
      var r := map a | a in parts && parts[a].upload != id :: parts[a];
      assert forall a | a in parts && parts[a].upload != id :: r[a] == parts[a];
      r
    }
  }
}
