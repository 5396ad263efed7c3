/** Share links (internal/biz/share.go, internal/service/share.go, internal/data/share.go): the
    download budget as a protocol, and what a link reaches. */
module Shares {
  import opened Ids
  import opened Paths
  import opened Tree
  import opened Ancestry
  import opened Trash
  import opened Database
  import opened Invariants
  import opened Netdisk

  datatype LinkStatus = Unspecified | Active | Expired | Revoked

  datatype Link = Link(node: Uuid, owner: Uuid, mayDownload: bool, password: bool, expires: Option<int>,
      maxDownloads: int,
                       downloads: int, views: int, status: LinkStatus)

  predicate PastExpiry(l: Link, now: int) {
    l.expires.Some? && now > l.expires.value
  }

  predicate Exhausted(l: Link) {
    l.maxDownloads > 0 && l.downloads >= l.maxDownloads
  }

  predicate Visible(l: Link, now: int) {
    l.status == LinkStatus.Active && !PastExpiry(l, now) && !Exhausted(l)
  }

  /** The switch of Resolve. */
  function Redeemed(l: Link, now: int): Result<Link> {
    if l.status.Revoked? then Err(NotFound)
    else if PastExpiry(l, now) || l.status.Expired? then Err(NotFound)
    else if Exhausted(l) then Err(ResourceExhausted)
    else Ok(l)
  }

  /** Resolve lets a link through exactly when it is neither revoked nor marked expired, not past its expiry and has
      downloads left; the listing shows it exactly when its status is the active one besides. */
  lemma RedeemedIffVisible(l: Link, now: int)
    ensures Redeemed(l, now) == Ok(l) <==>
              && !l.status.Revoked? && !l.status.Expired? && (l.expires.Some? ==> now <= l.expires.value)
              && (l.maxDownloads > 0 ==> l.downloads < l.maxDownloads)
    ensures Visible(l, now) <==> Redeemed(l, now).Ok? && !l.status.Unspecified?
  {
  }

  // ---- The download budget ------------------------------------------------------------------------

  /** One link, and the requests that passed the check and have not been counted yet. */
  datatype Desk = Desk(link: Link, inFlight: nat)

  /** The steps of concurrent requests. A check reads the stored link; counting adds one to the stored
      number; an update writes every attribute from a copy that may be stale, but not the counters. */
  datatype Act = Check(now: int) | Count | GiveUp | View | Update(copy: Link)

  predicate Can(d: Desk, a: Act) {
    match a
    case Check(now) => Redeemed(d.link, now).Ok?
    case Count => d.inFlight > 0
    case GiveUp => d.inFlight > 0
    case View => true
    case Update(_) => true
  }

  /** UpdateShare leaves the stored counters as they are. */
  function Updated(stored: Link, copy: Link): Link {
    copy.(downloads := stored.downloads, views := stored.views)
  }

  function Next(d: Desk, a: Act): Desk
    requires Can(d, a)
  {
    match a
    case Check(_) => d.(inFlight := d.inFlight + 1)
    case Count => d.(link := d.link.(downloads := d.link.downloads + 1), inFlight := d.inFlight - 1)
    case GiveUp => d.(inFlight := d.inFlight - 1)
    case View => d.(link := d.link.(views := d.link.views + 1))
    case Update(copy) => d.(link := Updated(d.link, copy))
  }

  ghost predicate StepAt(acts: seq<Act>, ds: seq<Desk>, i: int)
    requires 0 <= i < |acts| && |ds| == |acts| + 1
  {
    Can(ds[i], acts[i]) && ds[i + 1] == Next(ds[i], acts[i])
  }

  ghost predicate Interleaving(acts: seq<Act>, ds: seq<Desk>) {
    |ds| == |acts| + 1 && forall i {:trigger StepAt(acts, ds, i)} | 0 <= i < |acts| :: StepAt(acts, ds, i)
  }

  function Times(acts: seq<Act>, n: nat, a: Act): nat
    requires n <= |acts|
  {
    if n == 0 then 0 else Times(acts, n - 1, a) + if acts[n - 1] == a then 1 else 0
  }

  /** With at most `c` requests in flight and a fixed budget of `m`, no interleaving counts more than
      `m + c - 1` downloads. */
  lemma {:induction false} BudgetHolds(acts: seq<Act>, ds: seq<Desk>, m: int, c: nat, n: nat)
    requires Interleaving(acts, ds) && n <= |acts| && m > 0 && c >= 1
    requires forall i | 0 <= i <= |acts| :: ds[i].link.maxDownloads == m && ds[i].inFlight <= c
    requires ds[0].inFlight == 0 && ds[0].link.downloads <= m
    ensures ds[n].link.downloads + ds[n].inFlight <= m + c - 1
  {
    if n > 0 {
      BudgetHolds(acts, ds, m, c, n - 1);
      assert StepAt(acts, ds, n - 1);
    }
  }

  /** The bound is met: `c` requests that all check before any of them counts. */
  lemma BudgetIsTight(l: Link, m: int, c: nat, now: int) returns (acts: seq<Act>, ds: seq<Desk>)
    requires m > 0 && c >= 1 && Visible(l, now) && l.maxDownloads == m && l.downloads == m - 1
    ensures Interleaving(acts, ds) && ds[0] == Desk(l, 0)
    ensures forall i | 0 <= i <= |acts| :: ds[i].link.maxDownloads == m && ds[i].inFlight <= c
    ensures ds[|acts|].link.downloads == m + c - 1
  {
    acts := seq(2 * c, i => if i < c then Check(now) else Count);
    ds := seq(2 * c + 1, i requires 0 <= i <= 2 * c =>
                           if i <= c then Desk(l, i) else Desk(l.(downloads := l.downloads + i - c), 2 * c - i));
    forall i | 0 <= i < |acts| ensures StepAt(acts, ds, i) {
      if i < c {
        assert Redeemed(ds[i].link, now).Ok?;
      }
    }
  }

  /** However updates and views interleave, every counted download and every view stays counted. */
  lemma {:induction false} NoCountIsLost(acts: seq<Act>, ds: seq<Desk>, n: nat)
    requires Interleaving(acts, ds) && n <= |acts|
    ensures ds[n].link.downloads == ds[0].link.downloads + Times(acts, n, Count)
    ensures ds[n].link.views == ds[0].link.views + Times(acts, n, View)
  {
    if n > 0 {
      NoCountIsLost(acts, ds, n - 1);
      assert StepAt(acts, ds, n - 1);
    }
  }

  /** What the latest update wrote is what the link says, but for its counters: updates lose no count and counting
      loses no update. */
  lemma {:induction false} LatestUpdateHolds(acts: seq<Act>, ds: seq<Desk>, i: nat, n: nat)
    requires Interleaving(acts, ds) && i < n <= |acts| && acts[i].Update?
    requires forall j | i < j < n :: !acts[j].Update?
    ensures ds[n].link == acts[i].copy.(downloads := ds[n].link.downloads, views := ds[n].link.views)
    decreases n
  {
    assert StepAt(acts, ds, n - 1);
    if i < n - 1 { LatestUpdateHolds(acts, ds, i, n - 1); }
  }

  /** So no request passes the check once the link was revoked, until it is updated again. */
  lemma RevokedLinkStaysShut(acts: seq<Act>, ds: seq<Desk>, i: nat, n: nat)
    requires Interleaving(acts, ds) && i < n < |acts| && acts[i].Update? && acts[i].copy.status.Revoked?
    requires forall j | i < j < n :: !acts[j].Update?
    ensures !acts[n].Check?
  {
    LatestUpdateHolds(acts, ds, i, n);
    assert StepAt(acts, ds, n);
  }

  // ---- What a link reaches --------------------------------------------------------------------------

  /** The node is the shared one or below it by parent pointers. */
  ghost predicate Reaches(t: Table, root: Uuid, x: Uuid)
    requires Indexed(t)
  {
    x in t && root in Chain(t, x)
  }

  lemma OnOwnChain(t: Table, x: Uuid)
    requires Indexed(t) && x in t
    ensures Reaches(t, x, x)
  {
    assert Last(Chain(t, x)) == x;
  }

  /** ShareUsecase.ResolveNode: a node is found exactly when the shared node is active and the node is
      active and the shared node or below it. */
  method ResolveNode(t: Table, link: Link, nodeId: Uuid) returns (r: Result<Uuid>)
    requires Indexed(t)
    ensures r.Ok? <==> Live(t, link.node) && (nodeId == NIL || (Live(t, nodeId) && Reaches(t, link.node, nodeId)))
    ensures r.Ok? ==> r.value == if nodeId == NIL then link.node else nodeId
    ensures Live(t, link.node) && Live(t, nodeId) && !Reaches(t, link.node, nodeId) ==> r == Err(PermissionDenied)
  {
    if link.node !in t || t[link.node].status.Trashed? { return Err(NotFound); }
    if nodeId == NIL || nodeId == link.node { return Ok(link.node); }
    if nodeId !in t || t[nodeId].status.Trashed? { return Err(NotFound); }
    PrefixScanIsSubtree(t, link.node, nodeId, Chain(t, nodeId));
    if !(t[link.node].path <= t[nodeId].path) { return Err(PermissionDenied); }
    r := Ok(nodeId);
  }

  ghost predicate Restores(t: Table, e: Event, root: Uuid) {
    e.Restore? && e.id in t && root in t && Under(t, e.id, root)
  }

  /** A shared node that is out of the live tree comes back only by a restore of it or of a folder
      above it. */
  lemma HiddenStepIff(cfg: Config, db: Db, e: Event, root: Uuid)
    requires Healthy(db) && Allowed(cfg, db, e) && !Live(db.rows, root) && root in db.minted
    ensures Live(Apply(cfg, db, e).rows, root) <==> Restores(db.rows, e, root)
  {
    if e.Restore? {
      Netdisk.RestoredFacts(cfg, db.rows, e.id, e.target, e.name);
    } else if e.Move? {
      MovedStatus(cfg, db.rows, e.id, e.target, e.name, root);
    }
  }

  lemma MovedStatus(cfg: Config, t: Table, id: Uuid, target: Uuid, name: string, x: Uuid)
    requires id in t
    ensures Live(WithName(cfg, Moved(t, id, target), id, name), x) <==> Live(t, x)
  {
  }

  /** Trashing the shared node or any folder above it makes every link into it unresolvable, and it
      stays so through every run without a restore of it or of a folder above it. */
  lemma {:induction false} TrashingHidesUntilRestored(cfg: Config, es: seq<Event>, dbs: seq<Db>, n: nat, a: Uuid,
                                                      root: Uuid)
    requires Run(cfg, es, dbs) && Healthy(dbs[0]) && 0 < n <= |es| && es[0].Discard? && es[0].id == a
    requires a in dbs[0].rows && root in dbs[0].rows && Under(dbs[0].rows, a, root)
    requires forall i | 0 <= i < n :: NoOrphans(dbs[i], es[i]) && !Restores(dbs[i].rows, es[i], root)
    ensures !Live(dbs[n].rows, root) && root in dbs[n].minted
  {
    RunsStayHealthy(cfg, es, dbs, n - 1);
    assert Database.StepAt(cfg, es, dbs, n - 1);
    if n > 1 {
      TrashingHidesUntilRestored(cfg, es, dbs, n - 1, a, root);
      HiddenStepIff(cfg, dbs[n - 1], es[n - 1], root);
    }
    ApplyKeepsMinted(cfg, dbs[n - 1], es[n - 1]);
  }

  // ---- One request after another -----------------------------------------------------------------------

  class ShareDesk {
    var link: Link

    constructor (link: Link)
      ensures this.link == link
    {
      this.link := link;
    }

    /** GetShareDownloadUrl: check, issue, count. Requests that run one after another never exceed the
        budget, and a URL is only handed out when it was counted. */
    method GetDownloadUrl(t: Table, allowPublic: bool, unlocked: bool, nodeId: Uuid, now: int, sign: Uuid -> bool)
      returns (r: Result<Uuid>)
      requires Indexed(t)
      modifies this
      ensures link == if r.Ok? then old(link).(downloads := old(link).downloads + 1) else old(link)
      ensures link.maxDownloads > 0 && old(link).downloads <= link.maxDownloads ==> link.downloads <= link.maxDownloads
      ensures var x := if nodeId == NIL then link.node else nodeId;
              && (r.Ok? ==> r.value == x)
              && (r.Ok? <==> allowPublic && !link.status.Revoked? && !link.status.Expired?
                             && (link.expires.Some? ==> now <= link.expires.value)
                             && (link.maxDownloads > 0 ==> old(link).downloads < link.maxDownloads)
                             && unlocked && link.mayDownload && Live(t, link.node) && Live(t, x)
                                && Reaches(t, link.node, x) && t[x].kind.File?
                                && t[x].key != "" && sign(x))
    {
      if Live(t, link.node) { OnOwnChain(t, link.node); }
      if !allowPublic { return Err(Unsupported); }
      var found := Redeemed(link, now);
      if found.Err? { return Err(found.error); }
      if !unlocked { return Err(NodeLocked); }
      var node := ResolveNode(t, link, nodeId);
      if node.Err? { return Err(node.error); }
      if !link.mayDownload { return Err(PermissionDenied); }
      if t[node.value].kind.Folder? || t[node.value].key == "" { return Err(Unsupported); }
      if !sign(node.value) { return Err(StorageFailure); }
      link := link.(downloads := link.downloads + 1);
      r := Ok(node.value);
    }
  }
}
