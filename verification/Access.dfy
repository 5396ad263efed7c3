/** Access evaluation over an ancestor chain (internal/biz/access.go), and the two ways of loading
    what it needs (internal/biz/node.go). */
module Access {
  import opened Ids
  import opened Paths
  import opened Tree
  import opened Ancestry
  import opened Names

  datatype Perm = View | Download | Upload | Edit | Delete | TrashManage | Share | AclManage
                | UserManage | AuditRead | StorageManage | SystemManage

  /** PermMask: a bit mask, seen as the set of the permissions whose bits are set. */
  type Mask = set<Perm>

  const NODE_SCOPE: Mask := {View, Download, Upload, Edit, Delete, TrashManage, Share, AclManage}
  const READ_ONLY: Mask := {View, Download}

  datatype Visibility = Unspecified | Private | Internal | Public

  datatype Role = NoRole | Guest | User | Manager | Admin

  datatype SubjectType = NoSubject | Everyone | OneUser | OneRole

  datatype Entry = Entry(subjectType: SubjectType, subject: string, deny: bool, perms: Mask, inherit: bool)

  datatype Caller = Caller(id: Uuid, role: Role, perms: Mask, anonymous: bool, unlocked: set<Uuid>) {
    predicate IsAuthenticated() { !anonymous && id != NIL }
    predicate IsSuperAdmin() { IsAuthenticated() && role.Admin? }
  }

  datatype Guarded = Guarded(id: Uuid, owner: Uuid, visibility: Visibility, password: bool)

  type Acl = map<Uuid, seq<Entry>>

  datatype NodeAccess = NodeAccess(perms: Mask, locked: bool, lockedBy: Uuid, owned: bool, visibility: Visibility)

  function RoleName(r: Role): string {
    match r
    case Admin => "admin"
    case Manager => "manager"
    case User => "user"
    case Guest => "guest"
    case NoRole => ""
  }

  function EntriesOf(acl: Acl, id: Uuid): seq<Entry> {
    if id in acl then acl[id] else []
  }

  /** aclMatches. Role names are compared without regard to case. */
  predicate Matches(fold: CaseMap, e: Entry, c: Caller) {
    e.perms != {} &&
    match e.subjectType
    case Everyone => true
    case OneUser => c.IsAuthenticated() && e.subject == Text(c.id)
    case OneRole => c.IsAuthenticated() && Lower(fold, e.subject) == Lower(fold, RoleName(c.role))
    case NoSubject => false
  }

  // ---- Visibility -------------------------------------------------------------------------

  function Rank(v: Visibility): int {
    match v
    case Unspecified => 1
    case Private => 1
    case Internal => 2
    case Public => 3
  }

  /** The visibility is that of some node of the chain, and no node of the chain is more restrictive. */
  ghost predicate IsMostRestrictive(v: Visibility, node: Guarded, ancestors: seq<Guarded>) {
    && !v.Unspecified? && Rank(v) <= Rank(node.visibility)
       && (forall i | 0 <= i < |ancestors| :: Rank(v) <= Rank(ancestors[i].visibility))
    && (Rank(v) == Rank(node.visibility)
       || exists i :: 0 <= i < |ancestors| && Rank(v) == Rank(ancestors[i].visibility))
  }

  function Specified(v: Visibility): Visibility {
    if v.Unspecified? then Private else v
  }

  method EffectiveVisibility(node: Guarded, ancestors: seq<Guarded>) returns (vis: Visibility)
    ensures IsMostRestrictive(vis, node, ancestors)
  {
    vis := Specified(node.visibility);
    var i := 0;
    while i < |ancestors|
      invariant 0 <= i <= |ancestors|
      invariant IsMostRestrictive(vis, node, ancestors[..i])
    {
      ghost var was := vis;
      var v := Specified(ancestors[i].visibility);
      if Rank(v) < Rank(vis) { vis := v; }
      assert forall k | 0 <= k < i :: ancestors[..i + 1][k] == ancestors[..i][k];
      assert ancestors[..i + 1][i] == ancestors[i];
      i := i + 1;
    }
    assert ancestors[..|ancestors|] == ancestors;
  }

  // ---- What the rules say, one permission at a time -----------------------------------------

  /** Some entry in the list that applies to the caller denies (or allows) `p`. */
  ghost predicate Rules(fold: CaseMap, c: Caller, es: seq<Entry>, deny: bool, inheritedOnly: bool, p: Perm) {
    exists i :: 0 <= i < |es| && Matches(fold, es[i], c) && es[i].deny == deny && (inheritedOnly ==> es[i].inherit)
        && p in es[i].perms
  }

  ghost predicate RulesAbove(fold: CaseMap, c: Caller, acl: Acl, ancestors: seq<Guarded>, deny: bool, p: Perm) {
    exists i :: 0 <= i < |ancestors| && Rules(fold, c, EntriesOf(acl, ancestors[i].id), deny, !deny, p)
  }

  ghost predicate Denied(fold: CaseMap, c: Caller, acl: Acl, node: Guarded, ancestors: seq<Guarded>, p: Perm) {
    Rules(fold, c, EntriesOf(acl, node.id), true, false, p) || RulesAbove(fold, c, acl, ancestors, true, p)
  }

  ghost predicate Allowed(fold: CaseMap, c: Caller, acl: Acl, node: Guarded, ancestors: seq<Guarded>, p: Perm) {
    Rules(fold, c, EntriesOf(acl, node.id), false, false, p) || RulesAbove(fold, c, acl, ancestors, false, p)
  }

  predicate LockedAt(c: Caller, n: Guarded) {
    n.password && n.id !in c.unlocked
  }

  ghost predicate Locked(c: Caller, node: Guarded, ancestors: seq<Guarded>) {
    LockedAt(c, node) || exists i :: 0 <= i < |ancestors| && LockedAt(c, ancestors[i])
  }

  function Ceiling(c: Caller): Mask {
    if c.IsAuthenticated() then c.perms else READ_ONLY
  }

  /** Does the visibility of every node of the chain let this kind of caller read? */
  ghost predicate Readable(c: Caller, node: Guarded, ancestors: seq<Guarded>) {
    var bar := if c.IsAuthenticated() then 2 else 3;
    Rank(node.visibility) >= bar && forall i | 0 <= i < |ancestors| :: Rank(ancestors[i].visibility) >= bar
  }

  /** Owners and the administrator: everything the node scope and the account have in common. */
  predicate Commands(c: Caller, node: Guarded) {
    c.IsSuperAdmin() || (c.IsAuthenticated() && node.owner == c.id)
  }

  /** What the caller may do, as the documented rules put it. */
  ghost predicate May(fold: CaseMap, c: Caller, acl: Acl, node: Guarded, ancestors: seq<Guarded>, p: Perm) {
    && p in NODE_SCOPE && p in Ceiling(c)
    && (Commands(c, node) ||
        (&& ((p in READ_ONLY && Readable(c, node, ancestors)) || Allowed(fold, c, acl, node, ancestors, p))
         && !Denied(fold, c, acl, node, ancestors, p)
         && (Locked(c, node, ancestors) ==> p == View)))
  }

  // ---- The evaluation ---------------------------------------------------------------------------

  /** EvaluateNodeAccess computes exactly what the rules say. */
  method EvaluateNodeAccess(fold: CaseMap, caller: Caller, node: Guarded, ancestors: seq<Guarded>, acl: Acl)
    returns (acc: NodeAccess)
    ensures forall p :: p in acc.perms <==> May(fold, caller, acl, node, ancestors, p)
    ensures IsMostRestrictive(acc.visibility, node, ancestors)
    ensures acc.owned <==> node.owner == caller.id && caller.IsAuthenticated()
    ensures acc.locked <==> !Commands(caller, node) && Locked(caller, node, ancestors)
    ensures acc.locked ==> IsOutermostLock(caller, node, ancestors, acc.lockedBy)
  {
    var visibility := EffectiveVisibility(node, ancestors);
    if caller.IsSuperAdmin() {
      return NodeAccess(NODE_SCOPE * caller.perms, false, NIL, node.owner == caller.id, visibility);
    }
    var locked, lockedBy := FindLock(caller, node, ancestors);
    if caller.IsAuthenticated() && node.owner == caller.id {
      return NodeAccess(NODE_SCOPE * caller.perms, false, lockedBy, true, visibility);
    }
    var granted: Mask := {};
    if caller.IsAuthenticated() {
      if visibility.Public? || visibility.Internal? { granted := {View, Download}; }
    } else if visibility.Public? {
      granted := {View, Download};
    }
    var allowed, denied := CollectRules(fold, caller, node, ancestors, acl);
    var ceiling := if caller.IsAuthenticated() then caller.perms else READ_ONLY;
    var perms := (granted + allowed - denied) * NODE_SCOPE * ceiling;
    if locked { perms := perms * {View}; }
    acc := NodeAccess(perms, locked, lockedBy, false, visibility);
  }

  /** The first locked node from the root down, the node itself last. */
  ghost predicate IsOutermostLock(c: Caller, node: Guarded, ancestors: seq<Guarded>, id: Uuid) {
    || (id == node.id && LockedAt(c, node) && forall i | 0 <= i < |ancestors| :: !LockedAt(c, ancestors[i]))
    || exists k :: 0 <= k < |ancestors| && id == ancestors[k].id && LockedAt(c, ancestors[k])
         && forall i | 0 <= i < k :: !LockedAt(c, ancestors[i])
  }

  method FindLock(c: Caller, node: Guarded, ancestors: seq<Guarded>) returns (locked: bool, lockedBy: Uuid)
    ensures locked <==> Locked(c, node, ancestors)
    ensures locked ==> IsOutermostLock(c, node, ancestors, lockedBy)
  {
    var i := 0;
    while i < |ancestors|
      invariant 0 <= i <= |ancestors| && forall k | 0 <= k < i :: !LockedAt(c, ancestors[k])
    {
      if ancestors[i].password && ancestors[i].id !in c.unlocked { return true, ancestors[i].id; }
      i := i + 1;
    }
    if node.password && node.id !in c.unlocked { return true, node.id; }
    return false, NIL;
  }

  /** The two accumulating loops. */
  method CollectRules(fold: CaseMap, c: Caller, node: Guarded, ancestors: seq<Guarded>, acl: Acl)
    returns (allowed: Mask, denied: Mask)
    ensures forall p :: p in allowed <==> Allowed(fold, c, acl, node, ancestors, p)
    ensures forall p :: p in denied <==> Denied(fold, c, acl, node, ancestors, p)
  {
    allowed, denied := ScanEntries(fold, c, EntriesOf(acl, node.id), false);
    var i := 0;
    while i < |ancestors|
      invariant 0 <= i <= |ancestors|
      invariant forall p :: p in allowed <==> Allowed(fold, c, acl, node, ancestors[..i], p)
      invariant forall p :: p in denied <==> Denied(fold, c, acl, node, ancestors[..i], p)
    {
      var a, d := ScanEntries(fold, c, EntriesOf(acl, ancestors[i].id), true);
      forall deny, p
        ensures RulesAbove(fold, c, acl, ancestors[..i + 1], deny, p) <==>
                RulesAbove(fold, c, acl, ancestors[..i], deny, p)
                    || Rules(fold, c, EntriesOf(acl, ancestors[i].id), deny, !deny, p)
      {
        OneMoreAncestor(fold, c, acl, ancestors, i, deny, p);
      }
      allowed, denied := allowed + a, denied + d;
      i := i + 1;
    }
    assert ancestors[..|ancestors|] == ancestors;
  }

  lemma OneMoreAncestor(fold: CaseMap, c: Caller, acl: Acl, ancestors: seq<Guarded>, i: nat, deny: bool, p: Perm)
    requires i < |ancestors|
    ensures RulesAbove(fold, c, acl, ancestors[..i + 1], deny, p) <==>
            RulesAbove(fold, c, acl, ancestors[..i], deny, p)
                || Rules(fold, c, EntriesOf(acl, ancestors[i].id), deny, !deny, p)
  {
    var more, less := ancestors[..i + 1], ancestors[..i];
    assert more[i] == ancestors[i] && forall k | 0 <= k < i :: more[k] == less[k];
  }

  /** One list of entries: denies always count, allows only if `inheritedOnly` does not rule them out. */
  method ScanEntries(fold: CaseMap, c: Caller, es: seq<Entry>, inheritedOnly: bool)
    returns (allowed: Mask, denied: Mask)
    ensures forall p :: p in allowed <==> Rules(fold, c, es, false, inheritedOnly, p)
    ensures forall p :: p in denied <==> Rules(fold, c, es, true, false, p)
  {
    allowed, denied := {}, {};
    var i := 0;
    while i < |es|
      invariant 0 <= i <= |es|
      invariant forall p :: p in allowed <==>
                  exists k :: 0 <= k < i && Matches(fold, es[k], c) && !es[k].deny
                    && (inheritedOnly ==> es[k].inherit) && p in es[k].perms
      invariant forall p :: p in denied <==>
                  exists k :: 0 <= k < i && Matches(fold, es[k], c) && es[k].deny && p in es[k].perms
    {
      if Matches(fold, es[i], c) {
        if es[i].deny {
          denied := denied + es[i].perms;
        } else if !inheritedOnly || es[i].inherit {
          allowed := allowed + es[i].perms;
        }
      }
      i := i + 1;
    }
  }

  // ---- Laws -------------------------------------------------------------------------------------

  /** The entries of one kind in one list. */
  function OfKind(es: seq<Entry>, deny: bool): set<Entry> {
    set e | e in es && e.deny == deny
  }

  /** At every node of the chain, one list allows no more and denies no less than the other. */
  ghost predicate Stricter(acl: Acl, acl': Acl, node: Guarded, ancestors: seq<Guarded>) {
    forall n | n == node || n in ancestors ::
      && OfKind(EntriesOf(acl, n.id), false) <= OfKind(EntriesOf(acl', n.id), false)
      && OfKind(EntriesOf(acl', n.id), true) <= OfKind(EntriesOf(acl, n.id), true)
  }

  lemma RulesGrow(fold: CaseMap, c: Caller, es: seq<Entry>, es': seq<Entry>, deny: bool, inheritedOnly: bool, p: Perm)
    requires OfKind(es, deny) <= OfKind(es', deny) && Rules(fold, c, es, deny, inheritedOnly, p)
    ensures Rules(fold, c, es', deny, inheritedOnly, p)
  {
    var i :| 0 <= i < |es| && Matches(fold, es[i], c) && es[i].deny == deny && (inheritedOnly ==> es[i].inherit)
        && p in es[i].perms;
    assert es[i] in OfKind(es, deny);
    assert es[i] in OfKind(es', deny);
  }

  lemma RulesAboveGrow(fold: CaseMap, c: Caller, acl: Acl, acl': Acl, ancestors: seq<Guarded>, deny: bool, p: Perm)
    requires forall i | 0 <= i < |ancestors| ::
               OfKind(EntriesOf(acl, ancestors[i].id), deny) <= OfKind(EntriesOf(acl', ancestors[i].id), deny)
    requires RulesAbove(fold, c, acl, ancestors, deny, p)
    ensures RulesAbove(fold, c, acl', ancestors, deny, p)
  {
    var i :| 0 <= i < |ancestors| && Rules(fold, c, EntriesOf(acl, ancestors[i].id), deny, !deny, p);
    RulesGrow(fold, c, EntriesOf(acl, ancestors[i].id), EntriesOf(acl', ancestors[i].id), deny, !deny, p);
  }

  lemma AllowedGrows(fold: CaseMap, c: Caller, acl: Acl, acl': Acl, node: Guarded, ancestors: seq<Guarded>, p: Perm)
    requires Stricter(acl, acl', node, ancestors) && Allowed(fold, c, acl, node, ancestors, p)
    ensures Allowed(fold, c, acl', node, ancestors, p)
  {
    if Rules(fold, c, EntriesOf(acl, node.id), false, false, p) {
      RulesGrow(fold, c, EntriesOf(acl, node.id), EntriesOf(acl', node.id), false, false, p);
    } else {
      RulesAboveGrow(fold, c, acl, acl', ancestors, false, p);
    }
  }

  lemma DeniedShrinks(fold: CaseMap, c: Caller, acl: Acl, acl': Acl, node: Guarded, ancestors: seq<Guarded>, p: Perm)
    requires Stricter(acl, acl', node, ancestors) && Denied(fold, c, acl', node, ancestors, p)
    ensures Denied(fold, c, acl, node, ancestors, p)
  {
    if Rules(fold, c, EntriesOf(acl', node.id), true, false, p) {
      RulesGrow(fold, c, EntriesOf(acl', node.id), EntriesOf(acl, node.id), true, false, p);
    } else {
      RulesAboveGrow(fold, c, acl', acl, ancestors, true, p);
    }
  }

  /** More allows and fewer denies never take a permission away; so the outcome is monotone in the
      allows, antitone in the denies, and blind to the order and repetition of entries. */
  lemma StricterMeansLess(fold: CaseMap, c: Caller, acl: Acl, acl': Acl, node: Guarded, ancestors: seq<Guarded>,
                          p: Perm)
    requires Stricter(acl, acl', node, ancestors) && May(fold, c, acl, node, ancestors, p)
    ensures May(fold, c, acl', node, ancestors, p)
  {
    if Allowed(fold, c, acl, node, ancestors, p) { AllowedGrows(fold, c, acl, acl', node, ancestors, p); }
    if Denied(fold, c, acl', node, ancestors, p) { DeniedShrinks(fold, c, acl, acl', node, ancestors, p); }
  }

  function EntrySet(es: seq<Entry>): set<Entry> {
    set e | e in es
  }

  lemma SameKinds(a: seq<Entry>, b: seq<Entry>, deny: bool)
    requires EntrySet(a) == EntrySet(b)
    ensures OfKind(a, deny) == OfKind(b, deny)
  {
    assert forall e :: e in a <==> e in EntrySet(a);
    assert forall e :: e in b <==> e in EntrySet(b);
  }

  /** Reordered or repeated entries evaluate alike. */
  lemma OrderDoesNotMatter(fold: CaseMap, c: Caller, acl: Acl, acl': Acl, node: Guarded, ancestors: seq<Guarded>,
                           p: Perm)
    requires forall n | n == node || n in ancestors :: EntrySet(EntriesOf(acl, n.id)) == EntrySet(EntriesOf(acl', n.id))
    ensures May(fold, c, acl, node, ancestors, p) <==> May(fold, c, acl', node, ancestors, p)
  {
    forall n | n == node || n in ancestors
      ensures OfKind(EntriesOf(acl, n.id), false) == OfKind(EntriesOf(acl', n.id), false)
      ensures OfKind(EntriesOf(acl, n.id), true) == OfKind(EntriesOf(acl', n.id), true)
    {
      SameKinds(EntriesOf(acl, n.id), EntriesOf(acl', n.id), false);
      SameKinds(EntriesOf(acl, n.id), EntriesOf(acl', n.id), true);
    }
    if May(fold, c, acl, node, ancestors, p) { StricterMeansLess(fold, c, acl, acl', node, ancestors, p); }
    if May(fold, c, acl', node, ancestors, p) { StricterMeansLess(fold, c, acl', acl, node, ancestors, p); }
  }

  // ---- Over the tree ------------------------------------------------------------------------------

  /** The access columns of the rows. */
  type Attributes = map<Uuid, Guarded>

  ghost predicate Describes(attrs: Attributes, t: Table) {
    t.Keys <= attrs.Keys && forall x | x in t :: attrs[x].id == x && attrs[x].owner == t[x].owner
  }

  function GuardedOf(attrs: Attributes, ids: seq<Uuid>): seq<Guarded>
    requires forall i | 0 <= i < |ids| :: ids[i] in attrs
  {
    seq(|ids|, i requires 0 <= i < |ids| => attrs[ids[i]])
  }

  /** The ancestors that the rules speak of, from the parent pointers. */
  ghost function AncestorsOf(t: Table, attrs: Attributes, x: Uuid): seq<Guarded>
    requires Indexed(t) && Describes(attrs, t) && x in t
  {
    var c := Chain(t, x);
    GuardedOf(attrs, c[..|c| - 1])
  }

  ghost predicate MayOn(fold: CaseMap, c: Caller, t: Table, attrs: Attributes, acl: Acl, x: Uuid, p: Perm)
    requires Indexed(t) && Describes(attrs, t) && x in t
  {
    May(fold, c, acl, attrs[x], AncestorsOf(t, attrs, x), p)
  }

  /** A permission denied to the caller at a folder is denied on everything below it that the caller
      neither owns nor administers. */
  lemma DenyReachesDown(fold: CaseMap, c: Caller, t: Table, attrs: Attributes, acl: Acl, a: Uuid, x: Uuid, p: Perm)
    requires Indexed(t) && Describes(attrs, t) && a in t && x in t && Under(t, a, x) && !Commands(c, attrs[x])
    requires Rules(fold, c, EntriesOf(acl, a), true, false, p)
    ensures !MayOn(fold, c, t, attrs, acl, x, p)
  {
    var chain := Chain(t, x);
    PrefixScanIsSubtree(t, a, x, chain);
    var i :| 0 <= i < |chain| && chain[i] == a;
    if a != x {
      assert AncestorsOf(t, attrs, x)[i].id == a;
    }
  }

  /** Nobody else reads below a folder less visible than the caller's kind needs, unless an entry allows it. */
  lemma PrivateFolderHides(fold: CaseMap, c: Caller, t: Table, attrs: Attributes, acl: Acl, a: Uuid, x: Uuid, p: Perm)
    requires Indexed(t) && Describes(attrs, t) && a in t && x in t && Under(t, a, x) && !Commands(c, attrs[x])
    requires Rank(attrs[a].visibility) < if c.IsAuthenticated() then 2 else 3
    requires !Allowed(fold, c, acl, attrs[x], AncestorsOf(t, attrs, x), p)
    ensures !MayOn(fold, c, t, attrs, acl, x, p)
  {
    var chain := Chain(t, x);
    PrefixScanIsSubtree(t, a, x, chain);
    var i :| 0 <= i < |chain| && chain[i] == a;
    if a != x {
      assert AncestorsOf(t, attrs, x)[i] == attrs[a];
    }
  }

  function Restrict(acl: Acl, ids: set<Uuid>): Acl {
    map x | x in acl && x in ids :: acl[x]
  }

  /** The entries of the listed rows only. */
  function LoadedFor(acl: Acl, listed: seq<Uuid>): Acl {
    Restrict(acl, set y | y in listed)
  }

  /** The ancestors that the bounded walk of Chain reaches: for a node deeper than the bound, the
      nearest ones only. */
  ghost function SeenAncestors(t: Table, attrs: Attributes, x: Uuid, maxDepth: nat): seq<Guarded>
    requires Indexed(t) && Describes(attrs, t) && x in t
  {
    GuardedOf(attrs, Nearest(Chain(t, x), maxDepth))
  }

  /** What Evaluate grants on `x`. */
  ghost predicate MayAlone(fold: CaseMap, c: Caller, t: Table, attrs: Attributes, acl: Acl, x: Uuid, maxDepth: nat,
                           p: Perm)
    requires Indexed(t) && Describes(attrs, t) && x in t
  {
    May(fold, c, acl, attrs[x], SeenAncestors(t, attrs, x, maxDepth), p)
  }

  /** Chain and Evaluate: the bounded parent walk and the entries of every node on it. */
  method Evaluate(fold: CaseMap, c: Caller, t: Table, attrs: Attributes, acl: Acl, x: Uuid, maxDepth: nat)
    returns (acc: NodeAccess)
    requires Indexed(t) && Describes(attrs, t) && x in t
    ensures forall p :: p in acc.perms <==> MayAlone(fold, c, t, attrs, acl, x, maxDepth, p)
    ensures t[x].depth <= maxDepth ==> Evaluated(fold, c, acl, t, attrs, x, acc)
  {
    var above := WalkAncestors(t, x, maxDepth);
    var loaded := Restrict(acl, {x} + set a | a in above);
    acc := EvaluateNodeAccess(fold, c, attrs[x], GuardedOf(attrs, above), loaded);
    forall p ensures May(fold, c, loaded, attrs[x], GuardedOf(attrs, above), p) <==>
        May(fold, c, acl, attrs[x], GuardedOf(attrs, above), p) {
      LoadedIsEnough(fold, c, attrs, acl, x, above, p);
    }
  }

  lemma LoadedIsEnough(fold: CaseMap, c: Caller, attrs: Attributes, acl: Acl, x: Uuid, above: seq<Uuid>, p: Perm)
    requires x in attrs && attrs[x].id == x
             && forall i | 0 <= i < |above| :: above[i] in attrs && attrs[above[i]].id == above[i]
    ensures May(fold, c, Restrict(acl, {x} + set a | a in above), attrs[x], GuardedOf(attrs, above), p) <==>
            May(fold, c, acl, attrs[x], GuardedOf(attrs, above), p)
  {
    var loaded := Restrict(acl, {x} + set a | a in above);
    forall i | 0 <= i < |above| ensures EntriesOf(loaded, above[i]) == EntriesOf(acl, above[i]) {
      assert above[i] in set a | a in above;
    }
    SameLists(fold, c, loaded, acl, attrs[x], GuardedOf(attrs, above), p);
  }

  /** The bound on the walk shows exactly for nodes deeper than it, which moves of deep folders can make:
      there is then a deny at the root of the chain that the evaluation does not see. */
  lemma BoundMattersIff(fold: CaseMap, t: Table, attrs: Attributes, x: Uuid, maxDepth: nat)
    requires Indexed(t) && Describes(attrs, t) && x in t
    ensures t[x].depth <= maxDepth <==>
              forall c, acl, p :: MayAlone(fold, c, t, attrs, acl, x, maxDepth, p) <==>
                  MayOn(fold, c, t, attrs, acl, x, p)
  {
    if t[x].depth > maxDepth {
      var chain := Chain(t, x);
      ChainDistinct(t, chain, 0, |chain| - 1);
      forall i | 0 < i < |chain| - 1 ensures chain[i] != chain[0] && chain[i] != x {
        ChainDistinct(t, chain, 0, i);
        ChainDistinct(t, chain, i, |chain| - 1);
      }
      var c := Caller(NIL, NoRole, {}, true, {});
      var acl: Acl := map[chain[0] := [Entry(Everyone, "", true, {View}, false)],
          x := [Entry(Everyone, "", false, {View}, false)]];
      var above := AncestorsOf(t, attrs, x);
      assert above[0].id == chain[0];
      var seen := Nearest(chain, maxDepth);
      forall i | 0 <= i < |seen| ensures seen[i] != chain[0] && seen[i] != x {
        assert seen[i] == chain[t[x].depth - maxDepth + i];
      }
      UnseenDeny(fold, c, acl, attrs[x], GuardedOf(attrs, seen), above);
      assert !MayOn(fold, c, t, attrs, acl, x, View);
    }
  }

  lemma UnseenDeny(fold: CaseMap, c: Caller, acl: Acl, node: Guarded, seen: seq<Guarded>, above: seq<Guarded>)
    requires c.anonymous && EntriesOf(acl, node.id) == [Entry(Everyone, "", false, {View}, false)]
    requires |above| > 0 && EntriesOf(acl, above[0].id) == [Entry(Everyone, "", true, {View}, false)]
    requires forall i | 0 <= i < |seen| :: EntriesOf(acl, seen[i].id) == []
    ensures May(fold, c, acl, node, seen, View) && !May(fold, c, acl, node, above, View)
  {
    var allow, deny := EntriesOf(acl, node.id), EntriesOf(acl, above[0].id);
    assert Matches(fold, allow[0], c) && Matches(fold, deny[0], c);
    assert Rules(fold, c, allow, false, false, View);
    assert Rules(fold, c, deny, true, false, View);
  }

  lemma SameLists(fold: CaseMap, c: Caller, acl: Acl, acl': Acl, node: Guarded, ancestors: seq<Guarded>, p: Perm)
    requires EntriesOf(acl, node.id) == EntriesOf(acl', node.id)
    requires forall i | 0 <= i < |ancestors| :: EntriesOf(acl, ancestors[i].id) == EntriesOf(acl', ancestors[i].id)
    ensures May(fold, c, acl, node, ancestors, p) <==> May(fold, c, acl', node, ancestors, p)
  {
    OrderDoesNotMatter(fold, c, acl, acl', node, ancestors, p);
  }

  ghost predicate Evaluated(fold: CaseMap, c: Caller, acl: Acl, t: Table, attrs: Attributes, x: Uuid, acc: NodeAccess)
    requires Indexed(t) && Describes(attrs, t) && x in t
  {
    forall p :: p in acc.perms <==> MayOn(fold, c, t, attrs, acl, x, p)
  }

  /** The chain that a batch of children shares: what the bounded walk from the parent reaches, and the parent. */
  ghost function SharedChain(t: Table, parent: Uuid, maxDepth: nat): (above: seq<Uuid>)
    requires Indexed(t)
    ensures forall i | 0 <= i < |above| :: above[i] in t
  {
    if parent in t then Nearest(Chain(t, parent), maxDepth) + [parent] else []
  }

  lemma WholeChainShared(t: Table, parent: Uuid, maxDepth: nat)
    requires Indexed(t) && Shallow(t, parent, maxDepth)
    ensures SharedChain(t, parent, maxDepth) == if parent in t then Chain(t, parent) else []
  {
    if parent in t {
      var chain := Chain(t, parent);
      assert Nearest(chain, maxDepth) == chain[..|chain| - 1];
    }
  }

  predicate Shallow(t: Table, parent: Uuid, maxDepth: nat) {
    parent in t ==> t[parent].depth <= maxDepth
  }

  /** What EvaluateNodes grants on `x` when it evaluates the rows `listed` under one parent: the parent's chain
      for all of them, and only their own entries are loaded. */
  ghost predicate MayInBatch(fold: CaseMap, c: Caller, t: Table, attrs: Attributes, acl: Acl, parent: Uuid,
                             listed: seq<Uuid>, x: Uuid, maxDepth: nat, p: Perm)
    requires Indexed(t) && Describes(attrs, t) && x in t
  {
    May(fold, c, LoadedFor(acl, listed), attrs[x], GuardedOf(attrs, SharedChain(t, parent, maxDepth)), p)
  }

  method SharedAncestors(t: Table, parent: Uuid, maxDepth: nat) returns (above: seq<Uuid>)
    requires Indexed(t) && (parent == NIL || parent in t)
    ensures above == SharedChain(t, parent, maxDepth)
  {
    above := [];
    if parent != NIL {
      above := WalkAncestors(t, parent, maxDepth);
      above := above + [parent];
    }
  }

  /** EvaluateNodes: the shared chain is walked once, but only the listed rows' own entries are loaded. The one
      caller passes the children of the parent or, for a recursive listing, the parent and any rows below. */
  method EvaluateNodes(fold: CaseMap, c: Caller, t: Table, attrs: Attributes, acl: Acl, parent: Uuid,
                       listed: seq<Uuid>, maxDepth: nat)
    returns (out: map<Uuid, NodeAccess>)
    requires Indexed(t) && Describes(attrs, t) && (parent == NIL || parent in t)
    requires forall i | 0 <= i < |listed| :: listed[i] in t
    ensures out.Keys == set x | x in listed
    ensures forall x, p | x in listed :: p in out[x].perms <==>
              MayInBatch(fold, c, t, attrs, acl, parent, listed, x, maxDepth, p)
  {
    var above := SharedAncestors(t, parent, maxDepth);
    var loaded := LoadedFor(acl, listed);
    out := map[];
    var i := 0;
    while i < |listed|
      invariant 0 <= i <= |listed| && out.Keys == set x | x in listed[..i]
      invariant forall x, p | x in listed[..i] :: p in out[x].perms <==>
                  May(fold, c, loaded, attrs[x], GuardedOf(attrs, above), p)
    {
      var x := listed[i];
      var acc := EvaluateNodeAccess(fold, c, attrs[x], GuardedOf(attrs, above), loaded);
      out := out[x := acc];
      assert listed[..i + 1] == listed[..i] + [x];
      i := i + 1;
    }
    assert listed[..|listed|] == listed;
  }

  predicate AtOrBelow(t: Table, parent: Uuid, x: Uuid) {
    x in t && (parent == NIL || (parent in t && Under(t, parent, x)))
  }

  /** The folders strictly between a parent and a row below it, from the top down; none for the parent itself. */
  ghost function Between(t: Table, parent: Uuid, x: Uuid): (r: seq<Uuid>)
    requires Indexed(t) && x in t
    ensures forall i | 0 <= i < |r| :: r[i] in t
  {
    var chain, n := Chain(t, x), if parent in t then |Chain(t, parent)| else 0;
    if n < |chain| then chain[n..|chain| - 1] else []
  }

  lemma SplitChain(front: seq<Uuid>, chain: seq<Uuid>)
    requires front <= chain && front != chain
    ensures chain == front + chain[|front|..|chain| - 1] + [chain[|chain| - 1]]
  {
  }

  /** The chain of a row below a parent is the parent's chain and what lies between. */
  lemma ChainBelow(t: Table, parent: Uuid, x: Uuid)
    requires Indexed(t) && AtOrBelow(t, parent, x) && x != parent
    ensures Chain(t, x) == (if parent in t then Chain(t, parent) else []) + Between(t, parent, x) + [x]
  {
    var chain, front := Chain(t, x), if parent in t then Chain(t, parent) else [];
    FrontOfChain(t, parent, x);
    SplitChain(front, chain);
  }

  lemma FrontOfChain(t: Table, parent: Uuid, x: Uuid)
    requires Indexed(t) && AtOrBelow(t, parent, x) && x != parent
    ensures var front := if parent in t then Chain(t, parent) else []; front <= Chain(t, x) && front != Chain(t, x)
  {
    if parent in t {
      PrefixScanIsSubtree(t, parent, x, Chain(t, x));
      OnChainIff(t, parent, Chain(t, parent), Chain(t, x));
    }
  }

  /** For a row strictly below the parent and within the bound, the batch walks the row's own chain exactly when
      the row is a direct child. */
  lemma SharedChainIsOwnIff(t: Table, parent: Uuid, x: Uuid, maxDepth: nat)
    requires Indexed(t) && AtOrBelow(t, parent, x) && x != parent && t[x].depth <= maxDepth
    ensures SharedChain(t, parent, maxDepth) == Nearest(Chain(t, x), maxDepth) <==> t[x].parent == parent
    ensures Between(t, parent, x) == [] <==> t[x].parent == parent
  {
    var chain, between := Chain(t, x), Between(t, parent, x);
    ChainBelow(t, parent, x);
    ParentBelow(t, parent, x);
    ChainNotDeep(t, parent, x);
    WholeChainShared(t, parent, maxDepth);
    assert t[x].depth == |chain| - 1;
    OnlyWithoutBetween(SharedChain(t, parent, maxDepth), between, chain, x, maxDepth);
  }

  lemma OnlyWithoutBetween(shared: seq<Uuid>, between: seq<Uuid>, chain: seq<Uuid>, x: Uuid, maxDepth: nat)
    requires chain == shared + between + [x] && |chain| - 1 <= maxDepth
    ensures shared == Nearest(chain, maxDepth) <==> between == []
  {
    assert chain[..|chain| - 1] == shared + between;
  }

  /** Nothing lies between a parent and its direct children only. */
  lemma ParentBelow(t: Table, parent: Uuid, x: Uuid)
    requires Indexed(t) && AtOrBelow(t, parent, x) && x != parent
    ensures Between(t, parent, x) == [] <==> t[x].parent == parent
  {
    var chain, between := Chain(t, x), Between(t, parent, x);
    ChainBelow(t, parent, x);
    ParentOnChain(t, chain, |chain| - 1);
    if parent in t {
      var front := Chain(t, parent);
      NextToLast(front, between, chain, x);
      if between != [] { ChainDistinct(t, chain, |front| - 1, |chain| - 2); }
    }
  }

  lemma NextToLast(front: seq<Uuid>, between: seq<Uuid>, chain: seq<Uuid>, x: Uuid)
    requires chain == front + between + [x] && front != []
    ensures chain[|front| - 1] == Last(front)
    ensures between == [] ==> chain[|chain| - 2] == Last(front)
    ensures between != [] ==> |front| - 1 < |chain| - 2
  {
  }

  /** No listed row is above the parent. */
  lemma NoneListedAbove(t: Table, parent: Uuid, listed: seq<Uuid>, i: nat)
    requires Indexed(t) && parent in t && forall y | y in listed :: AtOrBelow(t, parent, y)
    requires i < |Chain(t, parent)| - 1
    ensures Chain(t, parent)[i] !in listed
  {
    var chain := Chain(t, parent);
    var a := chain[i];
    if a in listed {
      PrefixScanIsSubtree(t, parent, a, Chain(t, a));
      OnChainIff(t, parent, chain, Chain(t, a));
      OnChainIff(t, a, Chain(t, a), chain);
      ChainDistinct(t, chain, i, |chain| - 1);
      assert false;
    }
  }

  // ---- Batch against single evaluation ------------------------------------------------------------

  /** What is above the row cannot change the outcome: the caller commands it, the permission is out of reach, or
      the row itself denies it. */
  ghost predicate Decided(fold: CaseMap, c: Caller, acl: Acl, node: Guarded, p: Perm) {
    Commands(c, node) || p !in NODE_SCOPE || p !in Ceiling(c) || Rules(fold, c, EntriesOf(acl, node.id), true, false, p)
  }

  /** The entries of the parent are loaded when a recursive listing holds the parent too. */
  ghost predicate ParentRules(fold: CaseMap, c: Caller, acl: Acl, parent: Uuid, listed: seq<Uuid>, deny: bool,
                              p: Perm) {
    parent in listed && Rules(fold, c, EntriesOf(acl, parent), deny, !deny, p)
  }

  ghost predicate LockedIn(c: Caller, nodes: seq<Guarded>) {
    exists i :: 0 <= i < |nodes| && LockedAt(c, nodes[i])
  }

  ghost predicate ReadableIn(c: Caller, nodes: seq<Guarded>) {
    forall i | 0 <= i < |nodes| :: Rank(nodes[i].visibility) >= if c.IsAuthenticated() then 2 else 3
  }

  /** By what the batch looks at, the row's own entries, the parent's if loaded, and the parent's chain, the
      permission is granted. */
  ghost predicate GrantedByShared(fold: CaseMap, c: Caller, acl: Acl, node: Guarded, shared: seq<Guarded>, parent: Uuid,
                                  listed: seq<Uuid>, p: Perm) {
    && ((p in READ_ONLY && Readable(c, node, shared)) || Rules(fold, c, EntriesOf(acl, node.id), false, false, p)
        || ParentRules(fold, c, acl, parent, listed, false, p))
    && !ParentRules(fold, c, acl, parent, listed, true, p) && (Locked(c, node, shared) ==> p == View)
  }

  /** Something that the batch does not look at refuses the permission: a deny above, a lock on a folder between,
      or a visibility between that nobody's entry makes up for. */
  ghost predicate RefusedUnseen(fold: CaseMap, c: Caller, acl: Acl, node: Guarded, above: seq<Guarded>,
                                between: seq<Guarded>, p: Perm) {
    || RulesAbove(fold, c, acl, above, true, p)
    || (LockedIn(c, between) && p != View)
    || (!ReadableIn(c, between) && !Allowed(fold, c, acl, node, above, p))
  }

  /** An inheritable allow above that the batch does not look at, with nothing above that takes it back. */
  ghost predicate GrantedUnseen(fold: CaseMap, c: Caller, acl: Acl, node: Guarded, above: seq<Guarded>, p: Perm) {
    && RulesAbove(fold, c, acl, above, false, p) && !RulesAbove(fold, c, acl, above, true, p)
    && (Locked(c, node, above) ==> p == View)
  }

  /** What is above cannot matter, or nothing unseen refuses what the batch grants and nothing unseen grants what it
      refuses. */
  ghost predicate UnseenDoesNotMatter(fold: CaseMap, c: Caller, acl: Acl, node: Guarded, above: seq<Guarded>,
                                      shared: seq<Guarded>, between: seq<Guarded>, parent: Uuid, listed: seq<Uuid>,
                                      p: Perm) {
    || Decided(fold, c, acl, node, p)
    || if GrantedByShared(fold, c, acl, node, shared, parent, listed, p)
       then !RefusedUnseen(fold, c, acl, node, above, between, p)
       else !GrantedUnseen(fold, c, acl, node, above, p)
  }

  /** For every listed row at or below the parent, the parent itself included, EvaluateNodes and Evaluate agree on a
      permission if and only if what the batch does not see makes no difference. */
  lemma BatchAgreesIff(fold: CaseMap, c: Caller, t: Table, attrs: Attributes, acl: Acl, parent: Uuid,
                       listed: seq<Uuid>, x: Uuid, maxDepth: nat, p: Perm)
    requires Indexed(t) && Describes(attrs, t) && x in listed && x in t && t[x].depth <= maxDepth
    requires forall y | y in listed :: AtOrBelow(t, parent, y)
    ensures var node, above := attrs[x], AncestorsOf(t, attrs, x);
            var shared := GuardedOf(attrs, SharedChain(t, parent, maxDepth));
            var between := GuardedOf(attrs, Between(t, parent, x));
            (MayInBatch(fold, c, t, attrs, acl, parent, listed, x, maxDepth, p) <==>
               MayAlone(fold, c, t, attrs, acl, x, maxDepth, p)) <==>
              UnseenDoesNotMatter(fold, c, acl, node, above, shared, between, parent, listed, p)
  {
    if x == parent {
      BatchAgreesAt(fold, c, t, attrs, acl, parent, listed, maxDepth, p);
    } else {
      BatchAgreesBelow(fold, c, t, attrs, acl, parent, listed, x, maxDepth, p);
    }
  }

  lemma BatchAgreesAt(fold: CaseMap, c: Caller, t: Table, attrs: Attributes, acl: Acl, parent: Uuid,
                      listed: seq<Uuid>, maxDepth: nat, p: Perm)
    requires Indexed(t) && Describes(attrs, t) && parent in listed && parent in t && t[parent].depth <= maxDepth
    requires forall y | y in listed :: AtOrBelow(t, parent, y)
    ensures var above := AncestorsOf(t, attrs, parent);
            var shared := GuardedOf(attrs, SharedChain(t, parent, maxDepth));
            && Between(t, parent, parent) == []
            && ((MayInBatch(fold, c, t, attrs, acl, parent, listed, parent, maxDepth, p) <==>
                 MayAlone(fold, c, t, attrs, acl, parent, maxDepth, p)) <==>
                UnseenDoesNotMatter(fold, c, acl, attrs[parent], above, shared, [], parent, listed, p))
  {
    OnlyParentLoaded(fold, c, t, attrs, acl, parent, listed, maxDepth, true, p);
    OnlyParentLoaded(fold, c, t, attrs, acl, parent, listed, maxDepth, false, p);
    OwnChainShared(t, attrs, parent, maxDepth);
    AgreesAt(fold, c, acl, LoadedFor(acl, listed), attrs[parent], AncestorsOf(t, attrs, parent),
             GuardedOf(attrs, SharedChain(t, parent, maxDepth)), listed, p);
  }

  lemma BatchAgreesBelow(fold: CaseMap, c: Caller, t: Table, attrs: Attributes, acl: Acl, parent: Uuid,
                         listed: seq<Uuid>, x: Uuid, maxDepth: nat, p: Perm)
    requires Indexed(t) && Describes(attrs, t) && x in listed && x in t && t[x].depth <= maxDepth && x != parent
    requires forall y | y in listed :: AtOrBelow(t, parent, y)
    ensures var above := AncestorsOf(t, attrs, x);
            var shared := GuardedOf(attrs, SharedChain(t, parent, maxDepth));
            var between := GuardedOf(attrs, Between(t, parent, x));
            (MayInBatch(fold, c, t, attrs, acl, parent, listed, x, maxDepth, p) <==>
             MayAlone(fold, c, t, attrs, acl, x, maxDepth, p)) <==>
              UnseenDoesNotMatter(fold, c, acl, attrs[x], above, shared, between, parent, listed, p)
  {
    var shared := GuardedOf(attrs, SharedChain(t, parent, maxDepth));
    OnlyParentLoaded(fold, c, t, attrs, acl, parent, listed, maxDepth, true, p);
    OnlyParentLoaded(fold, c, t, attrs, acl, parent, listed, maxDepth, false, p);
    ChainShared(t, attrs, parent, x, maxDepth);
    if parent in t { assert shared[|shared| - 1].id == parent; }
    AgreesBelow(fold, c, acl, LoadedFor(acl, listed), attrs[x], AncestorsOf(t, attrs, x), shared,
                GuardedOf(attrs, Between(t, parent, x)), parent, listed, p);
  }

  /** Below the bound of the walk the batch sees exactly one ancestor more than Evaluate does. */
  lemma DeepBatchSeesOneMore(t: Table, x: Uuid, maxDepth: nat)
    requires Indexed(t) && x in t && t[x].depth > maxDepth
    ensures var chain := Chain(t, x);
            SharedChain(t, t[x].parent, maxDepth) == [chain[t[x].depth - maxDepth - 1]] + Nearest(chain, maxDepth)
  {
    var parent := t[x].parent;
    assert Placed(t, x);
    assert t[x].depth == |Chain(t, x)| - 1;
    assert Chain(t, x) == Chain(t, parent) + [x];
    OneNearer(Chain(t, parent), x, maxDepth);
  }

  /** The bounded walk from a parent, and the parent, against the walk from the child. */
  lemma OneNearer(front: seq<Uuid>, x: Uuid, maxDepth: nat)
    requires |front| > maxDepth
    ensures Nearest(front, maxDepth) + [Last(front)] == [front[|front| - 1 - maxDepth]] + Nearest(front + [x], maxDepth)
  {
  }

  /** In particular they agree where no entry above matches the caller and no folder between is locked or hidden:
      always for direct children whose chain carries no entry. */
  lemma CleanChainAgrees(fold: CaseMap, c: Caller, t: Table, attrs: Attributes, acl: Acl, parent: Uuid,
                         listed: seq<Uuid>, x: Uuid, maxDepth: nat, p: Perm)
    requires Indexed(t) && Describes(attrs, t) && x in listed && x in t && t[x].depth <= maxDepth
    requires forall y | y in listed :: AtOrBelow(t, parent, y)
    requires forall deny :: !RulesAbove(fold, c, acl, AncestorsOf(t, attrs, x), deny, p)
    requires t[x].parent == parent
             || (!LockedIn(c, GuardedOf(attrs, Between(t, parent, x)))
                && ReadableIn(c, GuardedOf(attrs, Between(t, parent, x))))
    ensures MayInBatch(fold, c, t, attrs, acl, parent, listed, x, maxDepth, p) <==>
            MayAlone(fold, c, t, attrs, acl, x, maxDepth, p)
  {
    var above, between := AncestorsOf(t, attrs, x), GuardedOf(attrs, Between(t, parent, x));
    if t[x].parent == parent {
      UnderStep(t, x, x);
      ParentBelow(t, parent, x);
    }
    assert !LockedIn(c, between) && ReadableIn(c, between);
    NothingUnseen(fold, c, acl, attrs[x], above, GuardedOf(attrs, SharedChain(t, parent, maxDepth)), between, parent,
                  listed, p);
    BatchAgreesIff(fold, c, t, attrs, acl, parent, listed, x, maxDepth, p);
  }

  lemma NothingUnseen(fold: CaseMap, c: Caller, acl: Acl, node: Guarded, above: seq<Guarded>, shared: seq<Guarded>,
                      between: seq<Guarded>, parent: Uuid, listed: seq<Uuid>, p: Perm)
    requires forall deny :: !RulesAbove(fold, c, acl, above, deny, p)
    requires !LockedIn(c, between) && ReadableIn(c, between)
    ensures UnseenDoesNotMatter(fold, c, acl, node, above, shared, between, parent, listed, p)
  {
  }

  /** Where the agreement fails without any entry: a file in a folder with a password, or in a private one, below
      the public folder that is listed recursively. The listing grants everybody what the file itself refuses. */
  lemma FolderBetweenIsOverlooked(fold: CaseMap, t: Table, attrs: Attributes, parent: Uuid, m: Uuid, x: Uuid,
                                  listed: seq<Uuid>, maxDepth: nat)
    requires Indexed(t) && Describes(attrs, t) && parent in t && m in t && x in t
    requires t[m].parent == parent && t[x].parent == m && t[x].depth <= maxDepth && x in listed
    requires forall y | y in t && y != m :: attrs[y].visibility.Public? && !attrs[y].password
    requires attrs[m].password || !attrs[m].visibility.Public?
    ensures var c := Caller(NIL, NoRole, {}, true, {});
            && MayInBatch(fold, c, t, attrs, map[], parent, listed, x, maxDepth, Download)
            && !MayAlone(fold, c, t, attrs, map[], x, maxDepth, Download)
  {
    PublicGrants(fold, t, attrs, parent, m, x, listed, maxDepth);
    GuardedParentRefuses(fold, t, attrs, m, x, maxDepth);
  }

  lemma PublicGrants(fold: CaseMap, t: Table, attrs: Attributes, parent: Uuid, m: Uuid, x: Uuid, listed: seq<Uuid>,
                     maxDepth: nat)
    requires Indexed(t) && Describes(attrs, t) && parent in t && m in t && x in t
    requires t[m].parent == parent && t[x].parent == m
    requires forall y | y in t && y != m :: attrs[y].visibility.Public? && !attrs[y].password
    ensures MayInBatch(fold, Caller(NIL, NoRole, {}, true, {}), t, attrs, map[], parent, listed, x, maxDepth, Download)
  {
    UnderStep(t, parent, m);
    UnderStep(t, parent, parent);
    UnderStep(t, m, parent);
    UnderStep(t, m, x);
    UnderStep(t, x, m);
    SharedAvoids(t, parent, m, maxDepth);
  }

  lemma GuardedParentRefuses(fold: CaseMap, t: Table, attrs: Attributes, m: Uuid, x: Uuid, maxDepth: nat)
    requires Indexed(t) && Describes(attrs, t) && m in t && x in t && t[x].parent == m && t[x].depth <= maxDepth
    requires attrs[m].password || !attrs[m].visibility.Public?
    ensures !MayAlone(fold, Caller(NIL, NoRole, {}, true, {}), t, attrs, map[], x, maxDepth, Download)
  {
    var seen := Nearest(Chain(t, x), maxDepth);
    ParentIsSeen(t, x, maxDepth);
    assert GuardedOf(attrs, seen)[|seen| - 1] == attrs[m];
  }

  lemma ParentIsSeen(t: Table, x: Uuid, maxDepth: nat)
    requires Indexed(t) && x in t && t[x].parent in t && t[x].depth <= maxDepth
    ensures var seen := Nearest(Chain(t, x), maxDepth); seen != [] && seen[|seen| - 1] == t[x].parent
  {
    var chain := Chain(t, x);
    assert t[x].depth == |chain| - 1;
    ParentOnChain(t, chain, |chain| - 1);
  }

  /** The shared chain holds no row strictly below the parent. */
  lemma SharedAvoids(t: Table, parent: Uuid, m: Uuid, maxDepth: nat)
    requires Indexed(t) && parent in t && m in t && Under(t, parent, m) && m != parent
    ensures forall i | 0 <= i < |SharedChain(t, parent, maxDepth)| :: SharedChain(t, parent, maxDepth)[i] != m
  {
    var chain := Chain(t, parent);
    if m in chain {
      PrefixScanIsSubtree(t, m, parent, chain);
      OnChainIff(t, m, Chain(t, m), chain);
      FrontOfChain(t, parent, m);
      assert false;
    }
  }

  /** Three public rows, the middle one with a password. */
  function NestedTable(a: Uuid, m: Uuid, x: Uuid): Table {
    var top := ChildPath("/", a);
    var mid := ChildPath(top, m);
    map[a := Row(NIL, "shared", "shared", Folder, NIL, 0, "", Active, top, 0, NIL, None, 0),
        m := Row(a, "locked", "locked", Folder, NIL, 0, "", Active, mid, 1, NIL, None, 0),
        x := Row(m, "file", "file", File, NIL, 0, "k", Active, ChildPath(mid, x), 2, NIL, None, 0)]
  }

  function NestedAttributes(a: Uuid, m: Uuid, x: Uuid): Attributes {
    map y | y in NestedTable(a, m, x) :: Guarded(y, NIL, Public, y == m)
  }

  lemma NestedTableIsIndexed(a: Uuid, m: Uuid, x: Uuid)
    requires a != NIL && m != NIL && x != NIL && a != m && a != x && m != x
    ensures Indexed(NestedTable(a, m, x))
  {
    var t := NestedTable(a, m, x);
    assert Placed(t, a) && Placed(t, m) && Placed(t, x);
  }

  lemma TwoBelow(t: Table, a: Uuid, m: Uuid, x: Uuid)
    requires Indexed(t) && a in t && m in t && x in t && t[m].parent == a && t[x].parent == m
    ensures forall y | y in [a, m, x] :: AtOrBelow(t, a, y)
  {
    UnderStep(t, a, a);
    UnderStep(t, a, m);
    UnderStep(t, a, x);
  }

  lemma LockedFolderIsOverlooked(fold: CaseMap, a: Uuid, m: Uuid, x: Uuid, maxDepth: nat)
    requires a != NIL && m != NIL && x != NIL && a != m && a != x && m != x && maxDepth >= 2
    ensures Indexed(NestedTable(a, m, x)) && Describes(NestedAttributes(a, m, x), NestedTable(a, m, x))
    ensures var t, attrs := NestedTable(a, m, x), NestedAttributes(a, m, x);
            var c := Caller(NIL, NoRole, {}, true, {});
            && (forall y | y in [a, m, x] :: AtOrBelow(t, a, y))
            && MayInBatch(fold, c, t, attrs, map[], a, [a, m, x], x, maxDepth, Download)
            && !MayAlone(fold, c, t, attrs, map[], x, maxDepth, Download)
  {
    NestedTableIsIndexed(a, m, x);
    TwoBelow(NestedTable(a, m, x), a, m, x);
    FolderBetweenIsOverlooked(fold, NestedTable(a, m, x), NestedAttributes(a, m, x), a, m, x, [a, m, x], maxDepth);
  }

  /** Of the shared chain only the parent can be listed as well. */
  lemma OnlyParentLoaded(fold: CaseMap, c: Caller, t: Table, attrs: Attributes, acl: Acl, parent: Uuid,
                         listed: seq<Uuid>, maxDepth: nat, deny: bool, p: Perm)
    requires Indexed(t) && Describes(attrs, t) && forall y | y in listed :: AtOrBelow(t, parent, y)
    ensures RulesAbove(fold, c, LoadedFor(acl, listed), GuardedOf(attrs, SharedChain(t, parent, maxDepth)), deny, p)
       <==> ParentRules(fold, c, acl, parent, listed, deny, p)
  {
    var ids := SharedChain(t, parent, maxDepth);
    var shared := GuardedOf(attrs, ids);
    assert forall i | 0 <= i < |ids| :: shared[i].id == ids[i];
    forall i | 0 <= i < |ids| - 1 ensures ids[i] !in listed {
      SharedAboveUnlisted(t, parent, listed, maxDepth, i);
    }
    OnlyLastLoaded(fold, c, acl, shared, parent, listed, deny, p);
  }

  lemma SharedAboveUnlisted(t: Table, parent: Uuid, listed: seq<Uuid>, maxDepth: nat, i: nat)
    requires Indexed(t) && forall y | y in listed :: AtOrBelow(t, parent, y)
    requires i < |SharedChain(t, parent, maxDepth)| - 1
    ensures SharedChain(t, parent, maxDepth)[i] !in listed
  {
    var chain := Chain(t, parent);
    NoneListedAbove(t, parent, listed, |chain| - |SharedChain(t, parent, maxDepth)| + i);
  }

  lemma OnlyLastLoaded(fold: CaseMap, c: Caller, acl: Acl, shared: seq<Guarded>, parent: Uuid, listed: seq<Uuid>,
                       deny: bool, p: Perm)
    requires if shared == [] then parent !in listed else shared[|shared| - 1].id == parent
    requires forall i | 0 <= i < |shared| - 1 :: shared[i].id !in listed
    ensures RulesAbove(fold, c, LoadedFor(acl, listed), shared, deny, p)
       <==> ParentRules(fold, c, acl, parent, listed, deny, p)
  {
    var loaded := LoadedFor(acl, listed);
    forall i | 0 <= i < |shared|
      ensures EntriesOf(loaded, shared[i].id) == if shared[i].id in listed then EntriesOf(acl, shared[i].id) else []
    {
    }
  }

  lemma ChainShared(t: Table, attrs: Attributes, parent: Uuid, x: Uuid, maxDepth: nat)
    requires Indexed(t) && Describes(attrs, t) && AtOrBelow(t, parent, x) && x != parent && t[x].depth <= maxDepth
    ensures AncestorsOf(t, attrs, x) ==
            GuardedOf(attrs, SharedChain(t, parent, maxDepth)) + GuardedOf(attrs, Between(t, parent, x))
    ensures SeenAncestors(t, attrs, x, maxDepth) == AncestorsOf(t, attrs, x)
  {
    var chain, between := Chain(t, x), Between(t, parent, x);
    var shared := SharedChain(t, parent, maxDepth);
    ChainBelow(t, parent, x);
    ChainNotDeep(t, parent, x);
    WholeChainShared(t, parent, maxDepth);
    assert t[x].depth == |chain| - 1;
    JoinGuarded(attrs, shared, between, chain, x);
    assert Nearest(chain, maxDepth) == chain[..|chain| - 1];
  }

  lemma JoinGuarded(attrs: Attributes, shared: seq<Uuid>, between: seq<Uuid>, chain: seq<Uuid>, x: Uuid)
    requires chain == shared + between + [x] && forall i | 0 <= i < |chain| :: chain[i] in attrs
    ensures forall i | 0 <= i < |shared| :: shared[i] in attrs
    ensures forall i | 0 <= i < |between| :: between[i] in attrs
    ensures GuardedOf(attrs, chain[..|chain| - 1]) == GuardedOf(attrs, shared) + GuardedOf(attrs, between)
  {
    assert forall i | 0 <= i < |shared| :: shared[i] == chain[i];
    assert forall i | 0 <= i < |between| :: between[i] == chain[|shared| + i];
  }

  /** A parent is no deeper than what lies below it. */
  lemma ChainNotDeep(t: Table, parent: Uuid, x: Uuid)
    requires Indexed(t) && AtOrBelow(t, parent, x)
    ensures parent in t ==> t[parent].depth <= t[x].depth
  {
    if parent in t && x != parent {
      FrontOfChain(t, parent, x);
      assert t[parent].depth == |Chain(t, parent)| - 1 && t[x].depth == |Chain(t, x)| - 1;
    }
  }

  lemma OwnChainShared(t: Table, attrs: Attributes, parent: Uuid, maxDepth: nat)
    requires Indexed(t) && Describes(attrs, t) && parent in t && t[parent].depth <= maxDepth
    ensures GuardedOf(attrs, SharedChain(t, parent, maxDepth)) == AncestorsOf(t, attrs, parent) + [attrs[parent]]
    ensures SeenAncestors(t, attrs, parent, maxDepth) == AncestorsOf(t, attrs, parent)
    ensures Between(t, parent, parent) == []
  {
    WholeChainShared(t, parent, maxDepth);
    var chain := Chain(t, parent);
    assert chain == chain[..|chain| - 1] + [parent];
  }

  lemma SplitAbove(fold: CaseMap, c: Caller, acl: Acl, node: Guarded, a: seq<Guarded>, b: seq<Guarded>)
    ensures Readable(c, node, a + b) <==> Readable(c, node, a) && ReadableIn(c, b)
    ensures Locked(c, node, a + b) <==> Locked(c, node, a) || LockedIn(c, b)
  {
    assert forall i | 0 <= i < |b| :: (a + b)[|a| + i] == b[i];
    assert forall i | 0 <= i < |a| :: (a + b)[i] == a[i];
  }

  /** Where the outcome is decided before, the ancestors and their entries make no difference. */
  lemma DecidedAgrees(fold: CaseMap, c: Caller, acl: Acl, loaded: Acl, node: Guarded, above: seq<Guarded>,
                      shared: seq<Guarded>, p: Perm)
    requires EntriesOf(loaded, node.id) == EntriesOf(acl, node.id) && Decided(fold, c, acl, node, p)
    ensures May(fold, c, loaded, node, shared, p) <==> May(fold, c, acl, node, above, p)
  {
  }

  /** The outcome of the batch. */
  lemma SharedOutcome(fold: CaseMap, c: Caller, acl: Acl, loaded: Acl, node: Guarded, shared: seq<Guarded>,
                      parent: Uuid, listed: seq<Uuid>, p: Perm)
    requires EntriesOf(loaded, node.id) == EntriesOf(acl, node.id) && !Decided(fold, c, acl, node, p)
    requires RulesAbove(fold, c, loaded, shared, true, p) <==> ParentRules(fold, c, acl, parent, listed, true, p)
    requires RulesAbove(fold, c, loaded, shared, false, p) <==> ParentRules(fold, c, acl, parent, listed, false, p)
    ensures May(fold, c, loaded, node, shared, p) <==> GrantedByShared(fold, c, acl, node, shared, parent, listed, p)
  {
  }

  /** The outcome of Evaluate for a row below the parent. */
  lemma OutcomeBelow(fold: CaseMap, c: Caller, acl: Acl, node: Guarded, above: seq<Guarded>, shared: seq<Guarded>,
                     between: seq<Guarded>, parent: Uuid, listed: seq<Uuid>, p: Perm)
    requires above == shared + between && !Decided(fold, c, acl, node, p)
    requires ParentRules(fold, c, acl, parent, listed, true, p) ==> RulesAbove(fold, c, acl, above, true, p)
    requires ParentRules(fold, c, acl, parent, listed, false, p) ==> RulesAbove(fold, c, acl, above, false, p)
    ensures May(fold, c, acl, node, above, p) <==>
              if GrantedByShared(fold, c, acl, node, shared, parent, listed, p)
              then !RefusedUnseen(fold, c, acl, node, above, between, p)
              else GrantedUnseen(fold, c, acl, node, above, p)
  {
    SplitAbove(fold, c, acl, node, shared, between);
  }

  lemma AgreesBelow(fold: CaseMap, c: Caller, acl: Acl, loaded: Acl, node: Guarded, above: seq<Guarded>,
                    shared: seq<Guarded>, between: seq<Guarded>, parent: Uuid, listed: seq<Uuid>, p: Perm)
    requires above == shared + between && EntriesOf(loaded, node.id) == EntriesOf(acl, node.id)
    requires parent in listed ==> exists i :: 0 <= i < |shared| && shared[i].id == parent
    requires RulesAbove(fold, c, loaded, shared, true, p) <==> ParentRules(fold, c, acl, parent, listed, true, p)
    requires RulesAbove(fold, c, loaded, shared, false, p) <==> ParentRules(fold, c, acl, parent, listed, false, p)
    ensures (May(fold, c, loaded, node, shared, p) <==> May(fold, c, acl, node, above, p)) <==>
              UnseenDoesNotMatter(fold, c, acl, node, above, shared, between, parent, listed, p)
  {
    if Decided(fold, c, acl, node, p) {
      DecidedAgrees(fold, c, acl, loaded, node, above, shared, p);
    } else {
      SharedOutcome(fold, c, acl, loaded, node, shared, parent, listed, p);
      ParentRulesAbove(fold, c, acl, above, shared, parent, listed, true, p);
      ParentRulesAbove(fold, c, acl, above, shared, parent, listed, false, p);
      OutcomeBelow(fold, c, acl, node, above, shared, between, parent, listed, p);
    }
  }

  lemma AgreesAt(fold: CaseMap, c: Caller, acl: Acl, loaded: Acl, node: Guarded, above: seq<Guarded>,
                 shared: seq<Guarded>, listed: seq<Uuid>, p: Perm)
    requires shared == above + [node] && EntriesOf(loaded, node.id) == EntriesOf(acl, node.id)
    requires RulesAbove(fold, c, loaded, shared, true, p) <==> ParentRules(fold, c, acl, node.id, listed, true, p)
    requires RulesAbove(fold, c, loaded, shared, false, p) <==> ParentRules(fold, c, acl, node.id, listed, false, p)
    ensures (May(fold, c, loaded, node, shared, p) <==> May(fold, c, acl, node, above, p)) <==>
              UnseenDoesNotMatter(fold, c, acl, node, above, shared, [], node.id, listed, p)
  {
    if Decided(fold, c, acl, node, p) {
      DecidedAgrees(fold, c, acl, loaded, node, above, shared, p);
    } else {
      SharedOutcome(fold, c, acl, loaded, node, shared, node.id, listed, p);
      OutcomeAt(fold, c, acl, node, above, shared, listed, p);
    }
  }

  /** The outcome of Evaluate for the parent itself. */
  lemma OutcomeAt(fold: CaseMap, c: Caller, acl: Acl, node: Guarded, above: seq<Guarded>, shared: seq<Guarded>,
                  listed: seq<Uuid>, p: Perm)
    requires shared == above + [node] && !Decided(fold, c, acl, node, p)
    ensures May(fold, c, acl, node, above, p) <==>
              if GrantedByShared(fold, c, acl, node, shared, node.id, listed, p)
              then !RefusedUnseen(fold, c, acl, node, above, [], p) else GrantedUnseen(fold, c, acl, node, above, p)
  {
    SplitAbove(fold, c, acl, node, above, [node]);
    WithoutInheritance(fold, c, EntriesOf(acl, node.id), true, p);
    WithoutInheritance(fold, c, EntriesOf(acl, node.id), false, p);
  }

  lemma ParentRulesAbove(fold: CaseMap, c: Caller, acl: Acl, above: seq<Guarded>, shared: seq<Guarded>, parent: Uuid,
                         listed: seq<Uuid>, deny: bool, p: Perm)
    requires shared <= above && (parent in listed ==> exists i :: 0 <= i < |shared| && shared[i].id == parent)
    ensures ParentRules(fold, c, acl, parent, listed, deny, p) ==> RulesAbove(fold, c, acl, above, deny, p)
  {
    if parent in listed {
      var i :| 0 <= i < |shared| && shared[i].id == parent;
      assert above[i] == shared[i];
    }
  }

  lemma WithoutInheritance(fold: CaseMap, c: Caller, es: seq<Entry>, deny: bool, p: Perm)
    ensures Rules(fold, c, es, deny, !deny, p) ==> Rules(fold, c, es, deny, false, p)
  {
  }
}
