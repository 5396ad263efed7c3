/** What access evaluation means for the people concerned, told from the fields of callers, nodes and entries. */
module AccessLaws {
  import opened Ids
  import opened Names
  import opened Access

  predicate SignedIn(c: Caller) {
    !c.anonymous && c.id != NIL
  }

  /** The caller owns the node or is the administrator. */
  predicate InCharge(c: Caller, node: Guarded) {
    SignedIn(c) && (c.role == Admin || node.owner == c.id)
  }

  /** The entry is addressed to another account or role, or to any account while the caller has none. */
  predicate ForOthers(fold: CaseMap, e: Entry, c: Caller) {
    match e.subjectType
    case Everyone => false
    case OneUser => !SignedIn(c) || e.subject != Text(c.id)
    case OneRole => !SignedIn(c) || Lower(fold, e.subject) != Lower(fold, RoleName(c.role))
    case NoSubject => true
  }

  /** The list without the entries for others. */
  function Without(fold: CaseMap, es: seq<Entry>, c: Caller): seq<Entry> {
    if es == [] then []
    else
      var last := es[|es| - 1];
      Without(fold, es[..|es| - 1], c) + if ForOthers(fold, last, c) then [] else [last]
  }

  lemma {:induction false} WithoutHolds(fold: CaseMap, es: seq<Entry>, c: Caller, e: Entry)
    ensures e in Without(fold, es, c) <==> e in es && !ForOthers(fold, e, c)
  {
    if es != [] {
      WithoutHolds(fold, es[..|es| - 1], c, e);
      assert es == es[..|es| - 1] + [es[|es| - 1]];
    }
  }

  /** Every list of the table without the entries for others. */
  function Addressed(fold: CaseMap, acl: Acl, c: Caller): Acl {
    map x | x in acl :: Without(fold, acl[x], c)
  }

  lemma RulesOfAddressed(fold: CaseMap, c: Caller, es: seq<Entry>, deny: bool, inheritedOnly: bool, p: Perm)
    ensures Rules(fold, c, Without(fold, es, c), deny, inheritedOnly, p) <==> Rules(fold, c, es, deny, inheritedOnly, p)
  {
    forall e ensures e in Without(fold, es, c) <==> e in es && !ForOthers(fold, e, c) { WithoutHolds(fold, es, c, e); }
    RulesByEntry(fold, c, es, deny, inheritedOnly, p);
    RulesByEntry(fold, c, Without(fold, es, c), deny, inheritedOnly, p);
  }

  predicate Says(fold: CaseMap, c: Caller, e: Entry, deny: bool, inheritedOnly: bool, p: Perm) {
    Matches(fold, e, c) && e.deny == deny && (inheritedOnly ==> e.inherit) && p in e.perms
  }

  lemma RulesByEntry(fold: CaseMap, c: Caller, es: seq<Entry>, deny: bool, inheritedOnly: bool, p: Perm)
    ensures Rules(fold, c, es, deny, inheritedOnly, p) <==>
              exists e :: e in es && Says(fold, c, e, deny, inheritedOnly, p)
  {
    if i :| 0 <= i < |es| && Matches(fold, es[i], c) && es[i].deny == deny && (inheritedOnly ==> es[i].inherit)
            && p in es[i].perms {
      assert es[i] in es && Says(fold, c, es[i], deny, inheritedOnly, p);
    }
  }

  lemma RulesAboveOfAddressed(fold: CaseMap, c: Caller, acl: Acl, ancestors: seq<Guarded>, deny: bool, p: Perm)
    ensures RulesAbove(fold, c, Addressed(fold, acl, c), ancestors, deny, p) <==>
            RulesAbove(fold, c, acl, ancestors, deny, p)
  {
    forall i | 0 <= i < |ancestors|
      ensures Rules(fold, c, EntriesOf(Addressed(fold, acl, c), ancestors[i].id), deny, !deny, p) <==>
              Rules(fold, c, EntriesOf(acl, ancestors[i].id), deny, !deny, p)
    {
      RulesOfAddressed(fold, c, EntriesOf(acl, ancestors[i].id), deny, !deny, p);
    }
  }

  /** Entries addressed to others make no difference: taken out, the outcome is the same. */
  lemma OthersDoNotMatter(fold: CaseMap, c: Caller, acl: Acl, node: Guarded, ancestors: seq<Guarded>, p: Perm)
    ensures May(fold, c, Addressed(fold, acl, c), node, ancestors, p) <==> May(fold, c, acl, node, ancestors, p)
  {
    var kept := Addressed(fold, acl, c);
    RulesOfAddressed(fold, c, EntriesOf(acl, node.id), true, false, p);
    RulesOfAddressed(fold, c, EntriesOf(acl, node.id), false, false, p);
    RulesAboveOfAddressed(fold, c, acl, ancestors, true, p);
    RulesAboveOfAddressed(fold, c, acl, ancestors, false, p);
    assert EntriesOf(kept, node.id) == Without(fold, EntriesOf(acl, node.id), c);
    SameRulesSameOutcome(fold, c, acl, kept, node, ancestors, p);
  }

  lemma SameRulesSameOutcome(fold: CaseMap, c: Caller, acl: Acl, acl': Acl, node: Guarded, ancestors: seq<Guarded>,
                             p: Perm)
    requires Denied(fold, c, acl', node, ancestors, p) <==> Denied(fold, c, acl, node, ancestors, p)
    requires Allowed(fold, c, acl', node, ancestors, p) <==> Allowed(fold, c, acl, node, ancestors, p)
    ensures May(fold, c, acl', node, ancestors, p) <==> May(fold, c, acl, node, ancestors, p)
  {
  }

  /** The node, for 0, and its ancestors from the nearest on. */
  function OnChain(node: Guarded, ancestors: seq<Guarded>, k: nat): Guarded
    requires k <= |ancestors|
  {
    if k == 0 then node else ancestors[|ancestors| - k]
  }

  /** An entry stands at the node or, inheritable, at an ancestor. */
  predicate Stands(acl: Acl, node: Guarded, ancestors: seq<Guarded>, e: Entry, k: nat) {
    k <= |ancestors| && e in EntriesOf(acl, OnChain(node, ancestors, k).id) && (k > 0 && !e.deny ==> e.inherit)
  }

  lemma StandingRules(fold: CaseMap, c: Caller, acl: Acl, node: Guarded, ancestors: seq<Guarded>, e: Entry, k: nat,
                      p: Perm)
    requires Stands(acl, node, ancestors, e, k) && !ForOthers(fold, e, c) && p in e.perms
    ensures e.deny ==> Denied(fold, c, acl, node, ancestors, p)
    ensures !e.deny ==> Allowed(fold, c, acl, node, ancestors, p)
  {
    var es := EntriesOf(acl, OnChain(node, ancestors, k).id);
    var i :| 0 <= i < |es| && es[i] == e;
    assert Matches(fold, es[i], c);
    if k > 0 {
      assert Rules(fold, c, EntriesOf(acl, ancestors[|ancestors| - k].id), e.deny, !e.deny, p);
    }
  }

  /** An allow for everyone, for the caller's account or for its role, at the node or inheritable above, grants what it
      names within the scope and the ceiling, where nothing denies and nothing is locked. */
  lemma OwnAllowGrants(fold: CaseMap, c: Caller, acl: Acl, node: Guarded, ancestors: seq<Guarded>, e: Entry, k: nat,
                       p: Perm)
    requires Stands(acl, node, ancestors, e, k) && !e.deny && p in e.perms && !ForOthers(fold, e, c)
    requires p in {View, Download, Upload, Edit, Delete, TrashManage, Share, AclManage}
    requires if SignedIn(c) then p in c.perms else p in {View, Download}
    requires !Denied(fold, c, acl, node, ancestors, p)
    requires forall j | 0 <= j <= |ancestors| :: var n := OnChain(node, ancestors, j); !n.password || n.id in c.unlocked
    ensures May(fold, c, acl, node, ancestors, p)
  {
    StandingRules(fold, c, acl, node, ancestors, e, k, p);
    NothingLocked(c, node, ancestors);
  }

  lemma NothingLocked(c: Caller, node: Guarded, ancestors: seq<Guarded>)
    ensures Locked(c, node, ancestors) <==>
            exists j :: 0 <= j <= |ancestors| && OnChain(node, ancestors, j).password
                        && OnChain(node, ancestors, j).id !in c.unlocked
  {
    assert OnChain(node, ancestors, 0) == node;
    assert forall i | 0 <= i < |ancestors| :: OnChain(node, ancestors, |ancestors| - i) == ancestors[i];
  }

  /** A deny for everyone, for the caller's account or for its role, anywhere on the chain, takes what it names from
      everybody who is not in charge. */
  lemma OwnDenyTakes(fold: CaseMap, c: Caller, acl: Acl, node: Guarded, ancestors: seq<Guarded>, e: Entry, k: nat,
                     p: Perm)
    requires Stands(acl, node, ancestors, e, k) && e.deny && p in e.perms && !ForOthers(fold, e, c)
             && !InCharge(c, node)
    ensures !May(fold, c, acl, node, ancestors, p)
  {
    StandingRules(fold, c, acl, node, ancestors, e, k, p);
  }

  /** Who is in charge may do exactly what the account may, of what concerns a node; nothing stands in the way. */
  lemma InChargeMayAll(fold: CaseMap, c: Caller, acl: Acl, node: Guarded, ancestors: seq<Guarded>, p: Perm)
    requires InCharge(c, node)
    ensures May(fold, c, acl, node, ancestors, p) <==>
            p in c.perms && p in {View, Download, Upload, Edit, Delete, TrashManage, Share, AclManage}
  {
  }

  /** Nobody may do more than the account allows, and who is not signed in may at most look and download. */
  lemma CeilingHolds(fold: CaseMap, c: Caller, acl: Acl, node: Guarded, ancestors: seq<Guarded>, p: Perm)
    requires May(fold, c, acl, node, ancestors, p)
    ensures if SignedIn(c) then p in c.perms else p in {View, Download}
    ensures p !in {UserManage, AuditRead, StorageManage, SystemManage}
  {
  }

  /** Behind a password that the caller has not given there is nothing but the view, except for who is in charge. */
  lemma PasswordShuts(fold: CaseMap, c: Caller, acl: Acl, node: Guarded, ancestors: seq<Guarded>, k: nat, p: Perm)
    requires k <= |ancestors| && OnChain(node, ancestors, k).password && OnChain(node, ancestors, k).id !in c.unlocked
    requires !InCharge(c, node) && May(fold, c, acl, node, ancestors, p)
    ensures p == View
  {
    NothingLocked(c, node, ancestors);
  }

  /** Where no entry says anything and nothing is locked, looking and downloading go by visibility: every node of the
      chain is public, or internal for who is signed in and whose account allows it. Nothing else goes. */
  lemma VisibilityDecides(fold: CaseMap, c: Caller, acl: Acl, node: Guarded, ancestors: seq<Guarded>, p: Perm)
    requires !InCharge(c, node)
    requires forall k | 0 <= k <= |ancestors| :: var n := OnChain(node, ancestors, k);
               EntriesOf(acl, n.id) == [] && (n.password ==> n.id in c.unlocked)
    ensures May(fold, c, acl, node, ancestors, p) <==>
            && p in {View, Download} && (SignedIn(c) ==> p in c.perms)
            && forall k | 0 <= k <= |ancestors| :: var v := OnChain(node, ancestors, k).visibility;
                 v == Public || (v == Internal && SignedIn(c))
  {
    NothingLocked(c, node, ancestors);
    assert OnChain(node, ancestors, 0) == node;
    assert forall i | 0 <= i < |ancestors| :: OnChain(node, ancestors, |ancestors| - i) == ancestors[i];
  }

  /** The machine name of a role addresses the signed-in accounts of that role and nobody else. */
  lemma RoleEntryAppliesIff(fold: CaseMap, e: Entry, c: Caller)
    requires e.subjectType == OneRole && e.perms != {} && forall ch | 'a' <= ch <= 'z' :: fold(ch) == ch
    requires e.subject in {"admin", "manager", "user", "guest"}
    ensures Matches(fold, e, c) <==>
            SignedIn(c) && c.role == if e.subject == "admin" then Admin else if e.subject == "manager" then Manager
                                     else if e.subject == "user" then User else Guest
  {
    SmallLettersStay(fold, e.subject);
    SmallLettersStay(fold, RoleName(c.role));
    assert |"admin"| == 5 && |"manager"| == 7 && |"user"| == 4 && |"guest"| == 5 && "admin"[0] != "guest"[0];
  }

  lemma SmallLettersStay(fold: CaseMap, s: string)
    requires forall ch | 'a' <= ch <= 'z' :: fold(ch) == ch
    requires forall i | 0 <= i < |s| :: 'a' <= s[i] <= 'z'
    ensures Lower(fold, s) == s
  {
  }
}
