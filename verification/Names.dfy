/** Sibling names: case folding, the extension split and conflict resolution
    (internal/data/node.go and internal/biz/node.go). */
module Names {
  import opened Ids
  import opened Tree

  /** strings.ToLower works rune by rune; which rune goes where is a parameter. */
  type CaseMap = char -> char

  datatype Policy = Fail | Rename | Overwrite

  const MAX_CANDIDATE := 99999
  const MAX_EXTENSION := 16

  function Lower(fold: CaseMap, s: string): (r: string)
    ensures |r| == |s|
  {
    seq(|s|, i requires 0 <= i < |s| => fold(s[i]))
  }

  /** Two names fold alike exactly when they have one length and fold alike letter by letter. */
  lemma FoldAlikeIff(fold: CaseMap, a: string, b: string)
    ensures Lower(fold, a) == Lower(fold, b) <==>
              |a| == |b| && forall i | 0 <= i < |a| :: fold(a[i]) == fold(b[i])
  {
    if Lower(fold, a) == Lower(fold, b) {
      forall i | 0 <= i < |a| ensures fold(a[i]) == fold(b[i]) {
        assert Lower(fold, a)[i] == Lower(fold, b)[i];
      }
    }
  }

  lemma LowerConcat(fold: CaseMap, a: string, b: string)
    ensures Lower(fold, a + b) == Lower(fold, a) + Lower(fold, b)
  {
  }

  /** path.Ext: the suffix from the last dot of the last path element. */
  function Ext(name: string): (e: string)
    ensures |e| <= |name| && e == name[|name| - |e|..]
  {
    ExtFrom(name, |name|)
  }

  function ExtFrom(name: string, n: nat): (e: string)
    requires n <= |name|
    ensures |e| <= |name| && e == name[|name| - |e|..]
  {
    if n == 0 || name[n - 1] == '/' then ""
    else if name[n - 1] == '.' then name[n - 1..]
    else ExtFrom(name, n - 1)
  }

  /** splitName: an over-long or all-embracing extension is no extension. */
  function SplitName(name: string): (r: (string, string))
    ensures r.0 + r.1 == name
    ensures name != "" ==> r.0 != ""
    ensures |r.1| <= MAX_EXTENSION
  {
    var ext := Ext(name);
    if ext == "" || |ext| > MAX_EXTENSION || |ext| == |name| then (name, "")
    else (name[..|name| - |ext|], ext)
  }

  function Candidate(name: string, i: nat): string {
    var (base, ext) := SplitName(name);
    base + " (" + Text(i) + ")" + ext
  }

  /** The extension is what follows the last dot of the name, with the dot, when that is short and something is before
      it. */
  lemma SplitAtLastDot(name: string, base: string, ext: string)
    requires name == base + ext && base != "" && 0 < |ext| <= MAX_EXTENSION && ext[0] == '.'
    requires forall i | 0 < i < |ext| :: ext[i] != '.' && ext[i] != '/'
    ensures SplitName(name) == (base, ext)
  {
    ExtAtDot(name, base, ext, |ext|);
    SplitWhere(name, base, ext);
  }

  lemma SplitWhere(name: string, base: string, ext: string)
    requires name == base + ext && ExtFrom(name, |name|) == ext && base != "" && 0 < |ext| <= MAX_EXTENSION
    ensures SplitName(name) == (base, ext)
  {
    assert name[..|name| - |ext|] == base;
  }

  lemma {:induction false} ExtAtDot(name: string, base: string, ext: string, k: nat)
    requires name == base + ext && 0 < k <= |ext| && ext[0] == '.'
    requires forall i | 0 < i < |ext| :: ext[i] != '.' && ext[i] != '/'
    ensures ExtFrom(name, |base| + k) == ext
  {
    assert name[|base| + k - 1] == ext[k - 1];
    if k == 1 {
      assert name[|base|..] == ext;
    } else {
      ExtAtDot(name, base, ext, k - 1);
    }
  }

  lemma NoDotNoExtension(name: string)
    requires '.' !in name
    ensures SplitName(name) == (name, "")
  {
    NoDotSoFar(name, |name|);
  }

  lemma {:induction false} NoDotSoFar(name: string, n: nat)
    requires n <= |name| && '.' !in name
    ensures ExtFrom(name, n) == ""
  {
    if n > 0 { NoDotSoFar(name, n - 1); }
  }

  lemma MiddleIsSame(front: string, a: string, b: string, tail: string)
    requires front + (a + tail) == front + (b + tail)
    ensures a == b
  {
    var whole := front + (a + tail);
    assert |a| == |b|;
    assert a == whole[|front|..|front| + |a|] == b;
  }

  /** Different numbers give different names. */
  lemma CandidatesDiffer(name: string, i: nat, j: nat)
    requires Candidate(name, i) == Candidate(name, j)
    ensures i == j
  {
    var (base, ext) := SplitName(name);
    CandidateParts(base, Text(i), ext);
    CandidateParts(base, Text(j), ext);
    MiddleIsSame(base + " (", Text(i), Text(j), ")" + ext);
    TextInjective(i, j);
  }

  lemma CandidateParts(base: string, number: string, ext: string)
    ensures base + " (" + number + ")" + ext == (base + " (") + (number + (")" + ext))
  {
  }

  predicate Contains(s: string, sub: string) {
    exists i | 0 <= i <= |s| :: OccursAt(s, sub, i)
  }

  predicate OccursAt(s: string, sub: string, i: nat) {
    i + |sub| <= |s| && s[i..i + |sub|] == sub
  }

  /** Does an active child of `parent`, other than `except`, carry this name once folded? */
  predicate Taken(t: Table, parent: Uuid, lowered: string, except: Uuid) {
    exists x | x in t :: x != except && t[x].parent == parent && t[x].status.Active? && t[x].nameLower == lowered
  }

  lemma ContainsFront(a: string, b: string)
    ensures Contains(a + b, a)
  {
    assert OccursAt(a + b, a, 0);
  }

  /** A candidate's folded text starts with the folded base, so the listing by containment that
      NextAvailableName loads misses no row that could collide with a candidate. */
  lemma CandidateContainsBase(fold: CaseMap, name: string, i: nat)
    ensures Contains(Lower(fold, Candidate(name, i)), Lower(fold, SplitName(name).0))
  {
    var (base, ext) := SplitName(name);
    var rest := " (" + Text(i) + ")" + ext;
    assert Candidate(name, i) == base + rest;
    LowerConcat(fold, base, rest);
    ContainsFront(Lower(fold, base), Lower(fold, rest));
  }

  predicate CandidateTaken(t: Table, fold: CaseMap, parent: Uuid, name: string, i: nat) {
    Taken(t, parent, Lower(fold, Candidate(name, i)), NIL)
  }

  /** The folded names that NextAvailableName loads: those of active siblings that contain the base. */
  function Loaded(t: Table, parent: Uuid, base: string): set<string> {
    set x | x in t && t[x].parent == parent && t[x].status.Active? && Contains(t[x].nameLower, base) :: t[x].nameLower
  }

  /** For a candidate it is enough to look at what was loaded. */
  lemma LoadedIsEnough(t: Table, fold: CaseMap, parent: Uuid, name: string, i: nat)
    requires NIL !in t
    ensures Lower(fold, Candidate(name, i)) in Loaded(t, parent, Lower(fold, SplitName(name).0)) <==>
              CandidateTaken(t, fold, parent, name, i)
  {
    CandidateContainsBase(fold, name, i);
    SameQuestion(t, parent, Lower(fold, Candidate(name, i)), Lower(fold, SplitName(name).0));
  }

  lemma SameQuestion(t: Table, parent: Uuid, lowered: string, base: string)
    requires NIL !in t && Contains(lowered, base)
    ensures lowered in Loaded(t, parent, base) <==> Taken(t, parent, lowered, NIL)
  {
  }

  method NextAvailableName(t: Table, fold: CaseMap, parent: Uuid, name: string) returns (r: Result<string>)
    requires NIL !in t
    ensures r.Ok? ==> !Taken(t, parent, Lower(fold, r.value), NIL)
    ensures r.Ok? ==> exists i :: 1 <= i <= MAX_CANDIDATE && r.value == Candidate(name, i)
                                  && forall j :: 1 <= j < i ==> CandidateTaken(t, fold, parent, name, j)
    ensures r.Err? <==> forall j :: 1 <= j <= MAX_CANDIDATE ==> CandidateTaken(t, fold, parent, name, j)
    ensures r.Ok? ==> var (base, ext) := SplitName(name);
                      base <= r.value && |base| + |ext| < |r.value| && r.value[|r.value| - |ext|..] == ext
    ensures r.Err? ==> r.error == NameConflict
  {
    var taken := Loaded(t, parent, Lower(fold, SplitName(name).0));
    var i := 1;
    while i <= MAX_CANDIDATE
      invariant 1 <= i <= MAX_CANDIDATE + 1
      invariant forall j :: 1 <= j < i ==> CandidateTaken(t, fold, parent, name, j)
    {
      var candidate := Candidate(name, i);
      LoadedIsEnough(t, fold, parent, name, i);
      if Lower(fold, candidate) !in taken {
        assert !CandidateTaken(t, fold, parent, name, i);
        return Ok(candidate);
      }
      i := i + 1;
    }
    r := Err(NameConflict);
  }

  /** A name can be given: it is free, or another one may be found and is. */
  ghost predicate Resolvable(t: Table, fold: CaseMap, parent: Uuid, name: string, policy: Policy, except: Uuid) {
    || !Taken(t, parent, Lower(fold, name), except)
    || (policy.Rename? && exists i :: 1 <= i <= MAX_CANDIDATE && !CandidateTaken(t, fold, parent, name, i))
  }

  /** The name is the wanted one, or the first free candidate because that one is taken and may be replaced. */
  ghost predicate IsResolved(t: Table, fold: CaseMap, parent: Uuid, name: string, policy: Policy, except: Uuid,
                             given: string) {
    if !Taken(t, parent, Lower(fold, name), except) then given == name
    else policy.Rename? && exists i :: 1 <= i <= MAX_CANDIDATE && given == Candidate(name, i)
                                       && !CandidateTaken(t, fold, parent, name, i)
                                       && forall j :: 1 <= j < i ==> CandidateTaken(t, fold, parent, name, j)
  }

  /** What a name can become: itself, or one of its candidates when it may be replaced. */
  ghost predicate NamedFrom(name: string, policy: Policy, given: string) {
    given == name || (policy.Rename? && exists i :: 1 <= i <= MAX_CANDIDATE && given == Candidate(name, i))
  }

  /** resolveName: a free name is kept, a taken one is replaced or refused. */
  method ResolveName(t: Table, fold: CaseMap, parent: Uuid, name: string, policy: Policy, except: Uuid)
    returns (r: Result<string>)
    requires NIL !in t
    ensures r.Ok? <==> Resolvable(t, fold, parent, name, policy, except)
    ensures r.Ok? ==>
              !Taken(t, parent, Lower(fold, r.value), except)
              && IsResolved(t, fold, parent, name, policy, except, r.value)
    ensures r.Ok? && r.value != name ==> policy.Rename?
    ensures r.Ok? ==> forall x | x in t && x != except && t[x].parent == parent && t[x].status.Active? ::
                        t[x].nameLower != Lower(fold, r.value)
    ensures r.Ok? && r.value != name ==>
              exists x :: x in t && x != except && t[x].parent == parent && t[x].status.Active?
                          && t[x].nameLower == Lower(fold, name)
    ensures r.Err? ==> r.error == NameConflict
  {
    if !Taken(t, parent, Lower(fold, name), except) {
      return Ok(name);
    }
    if policy.Rename? {
      r := NextAvailableName(t, fold, parent, name);
    } else {
      r := Err(NameConflict);
    }
  }
}
