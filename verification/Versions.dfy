/** Retained revisions (internal/data/file.go and trimVersions of internal/biz/file.go). */
module Versions {
  import opened Ids

  datatype Version = Version(node: Uuid, number: int, key: string, size: int)

  type History = map<Uuid, Version>

  function Of(vs: History, node: Uuid): set<Uuid> {
    set v | v in vs && vs[v].node == node
  }

  /** The unique index on (node, version number). */
  ghost predicate Numbered(vs: History) {
    forall v, w {:trigger Clash(vs, v, w)} | v in vs && w in vs && Clash(vs, v, w) :: v == w
  }

  predicate Clash(vs: History, v: Uuid, w: Uuid)
    requires v in vs && w in vs
  {
    vs[v].node == vs[w].node && vs[v].number == vs[w].number
  }

  lemma DroppingKeepsNumbered(vs: History, s: set<Uuid>)
    requires Numbered(vs)
    ensures Numbered(vs - s)
  {
    forall v, w | v in vs - s && w in vs - s && Clash(vs - s, v, w) ensures v == w {
      assert Clash(vs, v, w);
    }
  }

  /** The answer of ListVersions: newest first, cut at the limit. */
  ghost predicate IsListing(vs: History, node: Uuid, limit: nat, list: seq<Uuid>) {
    && (forall i | 0 <= i < |list| :: list[i] in Of(vs, node))
    && (forall i, j | 0 <= i < j < |list| :: vs[list[i]].number > vs[list[j]].number)
    && (forall v | v in Of(vs, node) && v !in list :: |list| == limit
          && forall i | 0 <= i < |list| :: vs[list[i]].number > vs[v].number)
    && |list| <= limit
  }

  method ListVersions(vs: History, node: Uuid, limit: nat) returns (list: seq<Uuid>)
    requires Numbered(vs)
    ensures IsListing(vs, node, limit, list)
  {
    list := [];
    var left := Of(vs, node);
    while left != {} && |list| < limit
      invariant left <= Of(vs, node) && |list| <= limit
      invariant forall v :: v in Of(vs, node) <==> v in left || v in list
      invariant forall i | 0 <= i < |list| :: list[i] in vs && list[i] !in left
      invariant forall i, j | 0 <= i < j < |list| :: vs[list[i]].number > vs[list[j]].number
      invariant forall i, v | 0 <= i < |list| && v in left :: vs[list[i]].number > vs[v].number
      decreases left
    {
      var newest := Newest(vs, left);
      list := list + [newest];
      left := left - {newest};
    }
  }

  method Newest(vs: History, s: set<Uuid>) returns (newest: Uuid)
    requires s != {} && s <= vs.Keys && Numbered(vs)
    requires forall v, w | v in s && w in s :: vs[v].node == vs[w].node
    ensures newest in s
    ensures forall v | v in s && v != newest :: vs[newest].number > vs[v].number
  {
    newest :| newest in s;
    var left := s - {newest};
    while left != {}
      invariant left <= s && newest in s
      invariant forall v | v in s && v !in left && v != newest :: vs[newest].number > vs[v].number
    {
      var v :| v in left;
      left := left - {v};
      assert !Clash(vs, v, newest) || v == newest;
      if vs[v].number > vs[newest].number { newest := v; }
    }
  }

  /** The number NextVersionNumber hands out, seen from the stored rows. */
  ghost predicate IsNext(vs: History, node: Uuid, n: int) {
    && (forall v | v in Of(vs, node) :: vs[v].number < n)
    && (Of(vs, node) == {} ==> n == 1)
    && (Of(vs, node) != {} ==> exists v :: v in Of(vs, node) && vs[v].number == n - 1)
  }

  method NextVersionNumber(vs: History, node: Uuid) returns (n: int)
    requires Numbered(vs)
    ensures IsNext(vs, node, n)
  {
    var newest := ListVersions(vs, node, 1);
    if newest == [] {
      assert forall v | v in Of(vs, node) :: v in newest;
      n := 1;
    } else {
      n := vs[newest[0]].number + 1;
    }
  }

  // ---- Trimming ---------------------------------------------------------------------------

  function ToSet(list: seq<Uuid>): set<Uuid> {
    set v | v in list
  }

  /** What trimVersions drops from a listing, and the count it leaves on the node. */
  function Dropped(list: seq<Uuid>, keep: nat): seq<Uuid> {
    if |list| <= keep then [] else list[keep..]
  }

  function CountAfterTrim(list: seq<Uuid>, keep: nat): nat {
    if |list| <= keep then |list| else keep
  }

  lemma {:induction false} ListingSize(vs: History, node: Uuid, limit: nat, list: seq<Uuid>)
    requires IsListing(vs, node, limit, list)
    ensures |ToSet(list)| == |list| && ToSet(list) <= Of(vs, node)
    ensures |Of(vs, node)| <= limit ==> ToSet(list) == Of(vs, node)
    ensures |list| == if |Of(vs, node)| <= limit then |Of(vs, node)| else limit
  {
    DistinctSize(list);
    Smaller(ToSet(list), Of(vs, node));
    if exists v :: v in Of(vs, node) && v !in list {
      var v :| v in Of(vs, node) && v !in list;
      assert |list| == limit;
      Smaller(ToSet(list) + {v}, Of(vs, node));
    } else {
      assert ToSet(list) == Of(vs, node);
    }
  }

  lemma {:induction false} DistinctSize(list: seq<Uuid>)
    requires forall i, j | 0 <= i < j < |list| :: list[i] != list[j]
    ensures |ToSet(list)| == |list|
  {
    if list != [] {
      var front := list[..|list| - 1];
      DistinctSize(front);
      assert ToSet(list) == ToSet(front) + {list[|list| - 1]};
    }
  }

  lemma {:induction false} Smaller<T>(a: set<T>, b: set<T>)
    requires a <= b
    ensures |a| <= |b| && (|a| == |b| ==> a == b)
  {
    if a != {} {
      var x :| x in a;
      Smaller(a - {x}, b - {x});
    } else if b != {} {
      assert |b| > 0;
    }
  }

  /** A trim keeps the newest revisions, drops exactly the others, and leaves the node's count
      equal to what is stored, if and only if the listing was not cut by its limit. */
  lemma TrimIsExactIff(vs: History, node: Uuid, limit: nat, list: seq<Uuid>, keep: nat)
    requires Numbered(vs) && IsListing(vs, node, limit, list)
    ensures var rest := Of(vs - ToSet(Dropped(list, keep)), node);
            && (|rest| == CountAfterTrim(list, keep) <==> |Of(vs, node)| <= limit)
            && (|Of(vs, node)| <= limit ==> |rest| <= keep)
            && (forall v, d | v in rest && d in Dropped(list, keep) && |Of(vs, node)| <= limit ::
                  vs[v].number > vs[d].number)
  {
    var dropped := Dropped(list, keep);
    var rest := Of(vs - ToSet(dropped), node);
    ListingSize(vs, node, limit, list);
    DistinctSize(dropped);
    assert ToSet(dropped) <= ToSet(list);
    assert rest == Of(vs, node) - ToSet(dropped);
    assert |rest| == |Of(vs, node)| - |dropped|;
    if |Of(vs, node)| <= limit {
      forall v, d | v in rest && d in dropped ensures vs[v].number > vs[d].number {
        assert v in ToSet(list) && d in list[keep..];
      }
    }
  }

  lemma AppendToSet(kids: seq<Uuid>, c: Uuid)
    ensures ToSet(kids + [c]) == ToSet(kids) + {c}
    ensures c !in ToSet(kids) <==> c !in kids
  {
  }

  lemma CutListing(kids: seq<Uuid>, left: set<Uuid>, all: set<Uuid>)
    requires ToSet(kids) == all - left && left <= all
    requires forall i, j | 0 <= i < j < |kids| :: kids[i] != kids[j]
    ensures forall i | 0 <= i < |kids| :: kids[i] in all
    ensures left != {} ==> |all| > |kids|
  {
    DistinctSize(kids);
    assert forall i | 0 <= i < |kids| :: kids[i] in ToSet(kids);
    assert all == ToSet(kids) + left;
    assert |all| == |ToSet(kids)| + |left|;
  }
}
