/** Materialised paths (internal/biz/node.go, ChildPath) and what a prefix test on them means. */
module Paths {
  import opened Ids

  /** The path of a child, as the source builds it: an empty or unterminated parent path is
      completed with a slash first. */
  function ChildPath(parentPath: string, id: Uuid): string {
    var rooted := if parentPath == "" then "/" else parentPath;
    var closed := if rooted[|rooted| - 1] != '/' then rooted + "/" else rooted;
    closed + Text(id) + "/"
  }

  /** A path in the form every stored path has: it ends with a slash. */
  predicate Closed(p: string) {
    p != "" && p[|p| - 1] == '/'
  }

  /** The path that names a chain of identifiers from the root down. */
  function Render(chain: seq<Uuid>): (p: string)
    ensures Closed(p) && (chain != [] ==> |p| > 1)
  {
    if chain == [] then "/" else ChildPath(Render(chain[..|chain| - 1]), chain[|chain| - 1])
  }

  /** A closed prefix of a child's path is a prefix of the parent's path or the whole path:
      identifiers hold no slash, so a prefix scan never splits one. */
  lemma PrefixOfChild(p: string, parentPath: string, id: Uuid)
    requires Closed(p) && Closed(parentPath)
    ensures p <= ChildPath(parentPath, id) <==> p <= parentPath || p == ChildPath(parentPath, id)
  {
    var whole := ChildPath(parentPath, id);
    assert whole == parentPath + (Text(id) + "/");
    assert forall i | |parentPath| <= i < |whole| - 1 :: whole[i] == Text(id)[i - |parentPath|];
    assert p <= whole ==> p[|p| - 1] == whole[|p| - 1];
  }

  /** Two children with the same path are the same child of parents with the same path. */
  lemma ChildPathInjective(p: string, a: Uuid, q: string, b: Uuid)
    requires Closed(p) && Closed(q) && ChildPath(p, a) == ChildPath(q, b)
    ensures p == q && a == b
  {
    SameParent(p, a, q, b);
    ChildPathRest(p, a);
    ChildPathRest(q, b);
    TextInjective(a, b);
  }

  lemma SameParent(p: string, a: Uuid, q: string, b: Uuid)
    requires Closed(p) && Closed(q) && ChildPath(p, a) == ChildPath(q, b)
    ensures p == q
  {
    PrefixOfChild(p, q, b);
    PrefixOfChild(q, p, a);
    assert p <= ChildPath(p, a) && |p| < |ChildPath(p, a)|;
    assert q <= ChildPath(q, b) && |q| < |ChildPath(q, b)|;
  }

  lemma ChildPathRest(p: string, a: Uuid)
    requires Closed(p)
    ensures |ChildPath(p, a)| > |p| && ChildPath(p, a)[|p|..|ChildPath(p, a)| - 1] == Text(a)
  {
    assert ChildPath(p, a) == p + (Text(a) + "/");
  }

  /** Replacing a closed prefix by another commutes with taking a child. */
  lemma RewrittenChildPath(oldPath: string, newPath: string, parentPath: string, id: Uuid)
    requires Closed(oldPath) && Closed(newPath) && Closed(parentPath) && oldPath <= parentPath
    ensures newPath + ChildPath(parentPath, id)[|oldPath|..] == ChildPath(newPath + parentPath[|oldPath|..], id)
  {
    var moved := newPath + parentPath[|oldPath|..];
    if |oldPath| < |parentPath| {
      assert moved[|moved| - 1] == parentPath[|parentPath| - 1];
    } else {
      assert moved == newPath;
    }
    assert ChildPath(parentPath, id) == parentPath + (Text(id) + "/");
    assert ChildPath(parentPath, id)[|oldPath|..] == parentPath[|oldPath|..] + (Text(id) + "/");
  }

  /** A string prefix test on two materialised paths is the ancestor-or-self test on chains. */
  lemma {:induction false} PrefixIsAncestor(a: seq<Uuid>, b: seq<Uuid>)
    ensures Render(a) <= Render(b) <==> a <= b
    decreases |a| + |b|
  {
    if b != [] {
      var front, last := b[..|b| - 1], b[|b| - 1];
      PrefixOfChild(Render(a), Render(front), last);
      PrefixIsAncestor(a, front);
      assert b == front + [last];
      if Render(a) == Render(b) {
        RenderInjective(a, b);
      } else if a <= b && a != b {
        assert a <= front;
      }
    }
  }

  lemma {:induction false} RenderInjective(a: seq<Uuid>, b: seq<Uuid>)
    requires Render(a) == Render(b)
    ensures a == b
  {
    if a != [] && b != [] {
      var p, q, x, y := a[..|a| - 1], b[..|b| - 1], a[|a| - 1], b[|b| - 1];
      ChildPathInjective(Render(p), x, Render(q), y);
      RenderInjective(p, q);
      SameEnds(a, b);
    }
  }

  lemma SameEnds(a: seq<Uuid>, b: seq<Uuid>)
    requires a != [] && b != [] && a[..|a| - 1] == b[..|b| - 1] && a[|a| - 1] == b[|b| - 1]
    ensures a == b
  {
    assert a == a[..|a| - 1] + [a[|a| - 1]];
    assert b == b[..|b| - 1] + [b[|b| - 1]];
  }
}
