/** The live tree below a node as a value without identifiers: what a copy must reproduce. */
module Shapes {
  import opened Ids
  import opened Paths
  import opened Tree
  import opened Trash

  /** Siblings form a multiset: their order and their identifiers do not matter. */
  datatype Shape = Shape(kind: Kind, name: string, size: int, below: Grove) {
    function Bytes(): int { (if kind.File? then size else 0) + below.bytes }
    function Files(): int { (if kind.File? then 1 else 0) + below.files }
    function Folders(): int { (if kind.Folder? then 1 else 0) + below.folders }
  }

  datatype Grove = Grove(trees: multiset<Shape>, bytes: int, files: int, folders: int)

  const BARE: Grove := Grove(multiset{}, 0, 0, 0)

  function Plant(g: Grove, s: Shape): Grove {
    Grove(g.trees + multiset{s}, g.bytes + s.Bytes(), g.files + s.Files(), g.folders + s.Folders())
  }

  /** The active children of a node, which is what ListNodes by parent returns. */
  function Kids(t: Table, x: Uuid): set<Uuid> {
    set c | c in t && t[c].parent == x && t[c].status.Active?
  }

  lemma KidBelow(t: Table, x: Uuid, c: Uuid)
    requires Indexed(t) && x in t && c in Kids(t, x)
    ensures Subtree(t, c) < Subtree(t, x)
  {
    UnderStep(t, x, c);
    UnderStep(t, c, x);
    UnderStep(t, x, x);
    assert x in Subtree(t, x) && x !in Subtree(t, c);
  }

  /** The shape below `x`, with or without names. */
  ghost function ShapeOf(t: Table, x: Uuid, named: bool): Shape
    requires Indexed(t) && x in t
    decreases Subtree(t, x), 1, 0
  {
    Shape(t[x].kind, if named then t[x].name else "", t[x].size, GroveOf(t, x, Kids(t, x), named))
  }

  ghost function GroveOf(t: Table, x: Uuid, s: set<Uuid>, named: bool): Grove
    requires Indexed(t) && x in t && s <= Kids(t, x)
    decreases Subtree(t, x), 0, |s|
  {
    if s == {} then BARE
    else
      var c := First(s);
      KidBelow(t, x, c);
      Plant(GroveOf(t, x, s - {c}, named), ShapeOf(t, c, named))
  }

  ghost function First(s: set<Uuid>): (c: Uuid)
    requires s != {}
    ensures c in s
  {
    var c :| c in s; c
  }

  lemma {:induction false} GrovePick(t: Table, x: Uuid, s: set<Uuid>, c: Uuid, named: bool)
    requires Indexed(t) && x in t && s <= Kids(t, x) && c in s
    ensures GroveOf(t, x, s, named) == Plant(GroveOf(t, x, s - {c}, named), ShapeOf(t, c, named))
    decreases |s|
  {
    var d := First(s);
    if d != c {
      GrovePick(t, x, s - {d}, c, named);
      GrovePick(t, x, s - {c}, d, named);
      assert s - {d} - {c} == s - {c} - {d};
      PlantCommutes(GroveOf(t, x, s - {c} - {d}, named), ShapeOf(t, c, named), ShapeOf(t, d, named));
    }
    GroveStep(t, x, s, named);
  }

  lemma GroveStep(t: Table, x: Uuid, s: set<Uuid>, named: bool)
    requires Indexed(t) && x in t && s <= Kids(t, x) && s != {}
    ensures GroveOf(t, x, s, named) == Plant(GroveOf(t, x, s - {First(s)}, named), ShapeOf(t, First(s), named))
  {
  }

  lemma PlantCommutes(g: Grove, a: Shape, b: Shape)
    ensures Plant(Plant(g, a), b) == Plant(Plant(g, b), a)
  {
  }

  /** `t'` is `t` with new rows that all hang below `p`. */
  ghost predicate Grafted(t: Table, t': Table, p: Uuid) {
    && t.Keys <= t'.Keys && (forall x | x in t :: t'[x] == t[x])
    && (forall y {:trigger HangsBelow(t, t', p, y)} | y in t' && y !in t :: HangsBelow(t, t', p, y))
  }

  predicate HangsBelow(t: Table, t': Table, p: Uuid, y: Uuid)
    requires y in t'
  {
    t'[y].parent == p || (t'[y].parent in t' && t'[y].parent !in t)
  }

  /** Rows hung below `p` do not show in the shape of a node that is not above `p`. */
  lemma {:induction false} ShapeFrame(t: Table, t': Table, p: Uuid, x: Uuid, named: bool)
    requires Indexed(t) && Indexed(t') && Grafted(t, t', p) && x in t && !(p in t && Under(t, x, p)) && p != x
    ensures Kids(t', x) == Kids(t, x) && ShapeOf(t', x, named) == ShapeOf(t, x, named)
    decreases Subtree(t, x), 1, 0
  {
    assert Kids(t', x) == Kids(t, x) by {
      assert forall y | y in t' && y !in t :: HangsBelow(t, t', p, y);
    }
    GroveFrame(t, t', p, x, Kids(t, x), named);
  }

  lemma {:induction false} GroveFrame(t: Table, t': Table, p: Uuid, x: Uuid, s: set<Uuid>, named: bool)
    requires Indexed(t) && Indexed(t') && Grafted(t, t', p) && x in t && !(p in t && Under(t, x, p)) && p != x
    requires Kids(t', x) == Kids(t, x) && s <= Kids(t, x)
    ensures GroveOf(t', x, s, named) == GroveOf(t, x, s, named)
    decreases Subtree(t, x), 0, |s|
  {
    if s != {} {
      var c := First(s);
      KidBelow(t, x, c);
      if p in t { UnderStep(t, c, p); UnderThrough(t, x, c, p); }
      ShapeFrame(t, t', p, c, named);
      GroveFrame(t, t', p, x, s - {c}, named);
    }
  }

  /** Under is transitive through a child. */
  lemma UnderThrough(t: Table, x: Uuid, c: Uuid, p: Uuid)
    requires Indexed(t) && x in t && c in t && p in t && t[c].parent == x
    ensures Under(t, c, p) ==> Under(t, x, p)
    ensures Under(t, c, c)
  {
    UnderStep(t, x, c);
    UnderStep(t, x, x);
    UnderStep(t, c, c);
  }

  /** Rows hung below `p` itself do not show in the shapes of the children `p` had before. */
  lemma {:induction false} GroveFrameAt(t: Table, t': Table, p: Uuid, s: set<Uuid>, named: bool)
    requires Indexed(t) && Indexed(t') && Grafted(t, t', p) && p in t && s <= Kids(t, p)
    ensures s <= Kids(t', p) && GroveOf(t', p, s, named) == GroveOf(t, p, s, named)
    decreases |s|
  {
    if s != {} {
      var c := First(s);
      NotUnderOwnChild(t, p, c);
      ShapeFrame(t, t', p, c, named);
      GroveFrameAt(t, t', p, s - {c}, named);
      GroveStep(t, p, s, named);
      GroveStep(t', p, s, named);
    }
  }

  lemma NotUnderOwnChild(t: Table, p: Uuid, c: Uuid)
    requires Indexed(t) && p in t && c in t && t[c].parent == p
    ensures !Under(t, c, p) && c != p
  {
    UnderStep(t, p, c);
    UnderStep(t, c, p);
  }

  /** A node strictly below `a` is below exactly one of its children. */
  lemma {:induction false} StepDown(t: Table, a: Uuid, x: Uuid) returns (g: Uuid)
    requires Sound(t) && a in t && Live(t, x) && x != a && Under(t, a, x)
    ensures g in Kids(t, a) && Under(t, g, x)
    decreases |t[x].path|
  {
    UnderStep(t, a, x);
    UnderStep(t, x, x);
    assert Sheltered(t, x);
    if t[x].parent == a {
      g := x;
    } else {
      assert Placed(t, x);
      g := StepDown(t, a, t[x].parent);
      UnderStep(t, g, x);
    }
  }

  /** Rows hung below `p` are below a node of the old table only if `p` is. */
  lemma {:induction false} NewRowsOutside(t: Table, t': Table, p: Uuid, a: Uuid, y: Uuid)
    requires Indexed(t) && Indexed(t') && Grafted(t, t', p) && a in t && y in t' && y !in t
    requires !(p in t && Under(t, a, p))
    ensures !Under(t', a, y)
    decreases |t'[y].path|
  {
    UnderStep(t', a, y);
    assert HangsBelow(t, t', p, y);
    var q := t'[y].parent;
    if q in t' && q !in t {
      NewRowsOutside(t, t', p, a, q);
    }
  }

  lemma {:induction false} GraftedTwice(t: Table, t1: Table, t2: Table, p: Uuid)
    requires Grafted(t, t1, p) && Grafted(t1, t2, p)
    ensures Grafted(t, t2, p)
  {
    forall y | y in t2 && y !in t ensures HangsBelow(t, t2, p, y) {
      if y in t1 {
        assert HangsBelow(t, t1, p, y) && t2[y] == t1[y];
      } else {
        assert HangsBelow(t1, t2, p, y);
      }
    }
  }

  // ---- What equal shapes have in common -----------------------------------------------------

  lemma {:induction false} GroveWidth(t: Table, x: Uuid, s: set<Uuid>, named: bool)
    requires Indexed(t) && x in t && s <= Kids(t, x)
    ensures |GroveOf(t, x, s, named).trees| == |s|
    decreases |s|
  {
    if s != {} {
      GroveStep(t, x, s, named);
      GroveWidth(t, x, s - {First(s)}, named);
    }
  }

  /** Every tree of a grove stands at one of the children. */
  lemma {:induction false} FindKid(t: Table, x: Uuid, s: set<Uuid>, named: bool, a: Shape) returns (c: Uuid)
    requires Indexed(t) && x in t && s <= Kids(t, x) && a in GroveOf(t, x, s, named).trees
    ensures c in s && ShapeOf(t, c, named) == a
    decreases |s|
  {
    GroveStep(t, x, s, named);
    c := First(s);
    if ShapeOf(t, c, named) != a {
      c := FindKid(t, x, s - {c}, named, a);
    }
  }

  /** Where two nodes have the same below them, each live node below the one has a counterpart below the
      other with the same below it. */
  lemma {:induction false} Mirror(t: Table, a: Uuid, t': Table, b: Uuid, named: bool, y: Uuid) returns (z: Uuid)
    requires Sound(t) && Indexed(t') && a in t && b in t' && y in t && Under(t, a, y) && (y == a || Live(t, y))
    requires ShapeOf(t, a, named).below == ShapeOf(t', b, named).below
    ensures z in t' && Under(t', b, z) && GroveOf(t, y, Kids(t, y), named) == GroveOf(t', z, Kids(t', z), named)
    decreases Subtree(t, a)
  {
    if y == a {
      z := b;
      UnderStep(t', b, b);
    } else {
      var g := StepDown(t, a, y);
      KidBelow(t, a, g);
      GrovePick(t, a, Kids(t, a), g, named);
      var h := FindKid(t', b, Kids(t', b), named, ShapeOf(t, g, named));
      z := Mirror(t, g, t', h, named, y);
      UnderThrough(t', b, h, z);
    }
  }

  /** Two children of the one node have two counterparts of the same names. */
  lemma MirrorTwins(t: Table, y: Uuid, t': Table, z: Uuid, c: Uuid, d: Uuid) returns (c': Uuid, d': Uuid)
    requires Indexed(t) && Indexed(t') && y in t && z in t' && c in Kids(t, y) && d in Kids(t, y) && c != d
    requires GroveOf(t, y, Kids(t, y), true) == GroveOf(t', z, Kids(t', z), true)
    ensures c' in Kids(t', z) && d' in Kids(t', z) && c' != d'
    ensures t'[c'].name == t[c].name && t'[d'].name == t[d].name
  {
    var s, s' := Kids(t, y), Kids(t', z);
    GrovePick(t, y, s, c, true);
    GrovePick(t, y, s - {c}, d, true);
    c' := FindKid(t', z, s', true, ShapeOf(t, c, true));
    GrovePick(t', z, s', c', true);
    PlantedBack(GroveOf(t, y, s - {c}, true), GroveOf(t', z, s' - {c'}, true), ShapeOf(t, c, true));
    d' := FindKid(t', z, s' - {c'}, true, ShapeOf(t, d, true));
  }

  lemma PlantedBack(g: Grove, h: Grove, a: Shape)
    requires Plant(g, a) == Plant(h, a)
    ensures g == h
  {
    assert g.trees == Plant(g, a).trees - multiset{a};
    assert h.trees == Plant(h, a).trees - multiset{a};
  }

  /** Equal with their names means equal without. */
  lemma {:induction false} ForgetNames(t: Table, a: Uuid, t': Table, b: Uuid)
    requires Indexed(t) && Indexed(t') && a in t && b in t'
    requires ShapeOf(t, a, true).below == ShapeOf(t', b, true).below
    ensures ShapeOf(t, a, false).below == ShapeOf(t', b, false).below
    decreases Subtree(t, a), 1, 0
  {
    ForgetGrove(t, a, Kids(t, a), t', b, Kids(t', b));
  }

  lemma {:induction false} ForgetGrove(t: Table, a: Uuid, s: set<Uuid>, t': Table, b: Uuid, s': set<Uuid>)
    requires Indexed(t) && Indexed(t') && a in t && b in t' && s <= Kids(t, a) && s' <= Kids(t', b)
    requires GroveOf(t, a, s, true) == GroveOf(t', b, s', true)
    ensures GroveOf(t, a, s, false) == GroveOf(t', b, s', false)
    decreases Subtree(t, a), 0, |s|
  {
    if s == {} {
      GroveWidth(t, a, s, true);
      GroveWidth(t', b, s', true);
    } else {
      var c := First(s);
      KidBelow(t, a, c);
      GrovePick(t, a, s, c, true);
      var c' := FindKid(t', b, s', true, ShapeOf(t, c, true));
      GrovePick(t', b, s', c', true);
      PlantedBack(GroveOf(t, a, s - {c}, true), GroveOf(t', b, s' - {c'}, true), ShapeOf(t, c, true));
      ForgetNames(t, c, t', c');
      ForgetGrove(t, a, s - {c}, t', b, s' - {c'});
      GrovePick(t, a, s, c, false);
      GrovePick(t', b, s', c', false);
    }
  }
}
