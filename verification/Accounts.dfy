/** Account counters (internal/data/user.go, AddUsage) and the sums over the node table they
    stand for. */
module Accounts {
  import opened Ids
  import opened Tree

  datatype Account = Account(used: int, files: int, folders: int, quota: int)

  type Ledger = map<Uuid, Account>

  datatype Quantity = Bytes | Files | Folders

  /** What a row contributes to a counter; with an owner, only that owner's rows count. */
  datatype Measure = Measure(what: Quantity, owner: Option<Uuid>)

  function Weigh(m: Measure, r: Row): int {
    if m.owner.Some? && m.owner.value != r.owner then 0
    else match m.what
      case Bytes => if r.kind.File? then r.size else 0
      case Files => if r.kind.File? then 1 else 0
      case Folders => if r.kind.Folder? then 1 else 0
  }

  ghost function Total(t: Table, m: Measure): int {
    if t == map[] then 0
    else
      var x := AnyKey(t);
      Weigh(m, t[x]) + Total(t - {x}, m)
  }

  ghost function AnyKey(t: Table): (x: Uuid)
    requires t != map[]
    ensures x in t
  {
    assert t.Keys == {} ==> t == map[];
    var x :| x in t.Keys; x
  }

  function Part(t: Table, s: set<Uuid>): (p: Table)
    ensures p.Keys == t.Keys * s && forall x | x in p :: p[x] == t[x]
  {
    map x | x in t && x in s :: t[x]
  }

  // ---- Sums -------------------------------------------------------------------------------

  lemma {:induction false} TotalRemove(t: Table, x: Uuid, m: Measure)
    requires x in t
    ensures Total(t, m) == Weigh(m, t[x]) + Total(t - {x}, m)
    decreases |t|
  {
    var y := AnyKey(t);
    if y != x {
      TotalRemove(t - {y}, x, m);
      TotalRemove(t - {x}, y, m);
      assert t - {y} - {x} == t - {x} - {y};
    }
  }

  lemma TotalAdd(t: Table, x: Uuid, r: Row, m: Measure)
    requires x !in t
    ensures Total(t[x := r], m) == Weigh(m, r) + Total(t, m)
  {
    TotalRemove(t[x := r], x, m);
    assert t[x := r] - {x} == t;
  }

  lemma {:induction false} TotalSame(t: Table, t': Table, m: Measure)
    requires t'.Keys == t.Keys && forall x | x in t :: Weigh(m, t'[x]) == Weigh(m, t[x])
    ensures Total(t', m) == Total(t, m)
    decreases |t|
  {
    if t == map[] {
      assert t' == map[];
    } else {
      var x := AnyKey(t);
      TotalRemove(t', x, m);
      TotalSame(t - {x}, t' - {x}, m);
    }
  }

  lemma {:induction false} TotalSplit(t: Table, s: set<Uuid>, m: Measure)
    ensures Total(t, m) == Total(t - s, m) + Total(Part(t, s), m)
    decreases |Part(t, s)|
  {
    var p := Part(t, s);
    if p == map[] {
      assert forall x | x in t :: x in s ==> x in p;
      assert t - s == t;
    } else {
      var x := AnyKey(p);
      TotalRemove(t, x, m);
      assert Part(t - {x}, s) == p - {x};
      assert (t - {x}) - s == t - s;
      TotalSplit(t - {x}, s, m);
    }
  }

  lemma {:induction false} TotalNonNegative(t: Table, m: Measure)
    requires forall x | x in t :: t[x].size >= 0
    ensures Total(t, m) >= 0
    decreases |t|
  {
    if t != map[] {
      TotalNonNegative(t - {AnyKey(t)}, m);
    }
  }

  // ---- AddUsage ---------------------------------------------------------------------------

  function Added(a: Account, bytes: int, files: int, folders: int): Account {
    a.(used := a.used + bytes, files := a.files + files, folders := a.folders + folders)
  }

  function AtLeastZero(n: int): int {
    if n < 0 then 0 else n
  }

  /** A signed delta; a delta with a negative part is followed by one clamp per counter. */
  function Charged(a: Account, bytes: int, files: int, folders: int): Account {
    var b := Added(a, bytes, files, folders);
    if bytes < 0 || files < 0 || folders < 0 then
      b.(used := AtLeastZero(b.used), files := AtLeastZero(b.files), folders := AtLeastZero(b.folders))
    else b
  }

  /** The counters of every account are the sums over all rows it owns, trashed rows included. */
  ghost predicate Balanced(t: Table, l: Ledger, o: Uuid)
    requires o in l
  {
    && l[o].used == Total(t, Measure(Bytes, Some(o)))
    && l[o].files == Total(t, Measure(Files, Some(o)))
    && l[o].folders == Total(t, Measure(Folders, Some(o)))
  }

  ghost predicate Conserved(t: Table, l: Ledger) {
    && (forall o {:trigger Balanced(t, l, o)} | o in l :: Balanced(t, l, o))
    && (forall x | x in t :: t[x].owner in l && t[x].size >= 0)
  }

  lemma WriteKeepsConserved(t: Table, t': Table, l: Ledger)
    requires Conserved(t, l) && t'.Keys == t.Keys
    requires forall x | x in t :: t'[x].owner == t[x].owner && t'[x].kind == t[x].kind && t'[x].size == t[x].size
    ensures Conserved(t', l)
  {
    forall o | o in l ensures Balanced(t', l, o) {
      assert Balanced(t, l, o);
      TotalSame(t, t', Measure(Bytes, Some(o)));
      TotalSame(t, t', Measure(Files, Some(o)));
      TotalSame(t, t', Measure(Folders, Some(o)));
    }
  }

  lemma CreateKeepsConserved(t: Table, l: Ledger, id: Uuid, r: Row)
    requires Conserved(t, l) && id !in t && r.owner in l && r.size >= 0
    ensures Conserved(t[id := r], l[r.owner := if r.kind.File? then Charged(l[r.owner], r.size, 1, 0)
                                               else Charged(l[r.owner], 0, 0, 1)])
  {
    var t' := t[id := r];
    var l' := l[r.owner := if r.kind.File? then Charged(l[r.owner], r.size, 1, 0) else Charged(l[r.owner], 0, 0, 1)];
    forall o | o in l' ensures Balanced(t', l', o) {
      assert Balanced(t, l, o);
      TotalAdd(t, id, r, Measure(Bytes, Some(o)));
      TotalAdd(t, id, r, Measure(Files, Some(o)));
      TotalAdd(t, id, r, Measure(Folders, Some(o)));
    }
  }

  /** What PurgeNodes takes off one account for the removed rows, whoever owns them. */
  ghost function PurgeCharge(l: Ledger, o: Uuid, removed: Table): Ledger
    requires o in l
  {
    l[o := Charged(l[o], -Total(removed, Measure(Bytes, None)), -Total(removed, Measure(Files, None)),
                   -Total(removed, Measure(Folders, None)))]
  }

  /** A purge keeps the counters right exactly when every removed row belongs to the account that
      owns the purged node; then the clamp at zero does not fire. */
  lemma PurgeKeepsConservedIff(t: Table, l: Ledger, o: Uuid, s: set<Uuid>)
    requires Conserved(t, l) && o in l && s <= t.Keys
    ensures Conserved(t - s, PurgeCharge(l, o, Part(t, s))) <==> forall x | x in s :: t[x].owner == o
    ensures (forall x | x in s :: t[x].owner == o) ==>
              PurgeCharge(l, o, Part(t, s))[o] ==
              Added(l[o], -Total(Part(t, s), Measure(Bytes, None)), -Total(Part(t, s), Measure(Files, None)),
                    -Total(Part(t, s), Measure(Folders, None)))
  {
    var p := Part(t, s);
    var l' := PurgeCharge(l, o, p);
    if forall x | x in s :: t[x].owner == o {
      assert forall x | x in p :: p[x].owner == o;
      OneOwner(p, o, Bytes);
      OneOwner(p, o, Files);
      OneOwner(p, o, Folders);
      assert Balanced(t, l, o);
      SplitAll(t, s, o);
      forall q | q in l' ensures Balanced(t - s, l', q) {
        assert Balanced(t, l, q);
        SplitAll(t, s, q);
        if q != o { NotAnOwner(p, q); }
      }
    } else if Conserved(t - s, l') {
      var x :| x in s && t[x].owner != o;
      var q := t[x].owner;
      assert Balanced(t, l, q) && Balanced(t - s, l', q);
      SplitAll(t, s, q);
      assert p[x] == t[x];
      AtLeastOne(p, x, Measure(Files, Some(q)));
      AtLeastOne(p, x, Measure(Folders, Some(q)));
      assert false;
    }
  }

  lemma SplitAll(t: Table, s: set<Uuid>, o: Uuid)
    requires forall x | x in t :: t[x].size >= 0
    ensures forall q: Quantity ::
              Total(t, Measure(q, Some(o))) ==
              Total(t - s, Measure(q, Some(o))) + Total(Part(t, s), Measure(q, Some(o)))
    ensures forall q: Quantity :: Total(t - s, Measure(q, Some(o))) >= 0
    ensures forall q: Quantity :: Total(Part(t, s), Measure(q, Some(o))) >= 0
  {
    forall q: Quantity
      ensures Total(t, Measure(q, Some(o))) ==
              Total(t - s, Measure(q, Some(o))) + Total(Part(t, s), Measure(q, Some(o)))
      ensures Total(t - s, Measure(q, Some(o))) >= 0
      ensures Total(Part(t, s), Measure(q, Some(o))) >= 0
    {
      TotalSplit(t, s, Measure(q, Some(o)));
      TotalNonNegative(t - s, Measure(q, Some(o)));
      TotalNonNegative(Part(t, s), Measure(q, Some(o)));
    }
  }

  lemma {:induction false} OneOwner(p: Table, o: Uuid, q: Quantity)
    requires forall x | x in p :: p[x].owner == o
    ensures Total(p, Measure(q, Some(o))) == Total(p, Measure(q, None))
    decreases |p|
  {
    if p != map[] {
      var x := AnyKey(p);
      TotalRemove(p, x, Measure(q, Some(o)));
      TotalRemove(p, x, Measure(q, None));
      OneOwner(p - {x}, o, q);
    }
  }

  lemma {:induction false} NotAnOwner(p: Table, o: Uuid)
    requires forall x | x in p :: p[x].owner != o
    ensures forall q: Quantity :: Total(p, Measure(q, Some(o))) == 0
    decreases |p|
  {
    if p != map[] {
      NotAnOwner(p - {AnyKey(p)}, o);
    }
  }

  lemma AtLeastOne(p: Table, x: Uuid, m: Measure)
    requires x in p && forall y | y in p :: p[y].size >= 0
    ensures Total(p, m) >= Weigh(m, p[x])
  {
    TotalRemove(p, x, m);
    TotalNonNegative(p - {x}, m);
  }

  /** An overwrite assigns the new size to the row before it computes the delta it charges, so the
      delta is always zero: the counters stay right exactly when the size does not change. */
  lemma OverwriteKeepsConservedIff(t: Table, l: Ledger, id: Uuid, r: Row)
    requires Conserved(t, l) && id in t && r.owner == t[id].owner && r.kind == t[id].kind == File && r.size >= 0
    ensures Conserved(t[id := r], l[r.owner := Charged(l[r.owner], 0, 0, 0)]) <==> r.size == t[id].size
  {
    var t', o := t[id := r], r.owner;
    assert l[o := Charged(l[o], 0, 0, 0)] == l;
    assert t' - {id} == t - {id};
    if r.size == t[id].size {
      WriteKeepsConserved(t, t', l);
    } else if Conserved(t', l) {
      assert Balanced(t, l, o) && Balanced(t', l, o);
      TotalRemove(t, id, Measure(Bytes, Some(o)));
      TotalRemove(t', id, Measure(Bytes, Some(o)));
      assert false;
    }
  }
}
