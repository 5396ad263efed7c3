/** The other half of what the store owes the database: stored content that nothing refers to any more is on its way
    out. Which steps lose sight of an object, and that all others lose sight of none. */
module Leaks {
  import opened Ids
  import opened Tree
  import opened Trash
  import opened Names
  import opened Accounts
  import opened Versions
  import opened Database
  import opened Invariants
  import opened Content

  /** Somebody still knows this content: a row or a revision refers to it, it waits to be committed, or it waits for
      its removal. */
  ghost predicate InHand(w: World, o: Uuid, n: Uuid) {
    || (exists h :: Holds(w.db, h, ObjectKey(o, n)))
    || (n in w.drafts && w.drafts[n] == o)
    || ObjectKey(o, n) in w.db.queue || ObjectKey(o, n) in w.retiring
  }

  ghost predicate Tracked(w: World) {
    forall o, n {:trigger ObjectKey(o, n)} | ObjectKey(o, n) in w.store :: InHand(w, o, n)
  }

  /** The content is stored and waits in this set only. */
  ghost predicate OnlyIn(w: World, k: string, here: set<string>, there: set<string>) {
    k in here && k !in there && k in w.store && exists o, n :: IsContent(k, o, n)
  }

  /** What a step must not do: overwrite content without keeping it as a revision, take an object that is still stored
      off the queue, or crash between an object and its row or between a revision's row and the queue. */
  ghost predicate KeepsTrack(w: World, a: Act) {
    match a
    case Settle(_, e) => e.ReplaceContent? ==> e.kept.Some?
    case Dequeue(k) => !OnlyIn(w, k, w.db.queue, w.retiring)
    case Crash(ids, keys, _) => ids !! w.drafts.Keys && forall k | k in keys :: !OnlyIn(w, k, w.retiring, w.db.queue)
    case _ => true
  }

  // ---- One step -------------------------------------------------------------------------------

  /** A draft that is committed is referred to; what it replaces becomes a revision, and a revision that is trimmed
      is queued. */
  lemma SettleKeepsInHand(cfg: Config, w: World, id: Uuid, e: Event, o: Uuid, n: Uuid)
    requires Safe(w) && Can(cfg, w, Settle(id, e)) && KeepsTrack(w, Settle(id, e)) && InHand(w, o, n)
    ensures InHand(Next(cfg, w, Settle(id, e)), o, n)
  {
    var w', k := Next(cfg, w, Settle(id, e)), ObjectKey(o, n);
    if n == id && n in w.drafts && w.drafts[n] == o {
      assert Holds(w'.db, RowOf(e.id), k);
    } else if h :| Holds(w.db, h, k) {
      if e.AddNode? {
        assert Holds(w'.db, h, k);
      } else {
        ReplacedStaysInHand(cfg, w.db, e, h, k);
      }
    }
  }

  lemma ReplacedStaysInHand(cfg: Config, db: Db, e: Event, h: Holder, k: string)
    requires Accounted(db) && Allowed(cfg, db, e) && e.ReplaceContent? && e.kept.Some? && Holds(db, h, k)
    ensures k in Apply(cfg, db, e).queue || exists g :: Holds(Apply(cfg, db, e), g, k)
  {
    var (v, number) := e.kept.value;
    var r := db.rows[e.id];
    var vs := db.history[v := Version(e.id, number, r.key, r.size)];
    var dropped := ToSet(if Trims(cfg, r) then Dropped(e.listing, cfg.maxVersions) else []);
    var g := if h == RowOf(e.id) then VersionOf(v) else h;
    if g.VersionOf? && g.version in dropped {
      assert g.version in vs && vs[g.version].key == k;
      assert k in VersionKeys(vs, dropped);
    } else {
      assert Holds(Apply(cfg, db, e), g, k);
    }
  }

  /** What a purge removes is queued, the key of every row and of every revision it releases. */
  lemma PurgeKeepsInHand(cfg: Config, db: Db, e: Event, h: Holder, k: string)
    requires Allowed(cfg, db, e) && e.Purge? && Holds(db, h, k)
    ensures k in Apply(cfg, db, e).queue || Holds(Apply(cfg, db, e), h, k)
  {
    var removed := Part(db.rows, e.scan);
    match h
    case RowOf(x) => if x in e.scan { assert k in KeyOf(removed[x]) && k in RowKeys(removed); }
    case VersionOf(v) => if v in e.released { assert k in VersionKeys(db.history, e.released); }
  }

  lemma TidyKeepsInHand(cfg: Config, w: World, e: Event, o: Uuid, n: Uuid)
    requires Safe(w) && Can(cfg, w, Tidy(e)) && InHand(w, o, n)
    ensures InHand(Next(cfg, w, Tidy(e)), o, n)
  {
    var w', k := Next(cfg, w, Tidy(e)), ObjectKey(o, n);
    if h :| Holds(w.db, h, k) {
      if e.Purge? {
        PurgeKeepsInHand(cfg, w.db, e, h, k);
      } else {
        TidyHolds(cfg, w.db, e, h, k);
      }
    }
    if !e.Purge? { TidyKeepsQueue(cfg, w.db, e); }
  }

  lemma TidyKeepsQueue(cfg: Config, db: Db, e: Event)
    requires Allowed(cfg, db, e) && !e.ReplaceContent?
    ensures db.queue <= Apply(cfg, db, e).queue
  {
  }

  lemma OthersKeepInHand(cfg: Config, w: World, a: Act, o: Uuid, n: Uuid)
    requires Safe(w) && Can(cfg, w, a) && KeepsTrack(w, a) && InHand(w, o, n)
             && ObjectKey(o, n) in Next(cfg, w, a).store
    requires !a.Settle? && !a.Tidy?
    ensures InHand(Next(cfg, w, a), o, n)
  {
    var w', k := Next(cfg, w, a), ObjectKey(o, n);
    assert IsContent(k, o, n);
    if h :| Holds(w.db, h, k) {
      assert (a.Retire? && h == VersionOf(a.version)) || Holds(w'.db, h, k);
    }
  }

  /** A step that keeps track loses sight of no stored content. */
  lemma StepKeepsTracked(cfg: Config, w: World, a: Act)
    requires Safe(w) && Tracked(w) && Can(cfg, w, a) && KeepsTrack(w, a)
    ensures Tracked(Next(cfg, w, a))
  {
    var w' := Next(cfg, w, a);
    forall o, n | ObjectKey(o, n) in w'.store ensures InHand(w', o, n) {
      if ObjectKey(o, n) in w.store {
        assert InHand(w, o, n);
        if a.Settle? {
          SettleKeepsInHand(cfg, w, a.id, a.e, o, n);
        } else if a.Tidy? {
          TidyKeepsInHand(cfg, w, a.e, o, n);
        } else {
          OthersKeepInHand(cfg, w, a, o, n);
        }
      } else if a.PutPart? {
        assert Below(SessionPath(a.session), PartKey(a.session, a.number));
        StagingIsApart(a.session, o, n);
      } else {
        ObjectKeysPrefixFree(a.caller, a.id, o, n);
      }
    }
  }

  /** An overwrite without a kept revision leaves the old object in the store, and nothing knows it any more. */
  lemma OverwriteLosesTrack(cfg: Config, w: World, id: Uuid, e: Event)
    requires Safe(w) && Can(cfg, w, Settle(id, e)) && e.ReplaceContent? && e.kept.None?
    ensures !Tracked(Next(cfg, w, Settle(id, e)))
  {
    var w', k := Next(cfg, w, Settle(id, e)), w.db.rows[e.id].key;
    assert Holds(w.db, RowOf(e.id), k);
    var o, n :| IsContent(k, o, n) && n in w.spent && n !in w.drafts;
    DraftIsNobodys(w, id);
    NotDoomed(w, RowOf(e.id), k);
    forall g ensures !Holds(w'.db, g, k) {
      if Holds(w'.db, g, k) {
        SettleHolds(cfg, w.db, e, g, k);
      }
    }
    assert k in w'.store && !InHand(w', o, n);
  }

  /** Content that is referred to waits for no removal. */
  lemma NotDoomed(w: World, h: Holder, k: string)
    requires Safe(w) && Holds(w.db, h, k)
    ensures !Doomed(w, k)
  {
    if Doomed(w, k) {
      RemovalMisses(w, k, k);
      assert false;
    }
  }

  /** Content that waits for its removal is nobody's: neither referred to nor a draft. */
  lemma DoomedIsNobodys(w: World, o: Uuid, n: Uuid)
    requires Safe(w) && Doomed(w, ObjectKey(o, n))
    ensures forall h :: !Holds(w.db, h, ObjectKey(o, n))
    ensures !(n in w.drafts && w.drafts[n] == o)
  {
    RemovalMisses(w, ObjectKey(o, n), ObjectKey(o, n));
  }

  lemma DraftLeftBehind(cfg: Config, w: World, a: Act, n: Uuid)
    requires Safe(w) && Can(cfg, w, a) && a.Crash? && n in a.drafts && n in w.drafts
    ensures !Tracked(Next(cfg, w, a))
  {
    var w' := Next(cfg, w, a);
    DraftIsNobodys(w, n);
    forall h ensures !Holds(w'.db, h, ObjectKey(w.drafts[n], n)) {
      assert !Holds(w.db, h, ObjectKey(w.drafts[n], n));
    }
    assert ObjectKey(w.drafts[n], n) in w'.store && !InHand(w', w.drafts[n], n);
  }

  /** A crash or a dequeueing forgets a key that was all that was left of its object. */
  lemma KeyForgotten(cfg: Config, w: World, a: Act, k: string)
    requires Safe(w) && Can(cfg, w, a) && (a.Dequeue? || a.Crash?)
    requires if a.Dequeue? then k == a.key && OnlyIn(w, k, w.db.queue, w.retiring)
             else k in a.keys && OnlyIn(w, k, w.retiring, w.db.queue)
    ensures !Tracked(Next(cfg, w, a))
  {
    var w' := Next(cfg, w, a);
    var o, n :| IsContent(k, o, n);
    DoomedIsNobodys(w, o, n);
    forall h ensures !Holds(w'.db, h, k) {
      assert !Holds(w.db, h, k);
    }
    assert k in w'.store && !InHand(w', o, n);
  }

  /** These are the only steps that lose sight of stored content. */
  lemma TrackIsKeptIff(cfg: Config, w: World, a: Act)
    requires Safe(w) && Tracked(w) && Can(cfg, w, a)
    ensures Tracked(Next(cfg, w, a)) <==> KeepsTrack(w, a)
  {
    if KeepsTrack(w, a) {
      StepKeepsTracked(cfg, w, a);
    } else if a.Settle? {
      OverwriteLosesTrack(cfg, w, a.id, a.e);
    } else if a.Dequeue? {
      KeyForgotten(cfg, w, a, a.key);
    } else if n :| n in a.drafts && n in w.drafts {
      DraftLeftBehind(cfg, w, a, n);
    } else {
      var k :| k in a.keys && OnlyIn(w, k, w.retiring, w.db.queue);
      KeyForgotten(cfg, w, a, k);
    }
  }

  // ---- Runs -----------------------------------------------------------------------------------

  /** Along an interleaving nothing stored is lost sight of exactly as long as every step keeps track. */
  lemma {:induction false} NothingLeaksIff(cfg: Config, acts: seq<Act>, ws: seq<World>, n: nat)
    requires Interleaving(cfg, acts, ws) && Safe(ws[0]) && Tracked(ws[0]) && n <= |acts|
    ensures (forall i | 0 <= i <= n :: Tracked(ws[i])) <==> forall i | 0 <= i < n :: KeepsTrack(ws[i], acts[i])
  {
    if n > 0 {
      NothingLeaksIff(cfg, acts, ws, n - 1);
      ContentIsNeverLost(cfg, acts, ws, n - 1);
      assert Stepped(cfg, acts, ws, n - 1);
      if Tracked(ws[n - 1]) { TrackIsKeptIff(cfg, ws[n - 1], acts[n - 1]); }
    }
  }

  /** Nothing is in flight and the queue is drained. */
  predicate Quiet(w: World) {
    w.drafts == map[] && w.retiring == {} && w.db.queue == {}
  }

  /** So, from the empty start on, whenever such a run comes to rest with the queue drained, the stored contents are
      exactly those that a node or a revision refers to: none is missing and none is left over. */
  lemma RestingStoreIsExact(cfg: Config, l: Ledger, acts: seq<Act>, ws: seq<World>, n: nat, o: Uuid, x: Uuid)
    requires Interleaving(cfg, acts, ws) && ws[0] == EmptyWorld(l) && n <= |acts|
    requires forall i | 0 <= i < n :: KeepsTrack(ws[i], acts[i])
    requires Quiet(ws[n])
    ensures ObjectKey(o, x) in ws[n].store <==> exists h :: Holds(ws[n].db, h, ObjectKey(o, x))
  {
    NothingLeaksIff(cfg, acts, ws, n);
    ContentIsNeverLost(cfg, acts, ws, n);
    assert ObjectKey(o, x) in ws[n].store ==> InHand(ws[n], o, x);
  }
}
