/** The object store as a set of keys (internal/data/storage.go) and the maintenance jobs that
    remove from it (internal/biz/system.go). Every request may fail: how it is answered is a
    parameter. */
module Storage {
  import opened Ids
  import opened Tree
  import opened Database
  import opened Invariants
  import opened Content

  const DELETE_BATCH := 1000
  const DRAIN_LIMIT := 500

  /** A batch delete fails as a whole or refuses some keys and takes the others. */
  datatype Reply = Down | Answered(refused: set<string>)

  type Backend = seq<string> -> Reply

  /** A backend that never fails. */
  ghost predicate Obliging(backend: Backend) {
    forall batch :: backend(batch) == Answered({})
  }

  function Keys(list: seq<string>): set<string> {
    set k | k in list
  }

  function BelowIn(keys: set<string>, prefix: string): set<string> {
    set k | k in keys && Below(prefix, k)
  }

  class Bucket {
    var keys: set<string>

    constructor ()
      ensures keys == {}
    {
      keys := {};
    }

    /** One DeleteObjects request. */
    method DeleteBatch(backend: Backend, batch: seq<string>) returns (ok: bool)
      modifies this
      ensures old(keys) - Keys(batch) <= keys <= old(keys)
      ensures ok ==> keys == old(keys) - Keys(batch)
      ensures Obliging(backend) ==> ok
    {
      var reply := backend(batch);
      match reply
      case Down => ok := false;
      case Answered(refused) =>
        keys := keys - (Keys(batch) - refused);
        ok := Keys(batch) !! refused;
        assert ok ==> Keys(batch) - refused == Keys(batch);
    }

    /** deleteObjects: batch after batch, stopping at the first that fails. */
    method DeleteObjects(backend: Backend, objects: seq<string>) returns (ok: bool)
      modifies this
      ensures old(keys) - Keys(objects) <= keys <= old(keys)
      ensures ok ==> keys == old(keys) - Keys(objects)
      ensures Obliging(backend) ==> ok
    {
      var start := 0;
      while start < |objects|
        invariant 0 <= start <= |objects|
        invariant keys == old(keys) - Keys(objects[..start])
      {
        var end := if start + DELETE_BATCH > |objects| then |objects| else start + DELETE_BATCH;
        assert Keys(objects[..end]) == Keys(objects[..start]) + Keys(objects[start..end]);
        assert Keys(objects[..end]) <= Keys(objects);
        var done := DeleteBatch(backend, objects[start..end]);
        if !done { return false; }
        start := end;
      }
      assert objects[..|objects|] == objects;
      ok := true;
    }

    /** One page of a listing: some of the keys that are left. */
    method NextPage(left: set<string>, size: nat) returns (page: seq<string>)
      requires size > 0 && left != {}
      ensures Keys(page) <= left && Keys(page) != {}
    {
      page := [];
      var rest := left;
      while rest != {} && |page| < size
        invariant rest <= left && Keys(page) == left - rest
        invariant page == [] ==> rest == left
        decreases rest
      {
        var k :| k in rest;
        assert Keys(page + [k]) == Keys(page) + {k};
        page, rest := page + [k], rest - {k};
      }
      assert page != [] ==> page[0] in Keys(page);
    }

    /** RemovePrefix: everything below the prefix page by page, then the prefix itself. A failure may
        leave any part of it; nothing else is ever touched. */
    method RemovePrefix(backend: Backend, prefix: string, pageSize: nat) returns (ok: bool)
      requires pageSize > 0
      modifies this
      ensures old(keys) - BelowIn(old(keys), prefix) <= keys <= old(keys)
      ensures ok && prefix != "" ==> keys == old(keys) - BelowIn(old(keys), prefix)
      ensures prefix == "" ==> ok && keys == old(keys)
      ensures Obliging(backend) ==> ok
    {
      if prefix == "" { return true; }
      var left: set<string> := set k | k in keys && prefix + "/" <= k;
      while left != {}
        invariant left == set k | k in keys && prefix + "/" <= k
        invariant old(keys) - BelowIn(old(keys), prefix) <= keys <= old(keys)
        invariant forall k | k in old(keys) && k !in keys :: prefix + "/" <= k
        decreases left
      {
        var page := NextPage(left, pageSize);
        ok := DeleteObjects(backend, page);
        if !ok { return; }
        left := left - Keys(page);
      }
      ok := DeleteObjects(backend, [prefix]);
      assert Keys([prefix]) == {prefix};
    }
  }

  // ---- The maintenance jobs ---------------------------------------------------------------------

  lemma {:induction false} KeysSize(items: seq<string>)
    requires forall i, j | 0 <= i < j < |items| :: items[i] != items[j]
    ensures |Keys(items)| == |items|
  {
    if items != [] {
      var front := items[..|items| - 1];
      KeysSize(front);
      assert Keys(items) == Keys(front) + {items[|items| - 1]};
    }
  }

  lemma CutList(items: seq<string>, left: set<string>, queue: set<string>)
    requires Keys(items) == queue - left && left <= queue && forall i, j | 0 <= i < j < |items| :: items[i] != items[j]
    ensures left != {} ==> |queue| > |items|
  {
    KeysSize(items);
    assert queue == Keys(items) + left;
    assert |queue| == |Keys(items)| + |left|;
  }

  lemma AppendKey(items: seq<string>, k: string)
    ensures Keys(items + [k]) == Keys(items) + {k}
    ensures k !in Keys(items) <==> k !in items
  {
  }

  /** At most `limit` of the queued keys. */
  method ListPending(queue: set<string>, limit: nat) returns (items: seq<string>)
    ensures Keys(items) <= queue
    ensures forall i, j | 0 <= i < j < |items| :: items[i] != items[j]
    ensures |items| == if |queue| <= limit then |queue| else limit
    ensures |queue| <= limit ==> Keys(items) == queue
  {
    items := [];
    var left := queue;
    while left != {} && |items| < limit
      invariant left <= queue && Keys(items) == queue - left && |items| <= limit
      invariant forall i, j | 0 <= i < j < |items| :: items[i] != items[j]
      decreases left
    {
      var k :| k in left;
      AppendKey(items, k);
      items, left := items + [k], left - {k};
    }
    CutList(items, left, queue);
    KeysSize(items);
  }

  /** Nothing is left at or below the key. */
  predicate Clear(keys: set<string>, q: string) {
    forall k | k in keys :: !Below(q, k)
  }

  ghost predicate BelowSome(queue: set<string>, k: string) {
    exists q :: q in queue && Below(q, k)
  }

  /** Only keys at or below a queued key are gone, and items left the queue with nothing left there. */
  ghost predicate Drained(queue: set<string>, queue': set<string>, keys: set<string>, keys': set<string>) {
    && queue' <= queue && keys' <= keys
    && (forall k | k in keys - keys' :: BelowSome(queue, k))
    && (forall q | q in queue - queue' :: Clear(keys', q))
  }

  lemma DrainMore(queue: set<string>, queue': set<string>, keys: set<string>, keys': set<string>, item: string,
                  now: set<string>, ok: bool)
    requires Drained(queue, queue', keys, keys') && item in queue'
    requires keys' - BelowIn(keys', item) <= now <= keys' && (ok ==> now == keys' - BelowIn(keys', item))
    ensures Drained(queue, if ok then queue' - {item} else queue', keys, now)
  {
    forall k | k in keys - now ensures BelowSome(queue, k) {
      if k in keys' { assert Below(item, k); }
    }
    forall q | q in queue && (q !in queue' || (ok && q == item)) ensures Clear(now, q) {
      forall k | k in now ensures !Below(q, k) {
        if q in queue' {
          assert k in keys' && k !in BelowIn(keys', item);
        } else {
          assert Clear(keys', q);
        }
      }
    }
  }

  /** liveUpload as a question: the key lies below the staging path of an open session. */
  ghost predicate Spared(live: set<string>, k: string) {
    exists p :: p in live && p <= k
  }

  ghost predicate SparedBy(open: set<Uuid>, k: string) {
    exists id :: id in open && SessionPath(id) + "/" <= k
  }

  function LivePrefixes(open: set<Uuid>): set<string> {
    set id | id in open :: SessionPath(id) + "/"
  }

  lemma SparedIsLive(open: set<Uuid>, k: string)
    ensures Spared(LivePrefixes(open), k) <==> SparedBy(open, k)
  {
    if id :| id in open && SessionPath(id) + "/" <= k {
      assert SessionPath(id) + "/" in LivePrefixes(open);
    }
  }

  class Maintenance {
    const bucket: Bucket
    var queue: set<string>

    constructor (bucket: Bucket, queue: set<string>)
      ensures this.bucket == bucket && this.queue == queue
    {
      this.bucket, this.queue := bucket, queue;
    }

    /** purgeDeletions: an item leaves the queue only once nothing is left at or below its key, and only
        keys at or below a queued key are taken. The world stays safe however many requests fail. */
    method PurgeDeletions(backend: Backend, pageSize: nat, ghost cfg: Config, ghost w: World)
      returns (count: nat)
      requires pageSize > 0 && Safe(w) && w.db.queue == queue && w.store == bucket.keys && "" !in queue
      modifies this`queue, bucket
      ensures Drained(old(queue), queue, old(bucket.keys), bucket.keys)
      ensures Safe(w.(db := w.db.(queue := queue), store := bucket.keys))
      ensures forall h, k | Holds(w.db, h, k) :: k in bucket.keys
      ensures count == |old(queue)| - |queue|
      ensures Obliging(backend) && |old(queue)| <= DRAIN_LIMIT ==> queue == {}
    {
      var items := ListPending(queue, DRAIN_LIMIT);
      count := 0;
      ghost var now := Listed(cfg, w, Keys(items));
      var i := 0;
      while i < |items|
        invariant 0 <= i <= |items| && Keys(items[i..]) <= queue
        invariant now == w.(db := w.db.(queue := queue), store := bucket.keys, listed := w.listed + Keys(items))
                  && Safe(now)
        invariant Drained(old(queue), queue, old(bucket.keys), bucket.keys)
        invariant count == |old(queue)| - |queue|
        invariant Obliging(backend) && Keys(items) == old(queue) ==> queue == Keys(items[i..])
      {
        var item := items[i];
        assert item in Keys(items[i..]) && item in Keys(items);
        ghost var waiting, stored := queue, bucket.keys;
        var ok;
        ok, now := DrainItem(backend, item, pageSize, cfg, now);
        DrainMore(old(queue), waiting, old(bucket.keys), stored, item, bucket.keys, ok);
        if ok { count := count + 1; }
        RestOfItems(items, i);
        i := i + 1;
      }
      now := Ended(cfg, now, w.listed, Keys(items));
      forall h, k | Holds(w.db, h, k) ensures k in bucket.keys { assert Holds(now.db, h, k); }
    }

    /** One listed item: its prefix is removed, and it leaves the queue when that went through. */
    method DrainItem(backend: Backend, item: string, pageSize: nat, ghost cfg: Config, ghost w: World)
      returns (ok: bool, ghost w': World)
      requires pageSize > 0 && item != "" && Safe(w) && item in w.listed && w.db.queue == queue
               && w.store == bucket.keys
      modifies this`queue, bucket
      ensures Safe(w') && w' == w.(db := w.db.(queue := queue), store := bucket.keys)
      ensures queue == if ok then old(queue) - {item} else old(queue)
      ensures old(bucket.keys) - BelowIn(old(bucket.keys), item) <= bucket.keys <= old(bucket.keys)
      ensures ok ==> bucket.keys == old(bucket.keys) - BelowIn(old(bucket.keys), item)
      ensures Obliging(backend) ==> ok
    {
      ghost var stored := bucket.keys;
      ok := bucket.RemovePrefix(backend, item, pageSize);
      w' := Removed(cfg, w, item, stored - bucket.keys);
      if ok {
        queue := queue - {item};
        w' := Dequeued(cfg, w', item);
      }
      assert stored - (stored - bucket.keys) == bucket.keys;
    }

    static lemma RestOfItems(items: seq<string>, i: nat)
      requires i < |items| && forall i, j | 0 <= i < j < |items| :: items[i] != items[j]
      ensures Keys(items[i + 1..]) == Keys(items[i..]) - {items[i]}
    {
      assert items[i..] == [items[i]] + items[i + 1..];
    }

    static ghost method Listed(cfg: Config, w: World, keys: set<string>) returns (w': World)
      requires Safe(w) && keys <= w.db.queue
      ensures w' == w.(listed := w.listed + keys) && Safe(w')
    {
      BookkeepingKeepsSafe(cfg, w, List(keys));
      w' := Next(cfg, w, List(keys));
    }

    /** The drain is over and its list forgotten, but for what others have listed as well. */
    static ghost method Ended(cfg: Config, w: World, others: set<string>, keys: set<string>) returns (w': World)
      requires Safe(w) && w.listed == others + keys
      ensures w' == w.(listed := others) && Safe(w')
    {
      var a := Crash({}, {}, keys - others);
      BookkeepingKeepsSafe(cfg, w, a);
      w' := Next(cfg, w, a);
      assert w'.listed == others && w'.drafts == w.drafts && w'.retiring == w.retiring;
    }

    static ghost method Removed(cfg: Config, w: World, item: string, gone: set<string>) returns (w': World)
      requires Safe(w) && item in w.listed && forall k | k in gone :: Below(item, k)
      ensures w' == w.(store := w.store - gone) && Safe(w')
    {
      RemoveKeepsSafe(cfg, w, item, gone);
      w' := Next(cfg, w, Remove(item, gone));
    }

    static ghost method Dequeued(cfg: Config, w: World, item: string) returns (w': World)
      requires Safe(w)
      ensures w' == w.(db := w.db.(queue := w.db.queue - {item})) && Safe(w')
    {
      BookkeepingKeepsSafe(cfg, w, Dequeue(item));
      w' := Next(cfg, w, Dequeue(item));
    }

    method LiveUpload(live: set<string>, key: string) returns (found: bool)
      ensures found <==> Spared(live, key)
    {
      var left := live;
      while left != {}
        invariant left <= live && forall p | p in live && p !in left :: !(p <= key)
        decreases left
      {
        var p :| p in left;
        if p <= key { return true; }
        left := left - {p};
      }
      found := false;
    }

    /** gcOrphans: takes exactly the staged objects outside the sessions that were open when it looked.
        `answer` is how the store answers single removals. */
    method GcOrphans(answer: string -> bool, open: set<Uuid>, ghost cfg: Config, ghost w: World)
      returns (removed: nat, ok: bool)
      requires Safe(w) && w.store == bucket.keys
      modifies bucket
      ensures bucket.keys <= old(bucket.keys)
      ensures forall k | k in old(bucket.keys) - bucket.keys :: Staged(k) && !SparedBy(open, k)
      ensures ok ==> forall k | k in bucket.keys && ("uploads/" <= k || "orphan/" <= k) :: SparedBy(open, k)
      ensures Safe(w.(store := bucket.keys))
      ensures removed == |old(bucket.keys)| - |bucket.keys|
      ensures (forall k :: answer(k)) ==> ok
    {
      var live := LivePrefixes(open);
      removed, ok := SweepPrefix(answer, live, "uploads/");
      ghost var mid := bucket.keys;
      if ok {
        var more;
        more, ok := SweepPrefix(answer, live, "orphan/");
        removed := removed + more;
      }
      assert forall k | k in old(bucket.keys) - bucket.keys :: k in old(bucket.keys) - mid || k in mid - bucket.keys;
      forall k ensures Spared(live, k) <==> SparedBy(open, k) { SparedIsLive(open, k); }
      SweepIsSafe(cfg, w, bucket.keys);
    }

    static lemma SweepIsSafe(cfg: Config, w: World, keys: set<string>)
      requires Safe(w) && keys <= w.store && forall k | k in w.store - keys :: Staged(k)
      ensures Safe(w.(store := keys))
    {
      SweepKeepsSafe(cfg, w, w.store - keys);
      assert w.store - (w.store - keys) == keys;
    }

    /** One listed prefix of the sweep. */
    method SweepPrefix(answer: string -> bool, live: set<string>, prefix: string) returns (removed: nat, ok: bool)
      modifies bucket
      ensures bucket.keys <= old(bucket.keys)
      ensures forall k | k in old(bucket.keys) - bucket.keys :: prefix <= k && !Spared(live, k)
      ensures ok ==> forall k | k in bucket.keys && prefix <= k :: Spared(live, k)
      ensures removed == |old(bucket.keys)| - |bucket.keys|
      ensures (forall k :: answer(k)) ==> ok
    {
      removed, ok := 0, true;
      ghost var start := bucket.keys;
      ghost var gone: set<string> := {};
      var left: set<string> := set k | k in bucket.keys && prefix <= k;
      ghost var rest := left;
      while left != {}
        invariant rest == left && SweptSoFar(start, bucket.keys, gone, rest, live, prefix)
        invariant removed == |gone| && ok
        decreases left
      {
        var k :| k in left;
        left := left - {k};
        assert left + {k} == rest;
        var spared := LiveUpload(live, k);
        SweepStep(start, bucket.keys, gone, left, live, prefix, k);
        if !spared {
          if !answer(k) { ok := false; break; }
          bucket.keys := bucket.keys - {k};
          gone := gone + {k};
          removed := removed + 1;
        }
        rest := left;
      }
      SweepEnd(start, bucket.keys, gone, rest, live, prefix);
    }

    static ghost predicate SweptSoFar(start: set<string>, keys: set<string>, gone: set<string>, left: set<string>,
                                      live: set<string>, prefix: string) {
      && gone <= start && keys == start - gone && left <= keys && (forall k | k in left :: prefix <= k)
      && (forall k | k in gone :: prefix <= k && !Spared(live, k))
      && (forall k | k in keys && prefix <= k && k !in left :: Spared(live, k))
    }

    static lemma SweepStep(start: set<string>, keys: set<string>, gone: set<string>, rest: set<string>,
                           live: set<string>, prefix: string, k: string)
      requires k !in rest && SweptSoFar(start, keys, gone, rest + {k}, live, prefix)
      ensures Spared(live, k) ==> SweptSoFar(start, keys, gone, rest, live, prefix)
      ensures !Spared(live, k) ==>
                SweptSoFar(start, keys - {k}, gone + {k}, rest, live, prefix) && k in keys && k !in gone
    {
    }

    static lemma SweepEnd(start: set<string>, keys: set<string>, gone: set<string>, left: set<string>,
                          live: set<string>, prefix: string)
      requires SweptSoFar(start, keys, gone, left, live, prefix)
      ensures keys <= start && |gone| == |start| - |keys|
      ensures forall k | k in start - keys :: prefix <= k && !Spared(live, k)
      ensures left == {} ==> forall k | k in keys && prefix <= k :: Spared(live, k)
    {
      assert start == gone + keys;
    }
  }

  /** A part of a session is spared exactly when that session was open at the time of the look: a
      session opened between the look and the listing is not. */
  lemma PartSparedIff(open: set<Uuid>, id: Uuid, n: nat)
    ensures SparedBy(open, PartKey(id, n)) <==> id in open
  {
    assert SessionPath(id) + "/" <= PartKey(id, n);
    if s :| s in open && SessionPath(s) + "/" <= PartKey(id, n) {
      SessionsAreApart(s, id, n);
    }
  }
}
