/**
 The cache of open databases (internal/dbmanager/pool.go): a map of connections and an order of use,
 changed in critical sections between which a caller opens its database. The ghost ledger counts how
 often each opened handle was closed.
 */
module DatabasePool {
  import opened Lists
  import opened Options

  type Id = string
  type Handle = nat

  const DEFAULT_POOL_SIZE := 8

  // ---- The reference: recency lists ----

  /** x becomes the most recent. */
  function Touch(order: seq<Id>, x: Id): seq<Id> {
    Without(order, x) + [x]
  }

  /** The id at i went to the end, and the others kept their order. */
  ghost predicate MovedBack(before: seq<Id>, after: seq<Id>, i: int, x: Id) {
    0 <= i < |before| && before[i] == x && after == before[..i] + before[i + 1..] + [x]
  }

  /** The id at i is gone, and the others kept their order. */
  ghost predicate CutOut(before: seq<Id>, after: seq<Id>, i: int, x: Id) {
    0 <= i < |before| && before[i] == x && after == before[..i] + before[i + 1..]
  }

  /** What callers did, one after the other: acquired an id, or released it. */
  datatype Op = Acquired(id: Id) | Dropped(id: Id)

  /** Ids acquired and not released since, in the order of their last acquire. */
  function Recency(h: seq<Op>): seq<Id> {
    if h == [] then []
    else
      var before := Recency(h[..|h| - 1]);
      match h[|h| - 1]
      case Acquired(x) => Touch(before, x)
      case Dropped(x) => Without(before, x)
  }

  /** The ids an LRU cache of n entries holds, oldest first. */
  function Lru(h: seq<Op>, n: nat): seq<Id> {
    if h == [] then []
    else
      var before := Lru(h[..|h| - 1], n);
      match h[|h| - 1]
      case Acquired(x) => LastN(Touch(before, x), n)
      case Dropped(x) => Without(before, x)
  }

  /** Since its last acquire x was not released and was always among the n most recent. */
  predicate StayedRecent(h: seq<Op>, n: nat, x: Id) {
    if h == [] then false
    else if h[|h| - 1] == Acquired(x) then n > 0
    else if h[|h| - 1] == Dropped(x) then false
    else StayedRecent(h[..|h| - 1], n, x) && x in LastN(Recency(h), n)
  }

  lemma TouchNoDup(order: seq<Id>, x: Id)
    requires NoDup(order)
    ensures NoDup(Touch(order, x)) && |Touch(order, x)| == |order| + (if x in order then 0 else 1)
    ensures forall y :: y in Touch(order, x) <==> y in order || y == x
  {
    WithoutNoDup(order, x);
    WithoutMembers(order, x, x);
    forall y ensures y in Touch(order, x) <==> y in order || y == x {
      WithoutMembers(order, x, y);
    }
  }

  lemma SuffixNoDup<T>(a: seq<T>, b: seq<T>)
    requires NoDup(b) && Suffix(a, b)
    ensures NoDup(a)
  {
  }

  lemma {:induction false} RecencyNoDup(h: seq<Op>)
    ensures NoDup(Recency(h))
  {
    if h != [] {
      RecencyNoDup(h[..|h| - 1]);
      TouchNoDup(Recency(h[..|h| - 1]), h[|h| - 1].id);
      WithoutNoDup(Recency(h[..|h| - 1]), h[|h| - 1].id);
    }
  }

  lemma WithoutSuffix(a: seq<Id>, b: seq<Id>, x: Id)
    requires Suffix(a, b)
    ensures Suffix(Without(a, x), Without(b, x))
  {
    var front := b[..|b| - |a|];
    assert b == front + a;
    WithoutAppend(front, a, x);
  }

  lemma LastNSuffix<T>(a: seq<T>, b: seq<T>, n: nat)
    requires Suffix(a, b)
    ensures Suffix(LastN(a, n), b) && Suffix(LastN(a, n), LastN(b, n))
    ensures |a| >= n ==> LastN(a, n) == LastN(b, n)
  {
  }

  lemma SnocSuffix<T>(a: seq<T>, b: seq<T>, x: T)
    requires Suffix(a, b)
    ensures Suffix(a + [x], b + [x])
  {
  }

  /** The cache always holds the most recently acquired ids: a suffix of the recency list, at most n. */
  lemma {:induction false} LruIsRecent(h: seq<Op>, n: nat)
    ensures Suffix(Lru(h, n), Recency(h)) && |Lru(h, n)| <= n && NoDup(Lru(h, n))
    ensures |Lru(h, n)| <= |Recency(h)| && Lru(h, n) == Recency(h)[|Recency(h)| - |Lru(h, n)|..]
  {
    RecencyNoDup(h);
    if h != [] {
      var front, x := h[..|h| - 1], h[|h| - 1].id;
      var before, recent := Lru(front, n), Recency(front);
      LruIsRecent(front, n);
      WithoutSuffix(before, recent, x);
      WithoutNoDup(before, x);
      SnocSuffix(Without(before, x), Without(recent, x), x);
      LastNSuffix(Touch(before, x), Touch(recent, x), n);
    }
    SuffixNoDup(Lru(h, n), Recency(h));
  }

  lemma LastNMember<T>(s: seq<T>, n: nat, i: nat)
    requires NoDup(s) && i < |s|
    ensures s[i] in LastN(s, n) <==> i + n >= |s|
  {
    if i + n >= |s| {
      assert LastN(s, n)[i - (|s| - |LastN(s, n)|)] == s[i];
    } else {
      forall k | 0 <= k < n ensures LastN(s, n)[k] != s[i] {
        assert LastN(s, n)[k] == s[|s| - n + k];
      }
    }
  }

  lemma SuffixMember<T>(a: seq<T>, b: seq<T>, n: nat, x: T)
    requires NoDup(b) && Suffix(a, b)
    ensures x in LastN(a, n) <==> x in a && x in LastN(b, n)
  {
    if x in a {
      var i :| 0 <= i < |a| && a[i] == x;
      assert b[|b| - |a| + i] == x;
      SuffixNoDup(a, b);
      LastNMember(a, n, i);
      LastNMember(b, n, |b| - |a| + i);
    }
  }

  /** An id is in the cache exactly if, since its last acquire, it never fell behind the n most recent ones. */
  lemma {:induction false} CachedWhenRecent(h: seq<Op>, n: nat, x: Id)
    ensures x in Lru(h, n) <==> StayedRecent(h, n, x)
  {
    if h != [] {
      var front, y := h[..|h| - 1], h[|h| - 1].id;
      var before, recent := Lru(front, n), Recency(front);
      CachedWhenRecent(front, n, x);
      LruIsRecent(front, n);
      LruIsRecent(h, n);
      RecencyNoDup(h);
      WithoutMembers(before, y, x);
      if h[|h| - 1].Acquired? {
        WithoutSuffix(before, recent, y);
        SnocSuffix(Without(before, y), Without(recent, y), y);
        SuffixMember(Touch(before, y), Touch(recent, y), n, x);
        if x == y && n > 0 {
          assert LastN(Touch(before, y), n)[|LastN(Touch(before, y), n)| - 1] == y;
        }
      } else if x != y {
        LastNSuffix(Lru(h, n), Recency(h), n);
        SuffixMember(Lru(h, n), Recency(h), n, x);
        assert LastN(Lru(h, n), n) == Lru(h, n);
      }
    }
  }

  /** Without releases the cache is simply the n most recently acquired ids. */
  lemma {:induction false} LruWithoutDrops(h: seq<Op>, n: nat)
    requires forall i :: 0 <= i < |h| ==> h[i].Acquired?
    ensures Lru(h, n) == LastN(Recency(h), n)
  {
    if h != [] {
      var front, x := h[..|h| - 1], h[|h| - 1].id;
      LruWithoutDrops(front, n);
      LruIsRecent(front, n);
      LruIsRecent(h, n);
      var before, recent := Lru(front, n), Recency(front);
      WithoutSuffix(before, recent, x);
      SnocSuffix(Without(before, x), Without(recent, x), x);
      LastNSuffix(Touch(before, x), Touch(recent, x), n);
      RecencyNoDup(front);
      WithoutNoDup(before, x);
      if |recent| <= n {
        assert before == recent;
      }
    }
  }

  lemma DropFirst(order: seq<Id>)
    requires NoDup(order) && order != []
    ensures NoDup(order[1..]) && forall x :: x in order[1..] <==> x in order && x != order[0]
  {
    assert order == [order[0]] + order[1..];
  }

  lemma LastNSnoc<T>(s: seq<T>, x: T, n: nat)
    requires n > 0
    ensures LastN(s, n - 1) + [x] == LastN(s + [x], n)
  {
  }

  lemma LruSnoc(h: seq<Op>, op: Op, n: nat)
    ensures Lru(h + [op], n)
         == if op.Acquired? then LastN(Touch(Lru(h, n), op.id), n) else Without(Lru(h, n), op.id)
  {
    assert (h + [op])[..|h|] == h;
  }

  lemma LruHit(h: seq<Op>, id: Id, n: nat, order: seq<Id>)
    requires order == Lru(h, n) && NoDup(order) && |order| <= n && id in order
    ensures Lru(h + [Acquired(id)], n) == Touch(order, id)
  {
    LruSnoc(h, Acquired(id), n);
    TouchNoDup(order, id);
  }

  lemma LruMiss(h: seq<Op>, id: Id, n: nat, order: seq<Id>)
    requires order == Lru(h, n) && 0 < n && |order| <= n && id !in order
    ensures Lru(h + [Acquired(id)], n) == if |order| < n then order + [id] else order[|order| - n + 1..] + [id]
  {
    LruSnoc(h, Acquired(id), n);
    WithoutAbsent(order, id);
  }

  // ---- The ledger: who owns an opened handle ----

  predicate Pooled(conns: map<Id, Handle>, db: Handle) {
    exists x :: x in conns && conns[x] == db
  }

  /**
   No two ids share a handle, and a handle ever opened is cached and open, or about to be inserted and
   open, or was closed exactly once.
   */
  ghost predicate Ledger(conns: map<Id, Handle>, closes: map<Handle, nat>, transit: set<Handle>) {
    && (forall x, y :: x in conns && y in conns && x != y ==> conns[x] != conns[y])
    && (forall x :: x in conns ==> conns[x] in closes && conns[x] !in transit)
    && (forall db :: db in transit ==> db in closes)
    && (forall db :: db in closes ==> closes[db] == if Pooled(conns, db) || db in transit then 0 else 1)
  }

  function Closed(closes: map<Handle, nat>, db: Handle): map<Handle, nat>
    requires db in closes
  {
    closes[db := closes[db] + 1]
  }

  lemma PooledWithout(conns: map<Id, Handle>, id: Id, db: Handle)
    requires id in conns
    requires forall x :: x in conns && x != id ==> conns[x] != conns[id]
    ensures Pooled(conns - {id}, db) <==> Pooled(conns, db) && db != conns[id]
  {
    if Pooled(conns, db) && db != conns[id] {
      var x :| x in conns && conns[x] == db;
      assert x in conns - {id} && (conns - {id})[x] == db;
    }
  }

  lemma PooledWith(conns: map<Id, Handle>, id: Id, opening: Handle, db: Handle)
    requires id !in conns
    ensures Pooled(conns[id := opening], db) <==> Pooled(conns, db) || db == opening
  {
    if Pooled(conns, db) {
      var x :| x in conns && conns[x] == db;
      assert conns[id := opening][x] == db;
    }
    if db == opening {
      assert conns[id := opening][id] == db;
    }
  }

  /** Closing a cached handle and forgetting it keeps the books. */
  lemma LedgerRemove(conns: map<Id, Handle>, closes: map<Handle, nat>, transit: set<Handle>, id: Id)
    requires Ledger(conns, closes, transit) && id in conns
    ensures closes[conns[id]] == 0 && Ledger(conns - {id}, Closed(closes, conns[id]), transit)
  {
    assert Pooled(conns, conns[id]);
    forall db ensures Pooled(conns - {id}, db) <==> Pooled(conns, db) && db != conns[id] {
      PooledWithout(conns, id, db);
    }
  }

  lemma LedgerInsert(conns: map<Id, Handle>, closes: map<Handle, nat>, transit: set<Handle>, id: Id, db: Handle)
    requires Ledger(conns, closes, transit) && id !in conns && db in transit
    ensures Ledger(conns[id := db], closes, transit - {db})
  {
    forall d ensures Pooled(conns[id := db], d) <==> Pooled(conns, d) || d == db {
      PooledWith(conns, id, db, d);
    }
  }

  /** Closing a handle that lost the race to be cached keeps the books. */
  lemma LedgerDiscard(conns: map<Id, Handle>, closes: map<Handle, nat>, transit: set<Handle>, db: Handle)
    requires Ledger(conns, closes, transit) && db in transit
    ensures closes[db] == 0 && Ledger(conns, Closed(closes, db), transit - {db})
  {
    assert !Pooled(conns, db);
  }

  // ---- The pool ----

  /** One method per critical section; `transit` holds the handles opened and not yet inserted. */
  class DatabasePool {
    var conns: map<Id, Handle>
    var order: seq<Id>
    const poolSize: nat
    ghost var closes: map<Handle, nat>
    ghost var transit: set<Handle>

    /** The order lists the cached ids once each, within the size, and the books are kept. */
    ghost predicate Valid()
      reads this
    {
      && poolSize > 0
      && NoDup(order) && |order| <= poolSize
      && (forall x :: x in order <==> x in conns)
      && Ledger(conns, closes, transit)
    }

    constructor (size: int)
      ensures Valid() && conns == map[] && order == [] && closes == map[] && transit == {}
      ensures poolSize == if size <= 0 then 8 else size
    {
      poolSize := if size <= 0 then DEFAULT_POOL_SIZE else size;
      conns, order := map[], [];
      closes, transit := map[], {};
    }

    method TouchOrder(id: Id)
      requires NoDup(order)
      modifies this`order
      ensures order == if id in old(order) then Touch(old(order), id) else old(order)
      ensures id in old(order) ==> exists i :: MovedBack(old(order), order, i, id)
    {
      var i := 0;
      while i < |order|
        invariant 0 <= i <= |order| && order == old(order) && id !in order[..i]
      {
        if order[i] == id {
          WithoutAt(order, i);
          order := order[..i] + order[i + 1..];
          order := order + [id];
          assert MovedBack(old(order), order, i, id);
          return;
        }
        i := i + 1;
      }
    }

    /** First critical section of an acquire: a cached id is returned and becomes the most recent. */
    method Lookup(id: Id) returns (r: Option<Handle>)
      requires Valid()
      modifies this`order
      ensures Valid()
      ensures r == if id in conns then Some(conns[id]) else None
      ensures order == if id in conns then Touch(old(order), id) else old(order)
      ensures id in conns ==> exists i :: MovedBack(old(order), order, i, id)
    {
      if id in conns {
        TouchNoDup(order, id);
        TouchOrder(id);
        return Some(conns[id]);
      }
      return None;
    }

    /** Between the sections a database was opened. */
    ghost method Opened(db: Handle)
      requires Valid() && db !in closes
      modifies this`closes, this`transit
      ensures Valid()
      ensures closes == old(closes)[db := 0] && transit == old(transit) + {db}
    {
      closes, transit := closes[db := 0], transit + {db};
    }

    ghost method CloseHandle(db: Handle)
      requires db in closes
      modifies this`closes
      ensures closes == Closed(old(closes), db)
    {
      closes := closes[db := closes[db] + 1];
    }

    /**
     Second critical section. If the id was cached meanwhile, the new handle is closed and nothing else
     changes, not even the order; otherwise the oldest entries make room.
     */
    method Insert(id: Id, db: Handle) returns (r: Handle)
      requires Valid() && db in transit
      modifies this
      ensures Valid() && transit == old(transit) - {db} && closes.Keys == old(closes.Keys)
      ensures id in conns && r == conns[id]
      ensures id in old(conns) ==> order == old(order) && conns == old(conns) && closes == old(closes)[db := 1]
      ensures id !in old(conns) ==> r == db
      ensures id !in old(conns) ==>
                order == if |old(order)| < poolSize then old(order) + [id] else old(order)[|old(order)| - poolSize + 1..] + [id]
      ensures forall x :: x in conns && x != id ==> x in old(conns) && conns[x] == old(conns[x])
    {
      if id in conns {
        LedgerDiscard(conns, closes, transit, db);
        CloseHandle(db);
        transit := transit - {db};
        return conns[id];
      }
      MakeRoom();
      LedgerInsert(conns, closes, transit, id, db);
      LastNSnoc(old(order), id, poolSize);
      conns := conns[id := db];
      order := order + [id];
      transit := transit - {db};
      return db;
    }

    /** The eviction loop: entries leave from the front, each closed once, until one more fits. */
    method MakeRoom()
      requires Valid()
      modifies this`conns, this`order, this`closes
      ensures Valid() && |order| < poolSize && closes.Keys == old(closes.Keys)
      ensures order == LastN(old(order), poolSize - 1)
      ensures forall x :: x in conns ==> x in old(conns) && conns[x] == old(conns[x])
    {
      while |order| >= poolSize
        invariant Valid() && closes.Keys == old(closes.Keys)
        invariant |order| <= |old(order)| && order == old(order)[|old(order)| - |order|..]
        invariant |order| < |old(order)| ==> |order| == poolSize - 1
        invariant forall x :: x in conns ==> x in old(conns) && conns[x] == old(conns[x])
      {
        DropOldest();
      }
    }

    method DropOldest()
      requires Valid() && order != []
      modifies this`conns, this`order, this`closes
      ensures Valid() && closes.Keys == old(closes.Keys)
      ensures order == old(order)[1..] && conns == old(conns) - {old(order)[0]}
    {
      var oldest := order[0];
      DropFirst(order);
      order := order[1..];
      if oldest in conns {
        LedgerRemove(conns, closes, transit, oldest);
        CloseHandle(conns[oldest]);
        conns := conns - {oldest};
      }
    }

    /** Takes an id off the list of recent ones, if it is there. */
    method Forget(id: Id)
      requires NoDup(order)
      modifies this`order
      ensures order == Without(old(order), id)
      ensures id in old(order) ==> exists i :: CutOut(old(order), order, i, id)
    {
      var i := 0;
      while i < |order|
        invariant 0 <= i <= |order| && order == old(order) && id !in order[..i]
      {
        if order[i] == id {
          WithoutAt(order, i);
          order := order[..i] + order[i + 1..];
          assert CutOut(old(order), order, i, id);
          return;
        }
        i := i + 1;
      }
      WithoutAbsent(order, id);
    }

    /** Closing a connection by hand. */
    method Release(id: Id)
      requires Valid()
      modifies this
      ensures Valid() && transit == old(transit)
      ensures order == Without(old(order), id) && conns == old(conns) - {id}
      ensures id in old(conns) ==> exists i :: CutOut(old(order), order, i, id)
      ensures closes == if id in old(conns) then old(closes)[old(conns[id]) := 1] else old(closes)
    {
      WithoutNoDup(order, id);
      WithoutMembersAll(order, id);
      if id in conns {
        LedgerRemove(conns, closes, transit, id);
        CloseHandle(conns[id]);
        conns := conns - {id};
      }
      Forget(id);
    }

    /** Shutting down closes every cached handle once; handles in transit stay open. */
    method Close()
      requires Valid()
      modifies this
      ensures Valid() && conns == map[] && order == [] && transit == old(transit)
      ensures closes.Keys == old(closes.Keys)
    {
      while conns.Keys != {}
        invariant Ledger(conns, closes, transit)
        invariant transit == old(transit) && closes.Keys == old(closes.Keys)
        decreases |conns|
      {
        var id :| id in conns.Keys;
        LedgerRemove(conns, closes, transit, id);
        CloseHandle(conns[id]);
        conns := conns - {id};
      }
      order := [];
    }

    // ---- One caller at a time ----

    /**
     A whole acquire with nobody in between. `found` is what reading the stored connection and opening it
     would give. Whatever the history, a pool that held its LRU list holds it afterwards; a failed acquire
     changes nothing.
     */
    method Acquire(id: Id, found: Option<Handle>, ghost h: seq<Op>) returns (r: Option<Handle>)
      requires Valid() && order == Lru(h, poolSize)
      requires found.Some? ==> found.value !in closes
      modifies this
      ensures Valid() && transit == old(transit)
      ensures r.Some? <==> id in old(conns) || found.Some?
      ensures r.Some? ==> order == Lru(h + [Acquired(id)], poolSize) && id in conns && r.value == conns[id]
      ensures r.None? ==> order == old(order) && conns == old(conns) && closes == old(closes)
      ensures id in old(conns) ==> conns == old(conns) && closes == old(closes)
    {
      r := Obtain(id, found);
      if id in old(order) {
        LruHit(h, id, poolSize, old(order));
      } else {
        LruMiss(h, id, poolSize, old(order));
      }
    }

    method Obtain(id: Id, found: Option<Handle>) returns (r: Option<Handle>)
      requires Valid() && (found.Some? ==> found.value !in closes)
      modifies this
      ensures Valid() && transit == old(transit)
      ensures r.Some? <==> id in old(conns) || found.Some?
      ensures r.Some? ==> id in conns && r.value == conns[id]
      ensures r.None? ==> order == old(order) && conns == old(conns) && closes == old(closes)
      ensures id in old(conns) ==> order == Touch(old(order), id) && conns == old(conns) && closes == old(closes)
      ensures id !in old(conns) && r.Some? ==>
                order == if |old(order)| < poolSize then old(order) + [id] else old(order)[|old(order)| - poolSize + 1..] + [id]
    {
      r := Lookup(id);
      if r.Some? || found.None? {
        return;
      }
      Opened(found.value);
      var db := Insert(id, found.value);
      return Some(db);
    }

    method Drop(id: Id, ghost h: seq<Op>)
      requires Valid() && order == Lru(h, poolSize)
      modifies this
      ensures Valid() && order == Lru(h + [Dropped(id)], poolSize) && id !in conns
    {
      LruSnoc(h, Dropped(id), poolSize);
      Release(id);
    }
  }
}
