/**
 What the order of the database cache means in terms of the history alone: which acquire put each id where it
 is, and which entries a full cache gives up.
 */
module RecencyOrder {
  import opened DatabasePool
  import opened Lists

  /** Operation j acquired its id, and nothing was done with that id since. */
  predicate Latest(h: seq<Op>, j: nat)
    requires j < |h|
  {
    h[j].Acquired? && forall k :: j < k < |h| ==> h[k].id != h[j].id
  }

  /** The positions `at` lead, in order, through exactly the latest acquires, whose ids are listed. */
  ghost predicate ListsLatest(at: seq<nat>, h: seq<Op>, ids: seq<Id>) {
    && |at| == |ids| && Increasing(at)
    && (forall k :: 0 <= k < |at| ==> at[k] < |h| && Latest(h, at[k]) && ids[k] == h[at[k]].id)
    && (forall j :: 0 <= j < |h| && Latest(h, j) ==> j in at)
  }

  lemma LatestNext(h: seq<Op>, op: Op, j: nat)
    requires j < |h|
    ensures Latest(h + [op], j) <==> Latest(h, j) && h[j].id != op.id
  {
    var more := h + [op];
    assert more[|h|] == op && forall k :: 0 <= k < |h| ==> more[k] == h[k];
  }

  lemma LatestLast(h: seq<Op>, op: Op)
    ensures Latest(h + [op], |h|) <==> op.Acquired?
  {
  }

  /** An id is listed once: the other listed acquires are of other ids. */
  lemma OneEntry(at: seq<nat>, h: seq<Op>, ids: seq<Id>, i: nat, k: nat)
    requires ListsLatest(at, h, ids) && i < |ids| && k < |ids| && i != k
    ensures ids[i] != ids[k]
  {
    assert at[i] < at[k] || at[k] < at[i];
  }

  /** Without the id of the next operation, the list is still that of the latest acquires that remain. */
  lemma ListsWithout(at: seq<nat>, h: seq<Op>, ids: seq<Id>, op: Op) returns (left: seq<nat>)
    requires ListsLatest(at, h, ids) && NoDup(ids)
    ensures Remain(left, h, op, Without(ids, op.id))
  {
    if op.id in ids {
      var p :| 0 <= p < |ids| && ids[p] == op.id;
      WithoutAt(ids, p);
      left := at[..p] + at[p + 1..];
      CutOne(at, h, ids, op, p);
    } else {
      left := at;
      WithoutAbsent(ids, op.id);
      forall j | 0 <= j < |h| ensures Latest(h + [op], j) <==> Latest(h, j) && h[j].id != op.id {
        LatestNext(h, op, j);
      }
      assert forall k :: 0 <= k < |at| ==> ids[k] in ids;
    }
  }

  /** The latest acquires among the first |h| operations, after one more. */
  ghost predicate Remain(at: seq<nat>, h: seq<Op>, op: Op, ids: seq<Id>) {
    && |at| == |ids| && Increasing(at)
    && (forall k :: 0 <= k < |at| ==> at[k] < |h| && Latest(h + [op], at[k]) && ids[k] == h[at[k]].id)
    && (forall j :: 0 <= j < |h| && Latest(h + [op], j) ==> j in at)
  }

  lemma CutOne(at: seq<nat>, h: seq<Op>, ids: seq<Id>, op: Op, p: nat)
    requires ListsLatest(at, h, ids) && p < |ids| && ids[p] == op.id
    ensures Remain(at[..p] + at[p + 1..], h, op, ids[..p] + ids[p + 1..])
  {
    var left, rest := at[..p] + at[p + 1..], ids[..p] + ids[p + 1..];
    forall k | 0 <= k < |left| ensures left[k] < |h| && Latest(h + [op], left[k]) && rest[k] == h[left[k]].id {
      var i := if k < p then k else k + 1;
      assert left[k] == at[i] && rest[k] == ids[i];
      StillLatest(at, h, ids, op, p, i);
    }
    forall j | 0 <= j < |h| && Latest(h + [op], j) ensures j in left {
      StillListed(at, h, ids, op, p, j);
    }
  }

  lemma StillLatest(at: seq<nat>, h: seq<Op>, ids: seq<Id>, op: Op, p: nat, i: nat)
    requires ListsLatest(at, h, ids) && p < |ids| && ids[p] == op.id && i < |at| && i != p
    ensures at[i] < |h| && Latest(h + [op], at[i])
  {
    OneEntry(at, h, ids, i, p);
    LatestNext(h, op, at[i]);
  }

  lemma StillListed(at: seq<nat>, h: seq<Op>, ids: seq<Id>, op: Op, p: nat, j: nat)
    requires ListsLatest(at, h, ids) && p < |ids| && ids[p] == op.id && j < |h| && Latest(h + [op], j)
    ensures j in at[..p] + at[p + 1..]
  {
    LatestNext(h, op, j);
    var i :| 0 <= i < |at| && at[i] == j;
    assert i != p;
    assert (at[..p] + at[p + 1..])[if i < p then i else i - 1] == j;
  }

  lemma OneMore(at: seq<nat>, h: seq<Op>, op: Op, ids: seq<Id>)
    requires Remain(at, h, op, ids)
    ensures op.Acquired? ==> ListsLatest(at + [|h|], h + [op], ids + [op.id])
    ensures op.Dropped? ==> ListsLatest(at, h + [op], ids)
  {
    LatestLast(h, op);
    var more := at + [|h|];
    assert more[|at|] == |h|;
    forall j | 0 <= j < |h + [op]| && Latest(h + [op], j) ensures j in more && (op.Dropped? ==> j in at) {
      if j < |h| {
        assert j in at;
      }
    }
  }

  /**
   The recency list is the ids whose last operation is an acquire, in the order of those acquires: the id acquired
   longest ago is first, and acquiring one again moves it behind all others.
   */
  lemma {:induction false} OrderOfLatest(h: seq<Op>) returns (at: seq<nat>)
    ensures ListsLatest(at, h, Recency(h))
  {
    at := [];
    if h != [] {
      var front, op := h[..|h| - 1], h[|h| - 1];
      assert h == front + [op];
      var before := OrderOfLatest(front);
      RecencyNoDup(front);
      var left := ListsWithout(before, front, Recency(front), op);
      OneMore(left, front, op, Without(Recency(front), op.id));
      at := if op.Acquired? then left + [|front|] else left;
    }
  }

  /** Of two ids in the list, the one whose last acquire is earlier is nearer to the front, and is given up first. */
  lemma EarlierIsNearer(h: seq<Op>, i: nat, k: nat) returns (a: nat, b: nat)
    requires i < k < |Recency(h)|
    ensures a < b < |h| && h[a] == Acquired(Recency(h)[i]) && h[b] == Acquired(Recency(h)[k])
    ensures forall j :: a < j < |h| ==> h[j].id != Recency(h)[i]
    ensures forall j :: b < j < |h| ==> h[j].id != Recency(h)[k]
  {
    var at := OrderOfLatest(h);
    a, b := at[i], at[k];
    assert Latest(h, a) && Latest(h, b);
  }

  /** An id is in the list exactly if something acquired it and nothing was done with it since. */
  lemma ListedIff(h: seq<Op>, x: Id)
    ensures x in Recency(h) <==> exists j :: 0 <= j < |h| && h[j] == Acquired(x) && forall k :: j < k < |h| ==> h[k].id != x
  {
    var at := OrderOfLatest(h);
    if x in Recency(h) {
      var k :| 0 <= k < |Recency(h)| && Recency(h)[k] == x;
      assert Latest(h, at[k]) && h[at[k]] == Acquired(x);
    }
    if j :| 0 <= j < |h| && h[j] == Acquired(x) && forall k :: j < k < |h| ==> h[k].id != x {
      assert Latest(h, j);
      var k :| 0 <= k < |at| && at[k] == j;
      assert Recency(h)[k] == x;
    }
  }
}
