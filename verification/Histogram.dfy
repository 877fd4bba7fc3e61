/**
 The log histogram (internal/logmonitor/store.go): grouping rows into time buckets and filling the gaps of the
 selected window. The database's grouped answer is a parameter, described by what SQL makes of the rows; its
 integer division truncates. Times are mathematical integers.
 */
module Histogram {
  import opened Arithmetic
  import opened Options

  // ---- Division ----

  /** Division that truncates toward zero, as in Go and in SQLite. */
  function TruncDiv(a: int, b: int): int
    requires b != 0
  {
    if a >= 0 then a / b else -((-a) / b)
  }

  /** Flooring division, made from the truncating one: the greatest integer whose product with b does not pass a. */
  method FloorDivision(a: int, b: int) returns (q: int)
    requires b != 0
    ensures if b > 0 then q * b <= a < (q + 1) * b else q * b >= a > (q + 1) * b
    ensures q == FloorDiv(a, b)
  {
    FloorIsFloor(a, b);
    q := TruncDiv(a, b);
    if a - q * b != 0 && (a < 0) != (b < 0) {
      q := q - 1;
    }
  }

  function FloorDiv(a: int, b: int): int
    requires b != 0
  {
    var q := TruncDiv(a, b);
    if a - q * b != 0 && (a < 0) != (b < 0) then q - 1 else q
  }

  /** Truncation leaves a remainder of the sign of the numerator. */
  lemma TruncParts(a: int, b: int) returns (r: int)
    requires b != 0
    ensures 0 <= r < (if b > 0 then b else -b)
    ensures a == TruncDiv(a, b) * b + (if a >= 0 then r else -r)
  {
    if a >= 0 {
      r := a % b;
    } else {
      r := (-a) % b;
      Products((-a) / b, b);
    }
  }

  /** It is the mathematical floor of the quotient, for numerators and denominators of either sign. */
  lemma FloorIsFloor(a: int, b: int)
    requires b != 0
    ensures var q := FloorDiv(a, b); if b > 0 then q * b <= a < (q + 1) * b else q * b >= a > (q + 1) * b
  {
    var r := TruncParts(a, b);
    Products(TruncDiv(a, b), b);
    Products(FloorDiv(a, b), b);
  }

  /** Only the floor lies between. */
  lemma FloorUnique(a: int, b: int, q: int)
    requires b > 0 && q * b <= a < (q + 1) * b
    ensures FloorDiv(a, b) == q
  {
    FloorIsFloor(a, b);
    ProductOrder(q, FloorDiv(a, b) + 1, b);
    ProductOrder(FloorDiv(a, b), q + 1, b);
  }

  lemma FloorOrdered(a: int, a': int, b: int)
    requires b > 0 && a <= a'
    ensures FloorDiv(a, b) <= FloorDiv(a', b)
  {
    FloorIsFloor(a, b);
    FloorIsFloor(a', b);
    ProductOrder(FloorDiv(a, b), FloorDiv(a', b) + 1, b);
  }

  // ---- Rows ----

  datatype Row = Row(ts: int, level: string, service: string)

  datatype Query = Query(service: string, startTs: int, endTs: int)

  predicate Matches(q: Option<Query>, r: Row) {
    q.Some? ==>
      && (q.value.service == "" || r.service == q.value.service)
      && (q.value.startTs > 0 ==> r.ts >= q.value.startTs)
      && (q.value.endTs > 0 ==> r.ts <= q.value.endTs)
  }

  function SqlBucket(ts: int, ms: int): int
    requires ms > 0
  {
    TruncDiv(ts, ms)
  }

  /** How many matching rows SQL puts into a bucket, by level. */
  function SqlCount(rows: seq<Row>, q: Option<Query>, ms: int, bucket: int, level: string): nat
    requires ms > 0
  {
    if rows == [] then 0
    else
      var r := rows[|rows| - 1];
      SqlCount(rows[..|rows| - 1], q, ms, bucket, level)
      + (if Matches(q, r) && r.level == level && SqlBucket(r.ts, ms) == bucket then 1 else 0)
  }

  /** Truncation puts a time into the bucket that begins at or before it from zero on, and into the one behind it before zero. */
  lemma SqlBucketIff(ts: int, ms: int, bucket: int)
    requires ms > 0
    ensures SqlBucket(ts, ms) == bucket <==>
            if ts >= 0 then bucket * ms <= ts < (bucket + 1) * ms else (bucket - 1) * ms < ts <= bucket * ms
  {
    Products(bucket, ms);
    Products(-bucket, ms);
    if ts >= 0 {
      RowInBucket(ts, ms, bucket);
    } else {
      RowInBucket(-ts, ms, -bucket);
    }
  }

  lemma LastPicked(r: Row, q: Option<Query>, ms: int, bucket: int, level: string)
    requires ms > 0
    ensures Matches(q, r) && r.level == level && SqlBucket(r.ts, ms) == bucket <==>
               && r.level == level
               && (if r.ts >= 0 then bucket * ms <= r.ts < (bucket + 1) * ms else (bucket - 1) * ms < r.ts <= bucket * ms)
               && (q.Some? && q.value.service != "" ==> r.service == q.value.service)
               && (q.Some? && q.value.startTs > 0 ==> q.value.startTs <= r.ts)
               && (q.Some? && q.value.endTs > 0 ==> r.ts <= q.value.endTs)
  {
    SqlBucketIff(r.ts, ms, bucket);
  }

  /** SQL's count is the number of rows that its conditions select, that have the level, and that fall into the bucket. */
  lemma {:induction false} SqlCountIs(rows: seq<Row>, q: Option<Query>, ms: int, bucket: int, level: string, picked: set<nat>)
    requires ms > 0
    requires forall i: nat :: i in picked <==>
               && i < |rows| && rows[i].level == level
               && (if rows[i].ts >= 0 then bucket * ms <= rows[i].ts < (bucket + 1) * ms
                   else (bucket - 1) * ms < rows[i].ts <= bucket * ms)
               && (q.Some? && q.value.service != "" ==> rows[i].service == q.value.service)
               && (q.Some? && q.value.startTs > 0 ==> q.value.startTs <= rows[i].ts)
               && (q.Some? && q.value.endTs > 0 ==> rows[i].ts <= q.value.endTs)
    ensures SqlCount(rows, q, ms, bucket, level) == |picked|
  {
    if rows == [] {
      assert picked == {};
    } else {
      var n := |rows| - 1;
      assert forall i :: 0 <= i < n ==> rows[..n][i] == rows[i];
      SqlCountIs(rows[..n], q, ms, bucket, level, picked - {n});
      LastPicked(rows[n], q, ms, bucket, level);
    }
  }

  /** How many matching rows have their time in [bucket * ms, (bucket + 1) * ms), by level. */
  function DirectCount(rows: seq<Row>, q: Option<Query>, ms: int, bucket: int, level: string): nat
    requires ms > 0
  {
    if rows == [] then 0
    else
      var r := rows[|rows| - 1];
      DirectCount(rows[..|rows| - 1], q, ms, bucket, level)
      + (if Matches(q, r) && r.level == level && bucket * ms <= r.ts < (bucket + 1) * ms then 1 else 0)
  }

  /** A time before zero and off the bucket grid, which truncation puts one bucket too late. */
  predicate Misplaced(ts: int, ms: int)
    requires ms > 0
  {
    ts < 0 && TruncDiv(ts, ms) * ms != ts
  }

  /** Misplaced rows by the bucket they belong to. */
  function MisplacedCount(rows: seq<Row>, q: Option<Query>, ms: int, bucket: int, level: string): nat
    requires ms > 0
  {
    if rows == [] then 0
    else
      var r := rows[|rows| - 1];
      MisplacedCount(rows[..|rows| - 1], q, ms, bucket, level)
      + (if Matches(q, r) && r.level == level && Misplaced(r.ts, ms) && FloorDiv(r.ts, ms) == bucket then 1 else 0)
  }

  lemma RowInBucket(ts: int, ms: int, bucket: int)
    requires ms > 0
    ensures bucket * ms <= ts < (bucket + 1) * ms <==> FloorDiv(ts, ms) == bucket
  {
    FloorIsFloor(ts, ms);
    if bucket * ms <= ts < (bucket + 1) * ms {
      FloorUnique(ts, ms, bucket);
    }
  }

  lemma SqlBucketOfRow(ts: int, ms: int)
    requires ms > 0
    ensures SqlBucket(ts, ms) == FloorDiv(ts, ms) + (if Misplaced(ts, ms) then 1 else 0)
  {
  }

  /** The two counts differ by the misplaced rows: those that belong here, and those of the bucket before. */
  lemma {:induction false} CountsDiffer(rows: seq<Row>, q: Option<Query>, ms: int, bucket: int, level: string)
    requires ms > 0
    ensures DirectCount(rows, q, ms, bucket, level) + MisplacedCount(rows, q, ms, bucket - 1, level)
         == SqlCount(rows, q, ms, bucket, level) + MisplacedCount(rows, q, ms, bucket, level)
  {
    if rows != [] {
      CountsDiffer(rows[..|rows| - 1], q, ms, bucket, level);
      RowInBucket(rows[|rows| - 1].ts, ms, bucket);
      SqlBucketOfRow(rows[|rows| - 1].ts, ms);
    }
  }

  lemma {:induction false} NoneMisplaced(rows: seq<Row>, q: Option<Query>, ms: int, bucket: int, level: string)
    requires ms > 0
    requires forall i :: 0 <= i < |rows| && Matches(q, rows[i]) ==> !Misplaced(rows[i].ts, ms)
    ensures MisplacedCount(rows, q, ms, bucket, level) == 0
  {
    if rows != [] {
      NoneMisplaced(rows[..|rows| - 1], q, ms, bucket, level);
    }
  }

  lemma {:induction false} SomeMisplaced(rows: seq<Row>, q: Option<Query>, ms: int, i: nat)
    requires ms > 0 && i < |rows| && Matches(q, rows[i]) && Misplaced(rows[i].ts, ms)
    ensures MisplacedCount(rows, q, ms, FloorDiv(rows[i].ts, ms), rows[i].level) > 0
  {
    if i < |rows| - 1 {
      assert rows[..|rows| - 1][i] == rows[i];
      SomeMisplaced(rows[..|rows| - 1], q, ms, i);
    }
  }

  /** Far enough back there are no rows. */
  lemma {:induction false} EarliestBucket(rows: seq<Row>, q: Option<Query>, ms: int, level: string) returns (lo: int)
    requires ms > 0
    ensures forall b :: b < lo ==> MisplacedCount(rows, q, ms, b, level) == 0
  {
    lo := 0;
    if rows != [] {
      var before := EarliestBucket(rows[..|rows| - 1], q, ms, level);
      var own := FloorDiv(rows[|rows| - 1].ts, ms);
      lo := if own < before then own else before;
    }
  }

  ghost predicate CountsAgree(rows: seq<Row>, q: Option<Query>, ms: int)
    requires ms > 0
  {
    forall b, level :: SqlCount(rows, q, ms, b, level) == DirectCount(rows, q, ms, b, level)
  }

  lemma {:induction false} SameAsEarlier(rows: seq<Row>, q: Option<Query>, ms: int, bucket: int, level: string,
      back: nat)
    requires ms > 0 && CountsAgree(rows, q, ms)
    ensures MisplacedCount(rows, q, ms, bucket, level) == MisplacedCount(rows, q, ms, bucket - back, level)
  {
    if back > 0 {
      SameAsEarlier(rows, q, ms, bucket, level, back - 1);
      CountsDiffer(rows, q, ms, bucket - (back - 1), level);
      assert SqlCount(rows, q, ms, bucket - (back - 1), level) == DirectCount(rows, q, ms, bucket - (back - 1), level);
    }
  }

  /** SQL's buckets are the real ones exactly if no matching row has a time before zero off the grid. */
  lemma AgreeIff(rows: seq<Row>, q: Option<Query>, ms: int)
    requires ms > 0
    ensures CountsAgree(rows, q, ms) <==>
            forall i :: 0 <= i < |rows| && Matches(q, rows[i]) ==> !Misplaced(rows[i].ts, ms)
  {
    if i :| 0 <= i < |rows| && Matches(q, rows[i]) && Misplaced(rows[i].ts, ms) {
      var f, level := FloorDiv(rows[i].ts, ms), rows[i].level;
      SomeMisplaced(rows, q, ms, i);
      var lo := EarliestBucket(rows, q, ms, level);
      var back := if f >= lo then f - lo + 1 else 0;
      if CountsAgree(rows, q, ms) {
        SameAsEarlier(rows, q, ms, f, level, back);
      }
    } else {
      forall b, level ensures SqlCount(rows, q, ms, b, level) == DirectCount(rows, q, ms, b, level) {
        CountsDiffer(rows, q, ms, b, level);
        NoneMisplaced(rows, q, ms, b, level);
        NoneMisplaced(rows, q, ms, b - 1, level);
      }
    }
  }

  /** In particular whenever the window has a start. */
  lemma AgreeWithStart(rows: seq<Row>, q: Query, ms: int)
    requires ms > 0 && q.startTs > 0
    ensures CountsAgree(rows, Some(q), ms)
  {
    AgreeIff(rows, Some(q), ms);
  }

  // ---- The grouped answer ----

  datatype Group = Group(ts: int, level: string, count: int)
  datatype Bucket = Bucket(ts: int, counts: map<string, int>)

  function CountOf(counts: map<string, int>, level: string): int {
    if level in counts then counts[level] else 0
  }

  function CountsOf(groups: seq<Group>, ts: int): map<string, int> {
    if groups == [] then map[]
    else
      var g := groups[|groups| - 1];
      CountsPlus(CountsOf(groups[..|groups| - 1], ts), g, ts)
  }

  function CountsPlus(counts: map<string, int>, g: Group, ts: int): map<string, int> {
    if g.ts == ts then counts[g.level := g.count] else counts
  }

  /** What the database answers: each bucket and level once, with its count, in the order of the buckets. */
  ghost predicate Answers(groups: seq<Group>, rows: seq<Row>, q: Option<Query>, ms: int)
    requires ms > 0
  {
    && (forall i, j :: 0 <= i < j < |groups| ==> groups[i].ts <= groups[j].ts)
    && (forall i, j :: 0 <= i < j < |groups| ==> !(groups[i].ts == groups[j].ts && groups[i].level == groups[j].level))
    && (forall i :: 0 <= i < |groups| ==> GroupCounts(groups[i], rows, q, ms))
    && (forall b, level :: SqlCount(rows, q, ms, b, level) > 0 ==> HasGroup(groups, b * ms, level))
  }

  ghost predicate GroupCounts(g: Group, rows: seq<Row>, q: Option<Query>, ms: int)
    requires ms > 0
  {
    exists b :: g.ts == b * ms && g.count == SqlCount(rows, q, ms, b, g.level)
  }

  predicate HasGroup(groups: seq<Group>, ts: int, level: string) {
    exists i :: 0 <= i < |groups| && groups[i].ts == ts && groups[i].level == level
  }

  lemma {:induction false} CountsOfGroup(groups: seq<Group>, i: nat)
    requires i < |groups|
    requires forall j, k :: 0 <= j < k < |groups| ==> !(groups[j].ts == groups[k].ts && groups[j].level == groups[k].level)
    ensures CountOf(CountsOf(groups, groups[i].ts), groups[i].level) == groups[i].count
  {
    var n := |groups| - 1;
    if i < n {
      assert groups[..n][i] == groups[i];
      CountsOfGroup(groups[..n], i);
    }
  }

  lemma {:induction false} CountsOfNoGroup(groups: seq<Group>, ts: int, level: string)
    requires !HasGroup(groups, ts, level)
    ensures CountOf(CountsOf(groups, ts), level) == 0
  {
    if groups != [] {
      var n := |groups| - 1;
      assert forall i :: 0 <= i < n ==> groups[..n][i] == groups[i];
      CountsOfNoGroup(groups[..n], ts, level);
    }
  }

  /** The answer's counts are SQL's counts, for every bucket and level. */
  lemma AnswerCounts(groups: seq<Group>, rows: seq<Row>, q: Option<Query>, ms: int, b: int, level: string)
    requires ms > 0 && Answers(groups, rows, q, ms)
    ensures CountOf(CountsOf(groups, b * ms), level) == SqlCount(rows, q, ms, b, level)
  {
    if HasGroup(groups, b * ms, level) {
      var i :| 0 <= i < |groups| && groups[i].ts == b * ms && groups[i].level == level;
      CountsOfGroup(groups, i);
      assert GroupCounts(groups[i], rows, q, ms);
      var b' :| groups[i].ts == b' * ms && groups[i].count == SqlCount(rows, q, ms, b', level);
      SameProduct(b, b', ms);
    } else {
      CountsOfNoGroup(groups, b * ms, level);
    }
  }

  // ---- Buckets ----

  function Times(groups: seq<Group>): seq<int> {
    if groups == [] then []
    else
      var before := Times(groups[..|groups| - 1]);
      if groups[|groups| - 1].ts in before then before else before + [groups[|groups| - 1].ts]
  }

  /** The counts shown for a time; nothing where there is no bucket. */
  function CountsAt(buckets: seq<Bucket>, ts: int): map<string, int> {
    if buckets == [] then map[]
    else if buckets[|buckets| - 1].ts == ts then buckets[|buckets| - 1].counts
    else CountsAt(buckets[..|buckets| - 1], ts)
  }

  function Buckets(times: seq<int>, groups: seq<Group>): seq<Bucket> {
    if times == [] then []
    else
      var ts := times[|times| - 1];
      Buckets(times[..|times| - 1], groups) + [Bucket(ts, CountsOf(groups, ts))]
  }

  lemma {:induction false} BucketsAt(times: seq<int>, groups: seq<Group>, ts: int)
    ensures |Buckets(times, groups)| == |times|
    ensures CountsAt(Buckets(times, groups), ts) == if ts in times then CountsOf(groups, ts) else map[]
  {
    if times != [] {
      var n := |times| - 1;
      BucketsAt(times[..n], groups, ts);
      assert times == times[..n] + [times[n]];
      assert Buckets(times, groups)[..n] == Buckets(times[..n], groups);
    }
  }

  lemma {:induction false} TimesHave(groups: seq<Group>, ts: int)
    ensures ts !in Times(groups) ==> CountsOf(groups, ts) == map[]
    ensures ts in Times(groups) ==> exists i :: 0 <= i < |groups| && groups[i].ts == ts
  {
    if groups != [] {
      var n := |groups| - 1;
      TimesHave(groups[..n], ts);
      assert forall i :: 0 <= i < n ==> groups[..n][i] == groups[i];
    }
  }

  method Aggregate(groups: seq<Group>) returns (result: seq<Bucket>)
    ensures result == Buckets(Times(groups), groups)
  {
    var bucketMap: map<int, map<string, int>> := map[];
    var order: seq<int> := [];
    var i := 0;
    while i < |groups|
      invariant 0 <= i <= |groups| && order == Times(groups[..i])
      invariant forall ts :: ts in bucketMap <==> ts in order
      invariant forall ts :: ts in bucketMap ==> bucketMap[ts] == CountsOf(groups[..i], ts)
    {
      var g := groups[i];
      GroupsSnoc(groups, i);
      TimesHave(groups[..i], g.ts);
      if g.ts !in bucketMap {
        bucketMap := bucketMap[g.ts := map[]];
        order := order + [g.ts];
      }
      bucketMap := bucketMap[g.ts := bucketMap[g.ts][g.level := g.count]];
      i := i + 1;
    }
    assert groups[..i] == groups;
    result := [];
    i := 0;
    while i < |order|
      invariant 0 <= i <= |order| && result == Buckets(order[..i], groups)
    {
      BucketsSnoc(order, i, groups);
      result := result + [Bucket(order[i], bucketMap[order[i]])];
      i := i + 1;
    }
    assert order[..i] == order;
  }

  lemma GroupsSnoc(groups: seq<Group>, n: nat)
    requires n < |groups|
    ensures var g, before := groups[n], Times(groups[..n]);
      Times(groups[..n + 1]) == if g.ts in before then before else before + [g.ts]
    ensures forall ts :: CountsOf(groups[..n + 1], ts) == CountsPlus(CountsOf(groups[..n], ts), groups[n], ts)
  {
    assert groups[..n + 1][..n] == groups[..n];
  }

  lemma BucketsSnoc(times: seq<int>, n: nat, groups: seq<Group>)
    requires n < |times|
    ensures Buckets(times[..n + 1], groups) == Buckets(times[..n], groups) + [Bucket(times[n], CountsOf(groups, times[n]))]
  {
    assert times[..n + 1][..n] == times[..n];
  }

  // ---- Filling the gaps ----

  const MAX_BUCKETS := 1000

  /** The first and last bucket of the selected window, if there is one to fill. */
  function Window(buckets: seq<Bucket>, q: Option<Query>, ms: int): Option<(int, int)> {
    if q.None? || (q.value.startTs <= 0 && q.value.endTs <= 0) || ms <= 0 then None
    else if (q.value.startTs <= 0 || q.value.endTs <= 0) && buckets == [] then None
    else
      var start := if q.value.startTs <= 0 then buckets[0].ts - ms * 30 else q.value.startTs;
      var end := if q.value.endTs <= 0 then buckets[|buckets| - 1].ts + ms else q.value.endTs;
      var first, last := FloorDiv(start, ms), FloorDiv(end, ms);
      if last < first then None else Some((first, last))
  }

  /**
   The window has an end that the query gives, or else 30 widths before the first bucket there is and one width
   behind the last. It is filled from the bucket of its start to the bucket of its end.
   */
  lemma WindowIs(buckets: seq<Bucket>, q: Query, ms: int, first: int, last: int)
    requires ms > 0 && (q.startTs > 0 || q.endTs > 0) && (buckets == [] ==> q.startTs > 0 && q.endTs > 0)
    ensures Window(buckets, Some(q), ms) == Some((first, last)) <==>
      var start := if q.startTs > 0 then q.startTs else buckets[0].ts - 30 * ms;
      var end := if q.endTs > 0 then q.endTs else buckets[|buckets| - 1].ts + ms;
      first * ms <= start < (first + 1) * ms && last * ms <= end < (last + 1) * ms && first <= last
  {
    RowInBucket(if q.startTs > 0 then q.startTs else buckets[0].ts - 30 * ms, ms, first);
    RowInBucket(if q.endTs > 0 then q.endTs else buckets[|buckets| - 1].ts + ms, ms, last);
  }

  /** n buckets in a row from `first`, one every `step` bucket widths, each with the counts known for its time. */
  function Run(buckets: seq<Bucket>, ms: int, first: int, step: int, n: nat): (r: seq<Bucket>)
    ensures |r| == n
    ensures forall i :: 0 <= i < n ==> r[i] == BucketAt(buckets, (first + i * step) * ms)
  {
    if n == 0 then []
    else Run(buckets, ms, first, step, n - 1) + [BucketAt(buckets, (first + (n - 1) * step) * ms)]
  }

  function BucketAt(buckets: seq<Bucket>, ts: int): Bucket {
    Bucket(ts, CountsAt(buckets, ts))
  }

  function CeilDiv(n: nat): (step: nat)
    ensures (step - 1) * MAX_BUCKETS < n <= step * MAX_BUCKETS
  {
    (n + MAX_BUCKETS - 1) / MAX_BUCKETS
  }

  /** One bucket out of how many is shown. */
  function Stride(first: int, last: int): (step: int)
    requires first <= last
    ensures step >= 1
  {
    if last - first + 1 > MAX_BUCKETS then CeilDiv(last - first + 1) else 1
  }

  method IndexBuckets(buckets: seq<Bucket>) returns (byTs: map<int, map<string, int>>)
    ensures forall ts :: (if ts in byTs then byTs[ts] else map[]) == CountsAt(buckets, ts)
  {
    byTs := map[];
    var i := 0;
    while i < |buckets|
      invariant 0 <= i <= |buckets|
      invariant forall ts :: (if ts in byTs then byTs[ts] else map[]) == CountsAt(buckets[..i], ts)
    {
      assert buckets[..i + 1][..i] == buckets[..i];
      byTs := byTs[buckets[i].ts := buckets[i].counts];
      i := i + 1;
    }
    assert buckets[..i] == buckets;
  }

  /** The filling loop, for either step. */
  method FillRun(buckets: seq<Bucket>, ms: int, first: int, last: int, step: int) returns (out: seq<Bucket>)
    requires step >= 1 && first <= last
    ensures out == Run(buckets, ms, first, step, |out|)
    ensures |out| >= 1 && (|out| - 1) * step <= last - first < |out| * step
  {
    var byTs := IndexBuckets(buckets);
    out := [];
    var b := first;
    while b <= last
      invariant b == first + |out| * step && out == Run(buckets, ms, first, step, |out|)
      invariant |out| >= 1 ==> (|out| - 1) * step <= last - first
      decreases last - b
    {
      var bt := b * ms;
      if bt in byTs {
        out := out + [Bucket(bt, byTs[bt])];
      } else {
        out := out + [Bucket(bt, map[])];
      }
      Products(|out| - 1, step);
      b := b + step;
    }
    assert |out| == 0 ==> |out| * step == 0;
  }

  /**
   A window of at most 1000 buckets is filled without gaps; a wider one is thinned out to every so many buckets,
   at most 1000 of them, each with the exact counts of its own bucket.
   */
  method FillEmptyBuckets(buckets: seq<Bucket>, q: Option<Query>, ms: int) returns (out: seq<Bucket>)
    ensures Window(buckets, q, ms).None? ==> out == buckets
    ensures Window(buckets, q, ms).Some? ==>
              var (first, last) := Window(buckets, q, ms).value;
              var n := last - first + 1;
              var step := Stride(first, last);
              && out == Run(buckets, ms, first, step, |out|)
              && 1 <= |out| <= 1000 && (|out| - 1) * step <= last - first < |out| * step
              && (n <= 1000 ==> step == 1 && |out| == n) && (step - 1) * 1000 < n <= step * 1000
  {
    if q.None? || (q.value.startTs <= 0 && q.value.endTs <= 0) || ms <= 0 {
      return buckets;
    }
    var start := q.value.startTs;
    if start <= 0 {
      if |buckets| > 0 {
        start := buckets[0].ts - ms * 30;
      } else {
        return buckets;
      }
    }
    var end := q.value.endTs;
    if end <= 0 {
      if |buckets| > 0 {
        end := buckets[|buckets| - 1].ts + ms;
      } else {
        return buckets;
      }
    }
    var first := FloorDivision(start, ms);
    var last := FloorDivision(end, ms);
    if last < first {
      return buckets;
    }
    var n := last - first + 1;
    if n > MAX_BUCKETS {
      var step := (n + MAX_BUCKETS - 1) / MAX_BUCKETS;
      out := FillRun(buckets, ms, first, last, step);
      FewEnough(|out|, step, n);
    } else {
      out := FillRun(buckets, ms, first, last, 1);
    }
  }

  lemma FewEnough(k: nat, step: int, n: int)
    requires step >= 1 && (k - 1) * step < n <= step * MAX_BUCKETS
    ensures k <= MAX_BUCKETS
  {
    assert step * MAX_BUCKETS == MAX_BUCKETS * step;
    ProductOrder(k - 1, MAX_BUCKETS, step);
  }

  /** The whole query: what SQL grouped, and the selected window filled from it. */
  method Histogram(q: Option<Query>, bucketMs: int, ghost rows: seq<Row>,
      groups: seq<Group>) returns (result: seq<Bucket>)
    requires Answers(groups, rows, q, if bucketMs <= 0 then 60000 else bucketMs)
    ensures var shown, ms := Buckets(Times(groups), groups), if bucketMs <= 0 then 60000 else bucketMs;
      match Window(shown, q, ms)
      case None => result == shown
      case Some((first, last)) => Shows(result, rows, q, ms, first, last)
  {
    var ms := if bucketMs <= 0 then 60000 else bucketMs;
    var buckets := Aggregate(groups);
    result := FillEmptyBuckets(buckets, q, ms);
    if Window(buckets, q, ms).Some? {
      var (first, last) := Window(buckets, q, ms).value;
      FilledShows(result, groups, rows, q, ms, first, last);
    }
  }

  /** A bucket of the picture: its time, and for every level the number of rows SQL puts there. */
  ghost predicate ShowsBucket(b: Bucket, rows: seq<Row>, q: Option<Query>, ms: int, index: int)
    requires ms > 0
  {
    b.ts == index * ms && forall level :: CountOf(b.counts, level) == SqlCount(rows, q, ms, index, level)
  }

  /** The picture of a window: gap-free up to 1000 buckets, thinned out but exact in each bucket beyond that. */
  ghost predicate Shows(result: seq<Bucket>, rows: seq<Row>, q: Option<Query>, ms: int, first: int, last: int)
    requires ms > 0 && first <= last
  {
    var n := last - first + 1;
    var step := Stride(first, last);
    && 1 <= |result| <= MAX_BUCKETS && (|result| - 1) * step <= last - first < |result| * step
    && (n <= MAX_BUCKETS ==> |result| == n)
    && ShowsEach(result, rows, q, ms, first, step)
  }

  ghost predicate ShowsEach(result: seq<Bucket>, rows: seq<Row>, q: Option<Query>, ms: int, first: int, step: int)
    requires ms > 0
  {
    forall i :: 0 <= i < |result| ==> ShowsBucket(result[i], rows, q, ms, first + i * step)
  }

  lemma ShownCounts(result: seq<Bucket>, groups: seq<Group>, rows: seq<Row>, q: Option<Query>, ms: int,
      first: int, step: int)
    requires ms > 0 && Answers(groups, rows, q, ms)
    requires result == Run(Buckets(Times(groups), groups), ms, first, step, |result|)
    ensures ShowsEach(result, rows, q, ms, first, step)
  {
    forall i | 0 <= i < |result| ensures ShowsBucket(result[i], rows, q, ms, first + i * step) {
      ShownBucket(groups, rows, q, ms, first + i * step);
    }
  }

  lemma FilledShows(result: seq<Bucket>, groups: seq<Group>, rows: seq<Row>, q: Option<Query>, ms: int,
      first: int, last: int)
    requires ms > 0 && first <= last && Answers(groups, rows, q, ms)
    requires var n, step := last - first + 1, Stride(first, last);
      && result == Run(Buckets(Times(groups), groups), ms, first, step, |result|)
      && 1 <= |result| <= MAX_BUCKETS && (|result| - 1) * step <= last - first < |result| * step
      && (n <= MAX_BUCKETS ==> |result| == n)
    ensures Shows(result, rows, q, ms, first, last)
  {
    ShownCounts(result, groups, rows, q, ms, first, Stride(first, last));
  }

  lemma ShownBucket(groups: seq<Group>, rows: seq<Row>, q: Option<Query>, ms: int, index: int)
    requires ms > 0 && Answers(groups, rows, q, ms)
    ensures ShowsBucket(BucketAt(Buckets(Times(groups), groups), index * ms), rows, q, ms, index)
  {
    BucketsAt(Times(groups), groups, index * ms);
    TimesHave(groups, index * ms);
    forall level ensures CountOf(CountsOf(groups, index * ms), level) == SqlCount(rows, q, ms, index, level) {
      AnswerCounts(groups, rows, q, ms, index, level);
    }
  }

  /** Where SQL's buckets are the real ones, the picture agrees with counting the rows directly, level by level. */
  lemma ShownIsDirect(result: seq<Bucket>, rows: seq<Row>, q: Option<Query>, ms: int, first: int, last: int,
      i: nat, level: string)
    requires ms > 0 && first <= last <= first + MAX_BUCKETS - 1 && CountsAgree(rows, q, ms)
    requires Shows(result, rows, q, ms, first, last) && i <= last - first
    ensures |result| == last - first + 1 && result[i].ts == (first + i) * ms
    ensures CountOf(result[i].counts, level) == DirectCount(rows, q, ms, first + i, level)
  {
    assert first + i * 1 == first + i;
    assert ShowsBucket(result[i], rows, q, ms, first + i * 1);
  }

  // ---- Where the matching rows are ----

  lemma {:induction false} TimesHasGroup(groups: seq<Group>, i: nat)
    requires i < |groups|
    ensures groups[i].ts in Times(groups)
  {
    if i < |groups| - 1 {
      assert groups[..|groups| - 1][i] == groups[i];
      TimesHasGroup(groups[..|groups| - 1], i);
    }
  }

  lemma {:induction false} TimesOrdered(groups: seq<Group>)
    requires forall i, j :: 0 <= i < j < |groups| ==> groups[i].ts <= groups[j].ts
    ensures forall i, j :: 0 <= i < j < |Times(groups)| ==> Times(groups)[i] <= Times(groups)[j]
  {
    if groups != [] {
      var front, last := groups[..|groups| - 1], groups[|groups| - 1];
      TimesOrdered(front);
      forall i | 0 <= i < |Times(front)| ensures Times(front)[i] <= last.ts {
        TimesHave(front, Times(front)[i]);
      }
    }
  }

  lemma {:induction false} BucketTimes(times: seq<int>, groups: seq<Group>)
    ensures |Buckets(times, groups)| == |times|
    ensures forall i :: 0 <= i < |times| ==> Buckets(times, groups)[i].ts == times[i]
  {
    if times != [] {
      BucketTimes(times[..|times| - 1], groups);
    }
  }

  lemma {:induction false} RowCounted(rows: seq<Row>, q: Option<Query>, ms: int, k: nat)
    requires ms > 0 && k < |rows| && Matches(q, rows[k])
    ensures SqlCount(rows, q, ms, SqlBucket(rows[k].ts, ms), rows[k].level) > 0
  {
    if k < |rows| - 1 {
      assert rows[..|rows| - 1][k] == rows[k];
      RowCounted(rows[..|rows| - 1], q, ms, k);
    }
  }

  /** Every matching row has its bucket among the aggregated ones, which lie between the first and the last. */
  lemma RowHasBucket(groups: seq<Group>, rows: seq<Row>, q: Option<Query>, ms: int, k: nat) returns (i: nat)
    requires ms > 0 && Answers(groups, rows, q, ms) && k < |rows| && Matches(q, rows[k])
    ensures var shown := Buckets(Times(groups), groups);
      && i < |shown| && shown[i].ts == SqlBucket(rows[k].ts, ms) * ms
      && shown[0].ts <= shown[i].ts <= shown[|shown| - 1].ts
  {
    var b := SqlBucket(rows[k].ts, ms);
    RowCounted(rows, q, ms, k);
    assert HasGroup(groups, b * ms, rows[k].level);
    var g :| 0 <= g < |groups| && groups[g].ts == b * ms && groups[g].level == rows[k].level;
    TimesHasGroup(groups, g);
    TimesOrdered(groups);
    BucketTimes(Times(groups), groups);
    i :| 0 <= i < |Times(groups)| && Times(groups)[i] == b * ms;
  }

  /** A bucket at or after a time is at or after the bucket of that time, and so the other way round. */
  lemma BucketBetween(t: int, b: int, t': int, ms: int)
    requires ms > 0 && t <= b * ms <= t'
    ensures FloorDiv(t, ms) <= b <= FloorDiv(t', ms)
  {
    Products(b, ms);
    FloorUnique(b * ms, ms, b);
    FloorOrdered(t, b * ms, ms);
    FloorOrdered(b * ms, t', ms);
  }

  lemma AfterStart(r: Row, q: Query, ms: int)
    requires ms > 0 && q.startTs > 0 && Matches(Some(q), r)
    ensures FloorDiv(q.startTs, ms) <= SqlBucket(r.ts, ms)
  {
    FloorOrdered(q.startTs, r.ts, ms);
    SqlBucketOfRow(r.ts, ms);
  }

  lemma NegativeBucket(ts: int, ms: int)
    requires ms > 0 && ts < 0
    ensures SqlBucket(ts, ms) <= 0
  {
    var r := TruncParts(ts, ms);
    ProductOrder(SqlBucket(ts, ms), 1, ms);
  }

  lemma PositiveFloor(t: int, ms: int)
    requires ms > 0 && t > 0
    ensures FloorDiv(t, ms) >= 0
  {
    FloorIsFloor(t, ms);
    ProductOrder(0, FloorDiv(t, ms) + 1, ms);
  }

  lemma BeforeEnd(r: Row, q: Query, ms: int)
    requires ms > 0 && q.endTs > 0 && Matches(Some(q), r)
    ensures SqlBucket(r.ts, ms) <= FloorDiv(q.endTs, ms)
  {
    if r.ts >= 0 {
      FloorOrdered(r.ts, q.endTs, ms);
      SqlBucketOfRow(r.ts, ms);
    } else {
      NegativeBucket(r.ts, ms);
      PositiveFloor(q.endTs, ms);
    }
  }

  /** A row whose bucket lies between the first and last aggregated times lies between the ends made from them. */
  lemma RowBetweenEnds(r: Row, q: Query, ms: int, low: int, high: int)
    requires ms > 0 && Matches(Some(q), r) && low <= SqlBucket(r.ts, ms) * ms <= high
    ensures FloorDiv(if q.startTs <= 0 then low - ms * 30 else q.startTs, ms) <= SqlBucket(r.ts, ms)
    ensures SqlBucket(r.ts, ms) <= FloorDiv(if q.endTs <= 0 then high + ms else q.endTs, ms)
  {
    BucketBetween(low - ms * 30, SqlBucket(r.ts, ms), high + ms, ms);
    if q.startTs > 0 {
      AfterStart(r, q, ms);
    }
    if q.endTs > 0 {
      BeforeEnd(r, q, ms);
    }
  }

  /** No matching row falls outside the window that is filled, whichever of its ends are given. */
  lemma RowsInWindow(groups: seq<Group>, rows: seq<Row>, q: Option<Query>, ms: int, k: nat)
    requires ms > 0 && Answers(groups, rows, q, ms) && k < |rows| && Matches(q, rows[k])
    ensures match Window(Buckets(Times(groups), groups), q, ms)
            case None => true
            case Some((first, last)) => first <= SqlBucket(rows[k].ts, ms) <= last
  {
    var shown := Buckets(Times(groups), groups);
    var i := RowHasBucket(groups, rows, q, ms, k);
    if q.Some? {
      RowBetweenEnds(rows[k], q.value, ms, shown[0].ts, shown[|shown| - 1].ts);
    }
  }

  // ---- Which rows are in the picture ----

  ghost predicate RowShown(result: seq<Bucket>, r: Row, ms: int)
    requires ms > 0
  {
    exists i :: 0 <= i < |result| && result[i].ts == SqlBucket(r.ts, ms) * ms
  }

  lemma OnStride(d: int, step: int, n: nat)
    requires step >= 1 && 0 <= d < n * step && d % step == 0
    ensures 0 <= d / step < n && d == (d / step) * step
  {
    assert d == step * (d / step);
    ProductOrder(d / step, n, step);
  }

  /** A bucket of the window is shown exactly if it is a multiple of the stride away from the first. */
  lemma BucketShownIff(result: seq<Bucket>, rows: seq<Row>, q: Option<Query>, ms: int, first: int, last: int, r: Row)
    requires ms > 0 && first <= last && Shows(result, rows, q, ms, first, last)
    requires first <= SqlBucket(r.ts, ms) <= last
    ensures RowShown(result, r, ms) <==> (SqlBucket(r.ts, ms) - first) % Stride(first, last) == 0
  {
    var b, step := SqlBucket(r.ts, ms), Stride(first, last);
    forall i | 0 <= i < |result| ensures result[i].ts == (first + i * step) * ms {
      assert ShowsBucket(result[i], rows, q, ms, first + i * step);
    }
    if RowShown(result, r, ms) {
      var i :| 0 <= i < |result| && result[i].ts == b * ms;
      SameProduct(first + i * step, b, ms);
      MultipleRemainder(i, step);
    }
    if (b - first) % step == 0 {
      OnStride(b - first, step, |result|);
      assert result[(b - first) / step].ts == b * ms;
    }
  }

  ghost predicate AllShown(result: seq<Bucket>, rows: seq<Row>, q: Option<Query>, ms: int)
    requires ms > 0
  {
    forall k :: 0 <= k < |rows| && Matches(q, rows[k]) ==> RowShown(result, rows[k], ms)
  }

  /**
   Whatever ends the window has, every matching row is in a bucket of its picture exactly if the stride divides the
   distance of each one's bucket from the first; so always up to 1000 buckets, where the stride is one.
   */
  lemma AllShownIff(result: seq<Bucket>, groups: seq<Group>, rows: seq<Row>, q: Option<Query>, ms: int, first: int, last: int)
    requires ms > 0 && Answers(groups, rows, q, ms)
    requires Window(Buckets(Times(groups), groups), q, ms) == Some((first, last)) && first <= last
    requires Shows(result, rows, q, ms, first, last)
    ensures AllShown(result, rows, q, ms) <==>
            forall k :: 0 <= k < |rows| && Matches(q, rows[k]) ==>
              (SqlBucket(rows[k].ts, ms) - first) % Stride(first, last) == 0
    ensures last - first + 1 <= MAX_BUCKETS ==> AllShown(result, rows, q, ms)
  {
    forall k | 0 <= k < |rows| && Matches(q, rows[k])
      ensures RowShown(result, rows[k], ms) <==> (SqlBucket(rows[k].ts, ms) - first) % Stride(first, last) == 0
    {
      RowsInWindow(groups, rows, q, ms, k);
      BucketShownIff(result, rows, q, ms, first, last, rows[k]);
    }
  }

  /** Without a window to fill, every bucket of the picture has SQL's counts of its own time. */
  lemma UnfilledShows(groups: seq<Group>, rows: seq<Row>, q: Option<Query>, ms: int, i: nat) returns (b: int)
    requires ms > 0 && Answers(groups, rows, q, ms) && i < |Times(groups)|
    ensures |Buckets(Times(groups), groups)| == |Times(groups)|
    ensures ShowsBucket(Buckets(Times(groups), groups)[i], rows, q, ms, b)
  {
    var ts := Times(groups)[i];
    TimesHave(groups, ts);
    var g :| 0 <= g < |groups| && groups[g].ts == ts;
    assert GroupCounts(groups[g], rows, q, ms);
    b :| ts == b * ms && groups[g].count == SqlCount(rows, q, ms, b, groups[g].level);
    BucketCounts(Times(groups), groups, i);
    forall level ensures CountOf(CountsOf(groups, b * ms), level) == SqlCount(rows, q, ms, b, level) {
      AnswerCounts(groups, rows, q, ms, b, level);
    }
  }

  lemma {:induction false} BucketCounts(times: seq<int>, groups: seq<Group>, i: nat)
    requires i < |times|
    ensures |Buckets(times, groups)| == |times| && Buckets(times, groups)[i] == Bucket(times[i], CountsOf(groups, times[i]))
  {
    var n := |times| - 1;
    BucketTimes(times, groups);
    BucketTimes(times[..n], groups);
    if i < n {
      BucketCounts(times[..n], groups, i);
    }
  }

  /** Without a window to fill, every matching row is in a bucket of the picture, which is then the answer itself. */
  lemma AllShownUnfilled(groups: seq<Group>, rows: seq<Row>, q: Option<Query>, ms: int)
    requires ms > 0 && Answers(groups, rows, q, ms)
    ensures AllShown(Buckets(Times(groups), groups), rows, q, ms)
  {
    forall k | 0 <= k < |rows| && Matches(q, rows[k]) ensures RowShown(Buckets(Times(groups), groups), rows[k], ms) {
      var i := RowHasBucket(groups, rows, q, ms, k);
    }
  }

  /** These are the ends of the window that is filled. */
  lemma WindowOfBothEnds(buckets: seq<Bucket>, q: Query, ms: int)
    requires ms > 0 && 0 < q.startTs <= q.endTs
    ensures FloorDiv(q.startTs, ms) <= FloorDiv(q.endTs, ms)
    ensures Window(buckets, Some(q), ms) == Some((FloorDiv(q.startTs, ms), FloorDiv(q.endTs, ms)))
  {
    FloorOrdered(q.startTs, q.endTs, ms);
  }
}
