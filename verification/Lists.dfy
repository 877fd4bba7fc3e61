/**
 Lists: keeping some elements, dropping one value, keeping the last ones.
 */
module Lists {

  function Filter<T>(keep: T -> bool, s: seq<T>): seq<T> {
    if s == [] then []
    else Filter(keep, s[..|s| - 1]) + (if keep(s[|s| - 1]) then [s[|s| - 1]] else [])
  }

  function LastN<T>(s: seq<T>, n: nat): seq<T> {
    if |s| <= n then s else s[|s| - n..]
  }

  ghost predicate Suffix<T>(a: seq<T>, b: seq<T>) {
    |a| <= |b| && a == b[|b| - |a|..]
  }

  lemma FilterSnoc<T>(keep: T -> bool, s: seq<T>, x: T)
    ensures Filter(keep, s + [x]) == Filter(keep, s) + (if keep(x) then [x] else [])
  {
    assert (s + [x])[..|s|] == s;
  }

  lemma Assoc<T>(a: seq<T>, b: seq<T>, c: seq<T>)
    ensures (a + b) + c == a + (b + c)
  {
  }

  lemma FilterAppendStep<T>(keep: T -> bool, s: seq<T>, front: seq<T>, last: T)
    requires Filter(keep, s + front) == Filter(keep, s) + Filter(keep, front)
    ensures Filter(keep, s + (front + [last])) == Filter(keep, s) + Filter(keep, front + [last])
  {
    Assoc(s, front, [last]);
    FilterSnoc(keep, s + front, last);
    FilterSnoc(keep, front, last);
    Assoc(Filter(keep, s), Filter(keep, front), if keep(last) then [last] else []);
  }

  lemma {:induction false} FilterAppend<T>(keep: T -> bool, s: seq<T>, more: seq<T>)
    ensures Filter(keep, s + more) == Filter(keep, s) + Filter(keep, more)
  {
    if more == [] {
      assert s + more == s;
    } else {
      var front, last := more[..|more| - 1], more[|more| - 1];
      FilterAppend(keep, s, front);
      FilterAppendStep(keep, s, front, last);
      assert more == front + [last];
    }
  }

  lemma {:induction false} FilterMembers<T>(keep: T -> bool, s: seq<T>, x: T)
    ensures x in Filter(keep, s) <==> x in s && keep(x)
  {
    if s != [] {
      FilterMembers(keep, s[..|s| - 1], x);
      assert s == s[..|s| - 1] + [s[|s| - 1]];
    }
  }

  lemma FilterMembersAll<T>(keep: T -> bool, s: seq<T>)
    ensures forall x :: x in Filter(keep, s) <==> x in s && keep(x)
  {
    forall x ensures x in Filter(keep, s) <==> x in s && keep(x) {
      FilterMembers(keep, s, x);
    }
  }

  lemma {:induction false} FilterAll<T>(keep: T -> bool, s: seq<T>)
    requires forall x :: x in s ==> keep(x)
    ensures Filter(keep, s) == s
  {
    if s != [] {
      var front, last := s[..|s| - 1], s[|s| - 1];
      assert s == front + [last];
      FilterAll(keep, front);
    }
  }

  lemma {:induction false} FilterNone<T>(keep: T -> bool, s: seq<T>)
    requires forall x :: x in s ==> !keep(x)
    ensures Filter(keep, s) == []
  {
    if s != [] {
      FilterNone(keep, s[..|s| - 1]);
    }
  }

  lemma {:induction false} FilterAgree<T>(keep: T -> bool, keep': T -> bool, s: seq<T>)
    requires forall x :: x in s ==> keep(x) == keep'(x)
    ensures Filter(keep, s) == Filter(keep', s)
  {
    if s != [] {
      FilterAgree(keep, keep', s[..|s| - 1]);
    }
  }

  /** Filtering twice is filtering once by both. */
  lemma {:induction false} FilterFilter<T>(outer: T -> bool, inner: T -> bool, both: T -> bool, s: seq<T>)
    requires forall x :: x in s ==> both(x) == (inner(x) && outer(x))
    ensures Filter(outer, Filter(inner, s)) == Filter(both, s)
  {
    if s != [] {
      var front, last := s[..|s| - 1], s[|s| - 1];
      assert last in s;
      FilterFilter(outer, inner, both, front);
      if inner(last) {
        FilterSnoc(outer, Filter(inner, front), last);
      } else {
        assert Filter(inner, s) == Filter(inner, front);
        assert !both(last) && Filter(both, s) == Filter(both, front);
      }
    }
  }

  predicate NoDup<T(==)>(s: seq<T>) {
    forall i, j :: 0 <= i < j < |s| ==> s[i] != s[j]
  }

  function Without<T(==)>(order: seq<T>, x: T): seq<T> {
    if order == [] then []
    else Without(order[..|order| - 1], x) + (if order[|order| - 1] == x then [] else [order[|order| - 1]])
  }

  lemma {:induction false} WithoutMembers<T>(order: seq<T>, x: T, y: T)
    ensures y in Without(order, x) <==> y in order && y != x
  {
    if order != [] {
      var front, last := order[..|order| - 1], order[|order| - 1];
      WithoutMembers(front, x, y);
      assert order == front + [last];
    }
  }

  lemma {:induction false} WithoutAbsent<T>(order: seq<T>, x: T)
    requires x !in order
    ensures Without(order, x) == order
  {
    if order != [] {
      var front, last := order[..|order| - 1], order[|order| - 1];
      assert order == front + [last];
      assert x !in front && last != x;
      WithoutAbsent(front, x);
    }
  }

  lemma {:induction false} WithoutAppend<T>(a: seq<T>, b: seq<T>, x: T)
    ensures Without(a + b, x) == Without(a, x) + Without(b, x)
  {
    if b == [] {
      assert a + b == a;
    } else {
      var front, last := b[..|b| - 1], b[|b| - 1];
      assert (a + b)[..|a + b| - 1] == a + front;
      WithoutAppend(a, front, x);
    }
  }

  lemma {:induction false} WithoutNoDup<T>(order: seq<T>, x: T)
    requires NoDup(order)
    ensures NoDup(Without(order, x)) && |Without(order, x)| == |order| - (if x in order then 1 else 0)
  {
    if order != [] {
      var front, last := order[..|order| - 1], order[|order| - 1];
      assert order == front + [last];
      WithoutNoDup(front, x);
      WithoutMembers(front, x, last);
      if last == x {
        assert x !in front;
      }
    }
  }

  lemma CutAt<T>(s: seq<T>, i: nat)
    requires i < |s|
    ensures s == (s[..i] + [s[i]]) + s[i + 1..]
  {
  }

  lemma NoDupAround<T>(s: seq<T>, i: nat)
    requires NoDup(s) && i < |s|
    ensures s[i] !in s[..i] && s[i] !in s[i + 1..]
  {
  }

  lemma WithoutAt<T>(order: seq<T>, i: nat)
    requires NoDup(order) && i < |order|
    ensures Without(order, order[i]) == order[..i] + order[i + 1..]
  {
    var before, x, after := order[..i], order[i], order[i + 1..];
    CutAt(order, i);
    NoDupAround(order, i);
    WithoutAppend(before + [x], after, x);
    WithoutAppend(before, [x], x);
    WithoutAbsent(before, x);
    WithoutAbsent(after, x);
    WithoutSelf(before, x);
  }

  lemma WithoutSelf<T>(front: seq<T>, x: T)
    ensures Without(front + [x], x) == Without(front, x)
  {
    assert (front + [x])[..|front|] == front;
  }

  lemma WithoutMembersAll<T>(order: seq<T>, x: T)
    ensures forall y :: y in Without(order, x) <==> y in order && y != x
  {
    forall y ensures y in Without(order, x) <==> y in order && y != x {
      WithoutMembers(order, x, y);
    }
  }

  // ---- What a selection is ----

  ghost predicate Increasing(at: seq<nat>) {
    forall i, j :: 0 <= i < j < |at| ==> at[i] < at[j]
  }

  /** The positions of `out` lead, in order, to exactly the elements of s that are kept, each of them changed. */
  ghost predicate Leads<T, U>(at: seq<nat>, s: seq<T>, keep: T -> bool, change: T -> U, out: seq<U>) {
    && |at| == |out| && Increasing(at)
    && (forall i :: 0 <= i < |at| ==> at[i] < |s| && keep(s[at[i]]) && out[i] == change(s[at[i]]))
    && (forall k :: 0 <= k < |s| && keep(s[k]) ==> k in at)
  }

  /** `out` is what is kept of s, in order and nothing lost, each element changed. */
  ghost predicate Selects<T, U>(s: seq<T>, keep: T -> bool, change: T -> U, out: seq<U>) {
    exists at :: Leads(at, s, keep, change, out)
  }

  lemma LeadsMembers<T, U>(at: seq<nat>, s: seq<T>, keep: T -> bool, change: T -> U, out: seq<U>, k: nat)
    requires Leads(at, s, keep, change, out) && k in at
    ensures k < |s| && keep(s[k])
  {
    var i :| 0 <= i < |at| && at[i] == k;
  }

  lemma LeadsSkip<T, U>(at: seq<nat>, s: seq<T>, x: T, keep: T -> bool, change: T -> U, out: seq<U>)
    requires Leads(at, s, keep, change, out) && !keep(x)
    ensures Leads(at, s + [x], keep, change, out)
  {
  }

  lemma LeadsTake<T, U>(at: seq<nat>, s: seq<T>, x: T, keep: T -> bool, change: T -> U, out: seq<U>)
    requires Leads(at, s, keep, change, out) && keep(x)
    ensures Leads(at + [|s|], s + [x], keep, change, out + [change(x)])
  {
    var more := at + [|s|];
    forall k | 0 <= k < |s + [x]| && keep((s + [x])[k]) ensures k in more {
      if k < |s| {
        assert (s + [x])[k] == s[k] && k in at;
      } else {
        assert more[|at|] == k;
      }
    }
  }

  /** A selection grows with its list by the new element or not at all. */
  lemma SelectsSnoc<T, U>(s: seq<T>, x: T, keep: T -> bool, change: T -> U, out: seq<U>)
    requires Selects(s, keep, change, out)
    ensures Selects(s + [x], keep, change, if keep(x) then out + [change(x)] else out)
  {
    var at :| Leads(at, s, keep, change, out);
    if keep(x) {
      LeadsTake(at, s, x, keep, change, out);
    } else {
      LeadsSkip(at, s, x, keep, change, out);
    }
  }

  lemma SelectsNothing<T, U>(keep: T -> bool, change: T -> U)
    ensures Selects([], keep, change, [])
  {
    assert Leads([], [], keep, change, []);
  }
}
