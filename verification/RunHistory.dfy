/**
 The run history list of the CI/CD engine: filtering by pipeline and rolling it off
 (internal/cicd/engine.go, pruneRuns and DeletePipeline).
 */
module RunHistory {
  import opened Lists

  const DEFAULT_MAX_RUNS := 50

  /** How many runs of a pipeline the history keeps, for a configured maximum. */
  function Limit(configured: int): (n: nat)
    ensures n >= 1
  {
    if configured > 0 then configured else DEFAULT_MAX_RUNS
  }

  /** The list after rolling off the runs that are `mine`: the others first, then the newest n of mine. */
  function Prune<T>(runs: seq<T>, mine: T -> bool, n: nat): seq<T> {
    Filter(x => !mine(x), runs) + LastN(Filter(mine, runs), n)
  }

  /**
   Rolling off keeps every other run in order, and of its own exactly the newest n, in order; and a
   run of any other subset of the others is kept in order too.
   */
  lemma PruneKeeps<T>(runs: seq<T>, mine: T -> bool, n: nat)
    ensures Filter(x => !mine(x), Prune(runs, mine, n)) == Filter(x => !mine(x), runs)
    ensures Filter(mine, Prune(runs, mine, n)) == LastN(Filter(mine, runs), n)
    ensures forall x :: x in Prune(runs, mine, n) ==> x in runs
  {
    var rest := x => !mine(x);
    var others, own := Filter(rest, runs), Filter(mine, runs);
    var kept := LastN(own, n);
    forall x | x in others ensures rest(x) && x in runs {
      FilterMembers(rest, runs, x);
    }
    forall x | x in kept ensures mine(x) && x in runs {
      assert x in own;
      FilterMembers(mine, runs, x);
    }
    FilterAppend(rest, others, kept);
    FilterAll(rest, others);
    FilterNone(rest, kept);
    FilterAppend(mine, others, kept);
    FilterNone(mine, others);
    FilterAll(mine, kept);
  }

  lemma PruneKeepsSubset<T>(runs: seq<T>, mine: T -> bool, n: nat, some: T -> bool)
    requires forall x :: x in runs && some(x) ==> !mine(x)
    ensures Filter(some, Prune(runs, mine, n)) == Filter(some, runs)
  {
    PruneKeeps(runs, mine, n);
    var rest := x => !mine(x);
    FilterFilter(some, rest, some, runs);
    FilterFilter(some, rest, some, Prune(runs, mine, n));
    FilterAgree(rest, x => !mine(x), runs);
    FilterAgree(rest, x => !mine(x), Prune(runs, mine, n));
  }

  /** The same with the complement given by name. */
  lemma PruneAs<T>(runs: seq<T>, mine: T -> bool, rest: T -> bool, n: nat)
    requires forall x :: x in runs ==> rest(x) == !mine(x)
    ensures Prune(runs, mine, n) == Filter(rest, runs) + LastN(Filter(mine, runs), n)
  {
    FilterAgree(rest, x => !mine(x), runs);
  }
}
