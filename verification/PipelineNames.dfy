/**
 Finding a free name for an imported pipeline (internal/cicd/engine.go, the rename loop of ImportPipeline):
 the name itself, or the first of name-2, name-3, ... that nobody has.
 */
module PipelineNames {
  import opened Text

  function Candidate(base: string, n: nat): string {
    base + "-" + Itoa(n)
  }

  lemma CandidatesDiffer(base: string, m: nat, n: nat)
    requires Candidate(base, m) == Candidate(base, n)
    ensures m == n
  {
    assert Candidate(base, m)[|base| + 1..] == Itoa(m);
    assert Candidate(base, n)[|base| + 1..] == Itoa(n);
    ItoaInjective(m, n);
  }

  predicate AllTaken(names: set<string>, base: string, n: nat) {
    forall k :: 2 <= k < n ==> Candidate(base, k) in names
  }

  /** The candidates are distinct and the taken names finitely many, so only so many candidates are taken. */
  lemma {:induction false} TakenAreBounded(names: set<string>, base: string, n: nat)
    requires n >= 2 && AllTaken(names, base, n)
    ensures n - 2 <= |names|
    decreases n
  {
    if n > 2 {
      var last := Candidate(base, n - 1);
      forall k | 2 <= k < n - 1 ensures Candidate(base, k) in names - {last} {
        if Candidate(base, k) == last {
          CandidatesDiffer(base, k, n - 1);
        }
      }
      TakenAreBounded(names - {last}, base, n - 1);
    }
  }

  function FreeNumber(names: set<string>, base: string, n: nat): (r: nat)
    requires n >= 2 && AllTaken(names, base, n)
    ensures r >= n && Candidate(base, r) !in names && AllTaken(names, base, r)
    decreases |names| + 2 - n
  {
    if Candidate(base, n) in names then
      assert AllTaken(names, base, n + 1);
      TakenAreBounded(names, base, n + 1);
      FreeNumber(names, base, n + 1)
    else n
  }

  /** A free name: kept if nobody has it, and otherwise with the least number that makes it free. */
  function FreeName(names: set<string>, base: string): (r: string)
    ensures r !in names && (base !in names ==> r == base)
    ensures base in names ==> exists n: nat :: n >= 2 && r == Candidate(base, n) && AllTaken(names, base, n)
  {
    if base !in names then base else Candidate(base, FreeNumber(names, base, 2))
  }

  /** The name with -2, -3, ... behind it: the least number that no name has. */
  lemma FreeNameIs(names: set<string>, base: string) returns (n: nat)
    requires base in names
    ensures n >= 2 && FreeName(names, base) == base + "-" + Itoa(n) && base + "-" + Itoa(n) !in names
    ensures forall k: nat :: 2 <= k < n ==> base + "-" + Itoa(k) in names
  {
    n :| n >= 2 && FreeName(names, base) == Candidate(base, n) && AllTaken(names, base, n);
    forall k: nat | 2 <= k < n ensures base + "-" + Itoa(k) in names {
      CandidateTaken(names, base, n, k);
    }
  }

  lemma CandidateTaken(names: set<string>, base: string, n: nat, k: nat)
    requires AllTaken(names, base, n) && 2 <= k < n
    ensures base + "-" + Itoa(k) in names
  {
    assert Candidate(base, k) == base + "-" + Itoa(k);
  }

  /** There is only one such name. */
  lemma FreeNameUnique(names: set<string>, base: string, n: nat)
    requires base in names && n >= 2 && Candidate(base, n) !in names && AllTaken(names, base, n)
    ensures FreeName(names, base) == Candidate(base, n)
  {
    var m: nat :| m >= 2 && FreeName(names, base) == Candidate(base, m) && AllTaken(names, base, m);
  }

  /** The loop, which ends. */
  method Rename(names: set<string>, base: string) returns (name: string)
    ensures name == FreeName(names, base)
  {
    name := base;
    var n := 2;
    while name in names
      invariant n >= 2 && AllTaken(names, base, n - 1)
      invariant name == if n == 2 then base else Candidate(base, n - 1)
      invariant n > 2 ==> base in names
      decreases |names| + 3 - n
    {
      assert AllTaken(names, base, n);
      TakenAreBounded(names, base, n);
      name := Candidate(base, n);
      n := n + 1;
    }
    if n > 2 {
      FreeNameUnique(names, base, n - 1);
    }
  }
}
