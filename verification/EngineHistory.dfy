/**
 One active run per pipeline (internal/cicd/engine.go, Trigger, pruneRuns, DeletePipeline): it holds
 when the trigger calls of a pipeline do not overlap between their check and their append.
 */
module EngineHistory {
  import opened Lists
  import opened RunHistory
  import opened EngineProtocol
  import opened EngineSafety

  predicate IsActive(s: State, r: RunId) {
    r in s.runs && Active(s.runs[r].status)
  }

  /** Of a pipeline's runs in the history only the last may be queued or running. */
  ghost predicate OnlyLastActive(s: State) {
    forall p, i :: 0 <= i < |Own(s, p)| - 1 ==> !IsActive(s, Own(s, p)[i])
  }

  ghost predicate ActiveListed(s: State) {
    forall r :: IsActive(s, r) ==> r in s.order
  }

  /** Trigger calls past their check are of different pipelines, and those have no active run. */
  ghost predicate CheckedQuiet(s: State) {
    && (forall k :: k in s.checked ==> !HasActive(s, s.checked[k]))
    && (forall k, k' :: k in s.checked && k' in s.checked && s.checked[k] == s.checked[k'] ==> k == k')
  }

  ghost predicate Unique(s: State) {
    OnlyLastActive(s) && ActiveListed(s) && CheckedQuiet(s)
  }

  /** No trigger call of a pipeline starts while another one is between its check and its append. */
  ghost predicate Serialised(s: State, schedule: seq<Action>)
    decreases |schedule|
  {
    schedule == [] ||
    (var a := schedule[0];
     && (a.TriggerCheck? || a.Trigger? ==> a.p !in s.checked.Values)
     && (Apply(s, a).Some? ==> Serialised(Apply(s, a).value, schedule[1..])))
  }

  /** No run becomes active, and of each pipeline's runs at most the oldest leave the history. */
  ghost predicate Calm(s: State, s': State) {
    && s'.runs.Keys == s.runs.Keys
    && (forall r :: r in s.runs ==> s'.runs[r].pipe == s.runs[r].pipe && (IsActive(s', r) ==> IsActive(s, r)))
    && (forall p :: Suffix(Own(s', p), Own(s, p)))
    && (forall r :: r in s'.order ==> r in s.order)
    && (forall r :: r in s.order && IsActive(s', r) ==> r in s'.order)
  }

  lemma CalmKeeps(s: State, s': State)
    requires OnlyLastActive(s) && ActiveListed(s) && Calm(s, s')
    ensures OnlyLastActive(s') && ActiveListed(s')
    ensures forall p :: HasActive(s', p) ==> HasActive(s, p)
  {
    forall p, i | 0 <= i < |Own(s', p)| - 1 ensures !IsActive(s', Own(s', p)[i]) {
      assert Suffix(Own(s', p), Own(s, p));
      var k := |Own(s, p)| - |Own(s', p)|;
      assert Own(s', p)[i] == Own(s, p)[k + i];
      assert !IsActive(s, Own(s, p)[k + i]);
    }
  }

  lemma OwnAgrees(s: State, s': State, p: PipeId, order: seq<RunId>)
    requires s'.runs.Keys == s.runs.Keys && forall r :: r in s.runs ==> s'.runs[r].pipe == s.runs[r].pipe
    ensures Filter(OfPipe(s', p), order) == Filter(OfPipe(s, p), order)
  {
    FilterAgree(OfPipe(s', p), OfPipe(s, p), order);
  }

  /** Rolling off keeps a suffix of the pipeline's own runs and all of the others'. */
  lemma RollOwn(s: State, q: PipeId, n: nat, p: PipeId)
    ensures var rolled := Prune(s.order, OfPipe(s, q), n);
            Filter(OfPipe(s, p), rolled) == if p == q then LastN(Own(s, q), n) else Own(s, p)
  {
    if p == q {
      PruneKeeps(s.order, OfPipe(s, q), n);
    } else {
      PruneKeepsSubset(s.order, OfPipe(s, q), n, OfPipe(s, p));
    }
  }

  lemma LastKept<T>(s: seq<T>, n: nat)
    requires s != [] && n >= 1
    ensures s[|s| - 1] in LastN(s, n)
  {
    var kept := LastN(s, n);
    assert kept[|kept| - 1] == s[|s| - 1];
  }

  lemma LastActive(s: State, r: RunId)
    requires OnlyLastActive(s) && r in s.order && IsActive(s, r)
    ensures var own := Own(s, s.runs[r].pipe); own != [] && own[|own| - 1] == r
  {
    var own := Own(s, s.runs[r].pipe);
    FilterMembers(OfPipe(s, s.runs[r].pipe), s.order, r);
    var k :| 0 <= k < |own| && own[k] == r;
    assert k == |own| - 1;
  }

  /** Rolling off drops exactly those of the pipeline's own runs that are not among its newest n. */
  lemma RollKeepsIff(s: State, q: PipeId, n: nat, r: RunId)
    requires r in s.order && r in s.runs
    ensures r in Prune(s.order, OfPipe(s, q), n) <==> s.runs[r].pipe == q ==> r in LastN(Own(s, q), n)
  {
    var p := s.runs[r].pipe;
    var rolled := Prune(s.order, OfPipe(s, q), n);
    RollOwn(s, q, n, p);
    FilterMembers(OfPipe(s, p), s.order, r);
    FilterMembers(OfPipe(s, p), rolled, r);
  }

  /** Where only the last of a pipeline's own runs is active, no active run is rolled off. */
  lemma RollKeepsActive(s: State, q: PipeId, n: nat, r: RunId)
    requires OnlyLastActive(s) && n >= 1 && r in s.order && IsActive(s, r)
    ensures r in Prune(s.order, OfPipe(s, q), n)
  {
    RollKeepsIff(s, q, n, r);
    LastActive(s, r);
    LastKept(Own(s, s.runs[r].pipe), n);
  }

  lemma StepShape(s: State, a: Action)
    requires a.Step? && Apply(s, a).Some?
    ensures var s' := Apply(s, a).value;
            && s'.runs.Keys == s.runs.Keys && s'.checked == s.checked
            && (s'.order == s.order ||
                s'.order == Prune(s.order, OfPipe(s, s.runs[a.r].pipe), Limit(MaxRunsOf(s, s.runs[a.r].pipe))))
  {
  }

  lemma RollSuffix(s: State, s': State, q: PipeId, n: nat, p: PipeId)
    requires s'.runs.Keys == s.runs.Keys && forall r :: r in s.runs ==> s'.runs[r].pipe == s.runs[r].pipe
    requires s'.order == s.order || s'.order == Prune(s.order, OfPipe(s, q), n)
    ensures Suffix(Own(s', p), Own(s, p))
  {
    OwnAgrees(s, s', p, s'.order);
    RollOwn(s, q, n, p);
  }

  lemma StepCalm(s: State, a: Action)
    requires Inv(s) && OnlyLastActive(s) && a.Step? && Apply(s, a).Some?
    ensures Calm(s, Apply(s, a).value)
  {
    var s' := Apply(s, a).value;
    var q := s.runs[a.r].pipe;
    var n := Limit(MaxRunsOf(s, q));
    StepShape(s, a);
    forall r | r in s.runs ensures s'.runs[r].pipe == s.runs[r].pipe && (IsActive(s', r) ==> IsActive(s, r)) {
      ActionOnRun(s, a, r);
    }
    forall p ensures Suffix(Own(s', p), Own(s, p)) {
      RollSuffix(s, s', q, n, p);
    }
    PruneKeeps(s.order, OfPipe(s, q), n);
    forall r | r in s.order && IsActive(s', r) ensures r in s'.order {
      RollKeepsActive(s, q, n, r);
    }
  }

  lemma DeleteOwn(s: State, p: PipeId, q: PipeId)
    ensures Filter(OfPipe(s, q), Filter(NotOfPipe(s, p), s.order)) == if q == p then [] else Own(s, q)
  {
    if q == p {
      FilterFilter(OfPipe(s, q), NotOfPipe(s, p), x => false, s.order);
      FilterNone(x => false, s.order);
    } else {
      FilterFilter(OfPipe(s, q), NotOfPipe(s, p), OfPipe(s, q), s.order);
    }
  }

  lemma ActiveCounts(s: State, r: RunId)
    requires r in s.order && IsActive(s, r)
    ensures HasActive(s, s.runs[r].pipe)
  {
  }

  lemma DeleteCalm(s: State, p: PipeId)
    requires Apply(s, DeletePipe(p)).Some?
    ensures Calm(s, Apply(s, DeletePipe(p)).value)
  {
    var s' := Apply(s, DeletePipe(p)).value;
    forall q ensures Suffix(Own(s', q), Own(s, q)) {
      OwnAgrees(s, s', q, s'.order);
      DeleteOwn(s, p, q);
    }
    forall r ensures r in s'.order <==> r in s.order && NotOfPipe(s, p)(r) {
      FilterMembers(NotOfPipe(s, p), s.order, r);
    }
    forall r | r in s.order && IsActive(s', r) ensures r in s'.order {
      ActiveCounts(s, r);
    }
  }

  lemma SameListCalm(s: State, s': State)
    requires s'.runs.Keys == s.runs.Keys && s'.order == s.order
    requires forall r :: r in s.runs ==> s'.runs[r].pipe == s.runs[r].pipe && (IsActive(s', r) ==> IsActive(s, r))
    ensures Calm(s, s')
  {
    forall p ensures Suffix(Own(s', p), Own(s, p)) {
      OwnAgrees(s, s', p, s.order);
    }
  }

  lemma OutsideKeepsList(s: State, a: Action)
    requires !a.Step? && !a.DeletePipe? && !a.TriggerAppend? && !a.Trigger? && FromOutside(s, a).Some?
    ensures FromOutside(s, a).value.order == s.order && FromOutside(s, a).value.runs.Keys == s.runs.Keys
  {
    match a
    case Cancel(_) =>
    case Timeout(_) =>
    case TriggerCheck(_, _) =>
    case ApproveLookup(_, _, _) =>
    case ApproveSend(_) =>
    case SavePipe(_, _) =>
  }

  lemma OutsideCalm(s: State, a: Action)
    requires Inv(s) && !a.Step? && !a.DeletePipe? && !a.TriggerAppend? && !a.Trigger? && Apply(s, a).Some?
    ensures Calm(s, Apply(s, a).value)
  {
    var s' := Apply(s, a).value;
    OutsideKeepsList(s, a);
    forall r | r in s.runs ensures s'.runs[r].pipe == s.runs[r].pipe && (IsActive(s', r) ==> IsActive(s, r)) {
      ActionOnRun(s, a, r);
    }
    SameListCalm(s, s');
  }

  /** A new run goes to the end of its pipeline's own runs. */
  lemma AppendOwn(s: State, p: PipeId, r: RunId, gates: seq<bool>, q: PipeId)
    requires r !in s.runs && forall x :: x in s.order ==> x in s.runs
    ensures Own(Append(s, p, r, gates), q) == if q == p then Own(s, q) + [r] else Own(s, q)
  {
    var s' := Append(s, p, r, gates);
    FilterSnoc(OfPipe(s', q), s.order, r);
    FilterAgree(OfPipe(s', q), OfPipe(s, q), s.order);
    assert Own(s, q) + [] == Own(s, q);
  }

  lemma AppendKeeps(s: State, p: PipeId, r: RunId, gates: seq<bool>)
    requires OnlyLastActive(s) && ActiveListed(s) && !HasActive(s, p)
    requires r !in s.runs && forall x :: x in s.order ==> x in s.runs
    ensures OnlyLastActive(Append(s, p, r, gates)) && ActiveListed(Append(s, p, r, gates))
    ensures forall q :: q != p && HasActive(Append(s, p, r, gates), q) ==> HasActive(s, q)
  {
    var s' := Append(s, p, r, gates);
    forall q, i | 0 <= i < |Own(s', q)| - 1 ensures !IsActive(s', Own(s', q)[i]) {
      AppendOwn(s, p, r, gates, q);
      var x := Own(s, q)[i];
      FilterMembers(OfPipe(s, q), s.order, x);
      assert Own(s', q)[i] == x && x in s.order && x != r;
      assert !IsActive(s, x);
    }
  }

  lemma CheckKeepsUnique(s: State, k: CallId, p: PipeId)
    requires Unique(s) && Apply(s, TriggerCheck(k, p)).Some? && p !in s.checked.Values
    ensures Unique(Apply(s, TriggerCheck(k, p)).value)
  {
    OwnSame(s, Apply(s, TriggerCheck(k, p)).value);
  }

  lemma CheckedAppendKeepsUnique(s: State, k: CallId, r: RunId, gates: seq<bool>)
    requires Inv(s) && Unique(s) && Apply(s, TriggerAppend(k, r, gates)).Some?
    ensures Unique(Apply(s, TriggerAppend(k, r, gates)).value)
  {
    var s1 := s.(checked := s.checked - {k});
    OwnSame(s, s1);
    AppendKeeps(s1, s.checked[k], r, gates);
  }

  lemma TriggerKeepsUnique(s: State, p: PipeId, r: RunId, gates: seq<bool>)
    requires Inv(s) && Unique(s) && Apply(s, Trigger(p, r, gates)).Some? && p !in s.checked.Values
    ensures Unique(Apply(s, Trigger(p, r, gates)).value)
  {
    AppendKeeps(s, p, r, gates);
  }

  lemma OthersKeepChecked(s: State, a: Action)
    requires !a.TriggerCheck? && !a.TriggerAppend? && !a.Trigger? && !a.Step? && FromOutside(s, a).Some?
    ensures FromOutside(s, a).value.checked == s.checked
  {
    match a
    case Cancel(_) =>
    case Timeout(_) =>
    case ApproveLookup(_, _, _) =>
    case ApproveSend(_) =>
    case SavePipe(_, _) =>
    case DeletePipe(_) =>
  }

  lemma ActionKeepsUnique(s: State, a: Action)
    requires Inv(s) && Unique(s) && Apply(s, a).Some?
    requires a.TriggerCheck? || a.Trigger? ==> a.p !in s.checked.Values
    ensures Unique(Apply(s, a).value)
  {
    if a.Trigger? {
      TriggerKeepsUnique(s, a.p, a.r, a.gates);
    } else if a.TriggerAppend? {
      CheckedAppendKeepsUnique(s, a.call, a.r, a.gates);
    } else if a.TriggerCheck? {
      CheckKeepsUnique(s, a.call, a.p);
    } else {
      if a.Step? {
        StepShape(s, a);
        StepCalm(s, a);
      } else {
        OthersKeepChecked(s, a);
        if a.DeletePipe? {
          DeleteCalm(s, a.p);
        } else {
          OutsideCalm(s, a);
        }
      }
      CalmKeeps(s, Apply(s, a).value);
    }
  }

  lemma OwnSame(s: State, s': State)
    requires s'.runs == s.runs && s'.order == s.order
    ensures OnlyLastActive(s) ==> OnlyLastActive(s')
    ensures forall p :: HasActive(s', p) <==> HasActive(s, p)
  {
    forall p ensures Own(s', p) == Own(s, p) {
      OwnAgrees(s, s', p, s.order);
    }
  }

  lemma {:induction false} SerialisedKeepsUnique(s: State, schedule: seq<Action>)
    requires Inv(s) && Unique(s) && Execute(s, schedule).Some? && Serialised(s, schedule)
    ensures Unique(Execute(s, schedule).value)
    decreases |schedule|
  {
    if schedule != [] {
      ActionKeepsUnique(s, schedule[0]);
      ActionKeepsInv(s, schedule[0]);
      SerialisedKeepsUnique(Apply(s, schedule[0]).value, schedule[1..]);
    }
  }

  lemma InitUnique(s: State)
    requires IsInit(s)
    ensures Unique(s)
  {
    forall r | r in s.runs ensures !IsActive(s, r) {
      assert Terminal(s.runs[r].status);
    }
  }

  /**
   Where the trigger calls of each pipeline are serialised, as they are when check and append are one
   step, each pipeline has at most one queued or running run, it is the last of that pipeline's runs in
   the history, and Cancel finds it there.
   */
  lemma OneActiveRun(s0: State, schedule: seq<Action>, r: RunId)
    requires IsInit(s0) && Serialised(s0, schedule) && Execute(s0, schedule).Some?
    requires IsActive(Execute(s0, schedule).value, r)
    ensures var s := Execute(s0, schedule).value;
            var own := Own(s, s.runs[r].pipe);
            && own != [] && own[|own| - 1] == r
            && (forall x :: IsActive(s, x) && s.runs[x].pipe == s.runs[r].pipe ==> x == r)
            && CancelRun(s, r).Some?
  {
    InitInv(s0);
    InitUnique(s0);
    ScheduleKeepsInv(s0, schedule);
    SerialisedKeepsUnique(s0, schedule);
    var s := Execute(s0, schedule).value;
    forall x | IsActive(s, x) && s.runs[x].pipe == s.runs[r].pipe ensures x == r {
      LastActive(s, x);
      LastActive(s, r);
    }
    LastActive(s, r);
  }
}
