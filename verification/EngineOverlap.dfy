/**
 Trigger calls that overlap between their check and their append (internal/cicd/engine.go, Trigger): exactly
 when they leave a pipeline with two active runs.
 */
module EngineOverlap {
  import opened Options
  import opened EngineProtocol
  import opened EngineHistory
  import opened EngineSafety

  // ---- From a given state ----

  ghost function ActiveRuns(s: State, p: PipeId): set<RunId> {
    set r | r in s.runs && s.runs[r].pipe == p && Active(s.runs[r].status)
  }

  /** The calls past their check of the pipeline, which nothing will make check again. */
  ghost function PastCheck(s: State, p: PipeId): set<CallId> {
    set k | k in s.checked && s.checked[k] == p
  }

  ghost predicate Appends(schedule: seq<Action>) {
    forall i :: 0 <= i < |schedule| ==> schedule[i].TriggerAppend?
  }

  lemma AppendMoves(s: State, a: Action, p: PipeId)
    requires a.TriggerAppend? && Apply(s, a).Some?
    ensures var s', own := Apply(s, a).value, s.checked[a.call] == p;
      && ActiveRuns(s', p) == (if own then ActiveRuns(s, p) + {a.r} else ActiveRuns(s, p))
      && PastCheck(s', p) == PastCheck(s, p) - {a.call}
      && (own ==> a.r !in ActiveRuns(s, p) && a.call in PastCheck(s, p))
      && (!own ==> a.call !in PastCheck(s, p))
  {
  }

  lemma AppendKeepsSum(s: State, a: Action, p: PipeId)
    requires a.TriggerAppend? && Apply(s, a).Some?
    ensures var s' := Apply(s, a).value;
      |ActiveRuns(s', p)| + |PastCheck(s', p)| == |ActiveRuns(s, p)| + |PastCheck(s, p)|
  {
    AppendMoves(s, a, p);
    if a.call !in PastCheck(s, p) {
      assert PastCheck(s, p) - {a.call} == PastCheck(s, p);
    }
  }

  /** Appending turns calls past their check into active runs, one for one. */
  lemma {:induction false} AppendsKeepSum(s: State, schedule: seq<Action>, p: PipeId)
    requires Appends(schedule) && Execute(s, schedule).Some?
    ensures var s' := Execute(s, schedule).value;
      |ActiveRuns(s', p)| + |PastCheck(s', p)| == |ActiveRuns(s, p)| + |PastCheck(s, p)|
    decreases |schedule|
  {
    if schedule != [] {
      AppendKeepsSum(s, schedule[0], p);
      AppendsKeepSum(Apply(s, schedule[0]).value, schedule[1..], p);
    }
  }

  /** All the calls past their check can append. */
  lemma {:induction false} AllAppend(s: State, p: PipeId) returns (schedule: seq<Action>)
    ensures Appends(schedule) && Execute(s, schedule).Some? && PastCheck(Execute(s, schedule).value, p) == {}
    decreases |PastCheck(s, p)|
  {
    if PastCheck(s, p) == {} {
      schedule := [];
    } else {
      var k :| k in PastCheck(s, p);
      var r := FreshId(s.runs.Keys);
      var a := TriggerAppend(k, r, []);
      AppendMoves(s, a, p);
      var rest := AllAppend(Apply(s, a).value, p);
      schedule := [a] + rest;
      assert schedule[1..] == rest;
    }
  }

  /**
   Calls past their check can leave a pipeline with two active runs exactly if they and its active runs are
   two or more; nothing in the engine stops them, and nothing else is needed.
   */
  lemma OverlapIff(s: State, p: PipeId)
    ensures (exists schedule :: Appends(schedule) && Execute(s, schedule).Some?
                                && |ActiveRuns(Execute(s, schedule).value, p)| >= 2)
       <==> |ActiveRuns(s, p)| + |PastCheck(s, p)| >= 2
  {
    if schedule :| Appends(schedule) && Execute(s, schedule).Some? && |ActiveRuns(Execute(s, schedule).value, p)| >= 2 {
      AppendsKeepSum(s, schedule, p);
    }
    if |ActiveRuns(s, p)| + |PastCheck(s, p)| >= 2 {
      var schedule := AllAppend(s, p);
      AppendsKeepSum(s, schedule, p);
    }
  }

  // ---- From the start ----

  ghost predicate OneEach(s: State) {
    forall r, x :: IsActive(s, r) && IsActive(s, x) && s.runs[r].pipe == s.runs[x].pipe ==> r == x
  }

  /** The two grains of a trigger: check and append as one step, or as two. */
  predicate AtGrain(fused: bool, a: Action) {
    if fused then !a.TriggerCheck? && !a.TriggerAppend? else !a.Trigger?
  }

  ghost predicate ScheduleAtGrain(fused: bool, schedule: seq<Action>) {
    forall i :: 0 <= i < |schedule| ==> AtGrain(fused, schedule[i])
  }

  ghost predicate ReachableAt(fused: bool, s: State) {
    exists s0, schedule :: IsInit(s0) && ScheduleAtGrain(fused, schedule) && Execute(s0, schedule) == Some(s)
  }

  lemma FusedKeepsChecked(s: State, a: Action)
    requires AtGrain(true, a) && Apply(s, a).Some?
    ensures Apply(s, a).value.checked == s.checked
  {
    if a.Step? {
      StepShape(s, a);
    } else if !a.Trigger? {
      OthersKeepChecked(s, a);
    }
  }

  lemma {:induction false} FusedIsSerialised(s: State, schedule: seq<Action>)
    requires s.checked == map[] && ScheduleAtGrain(true, schedule)
    ensures Serialised(s, schedule)
    decreases |schedule|
  {
    if schedule != [] && Apply(s, schedule[0]).Some? {
      FusedKeepsChecked(s, schedule[0]);
      FusedIsSerialised(Apply(s, schedule[0]).value, schedule[1..]);
    }
  }

  lemma FusedRunIsUnique(s0: State, schedule: seq<Action>)
    requires IsInit(s0) && ScheduleAtGrain(true, schedule) && Execute(s0, schedule).Some?
    ensures OneEach(Execute(s0, schedule).value)
  {
    FusedIsSerialised(s0, schedule);
    var s := Execute(s0, schedule).value;
    forall r, x | IsActive(s, r) && IsActive(s, x) && s.runs[r].pipe == s.runs[x].pipe ensures r == x {
      OneActiveRun(s0, schedule, r);
    }
  }

  /** Two calls past their check on the same pipeline need only append to leave it with two active runs. */
  lemma OverlapBreaksIt(s: State, k: CallId, k': CallId, r: RunId, r': RunId)
    requires k in s.checked && k' in s.checked && k != k' && s.checked[k] == s.checked[k']
    requires r !in s.runs && r' !in s.runs && r != r'
    ensures var schedule := [TriggerAppend(k, r, []), TriggerAppend(k', r', [])];
            && Execute(s, schedule).Some?
            && (var s' := Execute(s, schedule).value;
                IsActive(s', r) && IsActive(s', r') && s'.runs[r].pipe == s'.runs[r'].pipe)
  {
    var first, second := TriggerAppend(k, r, []), TriggerAppend(k', r', []);
    var s1 := Apply(s, first).value;
    var s2 := Apply(s1, second).value;
    assert [first, second][1..] == [second] && [second][1..] == [];
    assert Execute(s1, [second]) == Some(s2);
  }

  /** And two calls can always get there: any idle configured pipeline can be triggered twice at once. */
  lemma OverlapIsPossible(s: State, p: PipeId, k: CallId, k': CallId)
    requires p in s.pipes && !HasActive(s, p) && k !in s.checked && k' !in s.checked && k != k'
    ensures var schedule := [TriggerCheck(k, p), TriggerCheck(k', p)];
            && Execute(s, schedule).Some?
            && (var s' := Execute(s, schedule).value;
                k in s'.checked && k' in s'.checked && s'.checked[k] == s'.checked[k'] == p && s'.runs == s.runs)
  {
    var first, second := TriggerCheck(k, p), TriggerCheck(k', p);
    var s1 := Apply(s, first).value;
    assert [first, second][1..] == [second] && [second][1..] == [];
    OwnSame(s, s1);
    assert Execute(s1, [second]) == Apply(s1, second);
  }

  lemma {:induction false} ExecuteInTwo(s: State, a: seq<Action>, b: seq<Action>)
    requires Execute(s, a).Some?
    ensures Execute(s, a + b) == Execute(Execute(s, a).value, b)
    decreases |a|
  {
    if a == [] {
      assert a + b == b;
    } else {
      assert (a + b)[1..] == a[1..] + b;
      ExecuteInTwo(Apply(s, a[0]).value, a[1..], b);
    }
  }

  lemma OneAction(s: State, a: Action)
    ensures Execute(s, [a]) == Apply(s, a)
  {
    assert [a][1..] == [];
    if Apply(s, a).Some? {
      assert Execute(Apply(s, a).value, []) == Some(Apply(s, a).value);
    }
  }

  lemma ReachNext(fused: bool, s: State, a: Action)
    requires ReachableAt(fused, s) && AtGrain(fused, a) && Apply(s, a).Some?
    ensures ReachableAt(fused, Apply(s, a).value)
  {
    var s0, schedule :| IsInit(s0) && ScheduleAtGrain(fused, schedule) && Execute(s0, schedule) == Some(s);
    ExecuteInTwo(s0, schedule, [a]);
    OneAction(s, a);
    assert ScheduleAtGrain(fused, schedule + [a]);
  }

  lemma ReachStart(fused: bool, s: State)
    requires IsInit(s)
    ensures ReachableAt(fused, s)
  {
    assert ScheduleAtGrain(fused, []) && Execute(s, []) == Some(s);
  }

  /** An engine with one pipeline, of which one run is kept, and nothing run so far. */
  function Blank(): State {
    State(map[], [], map[0 := 1], [], 0, 1, {}, map[], map[], map[], map[], map[])
  }

  /** Two calls of its pipeline past their check, and two runs appended. */
  function Appended(): State {
    var s := Blank();
    Append(Append(s, 0, 0, []), 0, 1, [])
  }

  lemma BothCheck()
    ensures ReachableAt(false, Blank().(checked := map[0 := 0, 1 := 0]))
  {
    var s0 := Blank();
    var s1 := s0.(checked := map[0 := 0]);
    ReachStart(false, s0);
    assert Apply(s0, TriggerCheck(0, 0)) == Some(s1);
    ReachNext(false, s0, TriggerCheck(0, 0));
    assert Apply(s1, TriggerCheck(1, 0)) == Some(s0.(checked := map[0 := 0, 1 := 0]));
    ReachNext(false, s1, TriggerCheck(1, 0));
  }

  lemma AppendChecked(s: State, call: CallId, r: RunId, rest: map<CallId, PipeId>)
    requires ReachableAt(false, s) && call in s.checked && r !in s.runs && s.checked - {call} == rest
    ensures ReachableAt(false, Append(s.(checked := rest), s.checked[call], r, []))
  {
    ReachNext(false, s, TriggerAppend(call, r, []));
  }

  lemma BothAppend()
    ensures ReachableAt(false, Appended())
  {
    BothCheck();
    var s := Blank().(checked := map[0 := 0, 1 := 0]);
    assert s.checked - {0} == map[1 := 0] && map[1 := 0] - {1} == map[];
    AppendChecked(s, 0, 0, map[1 := 0]);
    AppendChecked(Append(s.(checked := map[1 := 0]), 0, 0, []), 1, 1, map[]);
  }

  lemma SplitCanBreak()
    ensures exists s :: ReachableAt(false, s) && !OneEach(s)
  {
    BothAppend();
    var s := Appended();
    assert IsActive(s, 0) && IsActive(s, 1) && s.runs[0].pipe == s.runs[1].pipe;
  }

  /**
   In every reachable state each pipeline has at most one queued or running run, exactly if a trigger's check
   and append are one step.
   */
  lemma AtMostOneActive(fused: bool)
    ensures (forall s :: ReachableAt(fused, s) ==> OneEach(s)) <==> fused
  {
    if fused {
      forall s | ReachableAt(fused, s) ensures OneEach(s) {
        var s0, schedule :| IsInit(s0) && ScheduleAtGrain(fused, schedule) && Execute(s0, schedule) == Some(s);
        FusedRunIsUnique(s0, schedule);
      }
    } else {
      SplitCanBreak();
    }
  }
}
