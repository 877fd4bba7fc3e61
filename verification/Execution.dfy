/**
 One run of a pipeline, stage after stage and step after step (internal/cicd/engine.go, newRun,
 execute, runProgress). What the outside contributes is an oracle: whether the log file opens, how
 gates are answered, how commands end, and at which look at the context it is found ended.
 */
module Execution {
  import opened Options

  datatype Status = Queued | Running | Waiting | Success | Failed | Canceled | Pending | Skipped

  datatype StepDef = StepDef(name: string, command: string, continueOnFail: bool)

  datatype StageDef = StageDef(name: string, approval: bool, steps: seq<StepDef>)

  datatype StepRun = StepRun(name: string, command: string, status: Status, exitCode: int)

  datatype StageRun = StageRun(name: string, status: Status, steps: seq<StepRun>)

  /** How a command ended; a failed artifact push counts as an error with exit code -1. */
  datatype Outcome = Outcome(exit: int, error: bool)

  /** `endsAt` is the number of looks at the context before the first that finds it ended. */
  datatype World = World(logOpens: bool, approved: nat -> bool, outcome: (nat, nat) -> Outcome, endsAt: Option<nat>)

  /** The context, once ended, stays ended. */
  predicate Ended(w: World, look: nat) {
    w.endsAt.Some? && look >= w.endsAt.value
  }

  predicate Ok(o: Outcome) {
    !o.error && o.exit == 0
  }

  // ---- The run view of a definition ----

  /** The steps stage i walks: the first stage starts with the clone step when there is one. */
  function Walked(def: seq<StageDef>, clone: Option<StepDef>, i: nat): seq<StepDef>
    requires i < |def|
  {
    if i == 0 && clone.Some? then [clone.value] + def[i].steps else def[i].steps
  }

  function NewStep(step: StepDef): StepRun {
    StepRun(step.name, step.command, Pending, 0)
  }

  function NewStage(name: string, steps: seq<StepDef>): StageRun {
    StageRun(name, Pending, seq(|steps|, j requires 0 <= j < |steps| => NewStep(steps[j])))
  }

  /** The stages of a new run line up, index for index, with the steps execute walks. */
  predicate LinesUp(def: seq<StageDef>, clone: Option<StepDef>, stages: seq<StageRun>) {
    && |stages| == |def|
    && forall i :: 0 <= i < |def| ==> stages[i] == NewStage(def[i].name, Walked(def, clone, i))
  }

  /** The clone step comes first, before the steps of the first stage; every other stage is walked as it is defined. */
  lemma WalkedOrder(def: seq<StageDef>, clone: Option<StepDef>, i: nat)
    requires i < |def|
    ensures i == 0 && clone.Some? ==>
              |Walked(def, clone, 0)| == |def[0].steps| + 1 && Walked(def, clone, 0)[0] == clone.value
              && forall j :: 0 <= j < |def[0].steps| ==> Walked(def, clone, 0)[j + 1] == def[0].steps[j]
    ensures i > 0 || clone.None? ==> Walked(def, clone, i) == def[i].steps
  {
  }

  /** The steps are those of the definition by name and command, pending and with exit code 0. */
  ghost predicate Shows(run: seq<StepRun>, steps: seq<StepDef>) {
    |run| == |steps| && forall j :: 0 <= j < |steps| ==> run[j] == StepRun(steps[j].name, steps[j].command, Pending, 0)
  }

  lemma StageShows(def: seq<StageDef>, clone: Option<StepDef>, stages: seq<StageRun>, i: nat)
    requires LinesUp(def, clone, stages) && i < |def|
    ensures stages[i].name == def[i].name && stages[i].status == Pending && Shows(stages[i].steps, Walked(def, clone, i))
  {
  }

  method NewRun(def: seq<StageDef>, clone: Option<StepDef>) returns (stages: seq<StageRun>)
    ensures LinesUp(def, clone, stages)
    ensures |stages| == |def| && forall i :: 0 <= i < |def| ==> stages[i].name == def[i].name && stages[i].status == Pending
    ensures forall i :: 0 <= i < |def| ==>
              Shows(stages[i].steps, (if i == 0 && clone.Some? then [clone.value] else []) + def[i].steps)
  {
    stages := [];
    for i := 0 to |def|
      invariant |stages| == i
      invariant forall k :: 0 <= k < i ==> stages[k] == NewStage(def[k].name, Walked(def, clone, k))
    {
      var steps: seq<StepRun> := [];
      for j := 0 to |def[i].steps|
        invariant |steps| == j && forall k :: 0 <= k < j ==> steps[k] == NewStep(def[i].steps[k])
      {
        var sp := def[i].steps[j];
        steps := steps + [StepRun(sp.name, sp.command, Pending, 0)];
      }
      if i == 0 && clone.Some? {
        steps := [StepRun(clone.value.name, clone.value.command, Pending, 0)] + steps;
      }
      assert steps == NewStage(def[i].name, Walked(def, clone, i)).steps;
      stages := stages + [StageRun(def[i].name, Pending, steps)];
    }
    forall i | 0 <= i < |def|
      ensures stages[i].name == def[i].name && stages[i].status == Pending
      ensures Shows(stages[i].steps, (if i == 0 && clone.Some? then [clone.value] else []) + def[i].steps)
    {
      StageShows(def, clone, stages, i);
      assert [] + def[i].steps == def[i].steps;
    }
  }

  // ---- What one stage may end as ----

  function Mark(step: StepRun, status: Status, exit: int): StepRun {
    step.(status := status, exitCode := exit)
  }

  /**
   Step j ran through: it succeeded, or failed where the definition lets it, and the look at the
   context after it (the (2j + 1)st of the stage) found nothing.
   */
  predicate RanThrough(steps: seq<StepDef>, w: World, i: nat, base: nat, before: StepRun, after: StepRun, j: nat)
    requires j < |steps|
  {
    var o := w.outcome(i, j);
    && !Ended(w, base + 2 * j + 1)
    && (Ok(o) || steps[j].continueOnFail)
    && after == Mark(before, if Ok(o) then Success else Failed, o.exit)
  }

  /** Step f failed and stopped the stage; the later ones were skipped. */
  ghost predicate FailedAt(steps: seq<StepDef>, w: World, i: nat, base: nat, before: seq<StepRun>,
      after: seq<StepRun>, f: nat)
    requires |before| == |after| == |steps|
  {
    && f < |steps|
    && (forall j :: 0 <= j < f ==> RanThrough(steps, w, i, base, before[j], after[j], j))
    && !Ended(w, base + 2 * f + 1) && !Ok(w.outcome(i, f)) && !steps[f].continueOnFail
    && after[f] == Mark(before[f], Failed, w.outcome(i, f).exit)
    && (forall j :: f < j < |steps| ==> after[j] == before[j].(status := Skipped))
  }

  /** The context ended while step c was due or under way, or, for c = |steps|, after the last one. */
  ghost predicate CutAt(steps: seq<StepDef>, w: World, i: nat, base: nat, before: seq<StepRun>, after: seq<StepRun>,
      c: nat)
    requires |before| == |after| == |steps|
  {
    && c <= |steps|
    && (forall j :: 0 <= j < c ==> RanThrough(steps, w, i, base, before[j], after[j], j))
    && Ended(w, base + 2 * c + (if c < |steps| then 1 else 0))
    && (c < |steps| ==>
          after[c] == Mark(before[c], Canceled,
            if Ended(w, base + 2 * c) then before[c].exitCode else w.outcome(i, c).exit))
    && (forall j :: c < j < |steps| ==> after[j] == before[j].(status := Canceled))
  }

  /** How a stage that was started ends. */
  ghost predicate StageEnd(steps: seq<StepDef>, w: World, i: nat, base: nat, before: StageRun, after: StageRun)
    requires |before.steps| == |steps|
  {
    && after.name == before.name && |after.steps| == |steps|
    && (match after.status
        case Success =>
          && (forall j :: 0 <= j < |steps| ==> RanThrough(steps, w, i, base, before.steps[j], after.steps[j], j))
          && !Ended(w, base + 2 * |steps|)
        case Failed =>
          exists f: nat :: FailedAt(steps, w, i, base, before.steps, after.steps, f) && !Ended(w, base + 2 * f + 2)
        case Canceled =>
          || (exists c: nat :: CutAt(steps, w, i, base, before.steps, after.steps, c))
          || (exists f: nat :: FailedAt(steps, w, i, base, before.steps, after.steps, f) && Ended(w, base + 2 * f + 2))
        case _ => false)
  }

  // ---- The whole run ----

  /** Looks at the context before stage i when all earlier stages succeeded. */
  function Base(def: seq<StageDef>, clone: Option<StepDef>, i: nat): nat
    requires i <= |def|
  {
    if i == 0 then 0 else Base(def, clone, i - 1) + 2 * |Walked(def, clone, i - 1)| + 1
  }

  predicate Open(def: seq<StageDef>, w: World, i: nat)
    requires i < |def|
  {
    def[i].approval ==> w.approved(i)
  }

  ghost predicate Ran(def: seq<StageDef>, clone: Option<StepDef>, w: World, i: nat, before: StageRun, after: StageRun)
    requires i < |def|
  {
    && Open(def, w, i) && |before.steps| == |Walked(def, clone, i)|
    && StageEnd(Walked(def, clone, i), w, i, Base(def, clone, i), before, after)
  }

  predicate Refused(def: seq<StageDef>, w: World, i: nat, before: StageRun, after: StageRun)
    requires i < |def|
  {
    !Open(def, w, i) && after == before.(status := Canceled)
  }

  /** The first k stages succeeded. */
  ghost predicate Passed(def: seq<StageDef>, clone: Option<StepDef>, w: World,
                         before: seq<StageRun>, after: seq<StageRun>, k: nat)
    requires |before| == |after| == |def| && k <= |def|
  {
    forall i :: 0 <= i < k ==> Ran(def, clone, w, i, before[i], after[i]) && after[i].status.Success?
  }

  /** Every command ended with exit code 0 and no error but those of steps that may fail. */
  ghost predicate CommandsSucceeded(def: seq<StageDef>, clone: Option<StepDef>, w: World) {
    forall i, j :: 0 <= i < |def| && 0 <= j < |Walked(def, clone, i)| && !Walked(def, clone, i)[j].continueOnFail ==>
      w.outcome(i, j).exit == 0 && !w.outcome(i, j).error
  }

  /**
   The run stopped at stage k, or went through when k is the number of stages: the stages before k
   succeeded, stage k was refused at its gate or ended as failed or canceled, the ones after it were
   skipped, and the run's status is that of stage k.
   */
  ghost predicate StoppedAt(def: seq<StageDef>, clone: Option<StepDef>, w: World,
                            before: seq<StageRun>, after: seq<StageRun>, status: Status, k: nat)
    requires |before| == |after| == |def|
  {
    && k <= |def|
    && Passed(def, clone, w, before, after, k)
    && (k < |def| ==>
          && (Refused(def, w, k, before[k], after[k]) || (Ran(def, clone, w, k, before[k], after[k]) && !after[k].status.Success?))
          && status == after[k].status)
    && (forall i :: k < i < |def| ==> after[i] == before[i].(status := Skipped))
    && (k == |def| ==> status.Success?)
  }

  /** Stopped at stage k, in the plain terms of the run view. */
  ghost predicate StopIndex(stages: seq<StageRun>, status: Status, k: nat) {
    && k <= |stages|
    && (forall i :: 0 <= i < k ==> stages[i].status.Success?)
    && (forall i :: k < i < |stages| ==> stages[i].status.Skipped?)
    && (k < |stages| ==> (stages[k].status.Failed? || stages[k].status.Canceled?) && status == stages[k].status)
    && (k == |stages| ==> status.Success?)
  }

  /**
   There is an index such that the stages before it succeeded, those after it were skipped, the one at
   it failed or was canceled and gave the run its status; without one the run succeeded.
   */
  ghost predicate OneStop(stages: seq<StageRun>, status: Status) {
    exists k :: StopIndex(stages, status, k)
  }

  lemma PendingIsNoStop(stages: seq<StageRun>)
    requires forall i :: 0 <= i < |stages| ==> stages[i].status.Pending?
    ensures !OneStop(stages, Failed)
  {
    forall k: nat | k < |stages| ensures stages[k].status.Pending? {
    }
  }

  lemma StoppedIsOneStop(def: seq<StageDef>, clone: Option<StepDef>, w: World,
                         before: seq<StageRun>, after: seq<StageRun>, status: Status, k: nat)
    requires |before| == |after| == |def| && StoppedAt(def, clone, w, before, after, status, k)
    ensures StopIndex(after, status, k)
  {
  }

  class Run {
    var status: Status
    var canceling: bool
    var stages: seq<StageRun>

    constructor (stages: seq<StageRun>)
      ensures status == Queued && !canceling && this.stages == stages
    {
      this.status := Queued;
      this.canceling := false;
      this.stages := stages;
    }

    /** Writes the final status. */
    method Finalize(st: Status)
      modifies this`status, this`canceling
      ensures status == st && !canceling
    {
      status := st;
      canceling := false;
    }

    method SetStep(i: nat, j: nat, step: StepRun)
      requires i < |stages| && j < |stages[i].steps|
      modifies this`stages
      ensures |stages| == |old(stages)| && stages == old(stages)[i := stages[i]]
      ensures stages[i] == old(stages[i]).(steps := old(stages[i]).steps[j := step])
    {
      stages := stages[i := stages[i].(steps := stages[i].steps[j := step])];
    }

    method SetStage(i: nat, st: Status)
      requires i < |stages|
      modifies this`stages
      ensures |stages| == |old(stages)| && stages == old(stages)[i := old(stages[i]).(status := st)]
    {
      stages := stages[i := stages[i].(status := st)];
    }

    /** Runs the command of step j and records its end; look tells whether the context ended meanwhile. */
    method RunStep(w: World, i: nat, j: nat, look: nat) returns (st: Status)
      requires i < |stages| && j < |stages[i].steps|
      modifies this`stages
      ensures |stages| == |old(stages)| && stages == old(stages)[i := stages[i]]
      ensures st == if w.endsAt.Some? && look >= w.endsAt.value then Canceled
                    else if w.outcome(i, j).error || w.outcome(i, j).exit != 0 then Failed else Success
      ensures var before := old(stages)[i];
              stages[i] == before.(steps := before.steps[j := before.steps[j].(status := st, exitCode := w.outcome(i, j).exit)])
    {
      SetStep(i, j, stages[i].steps[j].(status := Running));
      var o := w.outcome(i, j);
      st := if Ended(w, look) then Canceled else if !Ok(o) then Failed else Success;
      SetStep(i, j, Mark(stages[i].steps[j], st, o.exit));
    }

    /** Marks the steps of stage i from the given one on as skipped. */
    method SkipSteps(i: nat, from: nat)
      requires i < |stages| && from <= |stages[i].steps|
      modifies this`stages
      ensures |stages| == |old(stages)| && stages == old(stages)[i := stages[i]]
      ensures var before := old(stages)[i];
              && stages[i] == before.(steps := stages[i].steps) && |stages[i].steps| == |before.steps|
              && forall x :: 0 <= x < |before.steps| ==>
                   stages[i].steps[x] == if x < from then before.steps[x] else before.steps[x].(status := Skipped)
    {
      ghost var before := stages[i];
      var k := from;
      while k < |stages[i].steps|
        invariant |stages| == |old(stages)| && stages == old(stages)[i := stages[i]]
        invariant stages[i] == before.(steps := stages[i].steps)
        invariant from <= k <= |stages[i].steps| == |before.steps|
        invariant forall x :: 0 <= x < |before.steps| ==>
                    stages[i].steps[x] == if from <= x < k then before.steps[x].(status := Skipped) else before.steps[x]
      {
        SetStep(i, k, stages[i].steps[k].(status := Skipped));
        k := k + 1;
      }
    }

    /** Runs the steps of stage i, starting with look number base at the context. */
    method RunStage(steps: seq<StepDef>, w: World, i: nat, base: nat) returns (looks: nat)
      requires i < |stages| && |stages[i].steps| == |steps|
      modifies this`stages
      ensures |stages| == |old(stages)| && stages == old(stages)[i := stages[i]]
      ensures StageEnd(steps, w, i, base, old(stages[i]), stages[i])
      ensures stages[i].status.Success? ==> looks == base + 2 * |steps| + 1
    {
      ghost var before := stages[i];
      SetStage(i, Running);
      var stepStatus := Success;
      looks := base;
      var j := 0;
      ghost var cut := 0;    // steps before it ran through, steps from it on were canceled
      while j < |steps|
        invariant cut <= j <= |steps| && stepStatus.Success?
        invariant |stages| == |old(stages)| && stages == old(stages)[i := stages[i]]
        invariant stages[i].name == before.name && |stages[i].steps| == |steps|
        invariant forall k :: 0 <= k < cut ==> RanThrough(steps, w, i, base, before.steps[k], stages[i].steps[k], k)
        invariant forall k :: cut < k < j ==> stages[i].steps[k] == before.steps[k].(status := Canceled)
        invariant forall k :: j <= k < |steps| ==> stages[i].steps[k] == before.steps[k]
        invariant cut == j ==> looks == base + 2 * j
        invariant cut < j ==> Ended(w, looks) && Ended(w, base + 2 * cut + 1)
        invariant cut < j ==>
                    stages[i].steps[cut] == Mark(before.steps[cut], Canceled,
                      if Ended(w, base + 2 * cut) then before.steps[cut].exitCode else w.outcome(i, cut).exit)
      {
        var ended := Ended(w, looks);
        looks := looks + 1;
        if ended {
          SetStep(i, j, stages[i].steps[j].(status := Canceled));
          j := j + 1;
          continue;
        }
        var st := RunStep(w, i, j, looks);
        ended := Ended(w, looks);
        looks := looks + 1;
        if st.Failed? && !steps[j].continueOnFail {
          stepStatus := Failed;
          SkipSteps(i, j + 1);
          assert FailedAt(steps, w, i, base, before.steps, stages[i].steps, j);
          break;
        }
        if !ended {
          cut := cut + 1;
        }
        j := j + 1;
      }
      ghost var failed := stepStatus.Failed?;
      var ended := Ended(w, looks);
      looks := looks + 1;
      SetStage(i, if ended then Canceled else stepStatus);
      if !failed && ended {
        assert CutAt(steps, w, i, base, before.steps, stages[i].steps, cut);
      }
    }

    /** Marks the stages from the given one on as skipped. */
    method SkipStages(from: nat)
      requires from <= |stages|
      modifies this`stages
      ensures |stages| == |old(stages)|
      ensures forall x :: 0 <= x < |stages| ==>
                stages[x] == if x < from then old(stages)[x] else old(stages)[x].(status := Skipped)
    {
      var k := from;
      while k < |stages|
        invariant from <= k <= |stages| == |old(stages)|
        invariant forall x :: 0 <= x < |stages| ==>
                    stages[x] == if from <= x < k then old(stages)[x].(status := Skipped) else old(stages)[x]
      {
        SetStage(k, Skipped);
        k := k + 1;
      }
    }

    /** Waits for the answer at the gate of stage i, if it has one. */
    method PassGate(def: seq<StageDef>, w: World, i: nat) returns (approved: bool)
      requires i < |def| == |stages|
      modifies this`stages
      ensures approved == (def[i].approval ==> w.approved(i))
      ensures stages == if def[i].approval then old(stages)[i := old(stages)[i].(status := Waiting)] else old(stages)
    {
      approved := true;
      if def[i].approval {
        SetStage(i, Waiting);
        approved := w.approved(i);
      }
    }

    /** Waits at the gate of stage i, if it has one, and runs the stage; anything but success stops the run. */
    method PassStage(def: seq<StageDef>, clone: Option<StepDef>, w: World, i: nat, base: nat,
        ghost before: seq<StageRun>)
      returns (looks: nat, runStatus: Status)
      requires i < |def| == |stages| == |before| && base == Base(def, clone, i)
      requires LinesUp(def, clone, before) && Passed(def, clone, w, before, stages, i)
      requires forall x :: i <= x < |def| ==> stages[x] == before[x]
      modifies this`stages
      ensures |stages| == |def|
      ensures runStatus.Success? ==>
                && looks == Base(def, clone, i + 1) && Passed(def, clone, w, before, stages, i + 1)
                && forall x :: i < x < |def| ==> stages[x] == before[x]
      ensures !runStatus.Success? ==> StoppedAt(def, clone, w, before, stages, runStatus, i)
    {
      ghost var entered := stages;
      var approved := PassGate(def, w, i);
      if !approved {
        looks := base + 1;     // the look that picks the reason of the refusal
        SetStage(i, Canceled);
        SkipStages(i + 1);
        runStatus := Canceled;
        StopRefused(def, clone, w, before, entered, stages, i);
        return;
      }
      ghost var gated := stages;
      looks := RunStage(Walked(def, clone, i), w, i, base);
      SameStart(Walked(def, clone, i), w, i, base, gated[i], before[i], stages[i]);
      runStatus := stages[i].status;
      if !runStatus.Success? {
        SkipStages(i + 1);
        StopEnded(def, clone, w, before, entered, stages, i);
      } else {
        PassedOne(def, clone, w, before, entered, stages, i);
      }
    }

    /** Takes the stages in order until one stops the run. */
    method RunStages(def: seq<StageDef>, clone: Option<StepDef>, w: World) returns (runStatus: Status, ghost k: nat)
      requires LinesUp(def, clone, stages)
      modifies this`stages
      ensures |stages| == |def| && StoppedAt(def, clone, w, old(stages), stages, runStatus, k)
    {
      ghost var before := stages;
      runStatus := Success;
      var looks := 0;
      var i := 0;
      while i < |def|
        invariant i <= |def| == |stages| == |before| && runStatus.Success? && looks == Base(def, clone, i)
        invariant Passed(def, clone, w, before, stages, i)
        invariant forall x :: i <= x < |def| ==> stages[x] == before[x]
      {
        looks, runStatus := PassStage(def, clone, w, i, looks, before);
        if !runStatus.Success? {
          break;
        }
        i := i + 1;
      }
      k := i;
    }

    /**
     Executes the run. A run that left the queue otherwise is not touched; one whose log cannot be
     opened fails before its first stage, and that is the one way to end without a stop index.
     */
    method Execute(def: seq<StageDef>, clone: Option<StepDef>, w: World)
      requires status == Queued ==> LinesUp(def, clone, stages)
      modifies this
      ensures old(status) != Queued ==> status == old(status) && stages == old(stages)
      ensures old(status) == Queued && !w.logOpens ==> status == Failed && stages == old(stages)
      ensures old(status) == Queued && w.logOpens ==>
                |stages| == |def| && exists k :: StoppedAt(def, clone, w, old(stages), stages, status, k)
      ensures old(status) == Queued ==> (OneStop(stages, status) <==> w.logOpens)
      ensures old(status) == Queued && status == Success ==>
                w.logOpens && CommandsSucceeded(def, clone, w) && forall i :: 0 <= i < |def| && def[i].approval ==> w.approved(i)
    {
      if status != Queued {
        return;
      }
      status := Running;
      if !w.logOpens {
        PendingIsNoStop(stages);
        Finalize(Failed);
        return;
      }
      ghost var before := stages;
      var runStatus, k := RunStages(def, clone, w);
      StoppedIsOneStop(def, clone, w, before, stages, runStatus, k);
      if runStatus == Success {
        SuccessMeans(def, clone, w, before, stages, runStatus, k);
      }
      Finalize(runStatus);
    }
  }

  lemma SameStart(steps: seq<StepDef>, w: World, i: nat, base: nat, a: StageRun, b: StageRun, after: StageRun)
    requires |a.steps| == |steps| && a.name == b.name && a.steps == b.steps && StageEnd(steps, w, i, base, a, after)
    ensures StageEnd(steps, w, i, base, b, after)
  {
  }

  lemma StopRefused(def: seq<StageDef>, clone: Option<StepDef>, w: World,
                    before: seq<StageRun>, entered: seq<StageRun>, after: seq<StageRun>, i: nat)
    requires |before| == |entered| == |after| == |def| && i < |def| && Passed(def, clone, w, before, entered, i)
    requires forall x :: 0 <= x < i ==> after[x] == entered[x]
    requires Refused(def, w, i, before[i], after[i])
    requires forall x :: i < x < |def| ==> after[x] == before[x].(status := Skipped)
    ensures StoppedAt(def, clone, w, before, after, Canceled, i)
  {
  }

  lemma StopEnded(def: seq<StageDef>, clone: Option<StepDef>, w: World,
                  before: seq<StageRun>, entered: seq<StageRun>, after: seq<StageRun>, i: nat)
    requires |before| == |entered| == |after| == |def| && i < |def| && Passed(def, clone, w, before, entered, i)
    requires forall x :: 0 <= x < i ==> after[x] == entered[x]
    requires Ran(def, clone, w, i, before[i], after[i]) && !after[i].status.Success?
    requires forall x :: i < x < |def| ==> after[x] == before[x].(status := Skipped)
    ensures StoppedAt(def, clone, w, before, after, after[i].status, i)
  {
  }

  lemma PassedOne(def: seq<StageDef>, clone: Option<StepDef>, w: World,
                  before: seq<StageRun>, entered: seq<StageRun>, after: seq<StageRun>, i: nat)
    requires |before| == |entered| == |after| == |def| && i < |def| && Passed(def, clone, w, before, entered, i)
    requires forall x :: 0 <= x < i ==> after[x] == entered[x]
    requires Ran(def, clone, w, i, before[i], after[i]) && after[i].status.Success?
    ensures Passed(def, clone, w, before, after, i + 1)
  {
  }

  // ---- What the step view says about the definition ----

  /** The run's steps keep to the definition. */
  ghost predicate StepsKeepTo(steps: seq<StepDef>, stage: StageRun)
    requires |stage.steps| == |steps|
  {
    && (forall j :: 0 <= j < |steps| ==> !stage.steps[j].status.Running?)
    && (stage.status.Success? ==>
          forall j :: 0 <= j < |steps| ==>
            stage.steps[j].status.Success? || (stage.steps[j].status.Failed? && steps[j].continueOnFail))
    && (stage.status.Failed? ==> exists f :: StopsAt(steps, stage, f))
    && (stage.status.Skipped? ==> forall j :: 0 <= j < |steps| ==> stage.steps[j].status.Pending?)
    && (stage.status.Success? || stage.status.Failed? ==> forall j :: 0 <= j < |steps| ==> !stage.steps[j].status.Pending?)
  }

  /** Step f is the one that failed without leave: the earlier ones ran through, the later were skipped. */
  ghost predicate StopsAt(steps: seq<StepDef>, stage: StageRun, f: nat)
    requires |stage.steps| == |steps|
  {
    && f < |steps| && stage.steps[f].status.Failed? && !steps[f].continueOnFail
    && (forall j :: 0 <= j < f ==>
          stage.steps[j].status.Success? || (stage.steps[j].status.Failed? && steps[j].continueOnFail))
    && (forall j :: f < j < |steps| ==> stage.steps[j].status.Skipped?)
  }

  lemma EndedStageKeeps(steps: seq<StepDef>, w: World, i: nat, base: nat, before: StageRun, after: StageRun)
    requires |before.steps| == |steps| && StageEnd(steps, w, i, base, before, after)
    ensures StepsKeepTo(steps, after)
    ensures forall j :: 0 <= j < |steps| ==> !after.steps[j].status.Pending?
  {
    if after.status.Failed? {
      var f: nat :| FailedAt(steps, w, i, base, before.steps, after.steps, f);
      assert StopsAt(steps, after, f);
    }
  }

  /**
   For every way commands, gates and cancellation can go: no step is left running, in a successful
   stage every step succeeded or was allowed to fail, in a failed stage one step failed without leave
   and the later ones were skipped, and a step is still pending only in a skipped stage or in the one
   refused at its gate.
   */
  lemma StepsKeepToDefinition(def: seq<StageDef>, clone: Option<StepDef>, w: World,
                              before: seq<StageRun>, after: seq<StageRun>, status: Status, k: nat, i: nat)
    requires LinesUp(def, clone, before) && |after| == |def| && i < |def|
    requires StoppedAt(def, clone, w, before, after, status, k)
    ensures |after[i].steps| == |Walked(def, clone, i)| && StepsKeepTo(Walked(def, clone, i), after[i])
    ensures forall j :: 0 <= j < |after[i].steps| && after[i].steps[j].status.Pending? ==>
              after[i].status.Skipped? || (i == k && Refused(def, w, i, before[i], after[i]))
  {
    if i < k || (i == k && !Refused(def, w, i, before[i], after[i])) {
      EndedStageKeeps(Walked(def, clone, i), w, i, Base(def, clone, i), before[i], after[i]);
    }
  }

  // ---- The outcome is a function of what the outside contributes ----

  /** What step j does to its stage, by the oracle alone. */
  datatype Verdict = Through | Fails | Cuts

  function VerdictOf(steps: seq<StepDef>, w: World, i: nat, base: nat, j: nat): Verdict
    requires j < |steps|
  {
    if Ended(w, base + 2 * j + 1) then Cuts
    else if Ok(w.outcome(i, j)) || steps[j].continueOnFail then Through
    else Fails
  }

  /** The first number, from j on and below n, that does not have property p; n when all have it. */
  function FirstNot(p: nat -> bool, n: nat, j: nat): (f: nat)
    requires j <= n
    ensures j <= f <= n && (f < n ==> !p(f)) && forall x :: j <= x < f ==> p(x)
    decreases n - j
  {
    if j == n || !p(j) then j else FirstNot(p, n, j + 1)
  }

  lemma FirstNotIs(p: nat -> bool, n: nat, f: nat)
    requires f <= n && (f < n ==> !p(f)) && forall x :: 0 <= x < f ==> p(x)
    ensures f == FirstNot(p, n, 0)
  {
    var g := FirstNot(p, n, 0);
    assert f <= g || !p(g);
  }

  function GoesThrough(steps: seq<StepDef>, w: World, i: nat, base: nat): nat -> bool {
    (j: nat) => j < |steps| && VerdictOf(steps, w, i, base, j).Through?
  }

  /** The first step of the stage that does not run through. */
  function FirstStop(steps: seq<StepDef>, w: World, i: nat, base: nat): (f: nat)
    ensures f <= |steps|
  {
    FirstNot(GoesThrough(steps, w, i, base), |steps|, 0)
  }

  /** Where the looks and outcomes make the stage stop. */
  lemma FirstIs(steps: seq<StepDef>, w: World, i: nat, base: nat, f: nat)
    requires f <= |steps| && forall j :: 0 <= j < f ==> VerdictOf(steps, w, i, base, j).Through?
    requires f < |steps| ==> !VerdictOf(steps, w, i, base, f).Through?
    ensures f == FirstStop(steps, w, i, base)
  {
    FirstNotIs(GoesThrough(steps, w, i, base), |steps|, f);
  }

  /** The stage's status, from where its steps stop. */
  function StageVerdict(steps: seq<StepDef>, w: World, i: nat, base: nat): Status {
    var f := FirstStop(steps, w, i, base);
    if f == |steps| then (if Ended(w, base + 2 * f) then Canceled else Success)
    else if VerdictOf(steps, w, i, base, f).Cuts? then Canceled
    else if Ended(w, base + 2 * f + 2) then Canceled else Failed
  }

  lemma FailedIsFirst(steps: seq<StepDef>, w: World, i: nat, base: nat, before: seq<StepRun>, after: seq<StepRun>,
      f: nat)
    requires |before| == |after| == |steps| && FailedAt(steps, w, i, base, before, after, f)
    ensures f == FirstStop(steps, w, i, base) && VerdictOf(steps, w, i, base, f).Fails?
  {
    forall j | 0 <= j < f ensures VerdictOf(steps, w, i, base, j).Through? {
      assert RanThrough(steps, w, i, base, before[j], after[j], j);
    }
    FirstIs(steps, w, i, base, f);
  }

  lemma CutIsFirst(steps: seq<StepDef>, w: World, i: nat, base: nat, before: seq<StepRun>, after: seq<StepRun>, c: nat)
    requires |before| == |after| == |steps| && CutAt(steps, w, i, base, before, after, c)
    ensures c == FirstStop(steps, w, i, base) && (c < |steps| ==> VerdictOf(steps, w, i, base, c).Cuts?)
  {
    forall j | 0 <= j < c ensures VerdictOf(steps, w, i, base, j).Through? {
      assert RanThrough(steps, w, i, base, before[j], after[j], j);
    }
    FirstIs(steps, w, i, base, c);
  }

  lemma ThroughIsFirst(steps: seq<StepDef>, w: World, i: nat, base: nat, before: seq<StepRun>, after: seq<StepRun>)
    requires |before| == |after| == |steps|
    requires forall j :: 0 <= j < |steps| ==> RanThrough(steps, w, i, base, before[j], after[j], j)
    ensures FirstStop(steps, w, i, base) == |steps|
  {
    forall j | 0 <= j < |steps| ensures VerdictOf(steps, w, i, base, j).Through? {
      assert RanThrough(steps, w, i, base, before[j], after[j], j);
    }
    FirstIs(steps, w, i, base, |steps|);
  }

  /** What step j looks like when the stage stops at step f. */
  function StepAfter(steps: seq<StepDef>, w: World, i: nat, base: nat, before: StepRun, f: nat, j: nat): StepRun
    requires j < |steps|
  {
    var o := w.outcome(i, j);
    if j < f then Mark(before, if Ok(o) then Success else Failed, o.exit)
    else if f < |steps| && VerdictOf(steps, w, i, base, f).Fails? then
      if j == f then Mark(before, Failed, o.exit) else before.(status := Skipped)
    else if j == f && !Ended(w, base + 2 * j) then Mark(before, Canceled, o.exit)
    else before.(status := Canceled)
  }

  /** How a started stage ends is determined: its status and every step. */
  lemma StageIsDetermined(steps: seq<StepDef>, w: World, i: nat, base: nat, before: StageRun, after: StageRun)
    requires |before.steps| == |steps| && StageEnd(steps, w, i, base, before, after)
    ensures after.status == StageVerdict(steps, w, i, base)
    ensures forall j :: 0 <= j < |steps| ==>
              after.steps[j] == StepAfter(steps, w, i, base, before.steps[j], FirstStop(steps, w, i, base), j)
  {
    match after.status
    case Success =>
      ThroughIsFirst(steps, w, i, base, before.steps, after.steps);
    case Failed =>
      var f: nat :| FailedAt(steps, w, i, base, before.steps, after.steps, f) && !Ended(w, base + 2 * f + 2);
      FailedIsFirst(steps, w, i, base, before.steps, after.steps, f);
    case Canceled =>
      if c: nat :| CutAt(steps, w, i, base, before.steps, after.steps, c) {
        CutIsFirst(steps, w, i, base, before.steps, after.steps, c);
      } else {
        var f: nat :| FailedAt(steps, w, i, base, before.steps, after.steps, f) && Ended(w, base + 2 * f + 2);
        FailedIsFirst(steps, w, i, base, before.steps, after.steps, f);
      }
  }

  // ---- What the statuses mean, by exit codes and errors ----

  /** Nothing before step j stopped the stage: no look found the context ended, and whatever failed had leave to. */
  ghost predicate Reached(steps: seq<StepDef>, w: World, i: nat, base: nat, j: nat)
    requires j <= |steps|
  {
    forall k :: 0 <= k < j ==>
      && (w.endsAt.None? || base + 2 * k + 1 < w.endsAt.value)
      && ((w.outcome(i, k).exit == 0 && !w.outcome(i, k).error) || steps[k].continueOnFail)
  }

  lemma ReachedIsFirst(steps: seq<StepDef>, w: World, i: nat, base: nat, j: nat)
    requires j <= |steps|
    ensures Reached(steps, w, i, base, j) <==> j <= FirstStop(steps, w, i, base)
  {
    var f := FirstStop(steps, w, i, base);
    if f < j {
      assert !GoesThrough(steps, w, i, base)(f);
      NotThrough(steps, w, i, base, f);
    } else {
      forall k: nat | k < j
        ensures w.endsAt.None? || base + 2 * k + 1 < w.endsAt.value
        ensures (w.outcome(i, k).exit == 0 && !w.outcome(i, k).error) || steps[k].continueOnFail
      {
        assert GoesThrough(steps, w, i, base)(k);
      }
    }
  }

  lemma NotThrough(steps: seq<StepDef>, w: World, i: nat, base: nat, f: nat)
    requires f < |steps| && !VerdictOf(steps, w, i, base, f).Through?
    ensures (w.endsAt.Some? && base + 2 * f + 1 >= w.endsAt.value)
            || ((w.outcome(i, f).exit != 0 || w.outcome(i, f).error) && !steps[f].continueOnFail)
  {
  }

  /**
   A step succeeded exactly if it was reached, its command ended with exit code 0 and no error, and the context had
   not ended by then; it failed exactly if it was reached and its command ended otherwise, the context alive; and
   then its exit code is the command's.
   */
  lemma StepMeans(steps: seq<StepDef>, w: World, i: nat, base: nat, before: StageRun, after: StageRun, j: nat)
    requires |before.steps| == |steps| && StageEnd(steps, w, i, base, before, after)
    requires j < |steps| && before.steps[j].status.Pending?
    ensures var o := w.outcome(i, j);
      var ran := Reached(steps, w, i, base, j) && (w.endsAt.None? || base + 2 * j + 1 < w.endsAt.value);
      && (after.steps[j].status.Success? <==> ran && o.exit == 0 && !o.error)
      && (after.steps[j].status.Failed? <==> ran && (o.exit != 0 || o.error))
      && (ran ==> after.steps[j].exitCode == o.exit)
      && after.steps[j].name == before.steps[j].name && after.steps[j].command == before.steps[j].command
  {
    StageIsDetermined(steps, w, i, base, before, after);
    ReachedIsFirst(steps, w, i, base, j);
    StepAfterMeans(steps, w, i, base, before.steps[j], FirstStop(steps, w, i, base), j);
  }

  lemma StepAfterMeans(steps: seq<StepDef>, w: World, i: nat, base: nat, before: StepRun, f: nat, j: nat)
    requires j < |steps| && before.status.Pending? && f == FirstStop(steps, w, i, base)
    ensures var o, after := w.outcome(i, j), StepAfter(steps, w, i, base, before, f, j);
      var ran := j <= f && (w.endsAt.None? || base + 2 * j + 1 < w.endsAt.value);
      && (after.status.Success? <==> ran && o.exit == 0 && !o.error)
      && (after.status.Failed? <==> ran && (o.exit != 0 || o.error))
      && (ran ==> after.exitCode == o.exit) && after.name == before.name && after.command == before.command
  {
    if j < f {
      assert GoesThrough(steps, w, i, base)(j);
    } else if j == f {
      assert !GoesThrough(steps, w, i, base)(f);
    }
  }

  /** Step f stops the stage: it was reached in time, and its command failed without leave. */
  ghost predicate StopsWithFailure(steps: seq<StepDef>, w: World, i: nat, base: nat, f: nat) {
    && f < |steps| && Reached(steps, w, i, base, f) && (w.endsAt.None? || base + 2 * f + 1 < w.endsAt.value)
    && (w.outcome(i, f).exit != 0 || w.outcome(i, f).error) && !steps[f].continueOnFail
  }

  lemma StopsIff(steps: seq<StepDef>, w: World, i: nat, base: nat, f: nat)
    ensures StopsWithFailure(steps, w, i, base, f)
       <==> f < |steps| && f == FirstStop(steps, w, i, base) && VerdictOf(steps, w, i, base, f).Fails?
  {
    if f < |steps| {
      ReachedIsFirst(steps, w, i, base, f);
      if f < FirstStop(steps, w, i, base) {
        assert GoesThrough(steps, w, i, base)(f);
      }
    }
  }

  /**
   A started stage failed exactly if a step stopped it by failing and the context outlived that step; it succeeded
   exactly if all its steps went through and the context outlived them; and otherwise it was canceled.
   */
  lemma StageMeans(steps: seq<StepDef>, w: World, i: nat, base: nat, before: StageRun, after: StageRun)
    requires |before.steps| == |steps| && StageEnd(steps, w, i, base, before, after)
    ensures after.status in {Success, Failed, Canceled}
    ensures after.status == Success <==>
              Reached(steps, w, i, base, |steps|) && (w.endsAt.None? || base + 2 * |steps| < w.endsAt.value)
    ensures after.status == Failed <==>
              exists f: nat :: StopsWithFailure(steps, w, i, base, f) && (w.endsAt.None? || base + 2 * f + 2 < w.endsAt.value)
  {
    StageIsDetermined(steps, w, i, base, before, after);
    ReachedIsFirst(steps, w, i, base, |steps|);
    var f := FirstStop(steps, w, i, base);
    StopsIff(steps, w, i, base, f);
    forall g: nat ensures StopsWithFailure(steps, w, i, base, g) ==> g == f {
      StopsIff(steps, w, i, base, g);
    }
  }

  /** The steps behind one that stopped the stage by failing, and no others, were skipped. */
  lemma SkippedIff(steps: seq<StepDef>, w: World, i: nat, base: nat, before: StageRun, after: StageRun, j: nat)
    requires |before.steps| == |steps| && StageEnd(steps, w, i, base, before, after)
    requires j < |steps| && before.steps[j].status.Pending?
    ensures after.steps[j].status == Skipped <==> exists f: nat :: f < j && StopsWithFailure(steps, w, i, base, f)
    ensures after.steps[j].status in {Success, Failed, Skipped, Canceled}
  {
    StageIsDetermined(steps, w, i, base, before, after);
    var f := FirstStop(steps, w, i, base);
    StopsIff(steps, w, i, base, f);
    forall g: nat ensures StopsWithFailure(steps, w, i, base, g) ==> g == f {
      StopsIff(steps, w, i, base, g);
    }
  }

  /** A stage that passes had no step fail without leave. */
  lemma PassMeans(steps: seq<StepDef>, w: World, i: nat, base: nat, j: nat)
    requires StageVerdict(steps, w, i, base).Success? && j < |steps| && !steps[j].continueOnFail
    ensures w.outcome(i, j).exit == 0 && !w.outcome(i, j).error
  {
    assert GoesThrough(steps, w, i, base)(j);
  }

  /**
   In a run that succeeded every gate was approved, and every command ended with exit code 0 and no error but those
   of steps that may fail.
   */
  lemma SuccessMeans(def: seq<StageDef>, clone: Option<StepDef>, w: World,
                     before: seq<StageRun>, after: seq<StageRun>, status: Status, k: nat)
    requires |before| == |after| == |def| && StoppedAt(def, clone, w, before, after, status, k) && status.Success?
    ensures forall i :: 0 <= i < |def| && def[i].approval ==> w.approved(i)
    ensures CommandsSucceeded(def, clone, w)
  {
    SucceedsWhenAllPass(def, clone, w, before, after, status, k);
    forall i | 0 <= i < |def| && def[i].approval ensures w.approved(i) {
      assert Passes(def, clone, w, i);
    }
    forall i, j | 0 <= i < |def| && 0 <= j < |Walked(def, clone, i)| && !Walked(def, clone, i)[j].continueOnFail
      ensures w.outcome(i, j).exit == 0 && !w.outcome(i, j).error
    {
      assert Passes(def, clone, w, i);
      PassMeans(Walked(def, clone, i), w, i, Base(def, clone, i), j);
    }
  }

  /** A stage with a gate was started only if approved; one refused at its gate ends the run as canceled, no step touched. */
  lemma GateMeans(def: seq<StageDef>, clone: Option<StepDef>, w: World,
                  before: seq<StageRun>, after: seq<StageRun>, status: Status, k: nat, i: nat)
    requires |before| == |after| == |def| && StoppedAt(def, clone, w, before, after, status, k)
    requires i < |def| && i <= k && def[i].approval
    ensures i < k ==> w.approved(i)
    ensures !w.approved(i) ==> i == k && status.Canceled? && after[i] == before[i].(status := Canceled)
  {
    if i < k {
      assert Ran(def, clone, w, i, before[i], after[i]);
    }
  }

  /** Stage i goes through: its gate is open, and neither a step nor the context stops it. */
  predicate Passes(def: seq<StageDef>, clone: Option<StepDef>, w: World, i: nat) {
    i < |def| && Open(def, w, i) && StageVerdict(Walked(def, clone, i), w, i, Base(def, clone, i)).Success?
  }

  function StagePasses(def: seq<StageDef>, clone: Option<StepDef>, w: World): nat -> bool {
    (i: nat) => Passes(def, clone, w, i)
  }

  lemma StopIsFirst(def: seq<StageDef>, clone: Option<StepDef>, w: World,
                    before: seq<StageRun>, after: seq<StageRun>, status: Status, k: nat)
    requires |before| == |after| == |def| && StoppedAt(def, clone, w, before, after, status, k)
    ensures k == FirstNot(StagePasses(def, clone, w), |def|, 0)
  {
    forall i | 0 <= i < |def| && i <= k && Ran(def, clone, w, i, before[i], after[i])
      ensures Passes(def, clone, w, i) <==> after[i].status.Success?
    {
      StageIsDetermined(Walked(def, clone, i), w, i, Base(def, clone, i), before[i], after[i]);
    }
    FirstNotIs(StagePasses(def, clone, w), |def|, k);
  }

  /** A run succeeds exactly when every gate opens, no step stops its stage and the context outlives the last look. */
  lemma SucceedsWhenAllPass(def: seq<StageDef>, clone: Option<StepDef>, w: World,
                            before: seq<StageRun>, after: seq<StageRun>, status: Status, k: nat)
    requires |before| == |after| == |def| && StoppedAt(def, clone, w, before, after, status, k)
    ensures status.Success? <==> forall i :: 0 <= i < |def| ==> Passes(def, clone, w, i)
  {
    StopIsFirst(def, clone, w, before, after, status, k);
    StoppedIsOneStop(def, clone, w, before, after, status, k);
    assert forall i: nat :: StagePasses(def, clone, w)(i) == Passes(def, clone, w, i);
    assert k < |def| ==> !Passes(def, clone, w, k);
  }

  lemma StageEndsAlike(steps: seq<StepDef>, w: World, i: nat, base: nat, before: StageRun, a: StageRun, b: StageRun)
    requires |before.steps| == |steps| && StageEnd(steps, w, i, base, before, a) && StageEnd(steps, w, i, base, before, b)
    ensures a == b
  {
    StageIsDetermined(steps, w, i, base, before, a);
    StageIsDetermined(steps, w, i, base, before, b);
    assert a.steps == b.steps;
  }

  /** Where a run stops and what it leaves behind is a function of its definition and the oracle. */
  lemma RunIsDetermined(def: seq<StageDef>, clone: Option<StepDef>, w: World, before: seq<StageRun>,
                        a: seq<StageRun>, aStatus: Status, k: nat, b: seq<StageRun>, bStatus: Status, l: nat)
    requires |before| == |a| == |b| == |def|
    requires StoppedAt(def, clone, w, before, a, aStatus, k) && StoppedAt(def, clone, w, before, b, bStatus, l)
    ensures k == l && a == b && aStatus == bStatus
  {
    StopIsFirst(def, clone, w, before, a, aStatus, k);
    StopIsFirst(def, clone, w, before, b, bStatus, l);
    forall i | 0 <= i < |def| ensures a[i] == b[i] {
      if i <= k && Open(def, w, i) {
        StageEndsAlike(Walked(def, clone, i), w, i, Base(def, clone, i), before[i], a[i], b[i]);
      }
    }
  }

  // ---- Progress ----

  predicate Finished(status: Status) {
    status.Success? || status.Failed? || status.Skipped? || status.Canceled?
  }

  function CountSteps(steps: seq<StepRun>): nat {
    if steps == [] then 0
    else CountSteps(steps[..|steps| - 1]) + (if Finished(steps[|steps| - 1].status) then 1 else 0)
  }

  function Total(stages: seq<StageRun>): nat {
    if stages == [] then 0 else Total(stages[..|stages| - 1]) + |stages[|stages| - 1].steps|
  }

  function Done(stages: seq<StageRun>): nat {
    if stages == [] then 0 else Done(stages[..|stages| - 1]) + CountSteps(stages[|stages| - 1].steps)
  }

  /** The share of steps that have ended, in percent; 0 for a run without steps. */
  method RunProgress(stages: seq<StageRun>) returns (percent: int)
    ensures percent == if Total(stages) == 0 then 0 else Done(stages) * 100 / Total(stages)
  {
    var total, done := 0, 0;
    for i := 0 to |stages|
      invariant total == Total(stages[..i]) && done == Done(stages[..i])
    {
      ghost var total0, done0 := total, done;
      var steps := stages[i].steps;
      for j := 0 to |steps|
        invariant total == total0 + j && done == done0 + CountSteps(steps[..j])
      {
        total := total + 1;
        assert steps[..j + 1][..j] == steps[..j];
        if Finished(steps[j].status) {
          done := done + 1;
        }
      }
      assert steps[..|steps|] == steps;
      assert stages[..i + 1][..i] == stages[..i];
    }
    assert stages[..|stages|] == stages;
    if total == 0 {
      return 0;
    }
    return done * 100 / total;
  }

  ghost function EndedSteps(steps: seq<StepRun>): set<int> {
    set j | 0 <= j < |steps| && steps[j].status in {Success, Failed, Skipped, Canceled}
  }

  /** What is counted of a stage is its steps that have ended. */
  lemma {:induction false} EndedCounted(steps: seq<StepRun>)
    ensures CountSteps(steps) == |EndedSteps(steps)|
  {
    if steps == [] {
      assert EndedSteps(steps) == {};
    } else {
      var front, m := steps[..|steps| - 1], |steps| - 1;
      EndedCounted(front);
      assert EndedSteps(steps) == if Finished(steps[m].status) then EndedSteps(front) + {m} else EndedSteps(front);
    }
  }

  lemma {:induction false} CountIsAll(steps: seq<StepRun>)
    ensures CountSteps(steps) <= |steps|
    ensures CountSteps(steps) == |steps| <==> forall j :: 0 <= j < |steps| ==> Finished(steps[j].status)
  {
    if steps != [] {
      CountIsAll(steps[..|steps| - 1]);
    }
  }

  lemma {:induction false} DoneIsAll(stages: seq<StageRun>)
    ensures Done(stages) <= Total(stages)
    ensures Done(stages) == Total(stages) <==>
              forall i, j :: 0 <= i < |stages| && 0 <= j < |stages[i].steps| ==> Finished(stages[i].steps[j].status)
  {
    if stages != [] {
      var n := |stages| - 1;
      DoneIsAll(stages[..n]);
      CountIsAll(stages[n].steps);
      assert forall i :: 0 <= i < n ==> stages[..n][i] == stages[i];
    }
  }

  /** Progress lies between 0 and 100, and is 100 exactly when there are steps and all have ended. */
  lemma FullProgress(stages: seq<StageRun>)
    requires Total(stages) > 0
    ensures 0 <= Done(stages) * 100 / Total(stages) <= 100
    ensures Done(stages) * 100 / Total(stages) == 100 <==>
              forall i, j :: 0 <= i < |stages| && 0 <= j < |stages[i].steps| ==>
                stages[i].steps[j].status in {Success, Failed, Skipped, Canceled}
  {
    DoneIsAll(stages);
    PercentOf(Done(stages), Total(stages));
  }

  lemma MulMonotone(a: int, b: int, c: nat)
    requires a <= b
    ensures a * c <= b * c
  {
  }

  lemma PercentOf(done: nat, total: nat)
    requires done <= total && total > 0
    ensures 0 <= done * 100 / total <= 100 && (done * 100 / total == 100 <==> done == total)
  {
    var q := done * 100 / total;
    assert q * total <= done * 100 < (q + 1) * total;
    if q > 100 {
      MulMonotone(101, q, total);
    }
    if q < 100 {
      MulMonotone(q + 1, 100, total);
    }
  }
}
