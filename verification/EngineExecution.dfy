/**
 The two views of a run side by side (internal/cicd/engine.go, execute): whatever one run can end as, some schedule
 of the step system over many runs ends it as, with the same gates, answers, stages begun and final status.
 */
module EngineExecution {
  import opened EngineProtocol
  import opened EngineWalk
  import opened Options
  import X = Execution

  predicate Final(st: X.Status) {
    st.Success? || st.Failed? || st.Canceled?
  }

  /** A final status of one view in the other. */
  function Seen(st: X.Status): Status
    requires Final(st)
  {
    if st.Success? then Success else if st.Failed? then Failed else Canceled
  }

  /** The run is of this definition: a gate where a stage asks for approval. */
  predicate SameGates(run: Run, def: seq<X.StageDef>) {
    |run.gates| == |def| && forall i :: 0 <= i < |def| ==> run.gates[i] == def[i].approval
  }

  /** How execute ends a queued run: stopped at stage k, or at once for want of its log file. */
  ghost predicate Ends(def: seq<X.StageDef>, clone: Option<X.StepDef>, w: X.World,
                       before: seq<X.StageRun>, after: seq<X.StageRun>, status: X.Status, k: nat)
    requires |before| == |after| == |def|
  {
    if w.logOpens then X.StoppedAt(def, clone, w, before, after, status, k)
    else k == 0 && status.Failed? && after == before
  }

  /** The stages whose steps have begun by then: those before the stop, and the one at it unless its gate stayed shut. */
  function BegunBy(def: seq<X.StageDef>, w: X.World, k: nat): nat {
    if w.logOpens && k < |def| && X.Open(def, w, k) then k + 1 else k
  }

  /** The facts of an end at stage k, for the stages before it and for the stop. */
  lemma EndFacts(def: seq<X.StageDef>, clone: Option<X.StepDef>, w: X.World,
      before: seq<X.StageRun>, after: seq<X.StageRun>, status: X.Status, k: nat)
    requires |before| == |after| == |def| && X.StoppedAt(def, clone, w, before, after, status, k)
    ensures k <= |def| && Final(status) && (k == |def| <==> status.Success?)
    ensures forall i :: 0 <= i < k ==> X.Open(def, w, i)
    ensures k < |def| && !X.Open(def, w, k) ==> status.Canceled?
  {
    X.StoppedIsOneStop(def, clone, w, before, after, status, k);
    forall i | 0 <= i < k ensures X.Open(def, w, i) {
      assert X.Ran(def, clone, w, i, before[i], after[i]);
    }
  }

  /** The run at stage i after i stages. */
  function AtStageOf(run: Run, i: nat): Run {
    run.(pc := AtStage(i), begun := run.begun + i)
  }

  /** A stage whose gate opens and whose steps succeed leads to the next. */
  lemma PassesStage(s: State, r: RunId, i: nat) returns (s': State)
    requires SlotHeld(s) && Stands(s, r, AtStage(i)) && i < |s.runs[r].gates| && !s.runs[r].ctxDone
    ensures Moved(s, s', r, s.runs[r].(pc := AtStage(i + 1), begun := s.runs[r].begun + 1)) && SlotHeld(s')
  {
    var s1 := Enters(s, r, i);
    s' := LeavesStage(s1, r, i, true);
    MovedOn(s, s1, s', r, s1.runs[r], s'.runs[r]);
  }

  lemma {:induction false} PassesStages(s: State, r: RunId, i: nat) returns (s': State)
    requires SlotHeld(s) && Stands(s, r, AtStage(0)) && i <= |s.runs[r].gates| && !s.runs[r].ctxDone
    ensures Moved(s, s', r, AtStageOf(s.runs[r], i)) && SlotHeld(s')
  {
    if i == 0 {
      s' := s;
      ReachSelf(s);
      assert s.runs[r := AtStageOf(s.runs[r], 0)] == s.runs;
    } else {
      var s1 := PassesStages(s, r, i - 1);
      s' := PassesStage(s1, r, i - 1);
      MovedOn(s, s1, s', r, s1.runs[r], s'.runs[r]);
    }
  }

  /** Run r is about to write this status, with that many stages begun. */
  predicate AtEnd(s: State, r: RunId, st: Status, begun: nat) {
    r in s.runs && s.runs[r].pc == Concluding(st) && s.runs[r].begun == begun
  }

  /** At stage i, the status of the stop there is within reach: by an answer, by the context, or by a step. */
  lemma StopsStage(s: State, r: RunId, i: nat, open: bool, st: Status) returns (s': State)
    requires SlotHeld(s) && Stands(s, r, AtStage(i)) && i < |s.runs[r].gates|
    requires s.runs[r].status.Running? && !s.runs[r].ctxDone && (st.Failed? || st.Canceled?)
    requires !open ==> s.runs[r].gates[i] && st.Canceled?
    ensures Reaches(s, s') && AtEnd(s', r, st, s.runs[r].begun + (if open then 1 else 0))
    ensures r in s'.runs && s'.runs == s.runs[r := s'.runs[r]]
  {
    if !open {
      s' := IsRefused(s, r, i);
    } else {
      var s1 := Enters(s, r, i);
      if st.Canceled? {
        s' := IsCut(s1, r, i);
      } else {
        s' := LeavesStage(s1, r, i, false);
      }
      MovedOn(s, s1, s', r, s1.runs[r], s'.runs[r]);
    }
  }

  /** From stage 0, an end at stage k. */
  lemma StopsAt(s: State, r: RunId, k: nat, open: bool, st: Status) returns (s': State)
    requires SlotHeld(s) && Stands(s, r, AtStage(0)) && k <= |s.runs[r].gates| && s.runs[r].begun == 0
    requires s.runs[r].status.Running? && !s.runs[r].ctxDone && Terminal(st)
    requires k == |s.runs[r].gates| <==> st.Success?
    requires k < |s.runs[r].gates| && !open ==> s.runs[r].gates[k] && st.Canceled?
    ensures Reaches(s, s') && AtEnd(s', r, st, k + (if k < |s.runs[r].gates| && open then 1 else 0))
    ensures r in s'.runs && s'.runs == s.runs[r := s'.runs[r]]
  {
    var s1 := PassesStages(s, r, k);
    if k < |s.runs[r].gates| {
      s' := StopsStage(s1, r, k, open, st);
    } else {
      s' := Succeeds(s1, r, k);
    }
    MovedOn(s, s1, s', r, s1.runs[r], s'.runs[r]);
  }

  /**
   Whatever execute can make of a queued run, for whatever the outside contributes: from each state in which the
   run has come to its slot some schedule that moves no other run brings it to the same final status, with as many
   stages begun.
   */
  lemma EndIsReached(s: State, r: RunId, def: seq<X.StageDef>, clone: Option<X.StepDef>, w: X.World,
      before: seq<X.StageRun>, after: seq<X.StageRun>, status: X.Status, k: nat)
    requires Reachable(s) && Stands(s, r, HasSlot) && s.runs[r].status.Queued? && SameGates(s.runs[r], def)
    requires |before| == |after| == |def| && Ends(def, clone, w, before, after, status, k)
    ensures Final(status)
    ensures exists s' :: Reaches(s, s') && AtEnd(s', r, Seen(status), BegunBy(def, w, k))
                         && r in s'.runs && s'.runs == s.runs[r := s'.runs[r]]
  {
    StartFacts(s, r);
    var s1 := PassesGuard(s, r, w.logOpens);
    if w.logOpens {
      EndFacts(def, clone, w, before, after, status, k);
      var s2 := StopsAt(s1, r, k, k < |def| && X.Open(def, w, k), Seen(status));
      MovedOn(s, s1, s2, r, s1.runs[r], s2.runs[r]);
    }
  }

  lemma StartFacts(s: State, r: RunId)
    requires Reachable(s) && Stands(s, r, HasSlot)
    ensures SlotHeld(s) && s.runs[r].begun == 0
  {
    ReachableInv(s);
    assert r in SlotHolders(s);
    assert Life(s.runs[r], r in s.cancelFn);
  }
}
