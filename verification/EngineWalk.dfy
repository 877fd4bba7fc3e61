/**
 One run of the engine (internal/cicd/engine.go, execute and waitApproval) going its way from slot to final status
 while no other run moves: each place it can stand at leads to the next, given the answer it waits for.
 */
module EngineWalk {
  import opened EngineProtocol
  import opened EngineOverlap
  import opened EngineSafety
  import opened Options

  ghost predicate Reaches(s: State, s': State) {
    exists schedule :: Execute(s, schedule) == Some(s')
  }

  lemma ReachOne(s: State, a: Action)
    requires Apply(s, a).Some?
    ensures Reaches(s, Apply(s, a).value)
  {
    OneAction(s, a);
  }

  lemma ReachSelf(s: State)
    ensures Reaches(s, s)
  {
    assert Execute(s, []) == Some(s);
  }

  lemma ReachOn(s: State, s1: State, s2: State)
    requires Reaches(s, s1) && Reaches(s1, s2)
    ensures Reaches(s, s2)
  {
    var a, b :| Execute(s, a) == Some(s1) && Execute(s1, b) == Some(s2);
    ExecuteInTwo(s, a, b);
  }

  /** Some schedule leads from one state to the other, in which of all runs only r has changed. */
  ghost predicate Moved(s: State, s': State, r: RunId, run: Run) {
    Reaches(s, s') && s'.runs == s.runs[r := run]
  }

  lemma MovedOn(s: State, s1: State, s2: State, r: RunId, a: Run, b: Run)
    requires Moved(s, s1, r, a) && Moved(s1, s2, r, b)
    ensures Moved(s, s2, r, b)
  {
    ReachOn(s, s1, s2);
    assert s.runs[r := a][r := b] == s.runs[r := b];
  }

  predicate Stands(s: State, r: RunId, pc: Pc) {
    r in s.runs && s.runs[r].pc == pc
  }

  /** Not every slot is taken. */
  predicate SlotFree(s: State) {
    s.tokens < s.cap
  }

  /** A slot is held, and there are no more tokens than slots. */
  predicate SlotHeld(s: State) {
    0 < s.tokens <= s.cap
  }

  lemma StepMoves(s: State, r: RunId, pick: Pick, m: Move)
    requires r in s.runs && Decide(s, r, pick) == Some(m)
    ensures Moved(s, Perform(s, r, m), r, RunAfter(s.runs[r], m))
  {
    ReachOne(s, Step(r, pick));
  }

  // ---- At a gate ----

  lemma Marks(s: State, r: RunId, i: nat) returns (s': State)
    requires SlotHeld(s) && Stands(s, r, AtStage(i)) && i < |s.runs[r].gates| && s.runs[r].gates[i]
    ensures Moved(s, s', r, s.runs[r].(pc := GateMarked(i))) && SlotHeld(s')
  {
    s' := Perform(s, r, Move(Nop, GateMarked(i)));
    StepMoves(s, r, Pick(true, 0), Move(Nop, GateMarked(i)));
  }

  lemma GivesSlot(s: State, r: RunId, i: nat) returns (s': State)
    requires SlotHeld(s) && Stands(s, r, GateMarked(i))
    ensures Moved(s, s', r, s.runs[r].(pc := Parked(i))) && SlotFree(s')
  {
    s' := Perform(s, r, Move(GiveSlot, Parked(i)));
    StepMoves(s, r, Pick(true, 0), Move(GiveSlot, Parked(i)));
  }

  lemma Registers(s: State, r: RunId, i: nat) returns (s': State, c: ChanId)
    requires Stands(s, r, Parked(i)) && SlotFree(s)
    ensures Moved(s, s', r, s.runs[r].(pc := Waiting(i, c))) && SlotFree(s')
    ensures r in s'.approvals && s'.approvals[r] == c && c in s'.chans && s'.chans[c] == Chan(r, i, None)
  {
    c := FreshId(s.chans.Keys);
    s' := Perform(s, r, Move(Register(c), Waiting(i, c)));
    StepMoves(s, r, Pick(true, c), Move(Register(c), Waiting(i, c)));
  }

  /** Somebody answers: the call looks up the channel and then sends on it. */
  lemma Answers(s: State, r: RunId, i: nat, c: ChanId, yes: bool) returns (s': State, call: CallId)
    requires Stands(s, r, Waiting(i, c)) && SlotFree(s)
    requires r in s.approvals && s.approvals[r] == c && c in s.chans && s.chans[c] == Chan(r, i, None)
    ensures Moved(s, s', r, s.runs[r]) && SlotFree(s')
    ensures c in s'.chans && s'.chans[c].buffer == Some(call) && call in s'.calls && s'.calls[call].answer == yes
  {
    call := FreshId(s.calls.Keys);
    var s1 := Lookup(s, call, r, yes).value;
    s' := Send(s1, call).value;
    ReachOne(s, ApproveLookup(call, r, yes));
    ReachOne(s1, ApproveSend(call));
    ReachOn(s, s1, s');
    assert s'.runs == s.runs == s.runs[r := s.runs[r]];
  }

  lemma Receives(s: State, r: RunId, i: nat, c: ChanId, call: CallId) returns (s': State)
    requires Stands(s, r, Waiting(i, c)) && SlotFree(s)
    requires c in s.chans && s.chans[c].buffer == Some(call) && call in s.calls
    ensures Moved(s, s', r, s.runs[r].(pc := Answered(i, c, s.calls[call].answer))) && SlotFree(s')
  {
    var m := Move(Receive(c, call), Answered(i, c, s.calls[call].answer));
    s' := Perform(s, r, m);
    StepMoves(s, r, Pick(true, 0), m);
  }

  lemma Unregisters(s: State, r: RunId, i: nat, c: ChanId, yes: bool) returns (s': State)
    requires Stands(s, r, Answered(i, c, yes)) && SlotFree(s)
    ensures Moved(s, s', r, s.runs[r].(pc := Regain(i, yes))) && SlotFree(s')
  {
    s' := Perform(s, r, Move(Unregister, Regain(i, yes)));
    StepMoves(s, r, Pick(true, 0), Move(Unregister, Regain(i, yes)));
  }

  lemma Regains(s: State, r: RunId, i: nat, yes: bool) returns (s': State)
    requires Stands(s, r, Regain(i, yes)) && SlotFree(s)
    ensures Moved(s, s', r, s.runs[r].(pc := GateDone(i, yes))) && SlotHeld(s')
  {
    s' := Perform(s, r, Move(TakeSlot, GateDone(i, yes)));
    StepMoves(s, r, Pick(true, 0), Move(TakeSlot, GateDone(i, yes)));
  }

  /** From the gate's mark to waiting at it, without a slot. */
  lemma Parks(s: State, r: RunId, i: nat) returns (s': State, c: ChanId)
    requires SlotHeld(s) && Stands(s, r, AtStage(i)) && i < |s.runs[r].gates| && s.runs[r].gates[i]
    ensures Moved(s, s', r, s.runs[r].(pc := Waiting(i, c))) && SlotFree(s')
    ensures r in s'.approvals && s'.approvals[r] == c && c in s'.chans && s'.chans[c] == Chan(r, i, None)
  {
    var s1 := Marks(s, r, i);
    var s2 := GivesSlot(s1, r, i);
    s', c := Registers(s2, r, i);
    MovedOn(s, s1, s2, r, s1.runs[r], s2.runs[r]);
    MovedOn(s, s2, s', r, s2.runs[r], s'.runs[r]);
  }

  /** From the answer back to a slot. */
  lemma ComesBack(s: State, r: RunId, i: nat, c: ChanId, call: CallId) returns (s': State)
    requires Stands(s, r, Waiting(i, c)) && SlotFree(s)
    requires c in s.chans && s.chans[c].buffer == Some(call) && call in s.calls
    ensures Moved(s, s', r, s.runs[r].(pc := GateDone(i, s.calls[call].answer))) && SlotHeld(s')
  {
    var s1 := Receives(s, r, i, c, call);
    var s2 := Unregisters(s1, r, i, c, s.calls[call].answer);
    s' := Regains(s2, r, i, s.calls[call].answer);
    MovedOn(s, s1, s2, r, s1.runs[r], s2.runs[r]);
    MovedOn(s, s2, s', r, s2.runs[r], s'.runs[r]);
  }

  /** Through a gate, by whichever answer. */
  lemma GoesThroughGate(s: State, r: RunId, i: nat, yes: bool) returns (s': State)
    requires SlotHeld(s) && Stands(s, r, AtStage(i)) && i < |s.runs[r].gates| && s.runs[r].gates[i]
    ensures Moved(s, s', r, s.runs[r].(pc := GateDone(i, yes))) && SlotHeld(s')
  {
    var s1, c := Parks(s, r, i);
    var s2, call := Answers(s1, r, i, c, yes);
    s' := ComesBack(s2, r, i, c, call);
    MovedOn(s, s1, s2, r, s1.runs[r], s2.runs[r]);
    MovedOn(s, s2, s', r, s2.runs[r], s'.runs[r]);
  }

  // ---- Into a stage and out of it ----

  /** The run with its next stage begun. */
  function InNext(run: Run, i: nat): Run {
    run.(pc := InStage(i), begun := run.begun + 1)
  }

  lemma EntersFreely(s: State, r: RunId, i: nat) returns (s': State)
    requires SlotHeld(s) && Stands(s, r, AtStage(i)) && i < |s.runs[r].gates| && !s.runs[r].gates[i]
    ensures Moved(s, s', r, InNext(s.runs[r], i)) && SlotHeld(s')
  {
    s' := Perform(s, r, Move(Begin, InStage(i)));
    StepMoves(s, r, Pick(true, 0), Move(Begin, InStage(i)));
  }

  lemma EntersApproved(s: State, r: RunId, i: nat) returns (s': State)
    requires SlotHeld(s) && Stands(s, r, GateDone(i, true))
    ensures Moved(s, s', r, InNext(s.runs[r], i)) && SlotHeld(s')
  {
    s' := Perform(s, r, Move(Begin, InStage(i)));
    StepMoves(s, r, Pick(true, 0), Move(Begin, InStage(i)));
  }

  lemma TurnsBack(s: State, r: RunId, i: nat) returns (s': State)
    requires SlotHeld(s) && Stands(s, r, GateDone(i, false))
    ensures Moved(s, s', r, s.runs[r].(pc := Concluding(Canceled))) && SlotHeld(s')
  {
    s' := Perform(s, r, Move(Nop, Concluding(Canceled)));
    StepMoves(s, r, Pick(true, 0), Move(Nop, Concluding(Canceled)));
  }

  lemma LeavesStage(s: State, r: RunId, i: nat, ok: bool) returns (s': State)
    requires SlotHeld(s) && Stands(s, r, InStage(i)) && !s.runs[r].ctxDone
    ensures Moved(s, s', r, s.runs[r].(pc := if ok then AtStage(i + 1) else Concluding(Failed))) && SlotHeld(s')
  {
    var m := Move(Nop, if ok then AtStage(i + 1) else Concluding(Failed));
    s' := Perform(s, r, m);
    StepMoves(s, r, Pick(ok, 0), m);
  }

  lemma ContextEnds(s: State, r: RunId) returns (s': State)
    requires r in s.runs && s.runs[r].status.Running?
    ensures Moved(s, s', r, s.runs[r].(ctxDone := true))
  {
    s' := Apply(s, Timeout(r)).value;
    ReachOne(s, Timeout(r));
  }

  lemma IsCut(s: State, r: RunId, i: nat) returns (s': State)
    requires Stands(s, r, InStage(i)) && s.runs[r].status.Running?
    ensures Moved(s, s', r, s.runs[r].(pc := Concluding(Canceled), ctxDone := true))
  {
    var s1 := ContextEnds(s, r);
    s' := Perform(s1, r, Move(Nop, Concluding(Canceled)));
    StepMoves(s1, r, Pick(true, 0), Move(Nop, Concluding(Canceled)));
    MovedOn(s, s1, s', r, s1.runs[r], s'.runs[r]);
  }

  /** Into stage i, through its gate if it has one. */
  lemma Enters(s: State, r: RunId, i: nat) returns (s': State)
    requires SlotHeld(s) && Stands(s, r, AtStage(i)) && i < |s.runs[r].gates|
    ensures Moved(s, s', r, InNext(s.runs[r], i)) && SlotHeld(s')
  {
    if s.runs[r].gates[i] {
      var s1 := GoesThroughGate(s, r, i, true);
      s' := EntersApproved(s1, r, i);
      MovedOn(s, s1, s', r, s1.runs[r], s'.runs[r]);
    } else {
      s' := EntersFreely(s, r, i);
    }
  }

  lemma IsRefused(s: State, r: RunId, i: nat) returns (s': State)
    requires SlotHeld(s) && Stands(s, r, AtStage(i)) && i < |s.runs[r].gates| && s.runs[r].gates[i]
    ensures Moved(s, s', r, s.runs[r].(pc := Concluding(Canceled))) && SlotHeld(s')
  {
    var s1 := GoesThroughGate(s, r, i, false);
    s' := TurnsBack(s1, r, i);
    MovedOn(s, s1, s', r, s1.runs[r], s'.runs[r]);
  }

  // ---- The ends ----

  lemma Succeeds(s: State, r: RunId, i: nat) returns (s': State)
    requires Stands(s, r, AtStage(i)) && i >= |s.runs[r].gates|
    ensures Moved(s, s', r, s.runs[r].(pc := Concluding(Success)))
  {
    s' := Perform(s, r, Move(Nop, Concluding(Success)));
    StepMoves(s, r, Pick(true, 0), Move(Nop, Concluding(Success)));
  }

  /** What the guard makes of a run; `ok` says whether its log file opens. */
  function Guarded(run: Run, ok: bool): Run {
    run.(pc := if ok then AtStage(0) else Concluding(Failed), status := Running, starts := run.starts + 1, ctxDone := false)
  }

  lemma PassesGuard(s: State, r: RunId, ok: bool) returns (s': State)
    requires SlotHeld(s) && Stands(s, r, HasSlot) && s.runs[r].status.Queued?
    ensures Moved(s, s', r, Guarded(s.runs[r], ok)) && SlotHeld(s')
  {
    var m := Move(Start, Guarded(s.runs[r], ok).pc);
    s' := Perform(s, r, m);
    StepMoves(s, r, Pick(ok, 0), m);
  }
}
