/**
 What holds over whole runs of the CI/CD engine (internal/cicd/engine.go), for every interleaving:
 slots, cancellation, statuses, approval gates, and freedom from deadlock.
 */
module EngineSafety {
  import opened EngineProtocol

  // ---- Slots ----

  /**
   The tokens in the semaphore are the runs in a slot-holding phase, never more than the capacity;
   giving a slot back never blocks; and when a run waits for a slot, one is free or some run that is
   not parked at an approval holds one.
   */
  lemma SlotsAreHeld(s: State, r: RunId, pick: Pick)
    requires Reachable(s) && r in s.runs
    ensures s.tokens == |SlotHolders(s)| && s.tokens <= s.cap
    ensures r !in SlotHolders(s) <==>
              var pc := s.runs[r].pc;
              || pc.Created? || pc.InQueue? || pc.WaitSlot?                        // not yet
              || pc.Parked? || pc.Waiting? || pc.Answered? || pc.Regain?           // at a gate
              || pc.Rejected? || pc.RejectedPruning? || pc.Gone?                   // never or no longer
    ensures s.runs[r].pc.GateMarked? || s.runs[r].pc.Leaving? ==> Decide(s, r, pick).Some?
    ensures s.runs[r].pc.WaitSlot? || s.runs[r].pc.Regain? ==>
              Decide(s, r, pick).Some? || exists x :: x in SlotHolders(s) && x != r
  {
    ReachableInv(s);
    HoldersAre(s, r);
    if s.runs[r].pc.GateMarked? || s.runs[r].pc.Leaving? {
      GivesBack(s, r, pick);
    }
    if s.runs[r].pc.WaitSlot? || s.runs[r].pc.Regain? {
      GetsOrWaits(s, r, pick);
    }
  }

  lemma HoldersAre(s: State, r: RunId)
    requires r in s.runs
    ensures r !in SlotHolders(s) <==>
              var pc := s.runs[r].pc;
              || pc.Created? || pc.InQueue? || pc.WaitSlot?
              || pc.Parked? || pc.Waiting? || pc.Answered? || pc.Regain?
              || pc.Rejected? || pc.RejectedPruning? || pc.Gone?
  {
  }

  lemma GivesBack(s: State, r: RunId, pick: Pick)
    requires Slots(s) && r in s.runs && (s.runs[r].pc.GateMarked? || s.runs[r].pc.Leaving?)
    ensures Decide(s, r, pick).Some?
  {
    assert r in SlotHolders(s);
  }

  lemma GetsOrWaits(s: State, r: RunId, pick: Pick)
    requires Slots(s) && r in s.runs && (s.runs[r].pc.WaitSlot? || s.runs[r].pc.Regain?)
    ensures Decide(s, r, pick).Some? || exists x :: x in SlotHolders(s) && x != r
  {
    if s.tokens >= s.cap {
      assert SlotHolders(s) != {};
      var x :| x in SlotHolders(s);
    }
  }

  // ---- Cancellation ----

  lemma TableOfLife(s: State, r: RunId)
    requires Lives(s) && r in s.runs
    ensures r in s.cancelFn <==> s.runs[r].status.Running?
  {
    assert Life(s.runs[r], r in s.cancelFn);
  }

  /** The cancel table has a key exactly for the running runs. */
  lemma CancelTable(s: State, r: RunId)
    requires Reachable(s) && r in s.runs
    ensures r in s.cancelFn <==> s.runs[r].status.Running?
  {
    ReachableInv(s);
    TableOfLife(s, r);
  }

  /** What one action does to a run that has already been made. */
  lemma ActionOnRun(s: State, a: Action, r: RunId)
    requires Inv(s) && Apply(s, a).Some? && r in s.runs
    ensures r in Apply(s, a).value.runs && Aged(s.runs[r], Apply(s, a).value.runs[r])
  {
    if a.Step? {
      StepOnRun(s, a.r, a.pick, r);
    } else {
      OutsideOnly(s, a);
      TouchedAged(s, Apply(s, a).value, r);
    }
  }

  predicate Aged(run: Run, run': Run) {
    && (Terminal(run.status) ==> Terminal(run'.status) && run'.starts == run.starts)
    && (Active(run'.status) ==> Active(run.status))
    && run'.pipe == run.pipe
  }

  lemma DecideAged(s: State, r: RunId, pick: Pick)
    requires r in s.runs && Life(s.runs[r], r in s.cancelFn) && Decide(s, r, pick).Some?
    ensures Aged(s.runs[r], RunAfter(s.runs[r], Decide(s, r, pick).value))
  {
  }

  lemma StepOnRun(s: State, stepped: RunId, pick: Pick, r: RunId)
    requires Lives(s) && stepped in s.runs && Decide(s, stepped, pick).Some? && r in s.runs
    ensures r in Perform(s, stepped, Decide(s, stepped, pick).value).runs
    ensures Aged(s.runs[r], Perform(s, stepped, Decide(s, stepped, pick).value).runs[r])
  {
    if r == stepped {
      DecideAged(s, r, pick);
    }
  }

  lemma TouchedAged(s: State, s': State, r: RunId)
    requires Outside(s, s') && r in s.runs
    ensures r in s'.runs && Aged(s.runs[r], s'.runs[r])
  {
    assert Touched(s.runs[r], s'.runs[r]);
  }

  /** No run leaves a terminal status for queued or running, and none passes the guard after it. */
  lemma {:induction false} TerminalForever(s: State, schedule: seq<Action>, r: RunId)
    requires Inv(s) && Execute(s, schedule).Some? && r in s.runs && Terminal(s.runs[r].status)
    ensures var s' := Execute(s, schedule).value;
            r in s'.runs && Terminal(s'.runs[r].status) && s'.runs[r].starts == s.runs[r].starts
    decreases |schedule|
  {
    if schedule != [] {
      ActionOnRun(s, schedule[0], r);
      ActionKeepsInv(s, schedule[0]);
      TerminalForever(Apply(s, schedule[0]).value, schedule[1..], r);
    }
  }

  lemma UnstartedHasNotBegun(s: State, r: RunId)
    requires Inv(s) && r in s.runs
    ensures s.runs[r].starts <= 1 && (s.runs[r].starts == 0 ==> s.runs[r].begun == 0)
  {
    assert Life(s.runs[r], r in s.cancelFn);
  }

  /** Each run passes execute's guard at most once. */
  lemma GuardOnce(s: State, r: RunId)
    requires Reachable(s) && r in s.runs
    ensures s.runs[r].starts <= 1
  {
    ReachableInv(s);
    UnstartedHasNotBegun(s, r);
  }

  /** A run canceled before the guard, in the queue or on the way to a slot, never begins a stage. */
  lemma CanceledInQueueNeverRuns(s: State, schedule: seq<Action>, r: RunId)
    requires Reachable(s) && Execute(s, schedule).Some? && r in s.runs
    requires s.runs[r].status.Canceled? && s.runs[r].starts == 0
    ensures var s' := Execute(s, schedule).value; r in s'.runs && s'.runs[r].starts == 0 && s'.runs[r].begun == 0
  {
    ReachableInv(s);
    TerminalForever(s, schedule, r);
    ScheduleKeepsInv(s, schedule);
    UnstartedHasNotBegun(Execute(s, schedule).value, r);
  }

  // ---- Approval gates ----

  /**
   A gated stage has begun only if a call that said yes was delivered on the channel made for that
   very wait, of which there is one.
   */
  lemma GateNeedsItsApproval(s: State, r: RunId, i: nat)
    requires Reachable(s) && r in s.runs && i < s.runs[r].begun
    ensures i < |s.runs[r].gates|
    ensures s.runs[r].gates[i] ==>
              && (r, i) in s.granted && s.granted[(r, i)] in s.calls
              && var k := s.calls[s.granted[(r, i)]];
                 k.answer && k.state == Sent && k.run == r && k.gate == i
                 && k.chan in s.chans && s.chans[k.chan].run == r && s.chans[k.chan].gate == i
                 && forall d :: d in s.chans && s.chans[d].run == r && s.chans[d].gate == i ==> d == k.chan
  {
    ReachableInv(s);
    assert Life(s.runs[r], r in s.cancelFn);
    if s.runs[r].gates[i] {
      assert (r, i) in s.granted;
      assert OpenedWell(s, r, i);
    }
  }

  /**
   The table of waits has a key exactly while the run waits, and names the channel the run itself reads, made for
   the gate it waits at.
   */
  lemma TableOfWaits(s: State, r: RunId)
    requires Reachable(s)
    ensures r in s.approvals <==> r in s.runs && (s.runs[r].pc.Waiting? || s.runs[r].pc.Answered?)
    ensures r in s.approvals ==> s.runs[r].pc.c == s.approvals[r] && s.approvals[r] in s.chans
    ensures r in s.approvals ==> s.chans[s.approvals[r]].run == r && s.chans[s.approvals[r]].gate == s.runs[r].pc.i
  {
    ReachableInv(s);
    if r in s.approvals {
      assert Registered(s, r);
    }
  }

  /** One Approve call releases one gate at most. */
  lemma OneCallOneGate(s: State, r: RunId, i: nat, r': RunId, i': nat)
    requires Reachable(s) && (r, i) in s.granted && (r', i') in s.granted
    requires s.granted[(r, i)] == s.granted[(r', i')]
    ensures r == r' && i == i'
  {
    ReachableInv(s);
    assert OpenedWell(s, r, i) && OpenedWell(s, r', i');
  }

  lemma ActionKeepsCalls(s: State, a: Action)
    requires Inv(s) && Apply(s, a).Some?
    ensures Keeps(s, Apply(s, a).value)
  {
    if a.Step? {
      DecideChannel(s, a.r, a.pick);
      StepCalls(s, a.r, Decide(s, a.r, a.pick).value);
    } else {
      OutsideAnswers(s, a);
    }
  }

  lemma KeepsOn(s: State, s1: State, s2: State)
    requires Keeps(s, s1) && Keeps(s1, s2)
    ensures Keeps(s, s2)
  {
  }

  /** What a schedule leaves of a call and its channel. */
  lemma {:induction false} CallsStay(s: State, schedule: seq<Action>)
    requires Inv(s) && Execute(s, schedule).Some?
    ensures Keeps(s, Execute(s, schedule).value)
    decreases |schedule|
  {
    if schedule != [] {
      var s1 := Apply(s, schedule[0]).value;
      ActionKeepsCalls(s, schedule[0]);
      ActionKeepsInv(s, schedule[0]);
      CallsStay(s1, schedule[1..]);
      KeepsOn(s, s1, Execute(s, schedule).value);
    }
  }

  lemma LookupWaits(s: State, call: CallId, r: RunId, answer: bool)
    requires WaitersRegistered(s) && Lookup(s, call, r, answer).Some?
    ensures r in s.runs && AtWait(s.runs[r].pc)
    ensures Lookup(s, call, r, answer).value.calls
         == s.calls[call := Call(r, s.runs[r].pc.i, s.approvals[r], answer, Looked)]
  {
    assert Registered(s, r);
  }

  lemma ApplyLookup(s: State, call: CallId, r: RunId, answer: bool)
    ensures Apply(s, ApproveLookup(call, r, answer)) == Lookup(s, call, r, answer)
  {
  }

  lemma LookupKeepsInv(s: State, call: CallId, r: RunId, answer: bool)
    requires Inv(s) && Lookup(s, call, r, answer).Some?
    ensures Inv(Lookup(s, call, r, answer).value)
  {
    ApplyLookup(s, call, r, answer);
    ActionKeepsInv(s, ApproveLookup(call, r, answer));
  }

  /** A call is bound at its lookup to the gate the run is waiting at. */
  lemma LookupBinds(s: State, call: CallId, r: RunId, answer: bool)
    requires Inv(s) && Lookup(s, call, r, answer).Some?
    ensures Inv(Lookup(s, call, r, answer).value)
    ensures r in s.runs && AtWait(s.runs[r].pc)
    ensures var made := Lookup(s, call, r, answer).value.calls;
            call in made && made[call].answer == answer && made[call].run == r && made[call].gate == s.runs[r].pc.i
  {
    LookupWaits(s, call, r, answer);
    LookupKeepsInv(s, call, r, answer);
  }

  lemma CallOpensItsGate(s: State, schedule: seq<Action>, call: CallId, r: RunId, i: nat)
    requires Inv(s) && call in s.calls && Execute(s, schedule).Some?
    requires var granted := Execute(s, schedule).value.granted; (r, i) in granted && granted[(r, i)] == call
    ensures s.calls[call].answer && s.calls[call].run == r && s.calls[call].gate == i
  {
    CallsStay(s, schedule);
    ScheduleKeepsInv(s, schedule);
    assert OpenedWell(Execute(s, schedule).value, r, i);
  }

  /**
   Whatever happens after its lookup, a call opens no gate but the one its run was waiting at then,
   and that only if it said yes: a stale approval never opens a later gate.
   */
  lemma StaleApprovalOpensNothing(s: State, call: CallId, r: RunId, answer: bool, schedule: seq<Action>, r': RunId,
      i: nat)
    requires Reachable(s) && Lookup(s, call, r, answer).Some?
    requires var s1 := Lookup(s, call, r, answer).value;
             && Execute(s1, schedule).Some?
             && (r', i) in Execute(s1, schedule).value.granted
             && Execute(s1, schedule).value.granted[(r', i)] == call
    ensures answer && r' == r && r in s.runs && AtWait(s.runs[r].pc) && s.runs[r].pc.i == i
  {
    ReachableInv(s);
    LookupBinds(s, call, r, answer);
    CallOpensItsGate(Lookup(s, call, r, answer).value, schedule, call, r', i);
  }

  // ---- Deadlock ----

  lemma FreshId(ids: set<nat>) returns (c: nat)
    ensures c !in ids
  {
    c := Above(ids);
  }

  lemma {:induction false} Above(ids: set<nat>) returns (c: nat)
    ensures forall d :: d in ids ==> d < c
  {
    if ids == {} {
      c := 0;
    } else {
      var d :| d in ids;
      var below := Above(ids - {d});
      c := if below > d then below else d + 1;
      forall e | e in ids ensures e < c {
        assert e == d || e in ids - {d};
      }
    }
  }

  lemma HolderMoves(s: State, r: RunId, pick: Pick)
    requires Slots(s) && r in s.runs && HoldsSlot(s.runs[r].pc)
    ensures Decide(s, r, pick).Some?
  {
    assert r in SlotHolders(s);
  }

  lemma BufferNamesCall(s: State, c: ChanId)
    requires Inv(s) && c in s.chans
    ensures s.chans[c].buffer.Some? ==> s.chans[c].buffer.value in s.calls
  {
  }

  lemma HeadMoves(s: State, r: RunId, pick: Pick)
    requires Inv(s) && r in s.runs && s.runs[r].pc.InQueue?
    ensures s.queue != [] && s.queue[0] in s.runs && Decide(s, s.queue[0], pick).Some?
  {
    assert r in s.queue;
    assert s.queue[0] in s.queue;
  }

  /** The engine never deadlocks: when no goroutine can move, every unfinished run awaits people. */
  lemma NoDeadlock(s: State, r: RunId)
    requires Reachable(s) && r in s.runs && !s.runs[r].pc.Gone?
    requires forall x, pick :: x in s.runs ==> Decide(s, x, pick).None?
    ensures s.runs[r].pc.Waiting? && !s.runs[r].ctxDone
            && s.runs[r].pc.c in s.chans && s.chans[s.runs[r].pc.c].buffer.None?
  {
    ReachableInv(s);
    var c := FreshId(s.chans.Keys);
    var run, go, stop := s.runs[r], Pick(true, c), Pick(false, c);
    assert Decide(s, r, go).None? && Decide(s, r, stop).None?;
    if run.pc.InQueue? {
      HeadMoves(s, r, go);
    } else if run.pc.WaitSlot? || run.pc.Regain? {
      assert SlotHolders(s) != {};
      var x :| x in SlotHolders(s);
      HolderMoves(s, x, go);
    } else if HoldsSlot(run.pc) {
      HolderMoves(s, r, go);
    } else if run.pc.Waiting? {
      assert r in s.approvals && Registered(s, r);
      BufferNamesCall(s, run.pc.c);
    }
  }
}
