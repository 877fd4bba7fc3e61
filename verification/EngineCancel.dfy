/**
 What overlapping trigger calls do to cancelling (internal/cicd/engine.go, Cancel and pruneRuns): a run rolled off
 while it is active runs on, out of reach.
 */
module EngineCancel {
  import opened Options
  import opened Lists
  import opened RunHistory
  import opened EngineProtocol
  import opened EngineSafety
  import opened EngineHistory
  import opened EngineOverlap
  import opened EngineWalk

  // ---- What a cancel does ----

  /** A cancel is refused exactly for a run that has ended or is not in the history. */
  lemma CancelRefusedIff(s: State, r: RunId)
    ensures Apply(s, Cancel(r)).None? <==>
              !(r in s.order && r in s.runs) || s.runs[r].status in {Success, Failed, Canceled}
  {
  }

  lemma CancelsQueued(s: State, r: RunId)
    requires r in s.order && r in s.runs && s.runs[r].status.Queued?
    ensures Apply(s, Cancel(r)) == Some(s.(runs := s.runs[r := s.runs[r].(status := Canceled)]))
  {
  }

  lemma CanceledStays(s: State, schedule: seq<Action>, r: RunId)
    requires Inv(s) && Execute(s, schedule).Some? && r in s.runs && s.runs[r].status.Canceled? && s.runs[r].starts == 0
    ensures var s' := Execute(s, schedule).value;
      r in s'.runs && s'.runs[r].status in {Success, Failed, Canceled} && s'.runs[r].starts == 0 && s'.runs[r].begun == 0
  {
    TerminalForever(s, schedule, r);
    ScheduleKeepsInv(s, schedule);
    UnstartedHasNotBegun(Execute(s, schedule).value, r);
  }

  lemma ExecuteAfter(s: State, a: Action, s1: State, schedule: seq<Action>)
    requires Apply(s, a) == Some(s1)
    ensures Execute(s, [a] + schedule) == Execute(s1, schedule)
  {
    assert ([a] + schedule)[1..] == schedule;
  }

  /**
   Cancelling a queued run of the history cancels it at once and touches nothing else; and whatever happens then,
   it stays ended and begins no stage.
   */
  lemma CancelQueued(s: State, r: RunId, schedule: seq<Action>)
    requires Reachable(s) && r in s.order && r in s.runs && s.runs[r].status.Queued?
    ensures Apply(s, Cancel(r)) == Some(s.(runs := s.runs[r := s.runs[r].(status := Canceled)]))
    ensures Execute(s, [Cancel(r)] + schedule).Some? ==>
              var s' := Execute(s, [Cancel(r)] + schedule).value;
              r in s'.runs && s'.runs[r].status in {Success, Failed, Canceled} && s'.runs[r].starts == 0 && s'.runs[r].begun == 0
  {
    var s1 := s.(runs := s.runs[r := s.runs[r].(status := Canceled)]);
    ReachableInv(s);
    QueuedNotStarted(s, r);
    CancelsQueued(s, r);
    ActionKeepsInv(s, Cancel(r));
    ExecuteAfter(s, Cancel(r), s1, schedule);
    if Execute(s1, schedule).Some? {
      CanceledStays(s1, schedule, r);
    }
  }

  lemma QueuedNotStarted(s: State, r: RunId)
    requires Lives(s) && r in s.runs && s.runs[r].status.Queued?
    ensures s.runs[r].starts == 0
  {
    assert Life(s.runs[r], r in s.cancelFn);
  }

  /** Cancelling a running run of the history ends its context and touches nothing else. */
  lemma CancelRunning(s: State, r: RunId)
    requires Reachable(s) && r in s.order && r in s.runs && s.runs[r].status.Running?
    ensures Apply(s, Cancel(r)) == Some(s.(runs := s.runs[r := s.runs[r].(ctxDone := true)]))
  {
    CancelTable(s, r);
  }

  // ---- Serialised triggers ----

  lemma FusedListsActive(s: State)
    requires ReachableAt(true, s)
    ensures Reachable(s) && ActiveListed(s)
  {
    var s0, schedule :| IsInit(s0) && ScheduleAtGrain(true, schedule) && Execute(s0, schedule) == Some(s);
    FusedIsSerialised(s0, schedule);
    InitInv(s0);
    InitUnique(s0);
    SerialisedKeepsUnique(s0, schedule);
  }

  // ---- A run going its way while nobody else moves ----

  /** State s with run r changed. */
  function With(s: State, r: RunId, run: Run): State {
    s.(runs := s.runs[r := run])
  }

  lemma StepTo(s: State, r: RunId, ok: bool, m: Move)
    requires ReachableAt(false, s) && r in s.runs && Decide(s, r, Pick(ok, 0)) == Some(m)
    ensures ReachableAt(false, Perform(s, r, m))
  {
    ReachNext(false, s, Step(r, Pick(ok, 0)));
  }

  lemma Twice<K, V>(m: map<K, V>, k: K, a: V, b: V)
    ensures m[k := a][k := b] == m[k := b]
  {
  }

  function Placed(s: State, r: RunId, pc: Pc): State
    requires r in s.runs
  {
    With(s, r, s.runs[r].(pc := pc))
  }

  lemma Enqueues(s: State, r: RunId)
    requires ReachableAt(false, s) && r in s.runs && s.runs[r].pc.Created? && s.queue == []
    ensures ReachableAt(false, Placed(s, r, InQueue).(queue := [r]))
  {
    StepTo(s, r, true, Move(Enqueue, InQueue));
    assert s.queue + [r] == [r];
  }

  lemma Dequeues(s: State, r: RunId)
    requires ReachableAt(false, s) && r in s.runs && s.runs[r].pc.InQueue? && s.queue == [r]
    ensures ReachableAt(false, Placed(s, r, WaitSlot).(queue := []))
  {
    StepTo(s, r, true, Move(Dequeue, WaitSlot));
  }

  lemma SlotTaken(s: State, r: RunId, s': State)
    requires r in s.runs && s.runs[r].pc.WaitSlot? && s.tokens < s.cap
    requires s' == Placed(s, r, HasSlot).(tokens := s.tokens + 1)
    ensures Decide(s, r, Pick(true, 0)) == Some(Move(TakeSlot, HasSlot)) && Perform(s, r, Move(TakeSlot, HasSlot)) == s'
  {
  }

  lemma TakesSlot(s: State, r: RunId)
    requires ReachableAt(false, s) && r in s.runs && s.runs[r].pc.WaitSlot? && s.tokens < s.cap
    ensures ReachableAt(false, Placed(s, r, HasSlot).(tokens := s.tokens + 1))
  {
    SlotTaken(s, r, Placed(s, r, HasSlot).(tokens := s.tokens + 1));
    StepTo(s, r, true, Move(TakeSlot, HasSlot));
  }

  lemma GuardPasses(s: State, r: RunId, ok: bool)
    requires ReachableAt(false, s) && r in s.runs && s.runs[r].pc.HasSlot? && s.runs[r].status.Queued?
    ensures ReachableAt(false, With(s, r, Guarded(s.runs[r], ok)).(cancelFn := s.cancelFn + {r}))
  {
    StepTo(s, r, ok, Move(Start, Guarded(s.runs[r], ok).pc));
  }

  lemma WritesEnd(s: State, r: RunId)
    requires ReachableAt(false, s) && r in s.runs && s.runs[r].pc.Concluding?
    ensures ReachableAt(false,
      With(s, r, s.runs[r].(pc := Pruning, status := s.runs[r].pc.st)).(cancelFn := s.cancelFn - {r}))
  {
    StepTo(s, r, true, Move(Conclude(s.runs[r].pc.st), Pruning));
  }

  function Rolled(s: State, p: PipeId): seq<RunId> {
    Prune(s.order, OfPipe(s, p), Limit(MaxRunsOf(s, p)))
  }

  lemma RollsOff(s: State, r: RunId)
    requires ReachableAt(false, s) && r in s.runs && s.runs[r].pc.Pruning?
    ensures ReachableAt(false, Placed(s, r, Leaving).(order := Rolled(s, s.runs[r].pipe)))
  {
    StepTo(s, r, true, Move(Roll, Leaving));
  }

  lemma Leaves(s: State, r: RunId)
    requires ReachableAt(false, s) && r in s.runs && s.runs[r].pc.Leaving? && s.tokens > 0
    ensures ReachableAt(false, Left(s, r))
  {
    StepTo(s, r, true, Move(GiveSlot, Gone));
  }

  /** The state after run r has given its slot back for good. */
  function Left(s: State, r: RunId): State
    requires r in s.runs && s.tokens > 0
  {
    Placed(s, r, Gone).(tokens := s.tokens - 1)
  }

  /** The state after an empty queue has let run r pass. */
  function Dequeued(s: State, r: RunId): State
    requires r in s.runs
  {
    Placed(s, r, WaitSlot)
  }

  lemma PassesQueue(s: State, r: RunId)
    requires ReachableAt(false, s) && r in s.runs && s.runs[r].pc.Created? && s.queue == []
    ensures ReachableAt(false, Dequeued(s, r))
  {
    Enqueues(s, r);
    Dequeues(Placed(s, r, InQueue).(queue := [r]), r);
    Twice(s.runs, r, s.runs[r].(pc := InQueue), s.runs[r].(pc := WaitSlot));
  }

  /** The state after run r has taken a slot and passed the guard. */
  function Started(s: State, r: RunId, ok: bool): State
    requires r in s.runs
  {
    With(s, r, Guarded(s.runs[r], ok)).(tokens := s.tokens + 1, cancelFn := s.cancelFn + {r})
  }

  lemma Starts(s: State, r: RunId, ok: bool)
    requires ReachableAt(false, s) && r in s.runs && s.runs[r].pc.WaitSlot? && s.runs[r].status.Queued?
    requires s.tokens < s.cap
    ensures ReachableAt(false, Started(s, r, ok))
  {
    var s1 := Placed(s, r, HasSlot).(tokens := s.tokens + 1);
    TakesSlot(s, r);
    StartedInTwo(s, r, ok);
    GuardPasses(s1, r, ok);
  }

  lemma StartedInTwo(s: State, r: RunId, ok: bool)
    requires r in s.runs
    ensures var s1 := Placed(s, r, HasSlot).(tokens := s.tokens + 1);
      With(s1, r, Guarded(s1.runs[r], ok)).(cancelFn := s1.cancelFn + {r}) == Started(s, r, ok)
  {
    Twice(s.runs, r, s.runs[r].(pc := HasSlot), Guarded(s.runs[r], ok));
  }

  /** The state after run r has written its final status and rolled off its pipeline's history. */
  function Concluded(s: State, r: RunId, st: Status): State
    requires r in s.runs
  {
    With(s, r, s.runs[r].(pc := Leaving, status := st)).(order := Rolled(s, s.runs[r].pipe), cancelFn := s.cancelFn - {r})
  }

  lemma Concludes(s: State, r: RunId)
    requires ReachableAt(false, s) && r in s.runs && s.runs[r].pc.Concluding?
    ensures ReachableAt(false, Concluded(s, r, s.runs[r].pc.st))
  {
    var run := s.runs[r].(pc := Pruning, status := s.runs[r].pc.st);
    var s1 := With(s, r, run).(cancelFn := s.cancelFn - {r});
    WritesEnd(s, r);
    RollsOff(s1, r);
    Twice(s.runs, r, run, run.(pc := Leaving));
    SameRoll(s, s1, run.pipe);
  }

  lemma SameRoll(s: State, s': State, p: PipeId)
    requires s'.runs.Keys == s.runs.Keys && forall r :: r in s.runs ==> s'.runs[r].pipe == s.runs[r].pipe
    requires s'.order == s.order && s'.pipes == s.pipes
    ensures Rolled(s', p) == Rolled(s, p)
  {
    PruneAs(s.order, OfPipe(s, p), NotOfPipe(s, p), Limit(MaxRunsOf(s, p)));
    PruneAs(s.order, OfPipe(s', p), NotOfPipe(s', p), Limit(MaxRunsOf(s, p)));
    FilterAgree(OfPipe(s', p), OfPipe(s, p), s.order);
    FilterAgree(NotOfPipe(s', p), NotOfPipe(s, p), s.order);
  }

  // ---- A run rolled off before it has started ----

  /** The newer of two overlapping runs fails for want of its log file and rolls the older one off. */
  function RolledOff(): State {
    Concluded(Started(Dequeued(Appended(), 1), 1, false), 1, Failed)
  }

  lemma ReachRolledOff()
    ensures ReachableAt(false, RolledOff())
  {
    BothAppend();
    PassesQueue(Appended(), 1);
    Starts(Dequeued(Appended(), 1), 1, false);
    Concludes(Started(Dequeued(Appended(), 1), 1, false), 1);
  }

  lemma KeepsTheNewer(s: State, older: RunId, newer: RunId)
    requires s.order == [older, newer] && OfPipe(s, 0)(older) && OfPipe(s, 0)(newer) && MaxRunsOf(s, 0) == 1
    ensures Rolled(s, 0) == [newer]
  {
    PruneAs(s.order, OfPipe(s, 0), NotOfPipe(s, 0), 1);
    FilterAll(OfPipe(s, 0), s.order);
    FilterNone(NotOfPipe(s, 0), s.order);
    assert LastN([older, newer], 1) == [newer];
  }

  lemma OlderIsRolledOff()
    ensures var s := RolledOff(); s.order == [1] && 0 in s.runs && s.runs[0] == Run(0, [], Queued, Created, false, 0, 0)
    ensures var s := RolledOff(); 1 in s.runs && s.runs[1].pc.Leaving? && s.queue == [] && s.tokens == 1 == s.cap
  {
    KeepsTheNewer(Started(Dequeued(Appended(), 1), 1, false), 0, 1);
  }

  lemma ListedCanBreak()
    ensures exists s :: ReachableAt(false, s) && !ActiveListed(s)
  {
    ReachRolledOff();
    OlderIsRolledOff();
    assert IsActive(RolledOff(), 0);
  }

  /** In every reachable state each active run is in the history, exactly if triggers check and append at once. */
  lemma ActiveStaysListed(fused: bool)
    ensures (forall s :: ReachableAt(fused, s) ==> ActiveListed(s)) <==> fused
  {
    if fused {
      forall s | ReachableAt(fused, s) ensures ActiveListed(s) {
        FusedListsActive(s);
      }
    } else {
      ListedCanBreak();
    }
  }

  // ---- And out of reach of Cancel ----

  /** Cancelling run r ends its context. */
  predicate CancelReaches(s: State, r: RunId) {
    CancelRun(s, r).Some? && r in CancelRun(s, r).value.runs && CancelRun(s, r).value.runs[r].ctxDone
  }

  /** The rolled-off run is started all the same. */
  function OutOfReach(): State
    requires 1 in RolledOff().runs && RolledOff().tokens > 0 && 0 in RolledOff().runs
  {
    Started(Dequeued(Left(RolledOff(), 1), 0), 0, true)
  }

  lemma ReachOutOfReach()
    ensures var s := RolledOff(); 1 in s.runs && s.tokens > 0 && 0 in s.runs
    ensures ReachableAt(false, OutOfReach()) && 0 in OutOfReach().runs && OutOfReach().runs[0].status.Running?
    ensures OutOfReach().order == [1]
  {
    ReachRolledOff();
    OlderIsRolledOff();
    var s := Left(RolledOff(), 1);
    Leaves(RolledOff(), 1);
    PassesQueue(s, 0);
    Starts(Dequeued(s, 0), 0, true);
  }

  /** In any state, a running run is reached exactly if it is still in the history. */
  lemma CancelReachesListed(s: State, r: RunId)
    requires Reachable(s) && r in s.runs && s.runs[r].status.Running?
    ensures CancelReaches(s, r) <==> r in s.order
  {
    CancelTable(s, r);
  }

  /** Cancelling any running run ends its context. */
  ghost predicate AllWithinReach(s: State) {
    forall r :: r in s.runs && s.runs[r].status.Running? ==> CancelReaches(s, r)
  }

  lemma FusedReaches(s: State)
    requires ReachableAt(true, s)
    ensures AllWithinReach(s)
  {
    FusedListsActive(s);
    forall r | r in s.runs && s.runs[r].status.Running? ensures CancelReaches(s, r) {
      assert IsActive(s, r);
      CancelReachesListed(s, r);
    }
  }

  lemma NotWithinReach(s: State, r: RunId)
    requires r in s.runs && s.runs[r].status.Running? && r !in s.order
    ensures !AllWithinReach(s)
  {
    assert !CancelReaches(s, r);
  }

  lemma ReachCanBreak()
    ensures exists s :: ReachableAt(false, s) && !AllWithinReach(s)
  {
    ReachOutOfReach();
    var s := OutOfReach();
    NotWithinReach(s, 0);
  }

  /** Cancelling a running run always ends its context, exactly if triggers check and append at once. */
  lemma CancelAlwaysReaches(fused: bool)
    ensures (forall s :: ReachableAt(fused, s) ==> AllWithinReach(s)) <==> fused
  {
    if fused {
      forall s | ReachableAt(fused, s) ensures AllWithinReach(s) {
        FusedReaches(s);
      }
    } else {
      ReachCanBreak();
    }
  }
}
