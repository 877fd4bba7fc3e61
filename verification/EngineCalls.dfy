/**
 What the calls on the CI/CD engine do (internal/cicd/engine.go): when triggering and deleting are refused, the order
 in which queued runs are taken, and what becomes of a second answer to the same wait.
 */
module EngineCalls {
  import opened Options
  import opened Lists
  import opened RunHistory
  import opened EngineProtocol
  import opened EngineSafety
  import opened EngineHistory

  // ---- Triggering and deleting ----

  /** A pipeline has a listed run that is queued or running. */
  ghost predicate Busy(s: State, p: PipeId) {
    exists i :: 0 <= i < |s.order| && s.order[i] in s.runs && s.runs[s.order[i]].pipe == p
                && s.runs[s.order[i]].status in {Queued, Running}
  }

  lemma BusyIff(s: State, p: PipeId)
    ensures HasActive(s, p) <==> Busy(s, p)
  {
    if r :| r in s.order && r in s.runs && s.runs[r].pipe == p && Active(s.runs[r].status) {
      var i :| 0 <= i < |s.order| && s.order[i] == r;
    }
  }

  /**
   Triggering is refused exactly for a pipeline that is unknown or busy. Otherwise one queued run, that has not begun
   and whose context is live, is appended to the history, and nothing else changes.
   */
  lemma TriggerIff(s: State, p: PipeId, r: RunId, gates: seq<bool>)
    requires r !in s.runs
    ensures Apply(s, Trigger(p, r, gates)).Some? <==> p in s.pipes && !Busy(s, p)
    ensures Apply(s, Trigger(p, r, gates)).Some? ==>
              Apply(s, Trigger(p, r, gates)).value
              == s.(runs := s.runs[r := Run(p, gates, Queued, Created, false, 0, 0)], order := s.order + [r])
  {
    BusyIff(s, p);
  }

  /** The same in two steps, between which other calls may come. */
  lemma TwoStepTrigger(s: State, call: CallId, p: PipeId, r: RunId, gates: seq<bool>)
    requires call !in s.checked && r !in s.runs
    ensures Apply(s, TriggerCheck(call, p)).Some? <==> p in s.pipes && !Busy(s, p)
    ensures Apply(s, TriggerCheck(call, p)).Some? ==> Apply(s, TriggerCheck(call, p)).value == s.(checked := s.checked[call := p])
    ensures Apply(s.(checked := s.checked[call := p]), TriggerAppend(call, r, gates))
         == Some(s.(runs := s.runs[r := Run(p, gates, Queued, Created, false, 0, 0)], order := s.order + [r]))
  {
    BusyIff(s, p);
    assert s.checked[call := p] - {call} == s.checked;
  }

  /** Deleting is refused likewise; otherwise the pipeline goes, and of the history exactly its runs. */
  lemma DeleteIff(s: State, p: PipeId)
    ensures Apply(s, DeletePipe(p)).Some? <==> p in s.pipes && !Busy(s, p)
    ensures Apply(s, DeletePipe(p)).Some? ==>
              var s' := Apply(s, DeletePipe(p)).value;
              && s' == s.(pipes := s.pipes - {p}, order := s'.order)
              && forall r :: r in s'.order <==> r in s.order && !(r in s.runs && s.runs[r].pipe == p)
  {
    BusyIff(s, p);
    FilterMembersAll(NotOfPipe(s, p), s.order);
  }

  /** How many runs of a pipeline stay: its own maximum, or 50 if it has none or is gone. */
  function Kept(s: State, p: PipeId): nat {
    if p in s.pipes && s.pipes[p] > 0 then s.pipes[p] else 50
  }

  /** A run that has ended rolls off its pipeline's history: only the newest stay, and all of the other pipelines'. */
  lemma RollsOff(s: State, r: RunId, pick: Pick)
    requires r in s.runs && s.runs[r].pc.Pruning?
    ensures Apply(s, Step(r, pick)).Some?
    ensures var s', p := Apply(s, Step(r, pick)).value, s.runs[r].pipe;
      var own, n := Own(s, p), Kept(s, p);
      && s' == s.(runs := s.runs[r := s.runs[r].(pc := Leaving)], order := s'.order)
      && forall x :: x in s.order && x in s.runs ==>
           (x in s'.order <==> s.runs[x].pipe != p || x in (if |own| <= n then own else own[|own| - n..]))
  {
    var p := s.runs[r].pipe;
    var n := Limit(MaxRunsOf(s, p));
    assert Apply(s, Step(r, pick)).value.order == Prune(s.order, OfPipe(s, p), n);
    forall x | x in s.order && x in s.runs
      ensures x in Prune(s.order, OfPipe(s, p), n) <==> s.runs[x].pipe == p ==> x in LastN(Own(s, p), n)
    {
      RollKeepsIff(s, p, n, x);
    }
  }

  // ---- The queue ----

  /** A new run joins the end of the queue while fewer than 64 wait in it, and is turned away otherwise, which fails it. */
  lemma Offered(s: State, r: RunId, pick: Pick)
    requires r in s.runs && s.runs[r].pc.Created?
    ensures |s.queue| < 64 ==>
              Apply(s, Step(r, pick)) == Some(s.(runs := s.runs[r := s.runs[r].(pc := InQueue)], queue := s.queue + [r]))
    ensures |s.queue| >= 64 ==>
              Apply(s, Step(r, pick)) == Some(s.(runs := s.runs[r := s.runs[r].(pc := Rejected)]))
  {
  }

  lemma RejectedFails(s: State, r: RunId, pick: Pick)
    requires r in s.runs && s.runs[r].pc.Rejected?
    ensures Apply(s, Step(r, pick)).Some?
    ensures Apply(s, Step(r, pick)).value.runs == s.runs[r := s.runs[r].(pc := RejectedPruning, status := Failed)]
  {
  }

  /** What is left of a queue at the front, and what has come to its end. */
  ghost predicate MovedOn(before: seq<RunId>, after: seq<RunId>) {
    exists k: nat, more :: k <= |before| && after == before[k..] + more
  }

  lemma FrontMore<T>(a: seq<T>, k: nat, more: seq<T>, l: nat)
    requires k <= |a| && l <= |a| - k
    ensures (a[k..] + more)[l..] == a[k + l..] + more
  {
  }

  lemma MovedOnTwice(a: seq<RunId>, b: seq<RunId>, c: seq<RunId>)
    requires MovedOn(a, b) && MovedOn(b, c)
    ensures MovedOn(a, c)
  {
    var k: nat, more :| k <= |a| && b == a[k..] + more;
    var l: nat, later :| l <= |b| && c == b[l..] + later;
    if l <= |a| - k {
      FrontMore(a, k, more, l);
      Assoc(a[k + l..], more, later);
    } else {
      assert a[|a|..] == [] && [] + c == c;
      assert c == a[|a|..] + c;
    }
  }

  lemma StepMovesOn(s: State, a: Action)
    requires Apply(s, a).Some?
    ensures MovedOn(s.queue, Apply(s, a).value.queue)
  {
    var after := Apply(s, a).value.queue;
    assert after == s.queue + [] || (a.Step? && (after == s.queue + [a.r] || (s.queue != [] && after == s.queue[1..])));
    if after == s.queue {
      assert after == s.queue[0..] + [];
    } else if a.Step? && after == s.queue + [a.r] {
      assert after == s.queue[0..] + [a.r];
    } else {
      assert after == s.queue[1..] + [];
    }
  }

  /** First come, first served: over any schedule the queue only loses runs at its front and gains them at its end. */
  lemma {:induction false} NobodyOvertakes(s: State, schedule: seq<Action>)
    requires Execute(s, schedule).Some?
    ensures exists k: nat, more :: k <= |s.queue| && Execute(s, schedule).value.queue == s.queue[k..] + more
    decreases |schedule|
  {
    if schedule == [] {
      assert s.queue == s.queue[0..] + [];
    } else {
      var s1 := Apply(s, schedule[0]).value;
      StepMovesOn(s, schedule[0]);
      NobodyOvertakes(s1, schedule[1..]);
      MovedOnTwice(s.queue, s1.queue, Execute(s, schedule).value.queue);
    }
  }

  // ---- Approving ----

  /** An approval finds nothing exactly if the run waits for none. */
  lemma LookupIff(s: State, call: CallId, r: RunId, answer: bool)
    requires Reachable(s) && call !in s.calls
    ensures Apply(s, ApproveLookup(call, r, answer)).Some? <==>
              r in s.runs && (s.runs[r].pc.Waiting? || s.runs[r].pc.Answered?)
  {
    TableOfWaits(s, r);
  }

  lemma CallHasChan(s: State, call: CallId)
    requires Answers(s) && call in s.calls
    ensures s.calls[call].chan in s.chans
  {
    assert Belongs(s, call, s.calls[call].run, s.calls[call].gate, s.calls[call].chan);
  }

  lemma ApplySend(s: State, call: CallId, k: Call)
    requires call in s.calls && s.calls[call] == k && k.state == Looked && k.chan in s.chans
    ensures Apply(s, ApproveSend(call))
         == Some(if s.chans[k.chan].buffer.None?
                 then s.(calls := s.calls[call := k.(state := Sent)],
                         chans := s.chans[k.chan := Chan(s.chans[k.chan].run, s.chans[k.chan].gate, Some(call))])
                 else s.(calls := s.calls[call := k.(state := Refused)]))
  {
  }

  /** An answer goes into the channel it looked up if nothing is in there yet, and is turned away otherwise. */
  lemma SendIff(s: State, call: CallId, k: Call)
    requires Reachable(s) && call in s.calls && s.calls[call] == k && k.state == Looked
    ensures k.chan in s.chans
    ensures Apply(s, ApproveSend(call))
         == Some(if s.chans[k.chan].buffer.None?
                 then s.(calls := s.calls[call := k.(state := Sent)],
                         chans := s.chans[k.chan := Chan(s.chans[k.chan].run, s.chans[k.chan].gate, Some(call))])
                 else s.(calls := s.calls[call := k.(state := Refused)]))
  {
    ReachableInv(s);
    CallHasChan(s, call);
    ApplySend(s, call, k);
  }

  /** The channel is there and holds an answer. */
  ghost predicate Holds(s: State, c: ChanId, ch: Chan) {
    c in s.chans && s.chans[c] == ch && ch.buffer.Some?
  }

  /** A run reads the channels made for it only, and a new channel is not an old one. */
  lemma UsesOwn(s: State, r: RunId, pick: Pick, c: ChanId)
    requires WaitersRegistered(s) && r in s.runs && Decide(s, r, pick).Some? && c in s.chans && r != s.chans[c].run
    ensures var op := Decide(s, r, pick).value.op; (op.Receive? ==> op.c != c) && (op.Register? ==> op.c != c)
  {
    if s.runs[r].pc.Waiting? {
      assert r in s.approvals && Registered(s, r);
    }
  }

  lemma PerformKeeps(s: State, r: RunId, m: Move, c: ChanId, ch: Chan)
    requires r in s.runs && Holds(s, c, ch) && (m.op.Receive? ==> m.op.c != c) && (m.op.Register? ==> m.op.c != c)
    ensures Holds(Perform(s, r, m), c, ch)
  {
  }

  lemma OutsideKeeps(s: State, a: Action, c: ChanId, ch: Chan)
    requires !a.Step? && FromOutside(s, a).Some? && Holds(s, c, ch)
    ensures Holds(FromOutside(s, a).value, c, ch)
  {
  }

  lemma StepKeepsAnswer(s: State, a: Action, c: ChanId, ch: Chan)
    requires Inv(s) && Apply(s, a).Some? && Holds(s, c, ch) && !(a.Step? && a.r == ch.run)
    ensures Holds(Apply(s, a).value, c, ch)
  {
    if a.Step? {
      UsesOwn(s, a.r, a.pick, c);
      PerformKeeps(s, a.r, Decide(s, a.r, a.pick).value, c, ch);
    } else {
      OutsideKeeps(s, a, c, ch);
    }
  }

  ghost predicate Standing(s: State, c: ChanId, ch: Chan) {
    Inv(s) && Holds(s, c, ch)
  }

  lemma StepKeepsStanding(s: State, a: Action, c: ChanId, ch: Chan)
    requires Standing(s, c, ch) && Apply(s, a).Some? && !(a.Step? && a.r == ch.run)
    ensures Standing(Apply(s, a).value, c, ch)
  {
    StepKeepsAnswer(s, a, c, ch);
    ActionKeepsInv(s, a);
  }

  /** Run r takes no step of its own. */
  ghost predicate NotBy(schedule: seq<Action>, r: RunId) {
    forall i :: 0 <= i < |schedule| ==> !(schedule[i].Step? && schedule[i].r == r)
  }

  lemma NotByRest(schedule: seq<Action>, r: RunId)
    requires NotBy(schedule, r) && schedule != []
    ensures !(schedule[0].Step? && schedule[0].r == r) && NotBy(schedule[1..], r)
  {
  }

  lemma ExecuteFirst(s: State, schedule: seq<Action>) returns (s1: State)
    requires schedule != [] && Execute(s, schedule).Some?
    ensures Apply(s, schedule[0]) == Some(s1) && Execute(s1, schedule[1..]) == Execute(s, schedule)
  {
    s1 := Apply(s, schedule[0]).value;
  }

  lemma {:induction false} StaysStanding(s: State, schedule: seq<Action>, c: ChanId, ch: Chan)
    requires Standing(s, c, ch) && Execute(s, schedule).Some? && NotBy(schedule, ch.run)
    ensures Standing(Execute(s, schedule).value, c, ch)
    decreases |schedule|
  {
    if schedule != [] {
      NotByRest(schedule, ch.run);
      var s1 := ExecuteFirst(s, schedule);
      StepKeepsStanding(s, schedule[0], c, ch);
      StaysStanding(s1, schedule[1..], c, ch);
    }
  }

  /** The first answer stands: until the run it is for takes it, no other answer gets into its channel. */
  lemma FirstAnswerStands(s: State, schedule: seq<Action>, c: ChanId, ch: Chan)
    requires Inv(s) && Execute(s, schedule).Some? && c in s.chans && s.chans[c] == ch && ch.buffer.Some?
    requires forall i :: 0 <= i < |schedule| ==> !(schedule[i].Step? && schedule[i].r == ch.run)
    ensures c in Execute(s, schedule).value.chans && Execute(s, schedule).value.chans[c] == ch
  {
    StaysStanding(s, schedule, c, ch);
  }

  lemma TakesAnswer(s: State, r: RunId, i: nat, c: ChanId, k: CallId)
    requires r in s.runs && s.runs[r].pc == Waiting(i, c) && c in s.chans && s.chans[c].buffer == Some(k) && k in s.calls
    ensures Apply(s, Step(r, Pick(true, 0))).Some?
    ensures Apply(s, Step(r, Pick(true, 0))).value.runs == s.runs[r := s.runs[r].(pc := Answered(i, c, s.calls[k].answer))]
  {
  }

  /** The run takes the answer that is in its channel: yes or no as the call said. */
  lemma AnswerIsTaken(s: State, r: RunId, i: nat, c: ChanId, k: CallId)
    requires Reachable(s) && r in s.runs && s.runs[r].pc == Waiting(i, c) && c in s.chans && s.chans[c].buffer == Some(k)
    ensures k in s.calls && Apply(s, Step(r, Pick(true, 0))).Some?
    ensures Apply(s, Step(r, Pick(true, 0))).value.runs == s.runs[r := s.runs[r].(pc := Answered(i, c, s.calls[k].answer))]
  {
    ReachableInv(s);
    BufferNamesCall(s, c);
    TakesAnswer(s, r, i, c, k);
  }
}
