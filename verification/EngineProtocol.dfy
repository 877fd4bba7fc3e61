/**
 The CI/CD engine around `execute` (internal/cicd/engine.go) as a step system over many runs: the
 trigger queue, the slot semaphore that is given back while a gate waits, one approval channel per
 wait, the cancel table and the rolled-off history. Every action is one critical section, one channel
 operation or one goroutine's step between two of them.
 */
module EngineProtocol {
  import opened Options
  import opened Lists
  import opened RunHistory

  type RunId = nat
  type PipeId = nat
  type CallId = nat
  type ChanId = nat

  const QUEUE_SIZE := 64

  datatype Status = Queued | Running | Success | Failed | Canceled

  predicate Terminal(st: Status) {
    st.Success? || st.Failed? || st.Canceled?
  }

  predicate Active(st: Status) {
    st.Queued? || st.Running?
  }

  /** Where the goroutine that owns a run stands. */
  datatype Pc =
    | Created                                   // appended to the history, not yet offered to the queue
    | InQueue
    | WaitSlot                                  // taken off the queue, waiting for a slot
    | HasSlot                                   // about to run execute's guard
    | AtStage(i: nat)                           // about to look at stage i
    | GateMarked(i: nat)                        // stage i marked waiting, about to give the slot back
    | Parked(i: nat)                            // about to register an approval channel
    | Waiting(i: nat, c: ChanId)
    | Answered(i: nat, c: ChanId, ok: bool)     // about to unregister the channel
    | Regain(i: nat, ok: bool)                  // waiting for a slot again
    | GateDone(i: nat, ok: bool)
    | InStage(i: nat)                           // running the steps of stage i
    | Concluding(st: Status)                    // about to write the final status
    | Pruning
    | Leaving                                   // about to give the slot back for good
    | Rejected                                  // the queue was full
    | RejectedPruning
    | Gone

  /** `starts` counts passes through execute's guard, `begun` the stages whose steps have begun. */
  datatype Run = Run(pipe: PipeId, gates: seq<bool>, status: Status, pc: Pc, ctxDone: bool, starts: nat, begun: nat)

  datatype CallState = Looked | Sent | Refused

  /** One Approve call: which wait it looked up, on which channel, and what became of it. */
  datatype Call = Call(run: RunId, gate: nat, chan: ChanId, answer: bool, state: CallState)

  /** A channel of capacity one, made for one wait; the buffer names the call whose answer it holds. */
  datatype Chan = Chan(run: RunId, gate: nat, buffer: Option<CallId>)

  datatype State = State(
    runs: map<RunId, Run>,
    order: seq<RunId>,                  // e.runs
    pipes: map<PipeId, int>,            // configured pipelines and their maxRuns
    queue: seq<RunId>,
    tokens: nat,                        // len(e.sem)
    cap: nat,
    cancelFn: set<RunId>,
    approvals: map<RunId, ChanId>,
    chans: map<ChanId, Chan>,
    calls: map<CallId, Call>,
    checked: map<CallId, PipeId>,       // Trigger calls between their check and their append
    granted: map<(RunId, nat), CallId>)  // history: which call granted which gate

  /** What a run's own step does to the shared state. */
  datatype Op =
    | Nop | Enqueue | Dequeue | TakeSlot | GiveSlot | Start | Conclude(st: Status) | Roll
    | Register(c: ChanId) | Receive(c: ChanId, call: CallId) | Unregister | Begin

  datatype Move = Move(op: Op, pc: Pc)

  /** The environment's part in a run's step: whether things go well, and the next channel. */
  datatype Pick = Pick(ok: bool, chan: ChanId)

  datatype Action =
    | Step(r: RunId, pick: Pick)
    | Cancel(r: RunId)
    | Timeout(r: RunId)
    | TriggerCheck(call: CallId, p: PipeId)
    | TriggerAppend(call: CallId, r: RunId, gates: seq<bool>)
    | Trigger(p: PipeId, r: RunId, gates: seq<bool>)   // check and append as one step
    | ApproveLookup(call: CallId, r: RunId, answer: bool)
    | ApproveSend(call: CallId)
    | SavePipe(p: PipeId, maxRuns: int)
    | DeletePipe(p: PipeId)

  /** The next step of run r's goroutine, or None while it has to wait. */
  function Decide(s: State, r: RunId, pick: Pick): Option<Move>
    requires r in s.runs
  {
    var run := s.runs[r];
    match run.pc
    case Created => Some(if |s.queue| < QUEUE_SIZE then Move(Enqueue, InQueue) else Move(Nop, Rejected))
    case InQueue => if s.queue != [] && s.queue[0] == r then Some(Move(Dequeue, WaitSlot)) else None
    case WaitSlot => if s.tokens < s.cap then Some(Move(TakeSlot, HasSlot)) else None
    case HasSlot =>
      if run.status != Queued then Some(Move(Nop, Leaving))
      else Some(Move(Start, if pick.ok then AtStage(0) else Concluding(Failed)))
    case AtStage(i) =>
      if i >= |run.gates| then Some(Move(Nop, Concluding(Success)))
      else Some(if run.gates[i] then Move(Nop, GateMarked(i)) else Move(Begin, InStage(i)))
    case GateMarked(i) => if s.tokens > 0 then Some(Move(GiveSlot, Parked(i))) else None
    case Parked(i) =>
      if pick.chan !in s.chans then Some(Move(Register(pick.chan), Waiting(i, pick.chan))) else None
    case Waiting(i, c) =>
      if !pick.ok then (if run.ctxDone then Some(Move(Nop, Answered(i, c, false))) else None)
      else if c in s.chans && s.chans[c].buffer.Some? && s.chans[c].buffer.value in s.calls
      then
        var call := s.chans[c].buffer.value;
        Some(Move(Receive(c, call), Answered(i, c, s.calls[call].answer)))
      else None
    case Answered(i, c, ok) => Some(Move(Unregister, Regain(i, ok)))
    case Regain(i, ok) => if s.tokens < s.cap then Some(Move(TakeSlot, GateDone(i, ok))) else None
    case GateDone(i, ok) => Some(if ok then Move(Begin, InStage(i)) else Move(Nop, Concluding(Canceled)))
    case InStage(i) =>
      Some(Move(Nop, if run.ctxDone then Concluding(Canceled) else if pick.ok then AtStage(i + 1) else Concluding(Failed)))
    case Concluding(st) => Some(Move(Conclude(st), Pruning))
    case Pruning => Some(Move(Roll, Leaving))
    case Leaving => if s.tokens > 0 then Some(Move(GiveSlot, Gone)) else None
    case Rejected => Some(Move(Conclude(Failed), RejectedPruning))
    case RejectedPruning => Some(Move(Roll, Gone))
    case Gone => None
  }

  function RunAfter(run: Run, m: Move): Run {
    var moved := run.(pc := m.pc);
    match m.op
    case Start => moved.(status := Running, starts := run.starts + 1, ctxDone := false)   // a new context
    case Conclude(st) => moved.(status := st)
    case Begin => moved.(begun := run.begun + 1)
    case _ => moved
  }

  function OfPipe(s: State, p: PipeId): RunId -> bool {
    x => x in s.runs && s.runs[x].pipe == p
  }

  function NotOfPipe(s: State, p: PipeId): RunId -> bool {
    x => !(x in s.runs && s.runs[x].pipe == p)
  }

  function Own(s: State, p: PipeId): seq<RunId> {
    Filter(OfPipe(s, p), s.order)
  }

  function MaxRunsOf(s: State, p: PipeId): int {
    if p in s.pipes then s.pipes[p] else 0
  }

  function Perform(s: State, r: RunId, m: Move): State
    requires r in s.runs
  {
    var p := s.runs[r].pipe;
    s.(runs := s.runs[r := RunAfter(s.runs[r], m)],
       queue := if m.op.Enqueue? then s.queue + [r] else if m.op.Dequeue? && s.queue != [] then s.queue[1..] else s.queue,
       tokens := if m.op.TakeSlot? then s.tokens + 1 else if m.op.GiveSlot? && s.tokens > 0 then s.tokens - 1 else s.tokens,
       order := if m.op.Roll? then Prune(s.order, OfPipe(s, p), Limit(MaxRunsOf(s, p))) else s.order,
       cancelFn := if m.op.Start? then s.cancelFn + {r} else if m.op.Conclude? then s.cancelFn - {r} else s.cancelFn,
       approvals := if m.op.Register? then s.approvals[r := m.op.c]
                    else if m.op.Unregister? then s.approvals - {r} else s.approvals,
       chans := if m.op.Register? && m.pc.Waiting? then s.chans[m.op.c := Chan(r, m.pc.i, None)]
                else if m.op.Receive? && m.op.c in s.chans
                then s.chans[m.op.c := s.chans[m.op.c].(buffer := None)] else s.chans,
       granted := if m.op.Receive? && m.pc.Answered? && m.pc.ok then s.granted[(r, m.pc.i) := m.op.call] else s.granted)
  }

  predicate HasActive(s: State, p: PipeId) {
    exists r :: r in s.order && r in s.runs && s.runs[r].pipe == p && Active(s.runs[r].status)
  }

  function Append(s: State, p: PipeId, r: RunId, gates: seq<bool>): State {
    s.(runs := s.runs[r := Run(p, gates, Queued, Created, false, 0, 0)], order := s.order + [r])
  }

  /** A queued run is canceled at once, a running one has its context ended if the cancel table has its key. */
  function AfterCancel(run: Run, cancelable: bool): Run {
    if run.status.Queued? then run.(status := Canceled) else if cancelable then run.(ctxDone := true) else run
  }

  function CancelRun(s: State, r: RunId): Option<State> {
    if r in s.order && r in s.runs && Active(s.runs[r].status)
    then Some(s.(runs := s.runs[r := AfterCancel(s.runs[r], r in s.cancelFn)]))
    else None
  }

  function Lookup(s: State, call: CallId, r: RunId, answer: bool): Option<State> {
    if call !in s.calls && r in s.approvals && s.approvals[r] in s.chans
    then Some(s.(calls := s.calls[call := Call(r, s.chans[s.approvals[r]].gate, s.approvals[r], answer, Looked)]))
    else None
  }

  function Send(s: State, call: CallId): Option<State> {
    if call !in s.calls || !s.calls[call].state.Looked? || s.calls[call].chan !in s.chans then None
    else
      var c := s.calls[call].chan;
      if s.chans[c].buffer.None?
      then Some(s.(calls := s.calls[call := s.calls[call].(state := Sent)],
                   chans := s.chans[c := s.chans[c].(buffer := Some(call))]))
      else Some(s.(calls := s.calls[call := s.calls[call].(state := Refused)]))
  }

  function StepRun(s: State, r: RunId, pick: Pick): Option<State> {
    if r !in s.runs then None
    else match Decide(s, r, pick)
         case None => None
         case Some(m) => Some(Perform(s, r, m))
  }

  /** What anybody but a run's own goroutine does. */
  function FromOutside(s: State, a: Action): Option<State>
    requires !a.Step?
  {
    match a
    case Cancel(r) => CancelRun(s, r)
    case Timeout(r) =>
      if r in s.runs && s.runs[r].status.Running? then Some(s.(runs := s.runs[r := s.runs[r].(ctxDone := true)])) else None
    case TriggerCheck(call, p) =>
      if p in s.pipes && call !in s.checked && !HasActive(s, p) then Some(s.(checked := s.checked[call := p])) else None
    case TriggerAppend(call, r, gates) =>
      if call in s.checked && r !in s.runs
      then Some(Append(s.(checked := s.checked - {call}), s.checked[call], r, gates)) else None
    case Trigger(p, r, gates) =>
      if p in s.pipes && r !in s.runs && !HasActive(s, p) then Some(Append(s, p, r, gates)) else None
    case ApproveLookup(call, r, answer) => Lookup(s, call, r, answer)
    case ApproveSend(call) => Send(s, call)
    case SavePipe(p, maxRuns) => Some(s.(pipes := s.pipes[p := maxRuns]))
    case DeletePipe(p) =>
      if p !in s.pipes || HasActive(s, p) then None
      else Some(s.(pipes := s.pipes - {p}, order := Filter(NotOfPipe(s, p), s.order)))
  }

  function Apply(s: State, a: Action): Option<State> {
    if a.Step? then StepRun(s, a.r, a.pick) else FromOutside(s, a)
  }

  function Execute(s: State, schedule: seq<Action>): Option<State>
    decreases |schedule|
  {
    if schedule == [] then Some(s)
    else match Apply(s, schedule[0])
         case None => None
         case Some(s') => Execute(s', schedule[1..])
  }

  /** A freshly started engine: every run of the loaded history has ended. */
  ghost predicate IsInit(s: State) {
    && (forall r :: r in s.runs ==>
          var run := s.runs[r]; run.pc.Gone? && Terminal(run.status) && run.starts == 0 && run.begun == 0)
    && (forall r :: r in s.order ==> r in s.runs)
    && s.queue == [] && s.tokens == 0 && s.cap >= 1
    && s.cancelFn == {} && s.approvals == map[] && s.chans == map[] && s.calls == map[]
    && s.checked == map[] && s.granted == map[]
  }

  ghost predicate Reachable(s: State) {
    exists s0, schedule :: IsInit(s0) && Execute(s0, schedule) == Some(s)
  }

  // ---- What every action keeps ----

  /** Status, guard count and progress of a run agree with where its goroutine stands. */
  predicate Life(run: Run, cancelable: bool) {
    match run.pc
    case Created | InQueue | WaitSlot | HasSlot | Rejected =>
      (run.status.Queued? || run.status.Canceled?) && run.starts == 0 && run.begun == 0 && !cancelable
    case AtStage(i) => InProgress(run, cancelable) && run.begun == i <= |run.gates|
    case GateMarked(i) => InProgress(run, cancelable) && AtGate(run, i)
    case Parked(i) => InProgress(run, cancelable) && AtGate(run, i)
    case Waiting(i, _) => InProgress(run, cancelable) && AtGate(run, i)
    case Answered(i, _, _) => InProgress(run, cancelable) && AtGate(run, i)
    case Regain(i, _) => InProgress(run, cancelable) && AtGate(run, i)
    case GateDone(i, _) => InProgress(run, cancelable) && AtGate(run, i)
    case InStage(i) => InProgress(run, cancelable) && run.begun == i + 1 <= |run.gates|
    case Concluding(st) => InProgress(run, cancelable) && Terminal(st) && run.begun <= |run.gates|
    case Pruning | Leaving | RejectedPruning | Gone =>
      Terminal(run.status) && run.starts <= 1 && (run.starts == 0 ==> run.begun == 0) && !cancelable
      && (run.pc.RejectedPruning? ==> run.starts == 0) && run.begun <= |run.gates|
  }

  predicate InProgress(run: Run, cancelable: bool) {
    run.status.Running? && run.starts == 1 && cancelable
  }

  predicate AtGate(run: Run, i: nat) {
    run.begun == i < |run.gates| && run.gates[i]
  }

  /** The phases in which a run holds a slot. */
  predicate HoldsSlot(pc: Pc) {
    || pc.HasSlot? || pc.AtStage? || pc.GateMarked? || pc.GateDone? || pc.InStage?
    || pc.Concluding? || pc.Pruning? || pc.Leaving?
  }

  ghost function SlotHolders(s: State): set<RunId> {
    set r | r in s.runs && HoldsSlot(s.runs[r].pc)
  }

  /** Every run of the history is known. */
  predicate OrderKnown(s: State) {
    forall r :: r in s.order ==> r in s.runs
  }

  ghost predicate Lives(s: State) {
    && (forall r :: r in s.runs ==> Life(s.runs[r], r in s.cancelFn))
    && s.cancelFn <= s.runs.Keys
    && OrderKnown(s)
  }

  ghost predicate Slots(s: State) {
    s.tokens == |SlotHolders(s)| && s.tokens <= s.cap && s.cap >= 1
  }

  ghost predicate Queueing(s: State) {
    && (forall i, j :: 0 <= i < j < |s.queue| ==> s.queue[i] != s.queue[j])
    && (forall r :: r in s.queue <==> r in s.runs && s.runs[r].pc.InQueue?)
    && |s.queue| <= QUEUE_SIZE
  }

  /** From registering the channel of a wait until dropping it. */
  predicate AtWait(pc: Pc) {
    pc.Waiting? || pc.Answered?
  }

  predicate AtChannel(pc: Pc, c: ChanId) {
    AtWait(pc) && pc.c == c
  }

  /** Stages a run may have made a channel for. */
  function ChannelBound(run: Run): nat {
    match run.pc
    case Created | InQueue | WaitSlot | HasSlot | Rejected => run.begun
    case AtStage(_) => run.begun
    case GateMarked(_) => run.begun
    case Parked(_) => run.begun
    case InStage(_) => run.begun
    case _ => run.begun + 1
  }

  /** The table names the channel the run waits on, made for the gate it waits at. */
  predicate Registered(s: State, r: RunId) {
    && r in s.approvals && r in s.runs && AtChannel(s.runs[r].pc, s.approvals[r]) && s.approvals[r] in s.chans
    && s.chans[s.approvals[r]].run == r && s.chans[s.approvals[r]].gate == s.runs[r].pc.i
  }

  ghost predicate WaitersRegistered(s: State) {
    && (forall r :: r in s.approvals <==> r in s.runs && AtWait(s.runs[r].pc))
    && (forall r :: r in s.approvals ==> Registered(s, r))
  }

  predicate ChanBound(s: State, c: ChanId)
    requires c in s.chans
  {
    s.chans[c].run in s.runs && s.chans[c].gate < ChannelBound(s.runs[s.chans[c].run])
  }

  ghost predicate ChansDistinct(s: State) {
    && (forall c :: c in s.chans ==> ChanBound(s, c))
    && (forall c, d :: c in s.chans && d in s.chans && s.chans[c].run == s.chans[d].run && s.chans[c].gate == s.chans[d].gate
          ==> c == d)
  }

  ghost predicate Channels(s: State) {
    WaitersRegistered(s) && ChansDistinct(s)
  }

  /** The call was made for this wait, on its channel. */
  predicate Belongs(s: State, call: CallId, r: RunId, i: nat, c: ChanId) {
    && call in s.calls && s.calls[call].run == r && s.calls[call].gate == i && s.calls[call].chan == c
    && c in s.chans && s.chans[c].run == r && s.chans[c].gate == i
  }

  /** The gate was granted by a call that said yes on the channel of that very wait. */
  predicate OpenedWell(s: State, r: RunId, i: nat) {
    && (r, i) in s.granted
    && var call := s.granted[(r, i)];
      call in s.calls && s.calls[call].answer && s.calls[call].state.Sent? && Belongs(s, call, r, i, s.calls[call].chan)
  }

  predicate SaidYes(pc: Pc) {
    (pc.Answered? || pc.Regain? || pc.GateDone?) && pc.ok
  }

  /** Every call belongs to a wait, and a buffer holds the answer of a call that was sent on it. */
  ghost predicate Answers(s: State) {
    && (forall k :: k in s.calls ==> Belongs(s, k, s.calls[k].run, s.calls[k].gate, s.calls[k].chan))
    && (forall c :: c in s.chans && s.chans[c].buffer.Some? ==>
          && s.chans[c].buffer.value in s.calls
          && s.calls[s.chans[c].buffer.value].chan == c && s.calls[s.chans[c].buffer.value].state.Sent?)
  }

  ghost predicate GrantedWell(s: State) {
    forall r, i :: (r, i) in s.granted ==> OpenedWell(s, r, i)
  }

  ghost predicate YesIsGranted(s: State) {
    forall r :: r in s.runs && SaidYes(s.runs[r].pc) ==> (r, s.runs[r].pc.i) in s.granted
  }

  /** No gated stage has begun without a grant. */
  ghost predicate BegunIsGranted(s: State) {
    forall r, i: nat :: r in s.runs && i < s.runs[r].begun && i < |s.runs[r].gates| && s.runs[r].gates[i]
      ==> (r, i) in s.granted
  }

  ghost predicate Approvals(s: State) {
    Answers(s) && GrantedWell(s) && YesIsGranted(s) && BegunIsGranted(s)
  }

  ghost predicate Inv(s: State) {
    Lives(s) && Slots(s) && Queueing(s) && Channels(s) && Approvals(s)
  }

  lemma InitInv(s: State)
    requires IsInit(s)
    ensures Inv(s)
  {
    assert SlotHolders(s) == {};
  }

  // ---- What a goroutine's own step may do, read off `Decide` ----

  predicate CancelableAfter(op: Op, cancelable: bool) {
    op.Start? || (!op.Conclude? && cancelable)
  }

  /** A gated stage begins only after a yes at that gate. */
  predicate BeginStep(run: Run, m: Move) {
    m.op.Begin? ==>
      run.begun < |run.gates| && (run.gates[run.begun] ==> SaidYes(run.pc) && run.pc.i == run.begun)
  }

  predicate BoundStep(run: Run, m: Move) {
    && ChannelBound(RunAfter(run, m)) >= ChannelBound(run)
    && (m.op.Register? && m.pc.Waiting? ==> ChannelBound(run) == m.pc.i < ChannelBound(RunAfter(run, m)))
  }

  predicate AtGatePc(pc: Pc) {
    pc.GateMarked? || pc.Parked? || pc.Waiting? || pc.Answered? || pc.Regain? || pc.GateDone?
  }

  predicate StartedPc(pc: Pc) {
    pc.AtStage? || pc.InStage? || pc.Concluding?
  }

  lemma GateLife(s: State, r: RunId, pick: Pick)
    requires r in s.runs && Life(s.runs[r], r in s.cancelFn) && AtGatePc(s.runs[r].pc) && Decide(s, r, pick).Some?
    ensures var m := Decide(s, r, pick).value; Life(RunAfter(s.runs[r], m), CancelableAfter(m.op, r in s.cancelFn))
  {
  }

  lemma StartedLife(s: State, r: RunId, pick: Pick)
    requires r in s.runs && Life(s.runs[r], r in s.cancelFn) && StartedPc(s.runs[r].pc) && Decide(s, r, pick).Some?
    ensures var m := Decide(s, r, pick).value; Life(RunAfter(s.runs[r], m), CancelableAfter(m.op, r in s.cancelFn))
  {
  }

  lemma OuterLife(s: State, r: RunId, pick: Pick)
    requires r in s.runs && Life(s.runs[r], r in s.cancelFn) && Decide(s, r, pick).Some?
    requires !AtGatePc(s.runs[r].pc) && !StartedPc(s.runs[r].pc)
    ensures var m := Decide(s, r, pick).value; Life(RunAfter(s.runs[r], m), CancelableAfter(m.op, r in s.cancelFn))
  {
  }

  lemma DecideLife(s: State, r: RunId, pick: Pick)
    requires r in s.runs && Life(s.runs[r], r in s.cancelFn) && Decide(s, r, pick).Some?
    ensures var m := Decide(s, r, pick).value; Life(RunAfter(s.runs[r], m), CancelableAfter(m.op, r in s.cancelFn))
  {
    if AtGatePc(s.runs[r].pc) {
      GateLife(s, r, pick);
    } else if StartedPc(s.runs[r].pc) {
      StartedLife(s, r, pick);
    } else {
      OuterLife(s, r, pick);
    }
  }

  lemma DecideBegin(s: State, r: RunId, pick: Pick)
    requires r in s.runs && Life(s.runs[r], r in s.cancelFn) && Decide(s, r, pick).Some?
    ensures BeginStep(s.runs[r], Decide(s, r, pick).value)
  {
  }

  predicate SlotStep(s: State, pc: Pc, m: Move) {
    && (m.op.TakeSlot? ==> s.tokens < s.cap && !HoldsSlot(pc) && HoldsSlot(m.pc))
    && (m.op.GiveSlot? ==> s.tokens > 0 && HoldsSlot(pc) && !HoldsSlot(m.pc))
    && (!m.op.TakeSlot? && !m.op.GiveSlot? ==> HoldsSlot(pc) == HoldsSlot(m.pc))
  }

  predicate QueueStep(s: State, r: RunId, pc: Pc, m: Move) {
    && (m.op.Enqueue? ==> |s.queue| < QUEUE_SIZE && !pc.InQueue? && m.pc.InQueue?)
    && (m.op.Dequeue? ==> s.queue != [] && s.queue[0] == r && !m.pc.InQueue?)
    && (!m.op.Enqueue? && !m.op.Dequeue? ==> !pc.InQueue? && !m.pc.InQueue?)
  }

  /** A channel is made at Parked, read at Waiting and dropped at Answered; nothing else touches one. */
  predicate ChannelStep(s: State, run: Run, m: Move) {
    && (m.op.Register? ==> run.pc.Parked? && m.pc == Waiting(run.pc.i, m.op.c) && m.op.c !in s.chans)
    && (m.op.Unregister? ==> run.pc.Answered? && !m.pc.Waiting? && !m.pc.Answered?)
    && (!m.op.Register? && !m.op.Unregister? ==>
          if run.pc.Waiting? then m.pc.Answered? && m.pc.i == run.pc.i && m.pc.c == run.pc.c
          else !run.pc.Answered? && !m.pc.Waiting? && !m.pc.Answered?)
    && (m.op.Receive? ==>
          && run.pc.Waiting? && m.op.c == run.pc.c
          && m.op.c in s.chans && s.chans[m.op.c].buffer == Some(m.op.call)
          && m.op.call in s.calls && m.pc == Answered(run.pc.i, run.pc.c, s.calls[m.op.call].answer))
    && (SaidYes(m.pc) ==> m.op.Receive? || (SaidYes(run.pc) && run.pc.i == m.pc.i))
  }

  lemma DecideSlot(s: State, r: RunId, pick: Pick)
    requires r in s.runs && Decide(s, r, pick).Some?
    ensures var m := Decide(s, r, pick).value; SlotStep(s, s.runs[r].pc, m) && QueueStep(s, r, s.runs[r].pc, m)
  {
  }

  lemma DecideChannel(s: State, r: RunId, pick: Pick)
    requires r in s.runs && Decide(s, r, pick).Some?
    ensures ChannelStep(s, s.runs[r], Decide(s, r, pick).value)
  {
  }

  lemma DecideBound(s: State, r: RunId, pick: Pick)
    requires r in s.runs && Life(s.runs[r], r in s.cancelFn) && Decide(s, r, pick).Some?
    ensures BoundStep(s.runs[r], Decide(s, r, pick).value)
  {
  }

  // ---- A goroutine's own step keeps each part ----

  lemma StepLives(s: State, r: RunId, pick: Pick)
    requires Lives(s) && r in s.runs && Decide(s, r, pick).Some?
    ensures Lives(Perform(s, r, Decide(s, r, pick).value))
  {
    var m := Decide(s, r, pick).value;
    var s' := Perform(s, r, m);
    DecideLife(s, r, pick);
    if m.op.Roll? {
      PruneKeeps(s.order, OfPipe(s, s.runs[r].pipe), Limit(MaxRunsOf(s, s.runs[r].pipe)));
    }
    forall x | x in s'.runs ensures Life(s'.runs[x], x in s'.cancelFn) {
      assert x != r ==> (x in s'.cancelFn <==> x in s.cancelFn);
    }
  }

  lemma StepSlots(s: State, r: RunId, m: Move)
    requires Slots(s) && r in s.runs && SlotStep(s, s.runs[r].pc, m)
    ensures Slots(Perform(s, r, m))
  {
    var before, after := SlotHolders(s), SlotHolders(Perform(s, r, m));
    if m.op.TakeSlot? {
      assert after == before + {r} && r !in before;
    } else if m.op.GiveSlot? {
      assert after == before - {r} && r in before;
    } else {
      assert after == before;
    }
  }

  lemma StepQueueing(s: State, r: RunId, m: Move)
    requires Queueing(s) && r in s.runs && QueueStep(s, r, s.runs[r].pc, m)
    ensures Queueing(Perform(s, r, m))
  {
    var q, q' := s.queue, Perform(s, r, m).queue;
    assert r in q <==> s.runs[r].pc.InQueue?;
    if m.op.Dequeue? {
      assert q == [r] + q';
      forall x | x in q' ensures x != r {
        var i :| 0 <= i < |q'| && q'[i] == x;
        assert q[0] != q[i + 1];
      }
    }
    assert forall x :: x != r ==> (x in q' <==> x in q);
  }

  lemma StepWaiters(s: State, r: RunId, m: Move, x: RunId)
    requires r in s.runs && ChannelStep(s, s.runs[r], m)
    requires x in s.approvals <==> x in s.runs && AtWait(s.runs[x].pc)
    ensures var s' := Perform(s, r, m); x in s'.approvals <==> x in s'.runs && AtWait(s'.runs[x].pc)
  {
    assert x != r ==> (x in Perform(s, r, m).approvals <==> x in s.approvals);
  }

  lemma StepRegistrations(s: State, r: RunId, m: Move, x: RunId)
    requires r in s.runs && ChannelStep(s, s.runs[r], m) && x in Perform(s, r, m).approvals
    requires x in s.approvals <==> x in s.runs && AtWait(s.runs[x].pc)
    requires x in s.approvals ==> Registered(s, x)
    ensures Registered(Perform(s, r, m), x)
  {
    StepWaiters(s, r, m, x);
    assert x != r || !m.op.Register? ==> x in s.approvals;
  }

  lemma StepChanBound(s: State, r: RunId, m: Move, c: ChanId)
    requires ChansDistinct(s) && r in s.runs && ChannelStep(s, s.runs[r], m) && BoundStep(s.runs[r], m)
    requires c in Perform(s, r, m).chans
    ensures ChanBound(Perform(s, r, m), c)
  {
    assert c in s.chans ==> ChanBound(s, c);
  }

  lemma StepChanUnique(s: State, r: RunId, m: Move, c: ChanId, d: ChanId)
    requires Channels(s) && r in s.runs && ChannelStep(s, s.runs[r], m) && BoundStep(s.runs[r], m)
    requires var chans := Perform(s, r, m).chans;
             c in chans && d in chans && chans[c].run == chans[d].run && chans[c].gate == chans[d].gate
    ensures c == d
  {
    if m.op.Register? {
      if c in s.chans && s.chans[c].run == r {
        assert s.chans[c].gate < m.pc.i;
      }
      if d in s.chans && s.chans[d].run == r {
        assert s.chans[d].gate < m.pc.i;
      }
    }
  }

  lemma StepWaitersRegistered(s: State, r: RunId, m: Move)
    requires WaitersRegistered(s) && r in s.runs && ChannelStep(s, s.runs[r], m)
    ensures WaitersRegistered(Perform(s, r, m))
  {
    forall x {
      StepWaiters(s, r, m, x);
    }
    forall x | x in Perform(s, r, m).approvals ensures Registered(Perform(s, r, m), x) {
      StepRegistrations(s, r, m, x);
    }
  }

  lemma StepChansDistinct(s: State, r: RunId, m: Move)
    requires Channels(s) && r in s.runs && ChannelStep(s, s.runs[r], m) && BoundStep(s.runs[r], m)
    ensures ChansDistinct(Perform(s, r, m))
  {
    var chans := Perform(s, r, m).chans;
    forall c | c in chans ensures ChanBound(Perform(s, r, m), c) {
      StepChanBound(s, r, m, c);
    }
    forall c, d | c in chans && d in chans && chans[c].run == chans[d].run && chans[c].gate == chans[d].gate
      ensures c == d
    {
      StepChanUnique(s, r, m, c, d);
    }
  }

  lemma StepChannels(s: State, r: RunId, m: Move)
    requires Channels(s) && r in s.runs && ChannelStep(s, s.runs[r], m) && BoundStep(s.runs[r], m)
    ensures Channels(Perform(s, r, m))
  {
    StepWaitersRegistered(s, r, m);
    StepChansDistinct(s, r, m);
  }

  /** Calls and channels only gain entries, and keep what they were made for. */
  ghost predicate Keeps(s: State, s': State) {
    && (forall c :: c in s.chans ==> c in s'.chans && s'.chans[c].run == s.chans[c].run && s'.chans[c].gate == s.chans[c].gate)
    && (forall k :: k in s.calls ==>
          && k in s'.calls && s'.calls[k].run == s.calls[k].run && s'.calls[k].gate == s.calls[k].gate
          && s'.calls[k].chan == s.calls[k].chan && s'.calls[k].answer == s.calls[k].answer
          && (s.calls[k].state.Sent? ==> s'.calls[k].state.Sent?))
  }

  lemma StepCalls(s: State, r: RunId, m: Move)
    requires Answers(s) && r in s.runs && ChannelStep(s, s.runs[r], m)
    ensures Keeps(s, Perform(s, r, m)) && Answers(Perform(s, r, m))
  {
  }

  lemma StepGranted(s: State, r: RunId, m: Move, x: RunId, i: nat)
    requires Channels(s) && Approvals(s) && r in s.runs && ChannelStep(s, s.runs[r], m) && Keeps(s, Perform(s, r, m))
    requires (x, i) in Perform(s, r, m).granted
    ensures OpenedWell(Perform(s, r, m), x, i)
  {
    if m.op.Receive? && m.pc.ok && (x, i) == (r, m.pc.i) {
      assert r in s.approvals;
      assert s.chans[m.op.c].buffer == Some(m.op.call);
    } else {
      assert (x, i) in s.granted;
      assert OpenedWell(s, x, i);
    }
  }

  lemma StepGrantedWell(s: State, r: RunId, m: Move)
    requires Channels(s) && Approvals(s) && r in s.runs && ChannelStep(s, s.runs[r], m)
    ensures GrantedWell(Perform(s, r, m))
  {
    StepCalls(s, r, m);
    var s' := Perform(s, r, m);
    forall x, i | (x, i) in s'.granted ensures OpenedWell(s', x, i) {
      StepGranted(s, r, m, x, i);
    }
  }

  lemma StepYes(s: State, r: RunId, m: Move)
    requires YesIsGranted(s) && r in s.runs && ChannelStep(s, s.runs[r], m)
    ensures YesIsGranted(Perform(s, r, m))
  {
    var s' := Perform(s, r, m);
    forall x | x in s'.runs && SaidYes(s'.runs[x].pc) ensures (x, s'.runs[x].pc.i) in s'.granted {
      assert x != r ==> SaidYes(s.runs[x].pc);
    }
  }

  lemma StepBegun(s: State, r: RunId, m: Move)
    requires YesIsGranted(s) && BegunIsGranted(s) && r in s.runs && BeginStep(s.runs[r], m)
    ensures BegunIsGranted(Perform(s, r, m))
  {
    var s' := Perform(s, r, m);
    forall x, i: nat | x in s'.runs && i < s'.runs[x].begun && i < |s'.runs[x].gates| && s'.runs[x].gates[i]
      ensures (x, i) in s'.granted
    {
      assert i < s.runs[x].begun || (x == r && m.op.Begin? && i == s.runs[r].begun);
    }
  }

  lemma StepApprovals(s: State, r: RunId, m: Move)
    requires Channels(s) && Approvals(s) && r in s.runs && ChannelStep(s, s.runs[r], m) && BeginStep(s.runs[r], m)
    ensures Approvals(Perform(s, r, m))
  {
    StepCalls(s, r, m);
    StepGrantedWell(s, r, m);
    StepYes(s, r, m);
    StepBegun(s, r, m);
  }

  lemma StepKeepsInv(s: State, r: RunId, pick: Pick)
    requires Inv(s) && r in s.runs && Decide(s, r, pick).Some?
    ensures Inv(Perform(s, r, Decide(s, r, pick).value))
  {
    var m := Decide(s, r, pick).value;
    DecideBegin(s, r, pick);
    DecideSlot(s, r, pick);
    DecideChannel(s, r, pick);
    DecideBound(s, r, pick);
    StepLives(s, r, pick);
    StepSlots(s, r, m);
    StepQueueing(s, r, m);
    StepChannels(s, r, m);
    StepApprovals(s, r, m);
  }

  // ---- So does everything the others do ----

  /** An old run may be canceled while queued, or have its context ended; all else stays. */
  predicate Touched(run: Run, run': Run) {
    && run'.pc == run.pc && run'.gates == run.gates && run'.pipe == run.pipe
    && run'.starts == run.starts && run'.begun == run.begun
    && (run'.status == run.status || (run.status.Queued? && run'.status.Canceled?))
  }

  predicate NewRun(run: Run) {
    run.pc.Created? && run.status.Queued? && run.starts == 0 && run.begun == 0
  }

  /** Calls from outside touch runs and add new ones at the door, and leave the slots and queue alone. */
  ghost predicate Outside(s: State, s': State) {
    && s.runs.Keys <= s'.runs.Keys
    && (forall r :: r in s.runs ==> Touched(s.runs[r], s'.runs[r]))
    && (forall r :: r in s'.runs && r !in s.runs ==> NewRun(s'.runs[r]))
    && s'.queue == s.queue && s'.tokens == s.tokens && s'.cap == s.cap
    && s'.cancelFn == s.cancelFn && s'.approvals == s.approvals && s'.granted == s.granted
  }

  lemma EditOutside(s: State, r: RunId, run: Run)
    requires r in s.runs && Touched(s.runs[r], run)
    ensures Outside(s, s.(runs := s.runs[r := run]))
  {
  }

  lemma AppendOutside(s: State, p: PipeId, r: RunId, gates: seq<bool>)
    requires r !in s.runs
    ensures Outside(s, Append(s, p, r, gates))
  {
  }

  lemma CancelOutside(s: State, r: RunId)
    requires CancelRun(s, r).Some?
    ensures Outside(s, CancelRun(s, r).value)
  {
    EditOutside(s, r, AfterCancel(s.runs[r], r in s.cancelFn));
  }

  predicate TouchesRuns(a: Action) {
    a.Cancel? || a.Timeout? || a.TriggerAppend? || a.Trigger?
  }

  /** What leaves runs, queue, slots and tables alone. */
  predicate SameRuns(s: State, s': State) {
    && s'.runs == s.runs && s'.queue == s.queue && s'.tokens == s.tokens && s'.cap == s.cap
    && s'.cancelFn == s.cancelFn && s'.approvals == s.approvals && s'.granted == s.granted
  }

  lemma LookupSameRuns(s: State, call: CallId, r: RunId, answer: bool)
    requires Lookup(s, call, r, answer).Some?
    ensures SameRuns(s, Lookup(s, call, r, answer).value) && Lookup(s, call, r, answer).value.order == s.order
  {
  }

  lemma SendSameRuns(s: State, call: CallId)
    requires Send(s, call).Some?
    ensures SameRuns(s, Send(s, call).value) && Send(s, call).value.order == s.order
  {
  }

  lemma QuietSameRuns(s: State, a: Action)
    requires !a.Step? && !TouchesRuns(a) && FromOutside(s, a).Some?
    ensures SameRuns(s, FromOutside(s, a).value)
    ensures !a.DeletePipe? ==> FromOutside(s, a).value.order == s.order
  {
    if a.ApproveLookup? {
      LookupSameRuns(s, a.call, a.r, a.answer);
    } else if a.ApproveSend? {
      SendSameRuns(s, a.call);
    }
  }

  lemma QuietOutside(s: State, a: Action)
    requires !a.Step? && !TouchesRuns(a) && FromOutside(s, a).Some?
    ensures Outside(s, FromOutside(s, a).value)
  {
    QuietSameRuns(s, a);
  }

  lemma RunsOutside(s: State, a: Action)
    requires TouchesRuns(a) && FromOutside(s, a).Some?
    ensures Outside(s, FromOutside(s, a).value)
  {
    match a
    case Cancel(r) => CancelOutside(s, r);
    case Timeout(r) => EditOutside(s, r, s.runs[r].(ctxDone := true));
    case TriggerAppend(call, r, gates) =>
      AppendOutside(s.(checked := s.checked - {call}), s.checked[call], r, gates);
    case Trigger(p, r, gates) => AppendOutside(s, p, r, gates);
  }

  lemma OutsideOnly(s: State, a: Action)
    requires !a.Step? && FromOutside(s, a).Some?
    ensures Outside(s, FromOutside(s, a).value)
  {
    if TouchesRuns(a) {
      RunsOutside(s, a);
    } else {
      QuietOutside(s, a);
    }
  }

  lemma DeleteKeepsOrder(s: State, p: PipeId)
    requires Lives(s)
    ensures forall r :: r in Filter(NotOfPipe(s, p), s.order) ==> r in s.runs
  {
    var rest := NotOfPipe(s, p);
    forall r | r in Filter(rest, s.order) ensures r in s.runs {
      FilterMembers(rest, s.order, r);
    }
  }

  lemma AppendOrder(s: State, p: PipeId, r: RunId, gates: seq<bool>)
    requires OrderKnown(s)
    ensures OrderKnown(Append(s, p, r, gates))
  {
  }

  lemma EditOrder(s: State, r: RunId, run: Run)
    requires OrderKnown(s)
    ensures OrderKnown(s.(runs := s.runs[r := run]))
  {
  }

  lemma CancelOrder(s: State, r: RunId)
    requires OrderKnown(s) && CancelRun(s, r).Some?
    ensures OrderKnown(CancelRun(s, r).value)
  {
    EditOrder(s, r, AfterCancel(s.runs[r], r in s.cancelFn));
  }

  lemma RunsOrder(s: State, a: Action)
    requires OrderKnown(s) && TouchesRuns(a) && FromOutside(s, a).Some?
    ensures OrderKnown(FromOutside(s, a).value)
  {
    match a
    case Cancel(r) => CancelOrder(s, r);
    case Timeout(_) =>
    case TriggerAppend(call, r, gates) => AppendOrder(s.(checked := s.checked - {call}), s.checked[call], r, gates);
    case Trigger(p, r, gates) => AppendOrder(s, p, r, gates);
  }

  lemma OutsideOrder(s: State, a: Action)
    requires Lives(s) && !a.Step? && FromOutside(s, a).Some?
    ensures OrderKnown(FromOutside(s, a).value)
  {
    if TouchesRuns(a) {
      RunsOrder(s, a);
    } else {
      QuietSameRuns(s, a);
      if a.DeletePipe? {
        DeleteKeepsOrder(s, a.p);
      }
    }
  }

  lemma OutsideLives(s: State, s': State)
    requires Lives(s) && Outside(s, s') && OrderKnown(s')
    ensures Lives(s')
  {
    forall r | r in s'.runs ensures Life(s'.runs[r], r in s'.cancelFn) {
      if r in s.runs {
        assert Life(s.runs[r], r in s.cancelFn);
      }
    }
  }

  lemma OutsideSlots(s: State, s': State)
    requires Slots(s) && Outside(s, s')
    ensures Slots(s')
  {
    assert SlotHolders(s') == SlotHolders(s);
  }

  lemma OutsideQueueing(s: State, s': State)
    requires Queueing(s) && Outside(s, s')
    ensures Queueing(s')
  {
  }

  lemma OutsideChannels(s: State, s': State)
    requires Channels(s) && Outside(s, s') && Keeps(s, s') && s'.chans.Keys <= s.chans.Keys
    ensures Channels(s')
  {
    forall r ensures r in s'.approvals <==> r in s'.runs && AtWait(s'.runs[r].pc) {
      assert r in s.runs ==> Touched(s.runs[r], s'.runs[r]);
    }
    forall c | c in s'.chans
      ensures s'.chans[c].run in s'.runs && s'.chans[c].gate < ChannelBound(s'.runs[s'.chans[c].run])
    {
      assert Touched(s.runs[s.chans[c].run], s'.runs[s.chans[c].run]);
    }
    forall r | r in s'.approvals ensures Registered(s', r) {
      assert Registered(s, r) && Touched(s.runs[r], s'.runs[r]);
    }
  }

  lemma LookupAnswers(s: State, call: CallId, r: RunId, answer: bool)
    requires Answers(s) && Lookup(s, call, r, answer).Some?
    requires s.chans[s.approvals[r]].run == r
    ensures var s' := Lookup(s, call, r, answer).value; Keeps(s, s') && Answers(s')
  {
  }

  /** What a send makes of its call. */
  lemma SendCalls(s: State, call: CallId)
    requires Send(s, call).Some?
    ensures var s' := Send(s, call).value; var c := s.calls[call].chan;
      s'.calls == s.calls[call := s.calls[call].(state := if s.chans[c].buffer.None? then Sent else Refused)]
  {
  }

  /** And of the channel. */
  lemma SendChans(s: State, call: CallId)
    requires Send(s, call).Some?
    ensures var c := s.calls[call].chan;
      Send(s, call).value.chans
      == if s.chans[c].buffer.None? then s.chans[c := s.chans[c].(buffer := Some(call))] else s.chans
  {
  }

  lemma SendKeeps(s: State, call: CallId)
    requires Send(s, call).Some?
    ensures Keeps(s, Send(s, call).value)
  {
    SendCalls(s, call);
    SendChans(s, call);
  }

  lemma SendBuffers(s: State, call: CallId, c: ChanId)
    requires Answers(s) && Send(s, call).Some? && Keeps(s, Send(s, call).value)
    requires c in Send(s, call).value.chans && Send(s, call).value.chans[c].buffer.Some?
    ensures var s' := Send(s, call).value; var k := s'.chans[c].buffer.value;
            k in s'.calls && s'.calls[k].chan == c && s'.calls[k].state.Sent?
  {
    SendCalls(s, call);
    SendChans(s, call);
  }

  lemma SendAnswers(s: State, call: CallId)
    requires Answers(s) && Send(s, call).Some?
    ensures Keeps(s, Send(s, call).value) && Answers(Send(s, call).value)
  {
    SendKeeps(s, call);
    var s' := Send(s, call).value;
    forall k | k in s'.calls ensures Belongs(s', k, s'.calls[k].run, s'.calls[k].gate, s'.calls[k].chan) {
      assert Belongs(s, k, s.calls[k].run, s.calls[k].gate, s.calls[k].chan);
    }
    forall c | c in s'.chans && s'.chans[c].buffer.Some?
      ensures s'.chans[c].buffer.value in s'.calls && s'.calls[s'.chans[c].buffer.value].chan == c
      ensures s'.calls[s'.chans[c].buffer.value].state.Sent?
    {
      SendBuffers(s, call, c);
    }
  }

  lemma SameAnswers(s: State, s': State)
    requires Answers(s) && s'.calls == s.calls && s'.chans == s.chans
    ensures Keeps(s, s') && Answers(s')
  {
  }

  lemma RunsKeepCalls(s: State, a: Action)
    requires TouchesRuns(a) && FromOutside(s, a).Some?
    ensures FromOutside(s, a).value.calls == s.calls && FromOutside(s, a).value.chans == s.chans
  {
  }

  lemma OthersKeepCalls(s: State, a: Action)
    requires !a.Step? && !a.ApproveLookup? && !a.ApproveSend? && FromOutside(s, a).Some?
    ensures FromOutside(s, a).value.calls == s.calls && FromOutside(s, a).value.chans == s.chans
  {
    if TouchesRuns(a) {
      RunsKeepCalls(s, a);
    }
  }

  lemma OutsideAnswers(s: State, a: Action)
    requires Channels(s) && Answers(s) && !a.Step? && FromOutside(s, a).Some?
    ensures var s' := FromOutside(s, a).value; Keeps(s, s') && Answers(s') && s'.chans.Keys <= s.chans.Keys
  {
    if a.ApproveLookup? {
      LookupAnswers(s, a.call, a.r, a.answer);
    } else if a.ApproveSend? {
      SendAnswers(s, a.call);
    } else {
      OthersKeepCalls(s, a);
      SameAnswers(s, FromOutside(s, a).value);
    }
  }

  lemma OutsideApprovals(s: State, s': State)
    requires Approvals(s) && Outside(s, s') && Keeps(s, s') && Answers(s')
    ensures Approvals(s')
  {
    forall x, i | (x, i) in s'.granted ensures OpenedWell(s', x, i) {
      assert OpenedWell(s, x, i);
    }
    forall x | x in s'.runs ensures SaidYes(s'.runs[x].pc) ==> (x, s'.runs[x].pc.i) in s'.granted {
      if x in s.runs {
        assert Touched(s.runs[x], s'.runs[x]);
      }
    }
    forall x, i: nat | x in s'.runs && i < s'.runs[x].begun && i < |s'.runs[x].gates| && s'.runs[x].gates[i]
      ensures (x, i) in s'.granted
    {
      assert Touched(s.runs[x], s'.runs[x]);
    }
  }

  lemma ActionKeepsInv(s: State, a: Action)
    requires Inv(s) && Apply(s, a).Some?
    ensures Inv(Apply(s, a).value)
  {
    if a.Step? {
      StepKeepsInv(s, a.r, a.pick);
    } else {
      var s' := Apply(s, a).value;
      OutsideOnly(s, a);
      OutsideOrder(s, a);
      OutsideLives(s, s');
      OutsideSlots(s, s');
      OutsideQueueing(s, s');
      OutsideAnswers(s, a);
      OutsideChannels(s, s');
      OutsideApprovals(s, s');
    }
  }

  lemma {:induction false} ScheduleKeepsInv(s: State, schedule: seq<Action>)
    requires Inv(s) && Execute(s, schedule).Some?
    ensures Inv(Execute(s, schedule).value)
    decreases |schedule|
  {
    if schedule != [] {
      ActionKeepsInv(s, schedule[0]);
      ScheduleKeepsInv(Apply(s, schedule[0]).value, schedule[1..]);
    }
  }

  lemma ReachableInv(s: State)
    requires Reachable(s)
    ensures Inv(s)
  {
    var s0, schedule :| IsInit(s0) && Execute(s0, schedule) == Some(s);
    InitInv(s0);
    ScheduleKeepsInv(s0, schedule);
  }
}
