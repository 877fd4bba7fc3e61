/**
 The reference-counted SSH connection pool (internal/remote/exec.go) as a step system over any
 number of goroutines. One step is one critical section's map access or one atomic operation; an
 entry is named by the client it owns. `Grain` says which pairs of atomics are taken together.
 */
module SshPool {
  import opened Options

  type HostId = string
  type ClientId = nat
  type Thread = nat

  datatype Entry = Entry(host: HostId, use: int, dead: bool)

  /** Whether acquire's test of `dead` and add to `use`, and release's decrement and test, are one step each. */
  datatype Grain = Grain(fuseAcquire: bool, fuseRelease: bool)

  /** Where a goroutine is between two steps. */
  datatype Pc =
    | Idle
    | Looking(h: HostId)                                  // acquireEntry: about to look the host up
    | Testing(h: HostId, e: ClientId)                     // in the lock, entry found, about to load dead
    | Counting(e: ClientId, spare: Option<ClientId>)      // in the lock, saw it alive, about to add to use
    | Sweeping(h: HostId, e: ClientId)                    // unmapped a dead entry, about to load use
    | SweepClose(h: HostId, e: ClientId)
    | Dialing(h: HostId)
    | Dialed(h: HostId, c: ClientId)                      // owns a new client, about to lock again
    | Rechecking(h: HostId, c: ClientId, e: ClientId)     // in the lock, somebody was faster
    | Discarding(e: ClientId, c: ClientId)                // counted in on e, about to close the spare client
    | Holding(e: ClientId)                                // running a session
    | Released(e: ClientId)                               // was the last user, about to load dead
    | ReleaseClose(e: ClientId)
    | Marking(e: ClientId)                                // markDead: about to compare-and-swap
    | Unmapping(e: ClientId)                              // won the swap, about to lock and delete
    | Checking(e: ClientId)                               // about to load use
    | MarkClose(e: ClientId)

  datatype State = State(
    conns: map<HostId, ClientId>,
    entries: map<ClientId, Entry>,
    dialed: set<ClientId>,
    closed: set<ClientId>,
    mutex: Option<Thread>,
    pcs: map<Thread, Pc>)

  /** What the environment decides: which call a goroutine makes, and how dialling ends. */
  datatype Choice = Acquire(h: HostId) | MarkDead(e: ClientId) | DialOk(c: ClientId) | DialFails | Go

  /** What a step does to the shared state. */
  datatype Op =
    | Nop
    | Unmap(h: HostId)
    | AddUse(e: ClientId, d: int)
    | Insert(h: HostId, c: ClientId)
    | Close(c: ClientId)
    | Kill(e: ClientId)
    | Dial(c: ClientId)

  datatype Move = Move(op: Op, pc: Pc)

  function Init(threads: set<Thread>): State {
    State(map[], map[], {}, {}, None, map t | t in threads :: Idle)
  }

  /** The program counters between Lock and Unlock. */
  predicate InLock(pc: Pc) {
    pc.Testing? || pc.Counting? || pc.Rechecking?
  }

  predicate Dead(s: State, e: ClientId) {
    e in s.entries && s.entries[e].dead
  }

  function UseOf(s: State, e: ClientId): int {
    if e in s.entries then s.entries[e].use else 0
  }

  /** The next step of a goroutine at pc, or None where it has to wait or the choice does not apply. */
  function Decide(g: Grain, s: State, pc: Pc, ch: Choice): Option<Move> {
    match pc
    case Idle =>
      if ch.Acquire? then Some(Move(Nop, Looking(ch.h)))
      else if ch.MarkDead? && ch.e in s.entries then Some(Move(Nop, Marking(ch.e)))
      else None
    case Looking(h) =>
      if s.mutex != None then None
      else Some(Move(Nop, if h in s.conns then Testing(h, s.conns[h]) else Dialing(h)))
    case Testing(h, e) =>
      if Dead(s, e) then Some(Move(Unmap(h), Sweeping(h, e)))
      else if g.fuseAcquire then Some(Move(AddUse(e, 1), Holding(e)))
      else Some(Move(Nop, Counting(e, None)))
    case Counting(e, spare) =>
      Some(Move(AddUse(e, 1), if spare.None? then Holding(e) else Discarding(e, spare.value)))
    case Sweeping(h, e) =>
      Some(Move(Nop, if UseOf(s, e) <= 0 then SweepClose(h, e) else Looking(h)))
    case SweepClose(h, e) => Some(Move(Close(e), Looking(h)))
    case Dialing(h) =>
      if ch.DialOk? && ch.c !in s.dialed then Some(Move(Dial(ch.c), Dialed(h, ch.c)))
      else if ch.DialFails? then Some(Move(Nop, Idle))
      else None
    case Dialed(h, c) =>
      if s.mutex != None then None
      else if h in s.conns then Some(Move(Nop, Rechecking(h, c, s.conns[h])))
      else Some(Move(Insert(h, c), Holding(c)))
    case Rechecking(h, c, e) =>
      if Dead(s, e) then Some(Move(Insert(h, c), Holding(c)))
      else if g.fuseAcquire then Some(Move(AddUse(e, 1), Discarding(e, c)))
      else Some(Move(Nop, Counting(e, Some(c))))
    case Discarding(e, c) => Some(Move(Close(c), Holding(e)))
    case Holding(e) =>
      Some(Move(AddUse(e, -1),
                if UseOf(s, e) - 1 > 0 then Idle
                else if !g.fuseRelease then Released(e)
                else if Dead(s, e) then ReleaseClose(e) else Idle))
    case Released(e) => Some(Move(Nop, if Dead(s, e) then ReleaseClose(e) else Idle))
    case ReleaseClose(e) => Some(Move(Close(e), Idle))
    case Marking(e) =>
      if Dead(s, e) then Some(Move(Nop, Idle)) else Some(Move(Kill(e), Unmapping(e)))
    case Unmapping(e) =>
      if s.mutex != None || e !in s.entries then None
      else
        var h := s.entries[e].host;
        Some(Move(if h in s.conns && s.conns[h] == e then Unmap(h) else Nop, Checking(e)))
    case Checking(e) => Some(Move(Nop, if UseOf(s, e) <= 0 then MarkClose(e) else Idle))
    case MarkClose(e) => Some(Move(Close(e), Idle))
  }

  function Effect(s: State, op: Op): State {
    match op
    case Nop => s
    case Unmap(h) => s.(conns := s.conns - {h})
    case AddUse(e, d) =>
      if e in s.entries then s.(entries := s.entries[e := s.entries[e].(use := s.entries[e].use + d)]) else s
    case Insert(h, c) => s.(entries := s.entries[c := Entry(h, 1, false)], conns := s.conns[h := c])
    case Close(c) => s.(closed := s.closed + {c})
    case Kill(e) =>
      if e in s.entries then s.(entries := s.entries[e := s.entries[e].(dead := true)]) else s
    case Dial(c) => s.(dialed := s.dialed + {c})
  }

  function Perform(s: State, t: Thread, m: Move): State
    requires t in s.pcs
  {
    Effect(s, m.op).(
      pcs := s.pcs[t := m.pc],
      mutex := if InLock(m.pc) then Some(t) else if InLock(s.pcs[t]) then None else s.mutex)
  }

  /** One step of goroutine t, or None where it cannot be taken. */
  function Apply(g: Grain, s: State, t: Thread, ch: Choice): Option<State> {
    if t !in s.pcs then None
    else match Decide(g, s, s.pcs[t], ch)
         case None => None
         case Some(m) => Some(Perform(s, t, m))
  }

  /** The state after a schedule: which goroutine moves, and what the environment chose. */
  function Run(g: Grain, s: State, schedule: seq<(Thread, Choice)>): Option<State>
    decreases |schedule|
  {
    if schedule == [] then Some(s)
    else match Apply(g, s, schedule[0].0, schedule[0].1)
         case None => None
         case Some(s') => Run(g, s', schedule[1..])
  }

  ghost predicate Reachable(g: Grain, s: State) {
    exists threads: set<Thread>, schedule :: Run(g, Init(threads), schedule) == Some(s)
  }

  // ---- What every step keeps ----

  /** The goroutine is counted in `use` of e. */
  predicate Holds(pc: Pc, e: ClientId) {
    pc == Holding(e) || (pc.Discarding? && pc.e == e)
  }

  /** The goroutine owns client c, which belongs to no entry. */
  predicate Carries(pc: Pc, c: ClientId) {
    || (pc.Dialed? && pc.c == c) || (pc.Rechecking? && pc.c == c)
    || (pc.Counting? && pc.spare == Some(c)) || (pc.Discarding? && pc.c == c)
  }

  /** A markDead past its swap, or a release past its decrement, is under way on e. */
  predicate UnderWay(pc: Pc, e: ClientId) {
    || pc == Unmapping(e) || pc == Checking(e) || pc == MarkClose(e)
    || pc == Released(e) || pc == ReleaseClose(e)
  }

  ghost function Holders(s: State, e: ClientId): set<Thread> {
    set t | t in s.pcs && Holds(s.pcs[t], e)
  }

  /** The entry a goroutine is working on exists, and is dead where the code has seen it dead. */
  predicate PcSound(s: State, pc: Pc) {
    match pc
    case Testing(h, e) => e in s.entries && h in s.conns && s.conns[h] == e
    case Rechecking(h, c, e) => e in s.entries && h in s.conns && s.conns[h] == e
    case Counting(e, _) => e in s.entries
    case Discarding(e, _) => e in s.entries
    case Holding(e) => e in s.entries
    case Released(e) => e in s.entries
    case Marking(e) => e in s.entries
    case Sweeping(_, e) => Dead(s, e)
    case SweepClose(_, e) => Dead(s, e)
    case ReleaseClose(e) => Dead(s, e)
    case Unmapping(e) => Dead(s, e)
    case Checking(e) => Dead(s, e)
    case MarkClose(e) => Dead(s, e)
    case _ => true
  }

  ghost predicate Locking(s: State) {
    && (forall t :: t in s.pcs ==> (InLock(s.pcs[t]) <==> s.mutex == Some(t)))
    && (s.mutex.Some? ==> s.mutex.value in s.pcs)
  }

  /** The map holds every live entry under its own host. */
  ghost predicate Mapping(s: State) {
    && (forall h :: h in s.conns ==> s.conns[h] in s.entries && s.entries[s.conns[h]].host == h)
    && (forall e :: e in s.entries && !s.entries[e].dead ==>
          s.entries[e].host in s.conns && s.conns[s.entries[e].host] == e)
  }

  /** Clients outside the entries: each is on its way with one goroutine, or closed. */
  ghost predicate Clients(s: State) {
    && s.entries.Keys <= s.dialed && s.closed <= s.dialed
    && (forall e :: e in s.entries && e in s.closed ==> s.entries[e].dead)
    && (forall t, c :: t in s.pcs && Carries(s.pcs[t], c) ==> c in s.dialed && c !in s.entries && c !in s.closed)
    && (forall t, t', c :: t in s.pcs && t' in s.pcs && Carries(s.pcs[t], c) && Carries(s.pcs[t'], c) ==> t == t')
    && (forall c :: c in s.dialed ==> c in s.entries || c in s.closed || Carried(s, c))
  }

  ghost predicate Carried(s: State, c: ClientId) {
    exists t :: t in s.pcs && Carries(s.pcs[t], c)
  }

  ghost predicate Counts(s: State) {
    forall e :: e in s.entries ==> s.entries[e].use == |Holders(s, e)|
  }

  /** Somebody will still come to close e. */
  ghost predicate Attended(s: State, e: ClientId) {
    exists t :: t in s.pcs && (Holds(s.pcs[t], e) || UnderWay(s.pcs[t], e))
  }

  ghost predicate BeingUnmapped(s: State, e: ClientId) {
    exists t :: t in s.pcs && s.pcs[t] == Unmapping(e)
  }

  ghost predicate Owed(s: State) {
    && (forall e :: Dead(s, e) && e !in s.closed ==> Attended(s, e))
    && (forall h :: h in s.conns && Dead(s, s.conns[h]) ==> BeingUnmapped(s, s.conns[h]))
  }

  ghost predicate Inv(s: State) {
    && (forall t :: t in s.pcs ==> PcSound(s, s.pcs[t]))
    && Locking(s) && Mapping(s) && Clients(s) && Counts(s) && Owed(s)
  }

  lemma InitInv(threads: set<Thread>)
    ensures Inv(Init(threads))
  {
  }

  /** What the code knows when it takes a step: read off `Decide`, used instead of it below. */
  ghost predicate Legal(s: State, t: Thread, m: Move)
    requires t in s.pcs
  {
    var pc := s.pcs[t];
    && (InLock(m.pc) ==> InLock(pc) || s.mutex == None)
    && (match m.op
        case Unmap(h) => (InLock(pc) || s.mutex == None) && h in s.conns && Dead(s, s.conns[h])
        case AddUse(e, d) => e in s.entries
        case Insert(h, c) =>
          && (InLock(pc) || s.mutex == None) && Carries(pc, c) && m.pc == Holding(c)
          && (h in s.conns ==> Dead(s, s.conns[h]))
        case Close(c) => Carries(pc, c) || Dead(s, c)
        case Kill(e) => e in s.entries && !s.entries[e].dead && pc == Marking(e) && m.pc == Unmapping(e)
        case Dial(c) => c !in s.dialed
        case Nop => true)
  }

  lemma DecideLegal(g: Grain, s: State, t: Thread, ch: Choice)
    requires Inv(s) && t in s.pcs && Decide(g, s, s.pcs[t], ch).Some?
    ensures Legal(s, t, Decide(g, s, s.pcs[t], ch).value)
  {
    assert PcSound(s, s.pcs[t]);
  }

  /** A client a goroutine owns stays with it until it closes it or makes it an entry. */
  ghost predicate HandsOnClients(pc: Pc, m: Move) {
    && (forall c :: Carries(pc, c) ==> Carries(m.pc, c) || m.op == Close(c) || (m.op.Insert? && m.op.c == c))
    && (forall c :: Carries(m.pc, c) ==> m.op == Dial(c) || (Carries(pc, c) && m.op != Close(c) && !m.op.Insert?))
    && (m.op.Dial? ==> Carries(m.pc, m.op.c))
  }

  /** `use` goes up by one for a goroutine that starts to hold, and down by one for one that stops. */
  ghost predicate CountsHolds(pc: Pc, m: Move) {
    && (forall e :: Holds(pc, e) && !Holds(m.pc, e) ==> m.op == AddUse(e, -1))
    && (forall e :: Holds(m.pc, e) && !Holds(pc, e) ==> m.op == AddUse(e, 1) || (m.op.Insert? && m.op.c == e))
    && (m.op.AddUse? ==>
          || (m.op.d == 1 && !Holds(pc, m.op.e) && Holds(m.pc, m.op.e))
          || (m.op.d == -1 && Holds(pc, m.op.e) && !Holds(m.pc, m.op.e)))
  }

  /** A duty towards a dead entry is done, kept, or left to somebody counted in `use`. */
  ghost predicate KeepsDuties(s: State, pc: Pc, m: Move) {
    && (forall e :: UnderWay(pc, e) && Dead(s, e) ==> UnderWay(m.pc, e) || m.op == Close(e) || UseOf(s, e) > 0)
    && (forall e :: Holds(pc, e) && !Holds(m.pc, e) && Dead(s, e) ==> UnderWay(m.pc, e) || UseOf(s, e) > 1)
    && (forall e :: pc == Unmapping(e) && Dead(s, e) && s.entries[e].host in s.conns && s.conns[s.entries[e].host] == e
          ==> m.op == Unmap(s.entries[e].host))
  }

  lemma DecideClients(g: Grain, s: State, pc: Pc, ch: Choice)
    requires Decide(g, s, pc, ch).Some?
    ensures HandsOnClients(pc, Decide(g, s, pc, ch).value)
  {
  }

  lemma DecideHolds(g: Grain, s: State, pc: Pc, ch: Choice)
    requires Decide(g, s, pc, ch).Some?
    ensures CountsHolds(pc, Decide(g, s, pc, ch).value)
  {
  }

  lemma DecideUnderWay(g: Grain, s: State, pc: Pc, ch: Choice, e: ClientId)
    requires PcSound(s, pc) && Decide(g, s, pc, ch).Some? && UnderWay(pc, e) && Dead(s, e)
    ensures var m := Decide(g, s, pc, ch).value; UnderWay(m.pc, e) || m.op == Close(e) || UseOf(s, e) > 0
  {
  }

  lemma DecideHandsOver(g: Grain, s: State, pc: Pc, ch: Choice, e: ClientId)
    requires PcSound(s, pc) && Decide(g, s, pc, ch).Some? && Holds(pc, e) && Dead(s, e)
    ensures var m := Decide(g, s, pc, ch).value; Holds(m.pc, e) || UnderWay(m.pc, e) || UseOf(s, e) > 1
  {
  }

  lemma DecideDuties(g: Grain, s: State, pc: Pc, ch: Choice)
    requires PcSound(s, pc) && Decide(g, s, pc, ch).Some?
    ensures KeepsDuties(s, pc, Decide(g, s, pc, ch).value)
  {
    var m := Decide(g, s, pc, ch).value;
    forall e | UnderWay(pc, e) && Dead(s, e) ensures UnderWay(m.pc, e) || m.op == Close(e) || UseOf(s, e) > 0 {
      DecideUnderWay(g, s, pc, ch, e);
    }
    forall e | Holds(pc, e) && !Holds(m.pc, e) && Dead(s, e) ensures UnderWay(m.pc, e) || UseOf(s, e) > 1 {
      DecideHandsOver(g, s, pc, ch, e);
    }
  }

  /** The program counter a step leads to is right about the state the step leads to. */
  lemma DecideSound(g: Grain, s: State, t: Thread, ch: Choice)
    requires t in s.pcs && PcSound(s, s.pcs[t]) && Mapping(s) && Decide(g, s, s.pcs[t], ch).Some?
    ensures var m := Decide(g, s, s.pcs[t], ch).value; PcSound(Effect(s, m.op), m.pc)
  {
  }

  // ---- Each part of the invariant is kept ----

  /** Entries are only added, keep their host, and once dead stay dead. */
  ghost predicate Grows(s: State, s': State) {
    forall e :: e in s.entries ==>
      e in s'.entries && s'.entries[e].host == s.entries[e].host && (s.entries[e].dead ==> s'.entries[e].dead)
  }

  lemma KeepsEntries(s: State, t: Thread, m: Move)
    requires Clients(s) && t in s.pcs && Legal(s, t, m)
    ensures Grows(s, Effect(s, m.op))
  {
    if m.op.Insert? {
      assert Carries(s.pcs[t], m.op.c);
    }
  }

  lemma KeepsOthersSound(s: State, t: Thread, m: Move, u: Thread)
    requires Inv(s) && t in s.pcs && Legal(s, t, m) && u in s.pcs && u != t
    ensures PcSound(Perform(s, t, m), s.pcs[u])
  {
    KeepsEntries(s, t, m);
    assert PcSound(s, s.pcs[u]);
    assert InLock(s.pcs[u]) ==> s.mutex == Some(u);
    assert InLock(s.pcs[t]) ==> s.mutex == Some(t);
  }

  lemma KeepsLocking(s: State, t: Thread, m: Move)
    requires Locking(s) && t in s.pcs && Legal(s, t, m)
    ensures Locking(Perform(s, t, m))
  {
  }

  lemma KeepsMapping(s: State, t: Thread, m: Move)
    requires Mapping(s) && Clients(s) && t in s.pcs && Legal(s, t, m)
    ensures Mapping(Effect(s, m.op))
  {
    if m.op.Insert? {
      assert Carries(s.pcs[t], m.op.c);
    }
  }

  lemma KeepsCarriers(s: State, t: Thread, m: Move)
    requires Clients(s) && t in s.pcs && Legal(s, t, m) && HandsOnClients(s.pcs[t], m)
    ensures var s' := Effect(s, m.op);
            && s'.entries.Keys <= s'.dialed && s'.closed <= s'.dialed
            && (forall e :: e in s'.entries && e in s'.closed ==> s'.entries[e].dead)
            && (forall u, c :: u in s.pcs && u != t && Carries(s.pcs[u], c)
                  ==> c in s'.dialed && c !in s'.entries && c !in s'.closed && !Carries(m.pc, c))
            && (forall c :: Carries(m.pc, c) ==> c in s'.dialed && c !in s'.entries && c !in s'.closed)
  {
    assert m.op.Insert? ==> Carries(s.pcs[t], m.op.c);
  }

  lemma KeepsTrack(s: State, t: Thread, m: Move, c: ClientId)
    requires Clients(s) && t in s.pcs && HandsOnClients(s.pcs[t], m) && c in Effect(s, m.op).dialed
    ensures var s' := Perform(s, t, m); c in s'.entries || c in s'.closed || Carried(s', c)
  {
    var s' := Perform(s, t, m);
    if c in s.dialed && c !in s.entries && c !in s.closed {
      var u :| u in s.pcs && Carries(s.pcs[u], c);
      assert Carries(s'.pcs[u], c) || c in s'.entries || c in s'.closed;
    } else if c !in s.dialed {
      assert Carries(s'.pcs[t], c);
    }
  }

  lemma KeepsClients(s: State, t: Thread, m: Move)
    requires Clients(s) && t in s.pcs && Legal(s, t, m) && HandsOnClients(s.pcs[t], m)
    ensures Clients(Perform(s, t, m))
  {
    KeepsCarriers(s, t, m);
    forall c | c in Perform(s, t, m).dialed
      ensures c in Perform(s, t, m).entries || c in Perform(s, t, m).closed || Carried(Perform(s, t, m), c)
    {
      KeepsTrack(s, t, m, c);
    }
  }

  /** The goroutines counted in `use` of e after t has moved to pc'. */
  lemma HoldersAfter(s: State, t: Thread, m: Move, e: ClientId)
    requires t in s.pcs
    ensures Holders(Perform(s, t, m), e) ==
            if Holds(m.pc, e) then Holders(s, e) + {t} else Holders(s, e) - {t}
  {
  }

  /** The change of `use` of an entry that was there before the step. */
  lemma UseAfter(s: State, t: Thread, m: Move, e: ClientId)
    requires Clients(s) && t in s.pcs && Legal(s, t, m) && CountsHolds(s.pcs[t], m) && e in s.entries
    ensures Effect(s, m.op).entries[e].use ==
            s.entries[e].use + (if Holds(m.pc, e) then 1 else 0) - (if Holds(s.pcs[t], e) then 1 else 0)
  {
    assert m.op.Insert? ==> Carries(s.pcs[t], m.op.c);
  }

  lemma Sized(before: set<Thread>, t: Thread)
    ensures |before + {t}| == |before| + (if t in before then 0 else 1)
    ensures |before - {t}| == |before| - (if t in before then 1 else 0)
  {
    assert t in before ==> before + {t} == before;
    assert t !in before ==> before - {t} == before;
  }

  lemma KeepsOldCount(s: State, t: Thread, m: Move, e: ClientId)
    requires Counts(s) && Clients(s) && t in s.pcs && Legal(s, t, m) && CountsHolds(s.pcs[t], m)
    requires e in s.entries
    ensures Effect(s, m.op).entries[e].use == |Holders(Perform(s, t, m), e)|
  {
    HoldersAfter(s, t, m, e);
    UseAfter(s, t, m, e);
    assert t in Holders(s, e) <==> Holds(s.pcs[t], e);
    Sized(Holders(s, e), t);
  }

  lemma KeepsNewCount(s: State, t: Thread, m: Move, e: ClientId)
    requires (forall u :: u in s.pcs ==> PcSound(s, s.pcs[u])) && Clients(s) && t in s.pcs && Legal(s, t, m)
    requires e !in s.entries && e in Effect(s, m.op).entries
    ensures Effect(s, m.op).entries[e].use == |Holders(Perform(s, t, m), e)|
  {
    HoldersAfter(s, t, m, e);
    forall u | u in s.pcs ensures !Holds(s.pcs[u], e) {
      assert PcSound(s, s.pcs[u]);
    }
    assert Holders(s, e) + {t} == {t};
  }

  lemma AnotherHolds(s: State, t: Thread, e: ClientId) returns (v: Thread)
    requires Counts(s) && t in s.pcs && e in s.entries
    requires s.entries[e].use > if Holds(s.pcs[t], e) then 1 else 0
    ensures v != t && v in s.pcs && Holds(s.pcs[v], e)
  {
    var others := Holders(s, e) - {t};
    if t in Holders(s, e) {
      assert |Holders(s, e)| == |others| + 1;
    } else {
      assert others == Holders(s, e);
    }
    assert others != {};
    v :| v in others;
  }

  lemma KeepsAttended(s: State, t: Thread, m: Move, e: ClientId)
    requires Counts(s) && Attended(s, e) && t in s.pcs
    requires CountsHolds(s.pcs[t], m) && KeepsDuties(s, s.pcs[t], m)
    requires Dead(s, e) && m.op != Close(e)
    ensures Attended(Perform(s, t, m), e)
  {
    var s' := Perform(s, t, m);
    var u :| u in s.pcs && (Holds(s.pcs[u], e) || UnderWay(s.pcs[u], e));
    if u == t && !Holds(m.pc, e) && !UnderWay(m.pc, e) {
      u := AnotherHolds(s, t, e);
    }
    assert Holds(s'.pcs[u], e) || UnderWay(s'.pcs[u], e);
  }

  lemma KeepsUnmapped(s: State, t: Thread, m: Move, h: HostId)
    requires Mapping(s) && Owed(s) && t in s.pcs && Legal(s, t, m) && KeepsDuties(s, s.pcs[t], m)
    requires var s' := Effect(s, m.op); h in s'.conns && Dead(s', s'.conns[h])
    ensures BeingUnmapped(Perform(s, t, m), Effect(s, m.op).conns[h])
  {
    var s' := Perform(s, t, m);
    var e := Effect(s, m.op).conns[h];
    if m.op == Kill(e) {
      assert s'.pcs[t] == Unmapping(e);
    } else {
      assert h in s.conns && s.conns[h] == e && Dead(s, e);
      var u :| u in s.pcs && s.pcs[u] == Unmapping(e);
      assert s'.pcs[u] == Unmapping(e);
    }
  }

  lemma KeepsCounts(s: State, t: Thread, m: Move)
    requires Inv(s) && t in s.pcs && Legal(s, t, m) && CountsHolds(s.pcs[t], m)
    ensures Counts(Perform(s, t, m))
  {
    forall e | e in Effect(s, m.op).entries
      ensures Effect(s, m.op).entries[e].use == |Holders(Perform(s, t, m), e)|
    {
      if e in s.entries {
        KeepsOldCount(s, t, m, e);
      } else {
        KeepsNewCount(s, t, m, e);
      }
    }
  }

  lemma DiesAttended(s: State, t: Thread, m: Move, e: ClientId)
    requires t in s.pcs && Legal(s, t, m) && !Dead(s, e) && Dead(Effect(s, m.op), e)
    ensures Attended(Perform(s, t, m), e)
  {
    assert m.op == Kill(e) && UnderWay(Perform(s, t, m).pcs[t], e);
  }

  lemma KeepsOwed(s: State, t: Thread, m: Move)
    requires Counts(s) && Mapping(s) && Owed(s) && t in s.pcs && Legal(s, t, m)
    requires CountsHolds(s.pcs[t], m) && KeepsDuties(s, s.pcs[t], m)
    ensures Owed(Perform(s, t, m))
  {
    var s' := Perform(s, t, m);
    forall e | Dead(s', e) && e !in s'.closed ensures Attended(s', e) {
      if Dead(s, e) {
        KeepsAttended(s, t, m, e);
      } else {
        DiesAttended(s, t, m, e);
      }
    }
    forall h | h in s'.conns && Dead(s', s'.conns[h]) ensures BeingUnmapped(s', s'.conns[h]) {
      KeepsUnmapped(s, t, m, h);
    }
  }

  lemma StepKeepsInv(g: Grain, s: State, t: Thread, ch: Choice)
    requires Inv(s) && Apply(g, s, t, ch).Some?
    ensures Inv(Apply(g, s, t, ch).value)
  {
    var m := Decide(g, s, s.pcs[t], ch).value;
    var s' := Perform(s, t, m);
    assert PcSound(s, s.pcs[t]);
    DecideLegal(g, s, t, ch);
    DecideClients(g, s, s.pcs[t], ch);
    DecideHolds(g, s, s.pcs[t], ch);
    DecideDuties(g, s, s.pcs[t], ch);
    DecideSound(g, s, t, ch);
    KeepsLocking(s, t, m);
    KeepsMapping(s, t, m);
    KeepsClients(s, t, m);
    KeepsCounts(s, t, m);
    KeepsOwed(s, t, m);
    forall u | u in s'.pcs ensures PcSound(s', s'.pcs[u]) {
      if u != t {
        KeepsOthersSound(s, t, m, u);
      }
    }
  }

  lemma {:induction false} RunKeepsInv(g: Grain, s: State, schedule: seq<(Thread, Choice)>)
    requires Inv(s) && Run(g, s, schedule).Some?
    ensures Inv(Run(g, s, schedule).value)
    decreases |schedule|
  {
    if schedule != [] {
      StepKeepsInv(g, s, schedule[0].0, schedule[0].1);
      RunKeepsInv(g, Apply(g, s, schedule[0].0, schedule[0].1).value, schedule[1..]);
    }
  }

  lemma ReachableInv(g: Grain, s: State)
    requires Reachable(g, s)
    ensures Inv(s)
  {
    var threads: set<Thread>, schedule :| Run(g, Init(threads), schedule) == Some(s);
    InitInv(threads);
    RunKeepsInv(g, Init(threads), schedule);
  }

  // ---- No connection leaks, at any grain ----

  /**
   In every reachable state a dead entry that nobody holds, and on which no markDead past its swap,
   no cleanup and no release is under way, has had its client closed; and every client ever dialled
   is in the map, held, on its way with one goroutine, attended, or closed.
   */
  lemma NoLeak(g: Grain, s: State, e: ClientId)
    requires Reachable(g, s) && e in s.dialed
    ensures Dead(s, e) && (forall t :: t in s.pcs ==> !Holds(s.pcs[t], e) && !UnderWay(s.pcs[t], e)) ==> e in s.closed
    ensures || e in s.closed || Carried(s, e) || Attended(s, e)
            || (e in s.entries && s.entries[e].host in s.conns && s.conns[s.entries[e].host] == e)
  {
    ReachableInv(g, s);
  }

  /** When no call is in progress, the clients still open are exactly the ones in the map. */
  lemma QuietPoolOwnsOpenClients(g: Grain, s: State)
    requires Reachable(g, s) && forall t :: t in s.pcs ==> s.pcs[t] == Idle
    ensures s.dialed - s.closed == s.conns.Values
    ensures forall e :: e in s.entries ==> s.entries[e].use == 0
  {
    ReachableInv(g, s);
    forall e | e in s.dialed - s.closed ensures e in s.conns.Values {
      assert e in s.entries;
      assert !Dead(s, e);
      assert s.conns[s.entries[e].host] == e;
    }
    forall e | e in s.conns.Values ensures e in s.dialed - s.closed {
      var h :| h in s.conns && s.conns[h] == e;
      assert !Dead(s, s.conns[h]);
    }
    forall e | e in s.entries ensures s.entries[e].use == 0 {
      assert Holders(s, e) == {};
    }
  }

  /** Each host has one entry at most, and an entry is in the map under its own host only. */
  lemma OneEntryPerHost(g: Grain, s: State, h: HostId, h': HostId)
    requires Reachable(g, s) && h in s.conns && h' in s.conns && s.conns[h] == s.conns[h']
    ensures h == h' && s.conns[h] in s.entries && s.entries[s.conns[h]].host == h
  {
    ReachableInv(g, s);
  }

  lemma {:induction false} LeftStaysOut(g: Grain, s: State, schedule: seq<(Thread, Choice)>, e: ClientId)
    requires Inv(s) && Run(g, s, schedule).Some? && e in s.entries && e !in s.conns.Values
    ensures e !in Run(g, s, schedule).value.conns.Values
    decreases |schedule|
  {
    if schedule != [] {
      var t, ch := schedule[0].0, schedule[0].1;
      var m := Decide(g, s, s.pcs[t], ch).value;
      var s' := Perform(s, t, m);
      StepKeepsInv(g, s, t, ch);
      DecideLegal(g, s, t, ch);
      assert m.op.Insert? ==> Carries(s.pcs[t], m.op.c);
      forall h | h in s'.conns ensures s'.conns[h] != e {
        assert m.op == Insert(h, s'.conns[h]) || (h in s.conns && s'.conns[h] == s.conns[h]);
      }
      LeftStaysOut(g, s', schedule[1..], e);
    }
  }

  /** An entry that has left the map never returns to it. */
  lemma NeverReturns(g: Grain, s: State, schedule: seq<(Thread, Choice)>, e: ClientId)
    requires Reachable(g, s) && Run(g, s, schedule).Some? && e in s.entries && e !in s.conns.Values
    ensures e !in Run(g, s, schedule).value.conns.Values
  {
    ReachableInv(g, s);
    LeftStaysOut(g, s, schedule, e);
  }

  // ---- Never closed while in use: exactly at the coarse grain ----

  ghost predicate Safe(s: State) {
    forall t, e :: t in s.pcs && Holds(s.pcs[t], e) ==> e !in s.closed
  }

  /** About to close e. */
  predicate Closing(pc: Pc, e: ClientId) {
    pc == ReleaseClose(e) || pc == MarkClose(e) || (pc.SweepClose? && pc.e == e)
  }

  /** Both pairs fused: whatever is closed, or about to be, is dead and unused, and nobody is between test and count. */
  ghost predicate Settled(s: State) {
    && (forall e :: e in s.entries && e in s.closed ==> Dead(s, e) && s.entries[e].use == 0)
    && (forall t, e :: t in s.pcs && Closing(s.pcs[t], e) ==> Dead(s, e) && s.entries[e].use == 0)
    && (forall t :: t in s.pcs ==> !s.pcs[t].Counting? && !s.pcs[t].Released?)
  }

  /** With both pairs fused only a live entry is counted up, and a close is decided on a dead, unused one. */
  lemma DecideCoarse(s: State, pc: Pc, ch: Choice)
    requires PcSound(s, pc) && !pc.Counting? && !pc.Released?
    requires forall e :: e in s.entries ==> s.entries[e].use >= 0
    requires Decide(Grain(true, true), s, pc, ch).Some?
    ensures var m := Decide(Grain(true, true), s, pc, ch).value;
            && !m.pc.Counting? && !m.pc.Released?
            && (m.op.AddUse? ==> if m.op.d == 1 then !Dead(s, m.op.e) else Holds(pc, m.op.e))
            && (forall e :: Closing(m.pc, e) ==> Dead(Effect(s, m.op), e) && UseOf(Effect(s, m.op), e) <= 0)
            && (forall c :: m.op == Close(c) && c in s.entries ==> Closing(pc, c) || Carries(pc, c))
  {
  }

  lemma HolderIsCounted(s: State, t: Thread, e: ClientId)
    requires Counts(s) && t in s.pcs && e in s.entries
    ensures Holds(s.pcs[t], e) ==> s.entries[e].use >= 1
    ensures s.entries[e].use >= 0
  {
    if Holds(s.pcs[t], e) {
      assert t in Holders(s, e);
    }
  }

  lemma LeavesAlone(s: State, op: Op, e: ClientId)
    requires e in s.entries && (op.AddUse? ==> op.e != e) && (op.Insert? ==> op.c != e)
    ensures e in Effect(s, op).entries && Effect(s, op).entries[e].use == s.entries[e].use
    ensures Dead(s, e) ==> Dead(Effect(s, op), e)
  {
  }

  /** Where only live entries are counted up, a dead entry with no users never gets one again. */
  lemma UnusedStaysUnused(s: State, t: Thread, m: Move, e: ClientId)
    requires Counts(s) && Clients(s) && t in s.pcs && Legal(s, t, m)
    requires m.op.AddUse? ==> if m.op.d == 1 then !Dead(s, m.op.e) else Holds(s.pcs[t], m.op.e)
    requires Dead(s, e) && s.entries[e].use == 0
    ensures Dead(Effect(s, m.op), e) && Effect(s, m.op).entries[e].use == 0
  {
    HolderIsCounted(s, t, e);
    assert m.op.Insert? ==> Carries(s.pcs[t], m.op.c);
    LeavesAlone(s, m.op, e);
  }

  lemma CoarseKeepsUnused(s: State, t: Thread, ch: Choice, e: ClientId)
    requires Inv(s) && Settled(s) && t in s.pcs && Decide(Grain(true, true), s, s.pcs[t], ch).Some?
    requires Dead(s, e) && s.entries[e].use == 0
    ensures var m := Decide(Grain(true, true), s, s.pcs[t], ch).value;
            Dead(Effect(s, m.op), e) && Effect(s, m.op).entries[e].use == 0
  {
    DecideCoarse(s, s.pcs[t], ch);
    DecideLegal(Grain(true, true), s, t, ch);
    UnusedStaysUnused(s, t, Decide(Grain(true, true), s, s.pcs[t], ch).value, e);
  }

  /** What a coarse step has decided to close is dead and unused. */
  lemma CoarseClosing(s: State, t: Thread, ch: Choice, e: ClientId)
    requires Inv(s) && Settled(s) && t in s.pcs && Decide(Grain(true, true), s, s.pcs[t], ch).Some?
    requires Closing(Decide(Grain(true, true), s, s.pcs[t], ch).value.pc, e)
    ensures var s' := Effect(s, Decide(Grain(true, true), s, s.pcs[t], ch).value.op);
            Dead(s', e) && s'.entries[e].use == 0
  {
    DecideCoarse(s, s.pcs[t], ch);
    StepKeepsInv(Grain(true, true), s, t, ch);
    HolderIsCounted(Perform(s, t, Decide(Grain(true, true), s, s.pcs[t], ch).value), t, e);
  }

  /** So is what it has closed. */
  lemma CoarseClosed(s: State, t: Thread, ch: Choice, e: ClientId)
    requires Inv(s) && Settled(s) && t in s.pcs && Decide(Grain(true, true), s, s.pcs[t], ch).Some?
    requires var s' := Effect(s, Decide(Grain(true, true), s, s.pcs[t], ch).value.op); e in s'.entries && e in s'.closed
    ensures var s' := Effect(s, Decide(Grain(true, true), s, s.pcs[t], ch).value.op);
            Dead(s', e) && s'.entries[e].use == 0
  {
    var m := Decide(Grain(true, true), s, s.pcs[t], ch).value;
    DecideCoarse(s, s.pcs[t], ch);
    DecideLegal(Grain(true, true), s, t, ch);
    assert m.op.Insert? ==> Carries(s.pcs[t], m.op.c);
    assert Dead(s, e) && s.entries[e].use == 0;
    CoarseKeepsUnused(s, t, ch, e);
  }

  lemma CoarseStep(s: State, t: Thread, ch: Choice)
    requires Inv(s) && Settled(s) && Apply(Grain(true, true), s, t, ch).Some?
    ensures Settled(Apply(Grain(true, true), s, t, ch).value)
  {
    var m := Decide(Grain(true, true), s, s.pcs[t], ch).value;
    var s' := Perform(s, t, m);
    assert PcSound(s, s.pcs[t]);
    DecideCoarse(s, s.pcs[t], ch);
    forall e | e in s'.entries && e in s'.closed ensures Dead(s', e) && s'.entries[e].use == 0 {
      CoarseClosed(s, t, ch, e);
    }
    forall u, e | u in s'.pcs && Closing(s'.pcs[u], e) ensures Dead(s', e) && s'.entries[e].use == 0 {
      if u == t {
        CoarseClosing(s, t, ch, e);
      } else {
        CoarseKeepsUnused(s, t, ch, e);
      }
    }
  }

  lemma {:induction false} CoarseRun(s: State, schedule: seq<(Thread, Choice)>)
    requires Inv(s) && Settled(s) && Run(Grain(true, true), s, schedule).Some?
    ensures Settled(Run(Grain(true, true), s, schedule).value)
    decreases |schedule|
  {
    if schedule != [] {
      var t, ch := schedule[0].0, schedule[0].1;
      CoarseStep(s, t, ch);
      StepKeepsInv(Grain(true, true), s, t, ch);
      CoarseRun(Apply(Grain(true, true), s, t, ch).value, schedule[1..]);
    }
  }

  lemma SettledIsSafe(s: State)
    requires Inv(s) && Settled(s)
    ensures Safe(s)
  {
    forall t, e | t in s.pcs && Holds(s.pcs[t], e) ensures e !in s.closed {
      assert PcSound(s, s.pcs[t]);
      HolderIsCounted(s, t, e);
    }
  }

  lemma CoarseRunIsSafe(threads: set<Thread>, schedule: seq<(Thread, Choice)>)
    requires Run(Grain(true, true), Init(threads), schedule).Some?
    ensures Safe(Run(Grain(true, true), Init(threads), schedule).value)
  {
    InitInv(threads);
    RunKeepsInv(Grain(true, true), Init(threads), schedule);
    CoarseRun(Init(threads), schedule);
    SettledIsSafe(Run(Grain(true, true), Init(threads), schedule).value);
  }

  lemma CoarseIsSafe(s: State)
    requires Reachable(Grain(true, true), s)
    ensures Safe(s)
  {
    var threads: set<Thread>, schedule :| Run(Grain(true, true), Init(threads), schedule) == Some(s);
    CoarseRunIsSafe(threads, schedule);
  }

  // ---- The two schedules that close a client in use ----

  lemma {:induction false} RunSnoc(g: Grain, s: State, schedule: seq<(Thread, Choice)>, t: Thread, ch: Choice)
    requires Run(g, s, schedule).Some?
    ensures Run(g, s, schedule + [(t, ch)]) == Apply(g, Run(g, s, schedule).value, t, ch)
    decreases |schedule|
  {
    var longer := schedule + [(t, ch)];
    if schedule == [] {
      assert longer == [(t, ch)] && longer[1..] == [];
    } else {
      assert longer[1..] == schedule[1..] + [(t, ch)];
      RunSnoc(g, Apply(g, s, schedule[0].0, schedule[0].1).value, schedule[1..], t, ch);
    }
  }

  lemma ReachStep(g: Grain, s: State, t: Thread, ch: Choice)
    requires Reachable(g, s) && Apply(g, s, t, ch).Some?
    ensures Reachable(g, Apply(g, s, t, ch).value)
  {
    var threads: set<Thread>, schedule :| Run(g, Init(threads), schedule) == Some(s);
    RunSnoc(g, Init(threads), schedule, t, ch);
  }

  /** Three goroutines around one mapped entry: host "h", client 7. */
  function Trio(use: int, dead: bool, closed: bool, mutex: Option<Thread>, pc0: Pc, pc1: Pc, pc2: Pc): State {
    State(map["h" := 7], map[7 := Entry("h", use, dead)], {7}, if closed then {7} else {}, mutex, Pcs(pc0, pc1, pc2))
  }

  function Pcs(pc0: Pc, pc1: Pc, pc2: Pc): map<Thread, Pc> {
    map[0 := pc0, 1 := pc1, 2 := pc2]
  }

  lemma SetPc(pc0: Pc, pc1: Pc, pc2: Pc, pc: Pc)
    ensures Pcs(pc0, pc1, pc2)[0 := pc] == Pcs(pc, pc1, pc2)
    ensures Pcs(pc0, pc1, pc2)[1 := pc] == Pcs(pc0, pc, pc2)
    ensures Pcs(pc0, pc1, pc2)[2 := pc] == Pcs(pc0, pc1, pc)
  {
  }

  /** Goroutine 0 alone on an empty pool. */
  function Alone(dialed: set<ClientId>, pc0: Pc): State {
    State(map[], map[], dialed, {}, None, Pcs(pc0, Idle, Idle))
  }

  lemma StartAlone(g: Grain)
    ensures Reachable(g, Alone({}, Idle))
  {
    assert Run(g, Init({0, 1, 2}), []) == Some(Init({0, 1, 2}));
    assert Init({0, 1, 2}) == Alone({}, Idle);
  }

  lemma FirstLook(g: Grain)
    ensures Reachable(g, Alone({}, Looking("h")))
  {
    StartAlone(g);
    SetPc(Idle, Idle, Idle, Looking("h"));
    ReachStep(g, Alone({}, Idle), 0, Acquire("h"));
  }

  lemma FirstDial(g: Grain)
    ensures Reachable(g, Alone({}, Dialing("h")))
  {
    FirstLook(g);
    SetPc(Looking("h"), Idle, Idle, Dialing("h"));
    ReachStep(g, Alone({}, Looking("h")), 0, Go);
  }

  lemma DialOnce()
    ensures Perform(Alone({}, Dialing("h")), 0, Move(Dial(7), Dialed("h", 7))) == Alone({7}, Dialed("h", 7))
  {
    SetPc(Dialing("h"), Idle, Idle, Dialed("h", 7));
  }

  lemma FirstClient(g: Grain)
    ensures Reachable(g, Alone({7}, Dialed("h", 7)))
  {
    FirstDial(g);
    DialOnce();
    ReachStep(g, Alone({}, Dialing("h")), 0, DialOk(7));
  }

  lemma FirstHolder(g: Grain)
    ensures Reachable(g, Trio(1, false, false, None, Holding(7), Idle, Idle))
  {
    FirstClient(g);
    SetPc(Dialed("h", 7), Idle, Idle, Holding(7));
    ReachStep(g, Alone({7}, Dialed("h", 7)), 0, Go);
  }

  /** What a step without map changes does to the trio. */
  function Next(use: int, dead: bool, closed: bool, mutex: Option<Thread>, pc0: Pc, pc1: Pc, pc2: Pc,
                t: Thread, op: Op, pc: Pc): State {
    var before := if t == 0 then pc0 else if t == 1 then pc1 else pc2;
    Trio(use + (if op.AddUse? then op.d else 0), dead || op.Kill?, closed || op.Close?,
         if InLock(pc) then Some(t) else if InLock(before) then None else mutex,
         if t == 0 then pc else pc0, if t == 1 then pc else pc1, if t == 2 then pc else pc2)
  }

  lemma NextIsPerform(use: int, dead: bool, closed: bool, mutex: Option<Thread>, pc0: Pc, pc1: Pc, pc2: Pc,
                      t: Thread, op: Op, pc: Pc)
    requires t < 3 && op in {Nop, AddUse(7, 1), AddUse(7, -1), Kill(7), Close(7)}
    ensures Perform(Trio(use, dead, closed, mutex, pc0, pc1, pc2), t, Move(op, pc)) ==
            Next(use, dead, closed, mutex, pc0, pc1, pc2, t, op, pc)
  {
    SetPc(pc0, pc1, pc2, pc);
  }

  lemma Advance(g: Grain, use: int, dead: bool, closed: bool, mutex: Option<Thread>, pc0: Pc, pc1: Pc, pc2: Pc,
                t: Thread, ch: Choice, op: Op, pc: Pc)
    requires t < 3 && op in {Nop, AddUse(7, 1), AddUse(7, -1), Kill(7), Close(7)}
    requires Reachable(g, Trio(use, dead, closed, mutex, pc0, pc1, pc2))
    requires Decide(g, Trio(use, dead, closed, mutex, pc0, pc1, pc2),
                    if t == 0 then pc0 else if t == 1 then pc1 else pc2, ch) == Some(Move(op, pc))
    ensures Reachable(g, Next(use, dead, closed, mutex, pc0, pc1, pc2, t, op, pc))
  {
    ReachStep(g, Trio(use, dead, closed, mutex, pc0, pc1, pc2), t, ch);
    NextIsPerform(use, dead, closed, mutex, pc0, pc1, pc2, t, op, pc);
  }

  // Acquire split: goroutine 1 tests the entry, 2 kills it, the last user 0 closes it, 1 counts itself in.

  lemma TestedAlive(g: Grain)
    ensures Reachable(g, Trio(1, false, false, Some(1), Holding(7), Testing("h", 7), Idle))
  {
    FirstHolder(g);
    Advance(g, 1, false, false, None, Holding(7), Idle, Idle, 1, Acquire("h"), Nop, Looking("h"));
    Advance(g, 1, false, false, None, Holding(7), Looking("h"), Idle, 1, Go, Nop, Testing("h", 7));
  }

  lemma AboutToCount(g: Grain)
    requires !g.fuseAcquire
    ensures Reachable(g, Trio(1, false, false, Some(1), Holding(7), Counting(7, None), Idle))
  {
    TestedAlive(g);
    Advance(g, 1, false, false, Some(1), Holding(7), Testing("h", 7), Idle, 1, Go, Nop, Counting(7, None));
  }

  lemma AboutToKill(g: Grain)
    requires !g.fuseAcquire
    ensures Reachable(g, Trio(1, false, false, Some(1), Holding(7), Counting(7, None), Marking(7)))
  {
    AboutToCount(g);
    Advance(g, 1, false, false, Some(1), Holding(7), Counting(7, None), Idle, 2, MarkDead(7), Nop, Marking(7));
  }

  lemma KilledAfterTest(g: Grain)
    requires !g.fuseAcquire
    ensures Reachable(g, Trio(1, true, false, Some(1), Holding(7), Counting(7, None), Unmapping(7)))
  {
    AboutToKill(g);
    Advance(g, 1, false, false, Some(1), Holding(7), Counting(7, None), Marking(7), 2, Go, Kill(7), Unmapping(7));
  }

  lemma LastUserLeavesAtOnce(g: Grain)
    requires !g.fuseAcquire && g.fuseRelease
    ensures Reachable(g, Trio(0, true, false, Some(1), ReleaseClose(7), Counting(7, None), Unmapping(7)))
  {
    KilledAfterTest(g);
    Advance(g, 1, true, false, Some(1), Holding(7), Counting(7, None), Unmapping(7), 0, Go, AddUse(7, -1), ReleaseClose(7));
  }

  lemma LastUserCountsDown(g: Grain)
    requires !g.fuseAcquire && !g.fuseRelease
    ensures Reachable(g, Trio(0, true, false, Some(1), Released(7), Counting(7, None), Unmapping(7)))
  {
    KilledAfterTest(g);
    Advance(g, 1, true, false, Some(1), Holding(7), Counting(7, None), Unmapping(7), 0, Go, AddUse(7, -1), Released(7));
  }

  lemma LastUserLeavesInTwo(g: Grain)
    requires !g.fuseAcquire && !g.fuseRelease
    ensures Reachable(g, Trio(0, true, false, Some(1), ReleaseClose(7), Counting(7, None), Unmapping(7)))
  {
    LastUserCountsDown(g);
    Advance(g, 0, true, false, Some(1), Released(7), Counting(7, None), Unmapping(7), 0, Go, Nop, ReleaseClose(7));
  }

  lemma LastUserLeaves(g: Grain)
    requires !g.fuseAcquire
    ensures Reachable(g, Trio(0, true, false, Some(1), ReleaseClose(7), Counting(7, None), Unmapping(7)))
  {
    if g.fuseRelease {
      LastUserLeavesAtOnce(g);
    } else {
      LastUserLeavesInTwo(g);
    }
  }

  lemma ClosedBeforeCount(g: Grain)
    requires !g.fuseAcquire
    ensures Reachable(g, Trio(0, true, true, Some(1), Idle, Counting(7, None), Unmapping(7)))
  {
    LastUserLeaves(g);
    Advance(g, 0, true, false, Some(1), ReleaseClose(7), Counting(7, None), Unmapping(7), 0, Go, Close(7), Idle);
  }

  lemma HandedOutClosed(g: Grain)
    requires !g.fuseAcquire
    ensures Reachable(g, Trio(1, true, true, None, Idle, Holding(7), Unmapping(7)))
  {
    ClosedBeforeCount(g);
    Advance(g, 0, true, true, Some(1), Idle, Counting(7, None), Unmapping(7), 1, Go, AddUse(7, 1), Holding(7));
  }

  // Release split: the last user 0 counts down, 1 takes the entry again, 2 kills it, 0 sees it dead and closes it.

  lemma CountedDown(g: Grain)
    requires !g.fuseRelease
    ensures Reachable(g, Trio(0, false, false, None, Released(7), Looking("h"), Idle))
  {
    FirstHolder(g);
    Advance(g, 1, false, false, None, Holding(7), Idle, Idle, 0, Go, AddUse(7, -1), Released(7));
    Advance(g, 0, false, false, None, Released(7), Idle, Idle, 1, Acquire("h"), Nop, Looking("h"));
  }

  lemma TakenAgain(g: Grain)
    requires g.fuseAcquire && !g.fuseRelease
    ensures Reachable(g, Trio(1, false, false, None, Released(7), Holding(7), Idle))
  {
    CountedDown(g);
    Advance(g, 0, false, false, None, Released(7), Looking("h"), Idle, 1, Go, Nop, Testing("h", 7));
    Advance(g, 0, false, false, Some(1), Released(7), Testing("h", 7), Idle, 1, Go, AddUse(7, 1), Holding(7));
  }

  lemma KilledAfterCount(g: Grain)
    requires g.fuseAcquire && !g.fuseRelease
    ensures Reachable(g, Trio(1, true, false, None, Released(7), Holding(7), Unmapping(7)))
  {
    TakenAgain(g);
    Advance(g, 1, false, false, None, Released(7), Holding(7), Idle, 2, MarkDead(7), Nop, Marking(7));
    Advance(g, 1, false, false, None, Released(7), Holding(7), Marking(7), 2, Go, Kill(7), Unmapping(7));
  }

  lemma ClosedUnderUser(g: Grain)
    requires g.fuseAcquire && !g.fuseRelease
    ensures Reachable(g, Trio(1, true, true, None, Idle, Holding(7), Unmapping(7)))
  {
    KilledAfterCount(g);
    Advance(g, 1, true, false, None, Released(7), Holding(7), Unmapping(7), 0, Go, Nop, ReleaseClose(7));
    Advance(g, 1, true, false, None, ReleaseClose(7), Holding(7), Unmapping(7), 0, Go, Close(7), Idle);
  }

  /**
   A client handed to a caller is never closed under it, in any reachable state, exactly when both
   acquire's test-and-count and release's count-and-test are taken as single steps.
   */
  lemma NeverClosedInUse(g: Grain)
    ensures (forall s :: Reachable(g, s) ==> Safe(s)) <==> (g.fuseAcquire && g.fuseRelease)
  {
    if g.fuseAcquire && g.fuseRelease {
      assert g == Grain(true, true);
      forall s | Reachable(g, s) ensures Safe(s) {
        CoarseIsSafe(s);
      }
    } else {
      var bad := Trio(1, true, true, None, Idle, Holding(7), Unmapping(7));
      if g.fuseAcquire {
        ClosedUnderUser(g);
      } else {
        HandedOutClosed(g);
      }
      assert Holds(bad.pcs[1], 7) && 7 in bad.closed;
      assert Reachable(g, bad) && !Safe(bad);
    }
  }
}
