/**
 What one call on the SSH pool does when nobody comes in between (internal/remote/exec.go): acquiring shares a live
 entry or dials for a host without one, and marking an entry dead takes it out of the map.
 */
module SshCalls {
  import opened Options
  import opened SshPool

  /** State s with goroutine t at pc. */
  function At(s: State, t: Thread, pc: Pc): State {
    s.(pcs := s.pcs[t := pc])
  }

  lemma AtAt(s: State, t: Thread, pc: Pc, pc': Pc)
    ensures At(At(s, t, pc), t, pc') == At(s, t, pc')
  {
    assert s.pcs[t := pc][t := pc'] == s.pcs[t := pc'];
  }

  lemma Stay(s: State, t: Thread, pc: Pc)
    requires t in s.pcs && s.pcs[t] == pc
    ensures At(s, t, pc) == s
  {
    assert s.pcs[t := pc] == s.pcs;
  }

  lemma RunFirst(g: Grain, s: State, t: Thread, ch: Choice, s': State, rest: seq<(Thread, Choice)>)
    requires Apply(g, s, t, ch) == Some(s')
    ensures Run(g, s, [(t, ch)] + rest) == Run(g, s', rest)
  {
    assert ([(t, ch)] + rest)[1..] == rest;
  }

  lemma RunLast(g: Grain, s: State, t: Thread, ch: Choice, s': State)
    requires Apply(g, s, t, ch) == Some(s')
    ensures Run(g, s, [(t, ch)]) == Some(s')
  {
    assert [(t, ch)][1..] == [];
  }

  /** Goroutine t moves from pc to pc' in s, with the lock in nobody's hands before and after. */
  ghost predicate Moves(g: Grain, s: State, t: Thread, pc: Pc, ch: Choice, s': State, pc': Pc) {
    Apply(g, At(s, t, pc), t, ch) == Some(At(s', t, pc'))
  }

  lemma MoveOutside(g: Grain, s: State, t: Thread, pc: Pc, ch: Choice, m: Move)
    requires Decide(g, At(s, t, pc), pc, ch) == Some(m) && s.mutex == None && !InLock(pc) && !InLock(m.pc)
    ensures Moves(g, s, t, pc, ch, Effect(s, m.op), m.pc)
  {
    AtAt(s, t, pc, m.pc);
  }

  lemma MoveIn(g: Grain, s: State, t: Thread, pc: Pc, ch: Choice, pc': Pc)
    requires Decide(g, At(s, t, pc), pc, ch) == Some(Move(Nop, pc')) && InLock(pc')
    ensures Moves(g, s, t, pc, ch, s.(mutex := Some(t)), pc')
  {
    AtAt(s, t, pc, pc');
  }

  lemma MoveOut(g: Grain, s: State, t: Thread, pc: Pc, ch: Choice, m: Move)
    requires Decide(g, At(s, t, pc), pc, ch) == Some(m) && InLock(pc) && !InLock(m.pc)
    ensures Moves(g, s, t, pc, ch, Effect(s, m.op).(mutex := None), m.pc)
  {
    AtAt(s, t, pc, m.pc);
  }

  /** A call for a host with a live entry shares it: one more user, nothing dialled, nothing else changed. */
  lemma AcquireShares(g: Grain, s: State, t: Thread, h: HostId, e: ClientId)
    requires t in s.pcs && s.pcs[t] == Idle && s.mutex == None
    requires h in s.conns && s.conns[h] == e && e in s.entries && !s.entries[e].dead
    ensures Run(g, s, [(t, Acquire(h))] + ([(t, Go)] + (if g.fuseAcquire then [(t, Go)] else [(t, Go)] + [(t, Go)])))
         == Some(s.(entries := s.entries[e := Entry(s.entries[e].host, s.entries[e].use + 1, false)],
                    pcs := s.pcs[t := Holding(e)]))
  {
    var locked := s.(mutex := Some(t));
    var shared := s.(entries := s.entries[e := Entry(s.entries[e].host, s.entries[e].use + 1, false)]);
    Stay(s, t, Idle);
    MoveOutside(g, s, t, Idle, Acquire(h), Move(Nop, Looking(h)));
    MoveIn(g, s, t, Looking(h), Go, Testing(h, e));
    RunFirst(g, s, t, Acquire(h), At(s, t, Looking(h)),
             [(t, Go)] + (if g.fuseAcquire then [(t, Go)] else [(t, Go)] + [(t, Go)]));
    RunFirst(g, At(s, t, Looking(h)), t, Go, At(locked, t, Testing(h, e)),
             if g.fuseAcquire then [(t, Go)] else [(t, Go)] + [(t, Go)]);
    TestsAndCounts(g, s, t, h, e, locked, shared);
  }

  lemma TestsAndCounts(g: Grain, s: State, t: Thread, h: HostId, e: ClientId, locked: State, shared: State)
    requires t in s.pcs && s.mutex == None && e in s.entries && !s.entries[e].dead
    requires locked == s.(mutex := Some(t))
    requires shared == s.(entries := s.entries[e := Entry(s.entries[e].host, s.entries[e].use + 1, false)])
    ensures Run(g, At(locked, t, Testing(h, e)), if g.fuseAcquire then [(t, Go)] else [(t, Go)] + [(t, Go)])
         == Some(At(shared, t, Holding(e)))
  {
    assert Effect(locked, AddUse(e, 1)).(mutex := None) == shared;
    if g.fuseAcquire {
      MoveOut(g, locked, t, Testing(h, e), Go, Move(AddUse(e, 1), Holding(e)));
      RunLast(g, At(locked, t, Testing(h, e)), t, Go, At(shared, t, Holding(e)));
    } else {
      MoveIn(g, locked, t, Testing(h, e), Go, Counting(e, None));
      MoveOut(g, locked, t, Counting(e, None), Go, Move(AddUse(e, 1), Holding(e)));
      RunFirst(g, At(locked, t, Testing(h, e)), t, Go, At(locked, t, Counting(e, None)), [(t, Go)]);
      RunLast(g, At(locked, t, Counting(e, None)), t, Go, At(shared, t, Holding(e)));
    }
  }

  /** A call for a host without an entry dials, and enters what it dialled under that host with itself as the user. */
  lemma AcquireDials(g: Grain, s: State, t: Thread, h: HostId, c: ClientId)
    requires t in s.pcs && s.pcs[t] == Idle && s.mutex == None && h !in s.conns && c !in s.dialed
    ensures Run(g, s, [(t, Acquire(h))] + ([(t, Go)] + ([(t, DialOk(c))] + [(t, Go)])))
         == Some(s.(dialed := s.dialed + {c}, entries := s.entries[c := Entry(h, 1, false)], conns := s.conns[h := c],
                    pcs := s.pcs[t := Holding(c)]))
    ensures Run(g, s, [(t, Acquire(h))] + ([(t, Go)] + [(t, DialFails)])) == Some(s)
  {
    var dialled := s.(dialed := s.dialed + {c});
    Stay(s, t, Idle);
    MoveOutside(g, s, t, Idle, Acquire(h), Move(Nop, Looking(h)));
    MoveOutside(g, s, t, Looking(h), Go, Move(Nop, Dialing(h)));
    MoveOutside(g, s, t, Dialing(h), DialOk(c), Move(Dial(c), Dialed(h, c)));
    MoveOutside(g, s, t, Dialing(h), DialFails, Move(Nop, Idle));
    MoveOutside(g, dialled, t, Dialed(h, c), Go, Move(Insert(h, c), Holding(c)));
    RunFirst(g, s, t, Acquire(h), At(s, t, Looking(h)), [(t, Go)] + ([(t, DialOk(c))] + [(t, Go)]));
    RunFirst(g, At(s, t, Looking(h)), t, Go, At(s, t, Dialing(h)), [(t, DialOk(c))] + [(t, Go)]);
    RunFirst(g, At(s, t, Dialing(h)), t, DialOk(c), At(dialled, t, Dialed(h, c)), [(t, Go)]);
    RunLast(g, At(dialled, t, Dialed(h, c)), t, Go, At(Effect(dialled, Insert(h, c)), t, Holding(c)));
    RunFirst(g, s, t, Acquire(h), At(s, t, Looking(h)), [(t, Go)] + [(t, DialFails)]);
    RunFirst(g, At(s, t, Looking(h)), t, Go, At(s, t, Dialing(h)), [(t, DialFails)]);
    RunLast(g, At(s, t, Dialing(h)), t, DialFails, s);
  }

  /** Giving back a live entry with other users or none only counts down. */
  lemma ReleaseCounts(g: Grain, s: State, t: Thread, e: ClientId)
    requires t in s.pcs && s.pcs[t] == Holding(e) && s.mutex == None && e in s.entries && !s.entries[e].dead
    ensures Run(g, s, if s.entries[e].use > 1 || g.fuseRelease then [(t, Go)] else [(t, Go)] + [(t, Go)])
         == Some(s.(entries := s.entries[e := Entry(s.entries[e].host, s.entries[e].use - 1, false)], pcs := s.pcs[t := Idle]))
  {
    var less := Effect(s, AddUse(e, -1));
    assert less.entries[e] == Entry(s.entries[e].host, s.entries[e].use - 1, false);
    Stay(s, t, Holding(e));
    if s.entries[e].use > 1 || g.fuseRelease {
      MoveOutside(g, s, t, Holding(e), Go, Move(AddUse(e, -1), Idle));
      RunLast(g, s, t, Go, At(less, t, Idle));
    } else {
      MoveOutside(g, s, t, Holding(e), Go, Move(AddUse(e, -1), Released(e)));
      MoveOutside(g, less, t, Released(e), Go, Move(Nop, Idle));
      RunFirst(g, s, t, Go, At(less, t, Released(e)), [(t, Go)]);
      RunLast(g, At(less, t, Released(e)), t, Go, At(less, t, Idle));
    }
  }

  /** Marking a live entry dead takes it out of the map, and closes its client if nobody uses it. */
  lemma MarkDeadEvicts(g: Grain, s: State, t: Thread, h: HostId, e: ClientId)
    requires t in s.pcs && s.pcs[t] == Idle && s.mutex == None
    requires h in s.conns && s.conns[h] == e && e in s.entries && s.entries[e].host == h && !s.entries[e].dead
    ensures Run(g, s, [(t, MarkDead(e))] + ([(t, Go)] + ([(t, Go)] + (if s.entries[e].use <= 0 then [(t, Go)] + [(t, Go)] else [(t, Go)]))))
         == Some(s.(entries := s.entries[e := Entry(h, s.entries[e].use, true)], conns := s.conns - {h},
                    closed := if s.entries[e].use <= 0 then s.closed + {e} else s.closed))
  {
    var killed := Effect(s, Kill(e));
    var out := Effect(killed, Unmap(h));
    var rest := if s.entries[e].use <= 0 then [(t, Go)] + [(t, Go)] else [(t, Go)];
    Stay(s, t, Idle);
    MoveOutside(g, s, t, Idle, MarkDead(e), Move(Nop, Marking(e)));
    MoveOutside(g, s, t, Marking(e), Go, Move(Kill(e), Unmapping(e)));
    MoveOutside(g, killed, t, Unmapping(e), Go, Move(Unmap(h), Checking(e)));
    RunFirst(g, s, t, MarkDead(e), At(s, t, Marking(e)), [(t, Go)] + ([(t, Go)] + rest));
    RunFirst(g, At(s, t, Marking(e)), t, Go, At(killed, t, Unmapping(e)), [(t, Go)] + rest);
    RunFirst(g, At(killed, t, Unmapping(e)), t, Go, At(out, t, Checking(e)), rest);
    Checks(g, out, t, e, rest);
    Stay(out, t, Idle);
  }

  lemma Checks(g: Grain, s: State, t: Thread, e: ClientId, rest: seq<(Thread, Choice)>)
    requires t in s.pcs && s.mutex == None && e in s.entries
    requires rest == if s.entries[e].use <= 0 then [(t, Go)] + [(t, Go)] else [(t, Go)]
    ensures Run(g, At(s, t, Checking(e)), rest)
         == Some(At(s.(closed := if s.entries[e].use <= 0 then s.closed + {e} else s.closed), t, Idle))
  {
    if s.entries[e].use <= 0 {
      MoveOutside(g, s, t, Checking(e), Go, Move(Nop, MarkClose(e)));
      MoveOutside(g, s, t, MarkClose(e), Go, Move(Close(e), Idle));
      RunFirst(g, At(s, t, Checking(e)), t, Go, At(s, t, MarkClose(e)), [(t, Go)]);
      RunLast(g, At(s, t, MarkClose(e)), t, Go, At(Effect(s, Close(e)), t, Idle));
    } else {
      MoveOutside(g, s, t, Checking(e), Go, Move(Nop, Idle));
      RunLast(g, At(s, t, Checking(e)), t, Go, At(s, t, Idle));
    }
  }
}
