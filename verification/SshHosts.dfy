/**
 Whose client a caller of the SSH pool gets (internal/remote/exec.go, acquireEntry): over any schedule, one that was
 dialled for the host the caller asked for.
 */
module SshHosts {
  import opened Options
  import opened SshPool

  /** The host of each goroutine's latest call, and the host each client was dialled for. */
  datatype Log = Log(asked: map<Thread, HostId>, dialledFor: map<ClientId, HostId>)

  /** A call begins where an idle goroutine acquires; a client is dialled for the host its goroutine asked for. */
  function Noted(log: Log, pc: Pc, t: Thread, ch: Choice): Log {
    if pc.Idle? && ch.Acquire? then log.(asked := log.asked[t := ch.h])
    else if pc.Dialing? && ch.DialOk? && t in log.asked then log.(dialledFor := log.dialledFor[ch.c := log.asked[t]])
    else log
  }

  /** The log of a schedule: kept beside the run, and not looked at by it. */
  ghost function LogOf(g: Grain, s0: State, schedule: seq<(Thread, Choice)>): Log {
    if schedule == [] then Log(map[], map[])
    else
      var front, t, ch := schedule[..|schedule| - 1], schedule[|schedule| - 1].0, schedule[|schedule| - 1].1;
      var s := Run(g, s0, front);
      if s.None? || t !in s.value.pcs then LogOf(g, s0, front)
      else Noted(LogOf(g, s0, front), s.value.pcs[t], t, ch)
  }

  /** What a program counter knows of its host is the host asked for. */
  predicate PcAgrees(s: State, log: Log, t: Thread)
    requires t in s.pcs
  {
    match s.pcs[t]
    case Looking(h) => Asked(log, t, h)
    case Testing(h, e) => Asked(log, t, h)
    case Counting(e, _) => e in s.entries && Asked(log, t, s.entries[e].host)
    case Sweeping(h, _) => Asked(log, t, h)
    case SweepClose(h, _) => Asked(log, t, h)
    case Dialing(h) => Asked(log, t, h)
    case Dialed(h, _) => Asked(log, t, h)
    case Rechecking(h, _, e) => Asked(log, t, h)
    case Discarding(e, _) => e in s.entries && Asked(log, t, s.entries[e].host)
    case Holding(e) => e in s.entries && Asked(log, t, s.entries[e].host)
    case _ => true
  }

  predicate Asked(log: Log, t: Thread, h: HostId) {
    t in log.asked && log.asked[t] == h
  }

  /** A client on its way with the goroutine was dialled for the host it asked for. */
  predicate DialledForIt(s: State, log: Log, t: Thread, c: ClientId) {
    t in s.pcs && Carries(s.pcs[t], c) ==> t in log.asked && c in log.dialledFor && log.dialledFor[c] == log.asked[t]
  }

  ghost predicate CarriesOwn(s: State, log: Log) {
    forall t, c :: DialledForIt(s, log, t, c)
  }

  ghost predicate EntriesAgree(s: State, log: Log) {
    && (forall e :: e in s.entries ==> e in log.dialledFor && log.dialledFor[e] == s.entries[e].host)
    && (forall c :: c in log.dialledFor ==> c in s.dialed)
  }

  ghost predicate Agrees(s: State, log: Log) {
    && (forall t :: t in s.pcs ==> PcAgrees(s, log, t))
    && CarriesOwn(s, log) && EntriesAgree(s, log)
  }

  // ---- Every step keeps it ----

  lemma OwnPcAgrees(g: Grain, s: State, t: Thread, ch: Choice, log: Log)
    requires Mapping(s) && t in s.pcs && PcSound(s, s.pcs[t]) && PcAgrees(s, log, t) && CarriesOwn(s, log)
    requires Decide(g, s, s.pcs[t], ch).Some?
    ensures PcAgrees(Perform(s, t, Decide(g, s, s.pcs[t], ch).value), Noted(log, s.pcs[t], t, ch), t)
  {
  }

  lemma OtherPcAgrees(s: State, t: Thread, m: Move, u: Thread, log: Log, log': Log)
    requires t in s.pcs && u in s.pcs && u != t && PcAgrees(s, log, u) && Grows(s, Effect(s, m.op))
    requires u in log.asked ==> u in log'.asked && log'.asked[u] == log.asked[u]
    ensures PcAgrees(Perform(s, t, m), log', u)
  {
  }

  /** What is noted of others stays: only an idle goroutine's call is renewed, and only a new client is dialled. */
  lemma NotedKeeps(g: Grain, s: State, t: Thread, ch: Choice, log: Log)
    requires t in s.pcs && Decide(g, s, s.pcs[t], ch).Some? && EntriesAgree(s, log)
    ensures var log' := Noted(log, s.pcs[t], t, ch);
      && (forall u :: u in log.asked && (u != t || !s.pcs[t].Idle?) ==> u in log'.asked && log'.asked[u] == log.asked[u])
      && (forall c :: c in log.dialledFor ==> c in log'.dialledFor && log'.dialledFor[c] == log.dialledFor[c])
  {
  }

  lemma DialNoted(g: Grain, s: State, t: Thread, ch: Choice, log: Log, c: ClientId)
    requires t in s.pcs && PcAgrees(s, log, t) && Decide(g, s, s.pcs[t], ch).Some?
    requires Decide(g, s, s.pcs[t], ch).value.op == Dial(c)
    ensures var log' := Noted(log, s.pcs[t], t, ch);
      t in log'.asked && c in log'.dialledFor && log'.dialledFor[c] == log'.asked[t]
  {
  }

  lemma CarrierKeeps(g: Grain, s: State, t: Thread, ch: Choice, log: Log, u: Thread, c: ClientId)
    requires t in s.pcs && PcAgrees(s, log, t) && CarriesOwn(s, log) && EntriesAgree(s, log)
    requires Decide(g, s, s.pcs[t], ch).Some? && u in s.pcs
    ensures DialledForIt(Perform(s, t, Decide(g, s, s.pcs[t], ch).value), Noted(log, s.pcs[t], t, ch), u, c)
  {
    NotedKeeps(g, s, t, ch, log);
    DecideClients(g, s, s.pcs[t], ch);
    if u == t && Decide(g, s, s.pcs[t], ch).value.op == Dial(c) {
      DialNoted(g, s, t, ch, log, c);
    } else {
      assert DialledForIt(s, log, u, c);
    }
  }

  /** Only a dial makes a client a goroutine's own. */
  lemma KeepsCarriesOwn(g: Grain, s: State, t: Thread, ch: Choice, log: Log)
    requires t in s.pcs && PcAgrees(s, log, t) && CarriesOwn(s, log) && EntriesAgree(s, log)
    requires Decide(g, s, s.pcs[t], ch).Some?
    ensures CarriesOwn(Perform(s, t, Decide(g, s, s.pcs[t], ch).value), Noted(log, s.pcs[t], t, ch))
  {
    var s' := Perform(s, t, Decide(g, s, s.pcs[t], ch).value);
    var log' := Noted(log, s.pcs[t], t, ch);
    forall u, c ensures DialledForIt(s', log', u, c) {
      if u in s.pcs {
        CarrierKeeps(g, s, t, ch, log, u, c);
      }
    }
  }

  lemma InsertsForItsHost(g: Grain, s: State, t: Thread, ch: Choice, log: Log)
    requires t in s.pcs && PcAgrees(s, log, t) && Decide(g, s, s.pcs[t], ch).Some?
    requires Decide(g, s, s.pcs[t], ch).value.op.Insert?
    ensures var op := Decide(g, s, s.pcs[t], ch).value.op; Asked(log, t, op.h) && Carries(s.pcs[t], op.c)
  {
  }

  /** An entry is made for the host its goroutine asked for, and keeps its host. */
  lemma EntryAgrees(g: Grain, s: State, t: Thread, ch: Choice, log: Log, e: ClientId)
    requires t in s.pcs && PcAgrees(s, log, t) && CarriesOwn(s, log) && EntriesAgree(s, log)
    requires Decide(g, s, s.pcs[t], ch).Some? && e in Effect(s, Decide(g, s, s.pcs[t], ch).value.op).entries
    ensures e in log.dialledFor && log.dialledFor[e] == Effect(s, Decide(g, s, s.pcs[t], ch).value.op).entries[e].host
  {
    var m := Decide(g, s, s.pcs[t], ch).value;
    if m.op.Insert? && m.op.c == e {
      assert DialledForIt(s, log, t, e);
      InsertsForItsHost(g, s, t, ch, log);
    }
  }

  lemma DialledIsDialed(g: Grain, s: State, t: Thread, ch: Choice, log: Log, c: ClientId)
    requires t in s.pcs && EntriesAgree(s, log) && Decide(g, s, s.pcs[t], ch).Some?
    requires c in Noted(log, s.pcs[t], t, ch).dialledFor
    ensures c in Effect(s, Decide(g, s, s.pcs[t], ch).value.op).dialed
  {
  }

  lemma KeepsEntriesAgree(g: Grain, s: State, t: Thread, ch: Choice, log: Log)
    requires t in s.pcs && PcAgrees(s, log, t) && CarriesOwn(s, log) && EntriesAgree(s, log)
    requires Decide(g, s, s.pcs[t], ch).Some?
    ensures EntriesAgree(Perform(s, t, Decide(g, s, s.pcs[t], ch).value), Noted(log, s.pcs[t], t, ch))
  {
    var s', log' := Perform(s, t, Decide(g, s, s.pcs[t], ch).value), Noted(log, s.pcs[t], t, ch);
    NotedKeeps(g, s, t, ch, log);
    forall e | e in s'.entries ensures e in log'.dialledFor && log'.dialledFor[e] == s'.entries[e].host {
      EntryAgrees(g, s, t, ch, log, e);
    }
    forall c | c in log'.dialledFor ensures c in s'.dialed {
      DialledIsDialed(g, s, t, ch, log, c);
    }
  }

  lemma StepAgrees(g: Grain, s: State, t: Thread, ch: Choice, log: Log)
    requires Inv(s) && Agrees(s, log) && t in s.pcs && Decide(g, s, s.pcs[t], ch).Some?
    ensures Agrees(Perform(s, t, Decide(g, s, s.pcs[t], ch).value), Noted(log, s.pcs[t], t, ch))
  {
    var m, log' := Decide(g, s, s.pcs[t], ch).value, Noted(log, s.pcs[t], t, ch);
    DecideLegal(g, s, t, ch);
    KeepsEntries(s, t, m);
    OwnPcAgrees(g, s, t, ch, log);
    forall u | u in s.pcs && u != t ensures PcAgrees(Perform(s, t, m), log', u) {
      OtherPcAgrees(s, t, m, u, log, log');
    }
    KeepsCarriesOwn(g, s, t, ch, log);
    KeepsEntriesAgree(g, s, t, ch, log);
  }

  lemma {:induction false} ScheduleAgrees(g: Grain, threads: set<Thread>, schedule: seq<(Thread, Choice)>)
    requires Run(g, Init(threads), schedule).Some?
    ensures Inv(Run(g, Init(threads), schedule).value)
    ensures Agrees(Run(g, Init(threads), schedule).value, LogOf(g, Init(threads), schedule))
  {
    InitInv(threads);
    RunKeepsInv(g, Init(threads), schedule);
    if schedule != [] {
      var front, t, ch := schedule[..|schedule| - 1], schedule[|schedule| - 1].0, schedule[|schedule| - 1].1;
      assert schedule == front + [(t, ch)];
      RunFront(g, Init(threads), front, (t, ch));
      ScheduleAgrees(g, threads, front);
      RunSnoc(g, Init(threads), front, t, ch);
      StepAgrees(g, Run(g, Init(threads), front).value, t, ch, LogOf(g, Init(threads), front));
    }
  }

  lemma {:induction false} RunFront(g: Grain, s: State, schedule: seq<(Thread, Choice)>, last: (Thread, Choice))
    requires Run(g, s, schedule + [last]).Some?
    ensures Run(g, s, schedule).Some?
    decreases |schedule|
  {
    if schedule != [] {
      assert (schedule + [last])[1..] == schedule[1..] + [last];
      RunFront(g, Apply(g, s, schedule[0].0, schedule[0].1).value, schedule[1..], last);
    }
  }

  /**
   At every grain and over every schedule, the entry a goroutine holds is entered under the host its latest call asked
   for, and its client was dialled for that host.
   */
  lemma CallerGetsItsHost(g: Grain, threads: set<Thread>, schedule: seq<(Thread, Choice)>, t: Thread, e: ClientId)
    requires Run(g, Init(threads), schedule).Some?
    requires var s := Run(g, Init(threads), schedule).value; t in s.pcs && Holds(s.pcs[t], e)
    ensures var s, log := Run(g, Init(threads), schedule).value, LogOf(g, Init(threads), schedule);
      && e in s.entries && t in log.asked && s.entries[e].host == log.asked[t]
      && e in log.dialledFor && log.dialledFor[e] == log.asked[t]
  {
    ScheduleAgrees(g, threads, schedule);
    assert PcAgrees(Run(g, Init(threads), schedule).value, LogOf(g, Init(threads), schedule), t);
  }

  /** What is in the map under a host was dialled for that host, by a goroutine that asked for it. */
  lemma MappedUnderItsHost(g: Grain, threads: set<Thread>, schedule: seq<(Thread, Choice)>, h: HostId)
    requires Run(g, Init(threads), schedule).Some? && h in Run(g, Init(threads), schedule).value.conns
    ensures var s, log := Run(g, Init(threads), schedule).value, LogOf(g, Init(threads), schedule);
      s.conns[h] in log.dialledFor && log.dialledFor[s.conns[h]] == h
  {
    ScheduleAgrees(g, threads, schedule);
  }
}
