/**
 The pipelines of the CI/CD engine as its methods change them (internal/cicd/engine.go and cron.go): saving,
 deleting, importing, rebuilding the cron index, rolling off runs, and firing on the minute.
 */
module Pipelines {
  import opened Cron
  import opened Firing
  import opened NextFire
  import opened Options
  import opened PipelineLists
  import opened PipelineNames
  import opened Lists
  import opened RunHistory
  import opened Text

  /** A run of the history, as far as the pipeline methods look at it. */
  datatype RunEntry = RunEntry(id: string, pipeline: string, active: bool)

  function RunOf(id: string): RunEntry -> bool {
    (r: RunEntry) => r.pipeline == id
  }

  function RunOfOther(id: string): RunEntry -> bool {
    (r: RunEntry) => r.pipeline != id
  }

  /** The same runs in the same order, none of them active any more. */
  ghost predicate AllEnded(before: seq<RunEntry>, after: seq<RunEntry>) {
    |after| == |before| && forall k :: 0 <= k < |before| ==> after[k] == before[k].(active := false)
  }

  // ---- Rolling off ----

  /** How many runs a pipeline keeps; with distinct ids, what its own definition says. */
  function KeptRuns(pipes: seq<Pipeline>, id: string): (n: nat)
    ensures n >= 1
  {
    if pipes == [] then DEFAULT_MAX_RUNS
    else if pipes[|pipes| - 1].id == id && pipes[|pipes| - 1].maxRuns > 0 then pipes[|pipes| - 1].maxRuns
    else KeptRuns(pipes[..|pipes| - 1], id)
  }

  lemma {:induction false} KeptRunsOf(pipes: seq<Pipeline>, i: nat)
    requires IdsDistinct(pipes) && i < |pipes|
    ensures KeptRuns(pipes, pipes[i].id) == if pipes[i].maxRuns > 0 then pipes[i].maxRuns else 50
  {
    var n := |pipes| - 1;
    if i < n {
      assert pipes[..n][i] == pipes[i] && pipes[i].id != pipes[n].id;
      KeptRunsOf(pipes[..n], i);
    } else {
      KeptRunsAbsent(pipes[..n], pipes[i].id);
      assert pipes[i].maxRuns <= 0 ==> KeptRuns(pipes, pipes[i].id) == KeptRuns(pipes[..n], pipes[i].id);
    }
  }

  lemma {:induction false} KeptRunsAbsent(pipes: seq<Pipeline>, id: string)
    requires forall i :: 0 <= i < |pipes| ==> pipes[i].id != id
    ensures KeptRuns(pipes, id) == DEFAULT_MAX_RUNS
  {
    if pipes != [] {
      KeptRunsAbsent(pipes[..|pipes| - 1], id);
    }
  }

  // ---- The invariant, on values ----

  /** Distinct ids and names, an exact cron index, and books of what was fired. Ids are never drawn twice. */
  ghost predicate Coherent(pipes: seq<Pipeline>, crons: Crons, lastFire: map<string, nat>, b: Books) {
    && IdsDistinct(pipes) && NamesDistinct(pipes)
    && IndexExact(pipes, crons)
    && FireBooks(pipes, lastFire, b)
    && "" in b.used
    && (forall i :: 0 <= i < |pipes| ==> pipes[i].id in b.used && pipes[i].id != "")
    && (forall i :: 0 <= i < |b.log| ==> b.log[i].id in b.used)
    && (forall i :: 0 <= i < |b.due| ==> b.due[i].id in b.used)
  }

  lemma CoherentStart(pipes: seq<Pipeline>)
    requires IdsDistinct(pipes) && NamesDistinct(pipes) && forall i :: 0 <= i < |pipes| ==> pipes[i].id != ""
    ensures Coherent(pipes, Reindexed(map[], pipes), map[], Books([], [], 0, Ids(pipes) + {""}))
  {
    FreshIsExact(pipes);
    NothingFired(pipes, Ids(pipes) + {""});
  }

  lemma NothingFired(pipes: seq<Pipeline>, used: set<string>)
    ensures FireBooks(pipes, map[], Books([], [], 0, used))
  {
    assert forall id :: Stamped(map[], [], 0, id);
  }

  function Ids(pipes: seq<Pipeline>): set<string> {
    set i | 0 <= i < |pipes| :: pipes[i].id
  }

  lemma MoreIds(pipes: seq<Pipeline>, p: Pipeline)
    ensures forall id :: HasId(pipes + [p], id) <==> HasId(pipes, id) || id == p.id
  {
    var more := pipes + [p];
    assert more[|pipes|] == p && forall i :: 0 <= i < |pipes| ==> more[i] == pipes[i];
  }

  lemma CoherentAppend(pipes: seq<Pipeline>, crons: Crons, lastFire: map<string, nat>, b: Books, p: Pipeline)
    requires Coherent(pipes, crons, lastFire, b)
    requires p.id !in b.used && forall i :: 0 <= i < |pipes| ==> pipes[i].name != p.name
    ensures Coherent(pipes + [p], Indexed(crons, p), lastFire, b.(used := b.used + {p.id}))
    ensures Indexed(crons, p) == Refreshed(crons, p)
  {
    DistinctAppend(pipes, p);
    IndexAppend(pipes, p, crons);
    IndexAppendRefreshed(pipes, p, crons);
    MoreIds(pipes, p);
  }

  lemma CoherentUpdate(pipes: seq<Pipeline>, crons: Crons, lastFire: map<string, nat>, b: Books, i: nat, p: Pipeline)
    requires Coherent(pipes, crons, lastFire, b)
    requires i < |pipes| && pipes[i].id == p.id && (pipes[i].name == p.name || !NameTaken(pipes, p.id, p.name))
    ensures Coherent(pipes[i := p], Refreshed(crons, p), lastFire, b)
    ensures !NameTaken(pipes, p.id, p.name)
  {
    IndexUpdate(pipes, i, p, crons);
    SameIds(pipes, i, p);
  }

  lemma CoherentRemove(pipes: seq<Pipeline>, crons: Crons, lastFire: map<string, nat>, b: Books, i: nat)
    requires Coherent(pipes, crons, lastFire, b) && i < |pipes|
    ensures Coherent(pipes[..i] + pipes[i + 1..], crons - {pipes[i].id}, lastFire - {pipes[i].id}, b)
  {
    DistinctRemove(pipes, i);
    IndexRemove(pipes, i, crons);
    RemoveIds(pipes, i);
    CutIndex(pipes, i);
    var left := lastFire - {pipes[i].id};
    forall id ensures Stamped(left, b.log, b.latest, id) {
      assert Stamped(lastFire, b.log, b.latest, id);
    }
  }

  lemma CoherentScan(pipes: seq<Pipeline>, crons: Crons, lastFire: map<string, nat>, b: Books, t: nat)
    requires Coherent(pipes, crons, lastFire, b) && b.due == [] && b.latest <= t
    ensures Coherent(pipes, crons, lastFire, b.(due := DueNow(pipes, crons, lastFire, t), latest := t))
  {
    var due := DueNow(pipes, crons, lastFire, t);
    ScanKeepsBooks(pipes, crons, lastFire, b, t);
    forall i | 0 <= i < |due| ensures due[i].id in b.used {
      DueFresh(pipes, crons, lastFire, b, t, due[i]);
    }
  }

  lemma CoherentMark(pipes: seq<Pipeline>, crons: Crons, lastFire: map<string, nat>, b: Books)
    requires Coherent(pipes, crons, lastFire, b) && b.due != []
    ensures Coherent(pipes, crons, lastFire[b.due[0].id := b.latest], Triggered(b))
  {
    MarkKeepsBooks(pipes, lastFire, b);
  }

  ghost predicate FreshFrom(drawn: seq<Drawn>, n: nat, used: set<string>) {
    forall k :: n <= k < |drawn| ==> drawn[k].id !in used
  }

  lemma StillFresh(drawn: seq<Drawn>, n: nat, before: set<string>, after: set<string>)
    requires n < |drawn| && FreshFrom(drawn, n, before) && after <= before + {drawn[n].id}
    requires forall i, j :: 0 <= i < j < |drawn| ==> drawn[i].id != drawn[j].id
    ensures FreshFrom(drawn, n + 1, after)
  {
  }

  /** How far an import has come after n entries. */
  ghost predicate Importing(start: seq<Pipeline>, pipes: seq<Pipeline>, names: set<string>, imported: nat,
      taken: set<string>, list: seq<Pipeline>, drawn: seq<Drawn>, now: int, n: nat)
    requires n <= |list| == |drawn|
  {
    var part := Imported(taken, list, drawn, now, n);
    names == part.0 && pipes == start + part.1 && imported == |part.1|
  }

  lemma ImportingNext(start: seq<Pipeline>, pipes: seq<Pipeline>, names: set<string>, imported: nat,
      taken: set<string>, list: seq<Pipeline>, drawn: seq<Drawn>, now: int, n: nat, name: string, ok: bool)
    requires n < |list| == |drawn| && Importing(start, pipes, names, imported, taken, list, drawn, now, n)
    requires var p := Taken(list[n], names, drawn[n], now); name == p.name && ok == ShapeOk(p)
    ensures var more := if ok then pipes + [Taken(list[n], names, drawn[n], now)] else pipes;
      Importing(start, more, names + {name}, imported + (if ok then 1 else 0), taken, list, drawn, now, n + 1)
  {
    ImportedStep(taken, list, drawn, now, n);
    Assoc(start, Imported(taken, list, drawn, now, n).1, [Taken(list[n], names, drawn[n], now)]);
  }

  // ---- The engine's pipelines ----

  class Pipelines {
    var pipes: seq<Pipeline>
    var crons: Crons
    var lastFire: map<string, nat>
    var runs: seq<RunEntry>
    var toFire: seq<Fired>              // collected by the latest tick and not yet triggered
    ghost var log: seq<Fired>
    ghost var latest: nat
    ghost var used: set<string>

    ghost predicate Valid()
      reads this
    {
      Coherent(pipes, crons, lastFire, Books(log, toFire, latest, used))
    }

    /** Starts on what was stored. Runs that were queued or running when the engine stopped have failed. */
    constructor (loaded: seq<Pipeline>, history: seq<RunEntry>)
      requires IdsDistinct(loaded) && NamesDistinct(loaded) && forall i :: 0 <= i < |loaded| ==> loaded[i].id != ""
      ensures Valid() && pipes == loaded && toFire == [] && crons == Reindexed(map[], loaded)
      ensures AllEnded(history, runs)
    {
      pipes, runs, crons, lastFire, toFire := loaded, history, map[], map[], [];
      log, latest, used := [], 0, Ids(loaded) + {""};
      new;
      RecoverOrphans();
      ParseAll();
      assert Books(log, toFire, latest, used) == Books([], [], 0, Ids(loaded) + {""});
      assert crons == Reindexed(map[], loaded) && lastFire == map[];
      CoherentStart(loaded);
    }

    /** Marks what cannot be running any more as failed. */
    method RecoverOrphans()
      modifies this`runs
      ensures AllEnded(old(runs), runs)
    {
      var i := 0;
      while i < |runs|
        invariant 0 <= i <= |runs| == |old(runs)|
        invariant forall k :: 0 <= k < i ==> runs[k] == old(runs)[k].(active := false)
        invariant forall k :: i <= k < |runs| ==> runs[k] == old(runs)[k]
      {
        if runs[i].active {
          runs := runs[i := runs[i].(active := false)];
        }
        i := i + 1;
      }
    }

    /** Parses every pipeline's text into the index as it stands; an exact index stays as it is. */
    method RebuildCrons()
      modifies this`crons
      ensures crons == Reindexed(old(crons), pipes)
      ensures old(Valid()) ==> Valid() && crons == old(crons)
    {
      ParseAll();
      if Coherent(pipes, old(crons), lastFire, Books(log, toFire, latest, used)) {
        ReindexExact(pipes, old(crons));
      }
    }

    method ParseAll()
      modifies this`crons
      ensures crons == Reindexed(old(crons), pipes)
    {
      var i := 0;
      while i < |pipes|
        invariant 0 <= i <= |pipes| && crons == Reindexed(old(crons), pipes[..i])
      {
        TakeSnoc(pipes, i);
        ReindexedSnoc(old(crons), pipes[..i], pipes[i]);
        if pipes[i].cron != "" {
          var spec := ParseCron(pipes[i].cron);
          if spec.Some? {
            crons := crons[pipes[i].id := spec.value];
          }
        }
        i := i + 1;
      }
      assert pipes[..i] == pipes;
    }

    method FindName(name: string, except: string) returns (taken: bool)
      ensures taken == NameTaken(pipes, except, name)
    {
      var i := 0;
      while i < |pipes|
        invariant 0 <= i <= |pipes|
        invariant forall k :: 0 <= k < i ==> !(pipes[k].name == name && pipes[k].id != except)
      {
        if pipes[i].id != except && pipes[i].name == name {
          return true;
        }
        i := i + 1;
      }
      return false;
    }

    method FindPipe(id: string) returns (i: int)
      ensures -1 <= i < |pipes|
      ensures i >= 0 ==> pipes[i].id == id
      ensures i < 0 ==> !HasId(pipes, id)
    {
      i := 0;
      while i < |pipes|
        invariant 0 <= i <= |pipes| && forall k :: 0 <= k < i ==> pipes[k].id != id
      {
        if pipes[i].id == id {
          return;
        }
        i := i + 1;
      }
      return -1;
    }

    static method CheckArtifacts(stages: seq<Stage>) returns (ok: bool)
      ensures ok == ArtifactsNamed(stages)
    {
      var i := 0;
      while i < |stages|
        invariant 0 <= i <= |stages|
        invariant forall a, b :: 0 <= a < i && 0 <= b < |stages[a].steps| ==> StepArtifactNamed(stages[a].steps[b])
      {
        var j := 0;
        while j < |stages[i].steps|
          invariant 0 <= j <= |stages[i].steps|
          invariant forall b :: 0 <= b < j ==> StepArtifactNamed(stages[i].steps[b])
        {
          if !StepArtifactNamed(stages[i].steps[j]) {
            return false;
          }
          j := j + 1;
        }
        i := i + 1;
      }
      return true;
    }

    /**
     Creating or updating. It succeeds exactly on a saveable pipeline; a failure changes nothing; a success
     appends under the drawn id, or replaces the pipeline of that id and keeps its creation time.
     */
    method SavePipeline(q: Pipeline, drawn: Drawn, now: int) returns (saved: Option<Pipeline>)
      requires Valid() && drawn.id !in used
      modifies this`pipes, this`crons, this`used
      ensures Valid()
      ensures saved.Some? <==>
                && Trim(q.name) != "" && (Trim(q.cron) == "" || CronOf(Trim(q.cron)).Some?)
                && (forall i, j :: 0 <= i < |q.stages| && 0 <= j < |q.stages[i].steps| ==>
                      q.stages[i].steps[j].pullArtifact == "" || ArtifactName(q.stages[i].steps[j].pullArtifact))
                && (forall i :: 0 <= i < |old(pipes)| && old(pipes)[i].name == Trim(q.name) ==> old(pipes)[i].id == q.id)
                && (q.id != "" ==> exists i :: 0 <= i < |old(pipes)| && old(pipes)[i].id == q.id)
      ensures saved.None? ==> pipes == old(pipes) && crons == old(crons) && used == old(used)
      ensures saved.Some? ==>
                crons == if Trim(q.cron) == "" then old(crons) - {saved.value.id}
                         else old(crons)[saved.value.id := CronOf(Trim(q.cron)).value]
      ensures saved.Some? ==>
                saved.value == Pipeline(if q.id == "" then drawn.id else q.id, Trim(q.name), Trim(q.cron), q.webhook,
                                        if q.webhook && q.secret == "" then drawn.secret else q.secret,
                                        if q.maxRuns == 0 then 50 else q.maxRuns, q.stages, saved.value.created, now)
      ensures saved.Some? && q.id == "" ==> saved.value.created == now && pipes == old(pipes) + [saved.value]
      ensures saved.Some? && q.id != "" ==>
                exists i :: 0 <= i < |old(pipes)| && old(pipes)[i].id == q.id && pipes == old(pipes)[i := saved.value]
                            && saved.value.created == old(pipes)[i].created
    {
      var p := Normalized(q, drawn.secret);
      if p.name == "" {
        return None;
      }
      if p.cron != "" {
        var spec := ParseCron(p.cron);
        if spec.None? {
          return None;
        }
      }
      var named := CheckArtifacts(p.stages);
      if !named {
        return None;
      }
      if p.id == "" {
        saved := Create(p, drawn.id, now);
      } else {
        saved := Update(p, now);
      }
    }

    method Reindex(p: Pipeline)
      modifies this`crons
      ensures crons == Refreshed(old(crons), p)
    {
      if p.cron != "" {
        var spec := ParseCron(p.cron);
        if spec.Some? {
          crons := crons[p.id := spec.value];
          return;
        }
      }
      crons := crons - {p.id};
    }

    method Create(p: Pipeline, id: string, now: int) returns (saved: Option<Pipeline>)
      requires Valid() && p.id == "" && id !in used
      modifies this`pipes, this`crons, this`used
      ensures Valid()
      ensures saved.Some? <==> !NameTaken(old(pipes), "", p.name)
      ensures saved.None? ==> pipes == old(pipes) && crons == old(crons) && used == old(used)
      ensures saved.Some? ==> saved.value == p.(id := id, created := now, updated := now)
      ensures saved.Some? ==> pipes == old(pipes) + [saved.value] && crons == Refreshed(old(crons), saved.value)
    {
      var taken := FindName(p.name, "");
      if taken {
        return None;
      }
      var made := p.(id := id, created := now, updated := now);
      Adopt(made);
      return Some(made);
    }

    method Adopt(p: Pipeline)
      requires Valid() && p.id !in used && forall i :: 0 <= i < |pipes| ==> pipes[i].name != p.name
      modifies this`pipes, this`crons, this`used
      ensures Valid() && pipes == old(pipes) + [p] && crons == Refreshed(old(crons), p)
    {
      CoherentAppend(pipes, crons, lastFire, Books(log, toFire, latest, used), p);
      pipes, used := pipes + [p], used + {p.id};
      Reindex(p);
    }

    method Update(p: Pipeline, now: int) returns (saved: Option<Pipeline>)
      requires Valid() && p.id != ""
      modifies this`pipes, this`crons
      ensures Valid()
      ensures saved.Some? <==> HasId(old(pipes), p.id) && !NameTaken(old(pipes), p.id, p.name)
      ensures saved.None? ==> pipes == old(pipes) && crons == old(crons)
      ensures saved.Some? ==> crons == Refreshed(old(crons), saved.value)
      ensures saved.Some? ==> ReplacedBy(old(pipes), pipes, saved.value)
      ensures saved.Some? ==> saved.value == p.(created := saved.value.created, updated := now)
    {
      var i := FindPipe(p.id);
      if i < 0 {
        return None;
      }
      if pipes[i].name != p.name {
        var taken := FindName(p.name, p.id);
        if taken {
          return None;
        }
      }
      var made := p.(created := pipes[i].created, updated := now);
      Put(i, made);
      return Some(made);
    }

    method Put(i: nat, p: Pipeline)
      requires Valid() && i < |pipes| && pipes[i].id == p.id && (pipes[i].name == p.name || !NameTaken(pipes, p.id, p.name))
      modifies this`pipes, this`crons
      ensures Valid() && pipes == old(pipes)[i := p] && crons == Refreshed(old(crons), p)
      ensures !NameTaken(old(pipes), p.id, p.name)
    {
      CoherentUpdate(pipes, crons, lastFire, Books(log, toFire, latest, used), i, p);
      pipes := pipes[i := p];
      Reindex(p);
    }

    /** Refused while a run of it is active; otherwise the pipeline, its runs, its schedule and its fire mark go. */
    method DeletePipeline(id: string) returns (ok: bool)
      requires Valid()
      modifies this`pipes, this`crons, this`lastFire, this`runs
      ensures Valid()
      ensures ok <==> HasId(old(pipes), id) && !exists i :: 0 <= i < |old(runs)| && old(runs)[i].pipeline == id && old(runs)[i].active
      ensures !ok ==> pipes == old(pipes) && crons == old(crons) && lastFire == old(lastFire) && runs == old(runs)
      ensures ok ==> exists i :: 0 <= i < |old(pipes)| && old(pipes)[i].id == id && pipes == old(pipes)[..i] + old(pipes)[i + 1..]
      ensures ok ==> crons == old(crons) - {id} && lastFire == old(lastFire) - {id} && runs == Filter(RunOfOther(id), old(runs))
      ensures ok ==> forall r: RunEntry :: r in runs <==> r in old(runs) && r.pipeline != id
    {
      var busy := HasActive(id);
      if busy {
        return false;
      }
      var idx := FindPipe(id);
      if idx < 0 {
        return false;
      }
      CoherentRemove(pipes, crons, lastFire, Books(log, toFire, latest, used), idx);
      var rest := RunsWithout(id);
      pipes := pipes[..idx] + pipes[idx + 1..];
      FilterMembersAll(RunOfOther(id), runs);
      runs, crons, lastFire := rest, crons - {id}, lastFire - {id};
      return true;
    }

    method HasActive(id: string) returns (busy: bool)
      ensures busy <==> exists i :: 0 <= i < |runs| && runs[i].pipeline == id && runs[i].active
    {
      var k := 0;
      while k < |runs|
        invariant 0 <= k <= |runs| && forall i :: 0 <= i < k ==> !(runs[i].pipeline == id && runs[i].active)
      {
        if runs[k].pipeline == id && runs[k].active {
          return true;
        }
        k := k + 1;
      }
      return false;
    }

    method RunsWithout(id: string) returns (rest: seq<RunEntry>)
      ensures rest == Filter(RunOfOther(id), runs)
    {
      rest := [];
      var k := 0;
      while k < |runs|
        invariant 0 <= k <= |runs| && rest == Filter(RunOfOther(id), runs[..k])
      {
        TakeSnoc(runs, k);
        FilterSnoc(RunOfOther(id), runs[..k], runs[k]);
        if runs[k].pipeline != id {
          rest := rest + [runs[k]];
        }
        k := k + 1;
      }
      assert runs[..k] == runs;
    }

    /** Rolling off: the other pipelines' runs, then the newest of this one's. */
    method PruneRuns(id: string)
      modifies this`runs
      ensures runs == Prune(old(runs), RunOf(id), KeptRuns(pipes, id))
      ensures forall r: RunEntry :: r.pipeline != id ==> (r in runs <==> r in old(runs))
      ensures old(Valid()) ==> Valid()
    {
      var keep, mine := SortOut(id);
      var maxN := MaxRunsOf(id);
      PruneAs(runs, RunOf(id), RunOfOther(id), maxN);
      if |mine| > maxN {
        mine := mine[|mine| - maxN..];
      }
      FilterMembersAll(RunOfOther(id), runs);
      FilterMembersAll(RunOf(id), runs);
      runs := keep + mine;
    }

    method SortOut(id: string) returns (keep: seq<RunEntry>, mine: seq<RunEntry>)
      ensures keep == Filter(RunOfOther(id), runs) && mine == Filter(RunOf(id), runs)
    {
      keep, mine := [], [];
      var k := 0;
      while k < |runs|
        invariant 0 <= k <= |runs|
        invariant keep == Filter(RunOfOther(id), runs[..k]) && mine == Filter(RunOf(id), runs[..k])
      {
        TakeSnoc(runs, k);
        FilterSnoc(RunOfOther(id), runs[..k], runs[k]);
        FilterSnoc(RunOf(id), runs[..k], runs[k]);
        if runs[k].pipeline == id {
          mine := mine + [runs[k]];
        } else {
          keep := keep + [runs[k]];
        }
        k := k + 1;
      }
      assert runs[..k] == runs;
    }

    method MaxRunsOf(id: string) returns (maxN: nat)
      ensures maxN == KeptRuns(pipes, id)
    {
      maxN := DEFAULT_MAX_RUNS;
      var k := 0;
      while k < |pipes|
        invariant 0 <= k <= |pipes| && maxN == KeptRuns(pipes[..k], id)
      {
        TakeSnoc(pipes, k);
        assert pipes[..k + 1][..k] == pipes[..k];
        if pipes[k].id == id && pipes[k].maxRuns > 0 {
          maxN := pipes[k].maxRuns;
        }
        k := k + 1;
      }
      assert pipes[..k] == pipes;
    }

    /** Importing up to 100 pipelines; the pipelines already there stay as they are. */
    method ImportPipeline(list: seq<Pipeline>, drawn: seq<Drawn>, now: int) returns (r: Option<(nat, nat)>)
      requires Valid() && |drawn| == |list|
      requires forall i, j :: 0 <= i < j < |drawn| ==> drawn[i].id != drawn[j].id
      requires forall i :: 0 <= i < |drawn| ==> drawn[i].id !in used
      modifies this`pipes, this`crons, this`used
      ensures Valid()
      ensures r.Some? <==> 0 < |list| <= 100
      ensures r.None? ==> pipes == old(pipes) && crons == old(crons)
      ensures r.Some? ==> pipes == old(pipes) + Imported(Names(old(pipes)), list, drawn, now, |list|).1
      ensures r.Some? ==> r.value.0 == |pipes| - |old(pipes)| && r.value.0 + r.value.1 == |list|
    {
      if |list| == 0 || |list| > 100 {
        return None;
      }
      var names := AllNames();
      var imported := ImportAll(names, list, drawn, now);
      return Some((imported, |list| - imported));
    }

    method ImportAll(taken: set<string>, list: seq<Pipeline>, drawn: seq<Drawn>, now: int) returns (imported: nat)
      requires Valid() && taken == Names(pipes) && |drawn| == |list|
      requires forall i, j :: 0 <= i < j < |drawn| ==> drawn[i].id != drawn[j].id
      requires forall i :: 0 <= i < |drawn| ==> drawn[i].id !in used
      modifies this`pipes, this`crons, this`used
      ensures Valid() && pipes == old(pipes) + Imported(taken, list, drawn, now, |list|).1
      ensures imported == |Imported(taken, list, drawn, now, |list|).1|
    {
      imported := 0;
      var names := taken;
      var i := 0;
      assert old(pipes) + [] == pipes;
      while i < |list|
        invariant 0 <= i <= |list| && Valid()
        invariant Importing(old(pipes), pipes, names, imported, taken, list, drawn, now, i)
        invariant Names(pipes) <= names
        invariant FreshFrom(drawn, i, used)
      {
        names, imported := ImportNext(old(pipes), taken, names, imported, list, drawn, now, i);
        i := i + 1;
      }
      assert i == |list|;
    }

    /** One round of the loop, on entry i. */
    method ImportNext(ghost start: seq<Pipeline>, ghost taken: set<string>, names: set<string>, imported: nat,
        list: seq<Pipeline>, drawn: seq<Drawn>, now: int, i: nat) returns (moreNames: set<string>, more: nat)
      requires Valid() && i < |list| == |drawn|
      requires forall a, b :: 0 <= a < b < |drawn| ==> drawn[a].id != drawn[b].id
      requires Importing(start, pipes, names, imported, taken, list, drawn, now, i)
      requires Names(pipes) <= names && FreshFrom(drawn, i, used)
      modifies this`pipes, this`crons, this`used
      ensures Valid() && Importing(start, pipes, moreNames, more, taken, list, drawn, now, i + 1)
      ensures Names(pipes) <= moreNames && FreshFrom(drawn, i + 1, used)
    {
      ghost var before, shown := used, pipes;
      var name, ok := ImportOne(list[i], names, drawn[i], now);
      ImportingNext(start, shown, names, imported, taken, list, drawn, now, i, name, ok);
      StillFresh(drawn, i, before, used);
      moreNames, more := names + {name}, imported + if ok then 1 else 0;
    }

    method AllNames() returns (names: set<string>)
      ensures names == Names(pipes)
    {
      names := {};
      var i := 0;
      while i < |pipes|
        invariant 0 <= i <= |pipes| && names == Names(pipes[..i])
      {
        NamesSnoc(pipes, i);
        names := names + {pipes[i].name};
        i := i + 1;
      }
      assert pipes[..i] == pipes;
    }

    /** The name an entry of the list takes, and whether it is taken in or skipped. */
    method ImportOne(q: Pipeline, names: set<string>, drawn: Drawn, now: int) returns (name: string, taken: bool)
      requires Valid() && Names(pipes) <= names && drawn.id !in used
      modifies this`pipes, this`crons, this`used
      ensures Valid() && name == Taken(q, names, drawn, now).name && taken == ShapeOk(Taken(q, names, drawn, now))
      ensures pipes == if taken then old(pipes) + [Taken(q, names, drawn, now)] else old(pipes)
      ensures Names(pipes) <= names + {name} && used <= old(used) + {drawn.id}
    {
      name := Rename(names, q.name);
      var p := q.(id := drawn.id, name := name, secret := if q.webhook then drawn.secret else "", created := now, updated := now);
      taken := ShapeOk(p);
      if taken {
        Accept(p);
      }
    }

    method Accept(p: Pipeline)
      requires Valid() && p.id !in used && p.name !in Names(pipes)
      modifies this`pipes, this`crons, this`used
      ensures Valid() && pipes == old(pipes) + [p] && used == old(used) + {p.id}
      ensures Names(pipes) == Names(old(pipes)) + {p.name}
    {
      NamesAppend(pipes, p);
      CoherentAppend(pipes, crons, lastFire, Books(log, toFire, latest, used), p);
      pipes, used := pipes + [p], used + {p.id};
      Index(p);
    }

    method Index(p: Pipeline)
      modifies this`crons
      ensures crons == Indexed(old(crons), p)
    {
      if p.cron != "" {
        var spec := ParseCron(p.cron);
        if spec.Some? {
          crons := crons[p.id := spec.value];
        }
      }
    }

    /**
     The first part of a tick, under the read lock: the due pipelines are collected. Ticks do not go back, and
     each one is through before the next. Everything that matches the minute was triggered in it or is collected.
     */
    method Scan(t: nat)
      requires Valid() && toFire == [] && latest <= t
      modifies this`toFire, this`latest
      ensures Valid() && latest == t && toFire == DueNow(pipes, crons, lastFire, t)
      ensures forall i :: 0 <= i < |pipes| && Scheduled(pipes[i]).Some? && MatchAt(Scheduled(pipes[i]).value, t) ==>
                FiredAt(log + toFire, pipes[i].id, t)
    {
      var fired := Collect(t);
      CoherentScan(pipes, crons, lastFire, Books(log, toFire, latest, used), t);
      forall i | 0 <= i < |pipes| && Scheduled(pipes[i]).Some? && MatchAt(Scheduled(pipes[i]).value, t)
        ensures FiredAt(log + fired, pipes[i].id, t)
      {
        TickFiresAll(pipes, crons, lastFire, Books(log, toFire, latest, used), t, i);
      }
      toFire, latest := fired, t;
    }

    method Collect(t: nat) returns (fired: seq<Fired>)
      ensures fired == DueNow(pipes, crons, lastFire, t)
    {
      fired := [];
      var i := 0;
      while i < |pipes|
        invariant 0 <= i <= |pipes| && fired == DueNow(pipes[..i], crons, lastFire, t)
      {
        TakeSnoc(pipes, i);
        DueSnoc(pipes[..i], pipes[i], crons, lastFire, t);
        var p := pipes[i];
        if p.id in crons && p.cron != "" {
          if !(p.id in lastFire && lastFire[p.id] == t) {
            if MatchAt(crons[p.id], t) {
              fired := fired + [Fired(p.id, t, crons[p.id])];
            }
          }
        }
        i := i + 1;
      }
      assert pipes[..i] == pipes;
    }

    /**
     The second part, for one collected pipeline: it is marked with the minute and triggered, even if it was
     saved or deleted since. Nothing is triggered twice in a minute or in one its schedule did not match.
     */
    method MarkNext() returns (f: Fired)
      requires Valid() && toFire != []
      modifies this`lastFire, this`log, this`toFire
      ensures Valid() && f == old(toFire)[0] && toFire == old(toFire)[1..]
      ensures lastFire == old(lastFire)[f.id := latest] && log == old(log) + [f]
      ensures FiredOnce(log) && forall i :: 0 <= i < |log| ==> MatchAt(log[i].spec, log[i].minute)
    {
      CoherentMark(pipes, crons, lastFire, Books(log, toFire, latest, used));
      f := toFire[0];
      lastFire, log, toFire := lastFire[f.id := f.minute], log + [f], toFire[1..];
      assert log == (log + toFire)[..|log|];
    }

    /** A whole tick with nothing in between: afterwards everything that matches the minute was triggered in it, once. */
    method FireCron(t: nat) returns (fired: seq<Fired>)
      requires Valid() && toFire == [] && latest <= t
      modifies this`lastFire, this`log, this`latest, this`toFire
      ensures Valid() && toFire == [] && latest == t
      ensures fired == DueNow(pipes, crons, old(lastFire), t) && log == old(log) + fired
      ensures forall i, j :: 0 <= i < j < |log| ==> log[i].id != log[j].id || log[i].minute != log[j].minute
      ensures forall i :: 0 <= i < |pipes| && pipes[i].cron != "" && CronOf(pipes[i].cron).Some?
                          && MatchAt(CronOf(pipes[i].cron).value, t) ==>
                exists k :: 0 <= k < |log| && log[k].id == pipes[i].id && log[k].minute == t
      ensures forall f :: f in fired <==>
                exists i :: 0 <= i < |pipes| && pipes[i].id in crons && pipes[i].cron != "" && MatchAt(crons[pipes[i].id], t)
                            && (pipes[i].id in old(lastFire) ==> old(lastFire)[pipes[i].id] != t)
                            && f == Fired(pipes[i].id, t, crons[pipes[i].id])
      ensures MarkedAt(old(lastFire), lastFire, fired, t)
    {
      Scan(t);
      fired := toFire;
      DueIff(pipes, crons, lastFire, t);
      MarkAll();
    }

    method MarkAll()
      requires Valid()
      modifies this`lastFire, this`log, this`toFire
      ensures Valid() && toFire == [] && log == old(log) + old(toFire)
      ensures FiredOnce(log) && MarkedAt(old(lastFire), lastFire, old(toFire), latest)
    {
      ghost var all, due, marks, done := log + toFire, toFire, lastFire, 0;
      while toFire != []
        invariant Valid() && log + toFire == all
        invariant 0 <= done <= |due| && toFire == due[done..] && MarkedAt(marks, lastFire, due[..done], latest)
      {
        MovesOver(log, toFire);
        MarkedNext(marks, lastFire, due, done, latest);
        var f := MarkNext();
        done := done + 1;
      }
      assert log + [] == log && due[..done] == due;
    }
  }
}
