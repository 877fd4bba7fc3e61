/**
 The pipeline list of the CI/CD engine and the index of parsed cron expressions kept beside it
 (internal/cicd/engine.go): what saving, deleting and importing do to both.
 */
module PipelineLists {
  import opened Cron
  import opened Options
  import opened PipelineNames
  import RunHistory
  import opened Text

  datatype Step = Step(name: string, command: string, pullArtifact: string)
  datatype Stage = Stage(name: string, steps: seq<Step>)
  datatype Pipeline = Pipeline(id: string, name: string, cron: string, webhook: bool, secret: string, maxRuns: int,
                               stages: seq<Stage>, created: int, updated: int)

  type Crons = map<string, CronSpec>

  // ---- The cron index ----

  /** What parsing a pipeline's cron text afresh gives. */
  function Scheduled(p: Pipeline): Option<CronSpec> {
    if p.cron == "" then None else CronOf(p.cron)
  }

  function Indexed(crons: Crons, p: Pipeline): Crons {
    if Scheduled(p).Some? then crons[p.id := Scheduled(p).value] else crons
  }

  /** Parsing every pipeline afresh, into an index. */
  function Reindexed(crons: Crons, pipes: seq<Pipeline>): Crons {
    if pipes == [] then crons else Indexed(Reindexed(crons, pipes[..|pipes| - 1]), pipes[|pipes| - 1])
  }

  predicate IdsDistinct(pipes: seq<Pipeline>) {
    forall i, j :: 0 <= i < j < |pipes| ==> pipes[i].id != pipes[j].id
  }

  predicate NamesDistinct(pipes: seq<Pipeline>) {
    forall i, j :: 0 <= i < j < |pipes| ==> pipes[i].name != pipes[j].name
  }

  predicate HasId(pipes: seq<Pipeline>, id: string) {
    exists i :: 0 <= i < |pipes| && pipes[i].id == id
  }

  predicate Entry(p: Pipeline, crons: Crons) {
    if Scheduled(p).Some? then p.id in crons && crons[p.id] == Scheduled(p).value else p.id !in crons
  }

  /** The index has, for each pipeline, its parsed text, and nothing else. */
  ghost predicate IndexExact(pipes: seq<Pipeline>, crons: Crons) {
    && (forall i :: 0 <= i < |pipes| ==> Entry(pipes[i], crons))
    && (forall id :: id in crons ==> HasId(pipes, id))
  }

  /** With distinct ids, an exact index is the one a fresh parse of every pipeline builds from nothing. */
  lemma {:induction false} ExactIsFresh(pipes: seq<Pipeline>, crons: Crons)
    requires IdsDistinct(pipes)
    ensures IndexExact(pipes, crons) <==> crons == Reindexed(map[], pipes)
  {
    FreshIsExact(pipes);
    if IndexExact(pipes, crons) {
      ExactUnique(pipes, crons, Reindexed(map[], pipes));
    }
  }

  lemma ExactUnique(pipes: seq<Pipeline>, a: Crons, b: Crons)
    requires IndexExact(pipes, a) && IndexExact(pipes, b)
    ensures a == b
  {
    ExactAgree(pipes, a, b);
    ExactAgree(pipes, b, a);
    SameMaps(a, b);
  }

  lemma SameMaps(a: Crons, b: Crons)
    requires forall id :: id in a ==> id in b && a[id] == b[id]
    requires forall id :: id in b ==> id in a
    ensures a == b
  {
  }

  lemma ExactAgree(pipes: seq<Pipeline>, a: Crons, b: Crons)
    requires IndexExact(pipes, a) && IndexExact(pipes, b)
    ensures forall id :: id in a ==> id in b && a[id] == b[id]
  {
    forall id | id in a ensures id in b && a[id] == b[id] {
      assert HasId(pipes, id);
      var i :| 0 <= i < |pipes| && pipes[i].id == id;
      assert Entry(pipes[i], a) && Entry(pipes[i], b);
    }
  }

  lemma ReindexedSnoc(crons: Crons, pipes: seq<Pipeline>, p: Pipeline)
    ensures Reindexed(crons, pipes + [p]) == Indexed(Reindexed(crons, pipes), p)
  {
    assert (pipes + [p])[..|pipes|] == pipes;
  }

  lemma {:induction false} FreshIsExact(pipes: seq<Pipeline>)
    requires IdsDistinct(pipes)
    ensures IndexExact(pipes, Reindexed(map[], pipes))
  {
    if pipes != [] {
      var front, p := pipes[..|pipes| - 1], pipes[|pipes| - 1];
      SplitLast(pipes);
      FreshIsExact(front);
      IndexAppend(front, p, Reindexed(map[], front));
      ReindexedSnoc(map[], front, p);
    }
  }

  lemma SplitLast(pipes: seq<Pipeline>)
    requires pipes != [] && IdsDistinct(pipes)
    ensures var front, p := pipes[..|pipes| - 1], pipes[|pipes| - 1];
      pipes == front + [p] && IdsDistinct(front) && forall i :: 0 <= i < |front| ==> front[i].id != p.id
  {
  }

  lemma NewIdNotIndexed(pipes: seq<Pipeline>, id: string, crons: Crons)
    requires IndexExact(pipes, crons) && !HasId(pipes, id)
    ensures id !in crons
  {
  }

  lemma IndexAppend(pipes: seq<Pipeline>, p: Pipeline, crons: Crons)
    requires IndexExact(pipes, crons) && forall i :: 0 <= i < |pipes| ==> pipes[i].id != p.id
    ensures IndexExact(pipes + [p], Indexed(crons, p))
  {
    var more, after := pipes + [p], Indexed(crons, p);
    NewIdNotIndexed(pipes, p.id, crons);
    forall id | id in after ensures HasId(more, id) {
      if id == p.id {
        assert more[|pipes|].id == id;
      } else {
        var i :| 0 <= i < |pipes| && pipes[i].id == id;
        assert more[i].id == id;
      }
    }
    forall i | 0 <= i < |more| ensures Entry(more[i], after) {
      if i < |pipes| {
        assert Entry(pipes[i], crons);
      }
    }
  }

  /** The index after an update: set to the new text's meaning, or removed. */
  function Refreshed(crons: Crons, p: Pipeline): Crons {
    if Scheduled(p).Some? then crons[p.id := Scheduled(p).value] else crons - {p.id}
  }

  lemma SameIds(pipes: seq<Pipeline>, i: nat, p: Pipeline)
    requires i < |pipes| && pipes[i].id == p.id
    ensures forall id :: HasId(pipes[i := p], id) <==> HasId(pipes, id)
  {
    var after := pipes[i := p];
    assert forall k :: 0 <= k < |pipes| ==> after[k].id == pipes[k].id;
  }

  lemma EntryRefreshed(q: Pipeline, p: Pipeline, crons: Crons)
    ensures Entry(p, Refreshed(crons, p))
    ensures Entry(q, crons) && q.id != p.id ==> Entry(q, Refreshed(crons, p))
  {
  }

  lemma IndexUpdate(pipes: seq<Pipeline>, i: nat, p: Pipeline, crons: Crons)
    requires i < |pipes| && IdsDistinct(pipes) && IndexExact(pipes, crons) && pipes[i].id == p.id
    ensures IndexExact(pipes[i := p], Refreshed(crons, p))
  {
    SameIds(pipes, i, p);
    var after := pipes[i := p];
    forall k | 0 <= k < |after| ensures Entry(after[k], Refreshed(crons, p)) {
      EntryRefreshed(pipes[k], p, crons);
    }
    assert HasId(pipes, pipes[i].id);
  }

  /** For a new id, refreshing is indexing. */
  lemma IndexAppendRefreshed(pipes: seq<Pipeline>, p: Pipeline, crons: Crons)
    requires IndexExact(pipes, crons) && forall i :: 0 <= i < |pipes| ==> pipes[i].id != p.id
    ensures Refreshed(crons, p) == Indexed(crons, p)
  {
    NewIdNotIndexed(pipes, p.id, crons);
  }

  /** The list in which p has replaced the pipeline of its id and taken over its creation time. */
  ghost predicate ReplacedBy(before: seq<Pipeline>, after: seq<Pipeline>, p: Pipeline) {
    exists i :: 0 <= i < |before| && before[i].id == p.id && before[i].created == p.created && after == before[i := p]
  }

  lemma CutIndex<T>(s: seq<T>, i: nat)
    requires i < |s|
    ensures var cut := s[..i] + s[i + 1..];
      && |cut| == |s| - 1
      && forall k :: 0 <= k < |cut| ==> cut[k] == s[if k < i then k else k + 1]
  {
  }

  lemma RemoveIds(pipes: seq<Pipeline>, i: nat)
    requires i < |pipes| && IdsDistinct(pipes)
    ensures var after := pipes[..i] + pipes[i + 1..];
      forall id :: HasId(after, id) <==> HasId(pipes, id) && id != pipes[i].id
  {
    CutIndex(pipes, i);
    var after := pipes[..i] + pipes[i + 1..];
    forall id | HasId(pipes, id) && id != pipes[i].id ensures HasId(after, id) {
      var k :| 0 <= k < |pipes| && pipes[k].id == id;
      assert after[if k < i then k else k - 1].id == id;
    }
  }

  lemma EntryRemoved(p: Pipeline, crons: Crons, id: string)
    requires Entry(p, crons) && p.id != id
    ensures Entry(p, crons - {id})
  {
  }

  lemma IndexRemove(pipes: seq<Pipeline>, i: nat, crons: Crons)
    requires i < |pipes| && IdsDistinct(pipes) && IndexExact(pipes, crons)
    ensures IndexExact(pipes[..i] + pipes[i + 1..], crons - {pipes[i].id})
  {
    CutIndex(pipes, i);
    RemoveIds(pipes, i);
    var after := pipes[..i] + pipes[i + 1..];
    forall k | 0 <= k < |after| ensures Entry(after[k], crons - {pipes[i].id}) {
      EntryRemoved(pipes[if k < i then k else k + 1], crons, pipes[i].id);
    }
  }

  lemma DistinctRemove(pipes: seq<Pipeline>, i: nat)
    requires i < |pipes| && IdsDistinct(pipes) && NamesDistinct(pipes)
    ensures IdsDistinct(pipes[..i] + pipes[i + 1..]) && NamesDistinct(pipes[..i] + pipes[i + 1..])
  {
    CutIndex(pipes, i);
  }

  /** Reparsing everything on top of an exact index changes nothing. */
  lemma {:induction false} ReindexExact(pipes: seq<Pipeline>, crons: Crons)
    requires forall i :: 0 <= i < |pipes| ==> Entry(pipes[i], crons)
    ensures Reindexed(crons, pipes) == crons
  {
    if pipes != [] {
      ReindexExact(pipes[..|pipes| - 1], crons);
      assert Entry(pipes[|pipes| - 1], crons);
    }
  }

  // ---- Saving ----

  /** The file name of a build artifact: s<stage>-step<step>.tar.gz. */
  predicate ArtifactName(file: string) {
    '-' in file
    && var before, after := Before(file, '-'), After(file, '-');
       && |before| > 1 && before[0] == 's' && Numeric(before[1..])
       && |after| > 11 && after[..4] == "step" && after[|after| - 7..] == ".tar.gz" && Numeric(after[4..|after| - 7])
  }

  /** The name s<digits>-step<digits>.tar.gz, piece by piece. */
  ghost predicate ArtifactPieces(file: string, s: string, stage: string, dash: string, step: string, end: string) {
    Numeric(stage) && Numeric(step) && stage != "" && step != "" && file == (s + stage) + dash + step + end
  }

  lemma ArtifactNameSplits(file: string, s: string, stage: string, dash: string, step: string, end: string)
    requires ArtifactPieces(file, s, stage, dash, step, end) && s == "s" && dash == "-step" && end == ".tar.gz"
    ensures ArtifactName(file)
  {
    var before, after := s + stage, "step" + step + end;
    assert file == before + ['-'] + after;
    assert '-' !in before;
    CutIff(file, '-', before, after);
    assert before[1..] == stage;
    assert after[4..|after| - 7] == step && after[..4] == "step" && after[|after| - 7..] == end;
  }

  lemma ArtifactNameJoins(file: string, s: string, dash: string, end: string) returns (stage: string, step: string)
    requires ArtifactName(file) && s == "s" && dash == "-step" && end == ".tar.gz"
    ensures ArtifactPieces(file, s, stage, dash, step, end)
  {
    var before, after := Before(file, '-'), After(file, '-');
    CutIff(file, '-', before, after);
    stage, step := before[1..], after[4..|after| - 7];
    assert before == s + stage;
    assert after == after[..4] + step + after[|after| - 7..];
    assert ['-'] + after[..4] == dash;
  }

  /** A file is an artifact exactly if its name is s, digits, -step, digits, .tar.gz. */
  lemma ArtifactNameIff(file: string)
    ensures ArtifactName(file) <==> exists stage, step :: ArtifactPieces(file, "s", stage, "-step", step, ".tar.gz")
  {
    var s, dash, end := "s", "-step", ".tar.gz";
    if ArtifactName(file) {
      var stage, step := ArtifactNameJoins(file, s, dash, end);
      assert ArtifactPieces(file, "s", stage, "-step", step, ".tar.gz");
    }
    if stage, step :| ArtifactPieces(file, "s", stage, "-step", step, ".tar.gz") {
      ArtifactNameSplits(file, "s", stage, "-step", step, ".tar.gz");
    }
  }

  predicate ArtifactsNamed(stages: seq<Stage>) {
    forall i, j :: 0 <= i < |stages| && 0 <= j < |stages[i].steps| ==>
      StepArtifactNamed(stages[i].steps[j])
  }

  predicate StepArtifactNamed(s: Step) {
    s.pullArtifact == "" || ArtifactName(s.pullArtifact)
  }

  /** What saving makes of its input before storing it. */
  function Normalized(p: Pipeline, secret: string): Pipeline {
    p.(name := Trim(p.name), cron := Trim(p.cron), maxRuns := if p.maxRuns == 0 then RunHistory.DEFAULT_MAX_RUNS else p.maxRuns,
       secret := if p.webhook && p.secret == "" then secret else p.secret)
  }

  predicate NameTaken(pipes: seq<Pipeline>, id: string, name: string) {
    exists i :: 0 <= i < |pipes| && pipes[i].name == name && pipes[i].id != id
  }

  // ---- Importing ----

  /** Whether an imported pipeline has what a pipeline needs. */
  predicate ShapeOk(p: Pipeline) {
    && p.name != "" && p.stages != []
    && (forall i :: 0 <= i < |p.stages| ==> StageOk(p.stages[i]))
    && (p.cron == "" || CronOf(p.cron).Some?)
  }

  predicate StageOk(s: Stage) {
    s.name != "" && s.steps != [] && forall j :: 0 <= j < |s.steps| ==> Trim(s.steps[j].command) != ""
  }

  /** The random id and trigger secret drawn for an imported pipeline. */
  datatype Drawn = Drawn(id: string, secret: string)

  function Taken(p: Pipeline, names: set<string>, drawn: Drawn, now: int): Pipeline {
    p.(id := drawn.id, name := FreeName(names, p.name), secret := if p.webhook then drawn.secret else "",
       created := now, updated := now)
  }

  /** Importing the first n of a list: every name is used up, also that of a pipeline that is skipped. */
  function Imported(names: set<string>, list: seq<Pipeline>, drawn: seq<Drawn>, now: int, n: nat): (r: (set<string>,
      seq<Pipeline>))
    requires n <= |list| == |drawn|
    ensures |r.1| <= n
  {
    if n == 0 then (names, [])
    else
      var before := Imported(names, list, drawn, now, n - 1);
      var p := Taken(list[n - 1], before.0, drawn[n - 1], now);
      (before.0 + {p.name}, if ShapeOk(p) then before.1 + [p] else before.1)
  }

  lemma ImportedStep(names: set<string>, list: seq<Pipeline>, drawn: seq<Drawn>, now: int, n: nat)
    requires n < |list| == |drawn|
    ensures var before := Imported(names, list, drawn, now, n);
      var p := Taken(list[n], before.0, drawn[n], now);
      Imported(names, list, drawn, now, n + 1) == (before.0 + {p.name}, if ShapeOk(p) then before.1 + [p] else before.1)
  {
  }

  /** The names taken in are new and distinct, and used up from then on. */
  lemma {:induction false} ImportedNames(names: set<string>, list: seq<Pipeline>, drawn: seq<Drawn>, now: int, n: nat)
    requires n <= |list| == |drawn|
    ensures var (used, taken) := Imported(names, list, drawn, now, n); NewNames(names, used, taken)
  {
    if n > 0 {
      ImportedNames(names, list, drawn, now, n - 1);
      ImportedStep(names, list, drawn, now, n - 1);
      var (used, taken) := Imported(names, list, drawn, now, n - 1);
      OneMoreName(names, used, taken, Taken(list[n - 1], used, drawn[n - 1], now));
    }
  }

  /** Pipelines with distinct names, none of the old ones and all of the used ones. */
  ghost predicate NewNames(names: set<string>, used: set<string>, taken: seq<Pipeline>) {
    && names <= used && NamesDistinct(taken)
    && forall k :: 0 <= k < |taken| ==> taken[k].name !in names && taken[k].name in used
  }

  lemma OneMoreName(names: set<string>, used: set<string>, taken: seq<Pipeline>, p: Pipeline)
    requires NewNames(names, used, taken) && p.name !in used
    ensures NewNames(names, used + {p.name}, taken) && NewNames(names, used + {p.name}, taken + [p])
  {
  }

  /** What entry i of the list becomes when its turn comes. */
  function Entrant(names: set<string>, list: seq<Pipeline>, drawn: seq<Drawn>, now: int, i: nat): Pipeline
    requires i < |list| == |drawn|
  {
    Taken(list[i], Imported(names, list, drawn, now, i).0, drawn[i], now)
  }

  lemma ImportedNext(names: set<string>, list: seq<Pipeline>, drawn: seq<Drawn>, now: int, n: nat)
    requires n < |list| == |drawn|
    ensures var p := Entrant(names, list, drawn, now, n);
      Imported(names, list, drawn, now, n + 1).1
      == Imported(names, list, drawn, now, n).1 + (if ShapeOk(p) then [p] else [])
  {
    ImportedStep(names, list, drawn, now, n);
  }

  ghost predicate Entered(names: set<string>, list: seq<Pipeline>, drawn: seq<Drawn>, now: int, n: nat, p: Pipeline)
    requires n <= |list| == |drawn|
  {
    exists i: nat :: i < n && p == Entrant(names, list, drawn, now, i) && ShapeOk(p)
  }

  lemma EnteredNext(names: set<string>, list: seq<Pipeline>, drawn: seq<Drawn>, now: int, n: nat, p: Pipeline)
    requires n < |list| == |drawn|
    ensures Entered(names, list, drawn, now, n + 1, p) <==>
            Entered(names, list, drawn, now, n, p) || (p == Entrant(names, list, drawn, now, n) && ShapeOk(p))
  {
  }

  lemma {:induction false} ImportedIffEntered(names: set<string>, list: seq<Pipeline>, drawn: seq<Drawn>, now: int,
      n: nat, p: Pipeline)
    requires n <= |list| == |drawn|
    ensures p in Imported(names, list, drawn, now, n).1 <==> Entered(names, list, drawn, now, n, p)
  {
    if n > 0 {
      ImportedIffEntered(names, list, drawn, now, n - 1, p);
      EnteredNext(names, list, drawn, now, n - 1, p);
      InImportedNext(names, list, drawn, now, n - 1, p);
    }
  }

  /**
   What is taken in is exactly the entries of the list that are complete, each under its drawn id and the free
   name it finds when its turn comes, with the secret drawn for it if it has a webhook, and with none otherwise.
   */
  lemma ImportedAreEntrants(names: set<string>, list: seq<Pipeline>, drawn: seq<Drawn>, now: int, n: nat, p: Pipeline)
    requires n <= |list| == |drawn|
    ensures p in Imported(names, list, drawn, now, n).1 <==>
      && p.name != "" && p.stages != [] && (p.cron == "" || CronOf(p.cron).Some?)
      && (forall i :: 0 <= i < |p.stages| ==> p.stages[i].name != "" && p.stages[i].steps != [])
      && (forall i, j :: 0 <= i < |p.stages| && 0 <= j < |p.stages[i].steps| ==> Trim(p.stages[i].steps[j].command) != "")
      && (exists k: nat :: k < n &&
            var q := list[k];
            p == Pipeline(drawn[k].id, FreeName(Imported(names, list, drawn, now, k).0, q.name), q.cron, q.webhook,
                          if q.webhook then drawn[k].secret else "", q.maxRuns, q.stages, now, now))
  {
    ImportedIffEntered(names, list, drawn, now, n, p);
    EnteredIff(names, list, drawn, now, n, p);
    ShapeIff(p);
  }

  lemma EntrantIs(names: set<string>, list: seq<Pipeline>, drawn: seq<Drawn>, now: int, k: nat)
    requires k < |list| == |drawn|
    ensures var q := list[k];
      Entrant(names, list, drawn, now, k)
      == Pipeline(drawn[k].id, FreeName(Imported(names, list, drawn, now, k).0, q.name), q.cron, q.webhook,
                  if q.webhook then drawn[k].secret else "", q.maxRuns, q.stages, now, now)
  {
  }

  lemma EnteredIff(names: set<string>, list: seq<Pipeline>, drawn: seq<Drawn>, now: int, n: nat, p: Pipeline)
    requires n <= |list| == |drawn|
    ensures Entered(names, list, drawn, now, n, p) <==>
      && ShapeOk(p)
      && (exists k: nat :: k < n &&
            var q := list[k];
            p == Pipeline(drawn[k].id, FreeName(Imported(names, list, drawn, now, k).0, q.name), q.cron, q.webhook,
                          if q.webhook then drawn[k].secret else "", q.maxRuns, q.stages, now, now))
  {
    if i: nat :| i < n && p == Entrant(names, list, drawn, now, i) && ShapeOk(p) {
      EntrantIs(names, list, drawn, now, i);
    }
    forall k: nat | k < n ensures Entrant(names, list, drawn, now, k)
      == Pipeline(drawn[k].id, FreeName(Imported(names, list, drawn, now, k).0, list[k].name), list[k].cron, list[k].webhook,
                  if list[k].webhook then drawn[k].secret else "", list[k].maxRuns, list[k].stages, now, now)
    {
      EntrantIs(names, list, drawn, now, k);
    }
  }

  lemma ShapeIff(p: Pipeline)
    ensures ShapeOk(p) <==>
      && p.name != "" && p.stages != [] && (p.cron == "" || CronOf(p.cron).Some?)
      && (forall i :: 0 <= i < |p.stages| ==> p.stages[i].name != "" && p.stages[i].steps != [])
      && (forall i, j :: 0 <= i < |p.stages| && 0 <= j < |p.stages[i].steps| ==> Trim(p.stages[i].steps[j].command) != "")
  {
  }

  ghost predicate NameFound(names: set<string>, list: seq<Pipeline>, drawn: seq<Drawn>, now: int, n: nat, name: string)
    requires n <= |list| == |drawn|
  {
    exists k: nat :: k < n && name == Entrant(names, list, drawn, now, k).name
  }

  lemma NameFoundNext(names: set<string>, list: seq<Pipeline>, drawn: seq<Drawn>, now: int, n: nat, name: string)
    requires n < |list| == |drawn|
    ensures NameFound(names, list, drawn, now, n + 1, name)
       <==> NameFound(names, list, drawn, now, n, name) || name == Entrant(names, list, drawn, now, n).name
  {
  }

  lemma UsedNext(names: set<string>, list: seq<Pipeline>, drawn: seq<Drawn>, now: int, n: nat, name: string)
    requires n < |list| == |drawn|
    ensures name in Imported(names, list, drawn, now, n + 1).0
       <==> name in Imported(names, list, drawn, now, n).0 || name == Entrant(names, list, drawn, now, n).name
  {
    ImportedStep(names, list, drawn, now, n);
  }

  /** The names used up are those there were and the one each entry found, whether it was taken in or not. */
  lemma {:induction false} NamesUsed(names: set<string>, list: seq<Pipeline>, drawn: seq<Drawn>, now: int, n: nat,
      name: string)
    requires n <= |list| == |drawn|
    ensures name in Imported(names, list, drawn, now, n).0 <==> name in names || NameFound(names, list, drawn, now, n, name)
  {
    if n > 0 {
      NamesUsed(names, list, drawn, now, n - 1, name);
      NameFoundNext(names, list, drawn, now, n - 1, name);
      UsedNext(names, list, drawn, now, n - 1, name);
    }
  }

  lemma InImportedNext(names: set<string>, list: seq<Pipeline>, drawn: seq<Drawn>, now: int, n: nat, p: Pipeline)
    requires n < |list| == |drawn|
    ensures p in Imported(names, list, drawn, now, n + 1).1 <==>
            p in Imported(names, list, drawn, now, n).1 || (p == Entrant(names, list, drawn, now, n) && ShapeOk(p))
  {
    ImportedNext(names, list, drawn, now, n);
  }

  function Names(pipes: seq<Pipeline>): set<string> {
    set i | 0 <= i < |pipes| :: pipes[i].name
  }

  lemma NamesSnoc(pipes: seq<Pipeline>, n: nat)
    requires n < |pipes|
    ensures Names(pipes[..n + 1]) == Names(pipes[..n]) + {pipes[n].name}
  {
    var more, less := pipes[..n + 1], pipes[..n];
    assert more == less + [pipes[n]];
    NamesAppend(less, pipes[n]);
  }

  lemma NamesAppend(pipes: seq<Pipeline>, p: Pipeline)
    ensures Names(pipes + [p]) == Names(pipes) + {p.name}
    ensures forall i :: 0 <= i < |pipes| ==> pipes[i].name in Names(pipes)
  {
    var more := pipes + [p];
    assert more[|pipes|] == p;
    forall name | name in Names(pipes) ensures name in Names(more) {
      var i :| 0 <= i < |pipes| && pipes[i].name == name;
      assert more[i].name == name;
    }
  }

  lemma DistinctAppend(pipes: seq<Pipeline>, p: Pipeline)
    requires IdsDistinct(pipes) && NamesDistinct(pipes) && !HasId(pipes, p.id)
    requires forall i :: 0 <= i < |pipes| ==> pipes[i].name != p.name
    ensures IdsDistinct(pipes + [p]) && NamesDistinct(pipes + [p])
  {
  }
}
