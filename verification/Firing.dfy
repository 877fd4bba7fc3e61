/**
 Firing schedules on the minute (internal/cicd/cron.go, fireCron): which pipelines a tick collects, and the
 books of what was triggered, over any number of ticks and whatever else happens between their steps.
 */
module Firing {
  import opened Cron
  import opened NextFire
  import opened PipelineLists

  /** One run triggered by the cron loop: the pipeline, the minute, and the schedule it had. */
  datatype Fired = Fired(id: string, minute: nat, spec: CronSpec)

  /** The cron loop fires a pipeline that is indexed, matches, and was not fired in this very minute. */
  predicate Due(p: Pipeline, crons: Crons, lastFire: map<string, nat>, t: nat) {
    p.id in crons && p.cron != "" && !(p.id in lastFire && lastFire[p.id] == t) && MatchAt(crons[p.id], t)
  }

  function DueNow(pipes: seq<Pipeline>, crons: Crons, lastFire: map<string, nat>, t: nat): seq<Fired> {
    if pipes == [] then []
    else
      var p := pipes[|pipes| - 1];
      DueNow(pipes[..|pipes| - 1], crons, lastFire, t) + (if Due(p, crons, lastFire, t) then [Fired(p.id, t, crons[p.id])] else [])
  }

  lemma DueSnoc(pipes: seq<Pipeline>, p: Pipeline, crons: Crons, lastFire: map<string, nat>, t: nat)
    ensures DueNow(pipes + [p], crons, lastFire, t)
         == DueNow(pipes, crons, lastFire, t) + (if Due(p, crons, lastFire, t) then [Fired(p.id, t, crons[p.id])] else [])
  {
    assert (pipes + [p])[..|pipes|] == pipes;
  }

  lemma {:induction false} DueMembers(pipes: seq<Pipeline>, crons: Crons, lastFire: map<string, nat>, t: nat, f: Fired)
    ensures f in DueNow(pipes, crons, lastFire, t)
       <==> exists i :: 0 <= i < |pipes| && Due(pipes[i], crons, lastFire, t) && f == Fired(pipes[i].id, t, crons[pipes[i].id])
  {
    if pipes != [] {
      var n := |pipes| - 1;
      DueMembers(pipes[..n], crons, lastFire, t, f);
      if i :| 0 <= i < |pipes| && Due(pipes[i], crons, lastFire, t) && f == Fired(pipes[i].id, t, crons[pipes[i].id]) {
        if i < n {
          assert pipes[..n][i] == pipes[i];
        }
      }
    }
  }

  /** Collected are the pipelines whose schedule in the index matches the minute and that were not marked with it. */
  lemma DueIff(pipes: seq<Pipeline>, crons: Crons, lastFire: map<string, nat>, t: nat)
    ensures forall f :: f in DueNow(pipes, crons, lastFire, t) <==>
              exists i :: 0 <= i < |pipes| && pipes[i].id in crons && pipes[i].cron != "" && MatchAt(crons[pipes[i].id], t)
                          && (pipes[i].id in lastFire ==> lastFire[pipes[i].id] != t)
                          && f == Fired(pipes[i].id, t, crons[pipes[i].id])
  {
    forall f ensures f in DueNow(pipes, crons, lastFire, t)
                <==> exists i :: 0 <= i < |pipes| && Due(pipes[i], crons, lastFire, t) && f == Fired(pipes[i].id, t, crons[pipes[i].id])
    {
      DueMembers(pipes, crons, lastFire, t, f);
    }
  }

  predicate FiredOnce(log: seq<Fired>) {
    forall i, j :: 0 <= i < j < |log| ==> !(log[i].id == log[j].id && log[i].minute == log[j].minute)
  }

  lemma {:induction false} DueOnce(pipes: seq<Pipeline>, crons: Crons, lastFire: map<string, nat>, t: nat)
    requires IdsDistinct(pipes)
    ensures FiredOnce(DueNow(pipes, crons, lastFire, t))
    ensures forall i :: 0 <= i < |DueNow(pipes, crons, lastFire, t)| ==> DueNow(pipes, crons, lastFire, t)[i].minute == t
  {
    if pipes != [] {
      var n := |pipes| - 1;
      DueOnce(pipes[..n], crons, lastFire, t);
      forall i | 0 <= i < |DueNow(pipes[..n], crons, lastFire, t)|
        ensures DueNow(pipes[..n], crons, lastFire, t)[i].id != pipes[n].id
      {
        DueMembers(pipes[..n], crons, lastFire, t, DueNow(pipes[..n], crons, lastFire, t)[i]);
      }
    }
  }

  ghost predicate FiredAt(log: seq<Fired>, id: string, t: nat) {
    exists i :: 0 <= i < |log| && log[i].id == id && log[i].minute == t
  }

  /**
   What was triggered so far, what the latest tick has collected and not triggered yet, the minute of that
   tick, and the ids ever drawn.
   */
  datatype Books = Books(log: seq<Fired>, due: seq<Fired>, latest: nat, used: set<string>)

  /** Nothing is triggered twice in a minute, only in minutes its schedule matches, and the marks say when. */
  ghost predicate FireBooks(pipes: seq<Pipeline>, lastFire: map<string, nat>, b: Books) {
    && FiredOnce(b.log + b.due)
    && (forall i :: 0 <= i < |b.log| ==> b.log[i].minute <= b.latest && MatchAt(b.log[i].spec, b.log[i].minute))
    && (forall i :: 0 <= i < |b.due| ==> b.due[i].minute == b.latest && MatchAt(b.due[i].spec, b.latest))
    && (forall i :: 0 <= i < |b.log| && HasId(pipes, b.log[i].id) ==>
          b.log[i].id in lastFire && b.log[i].minute <= lastFire[b.log[i].id])
    && (forall id :: Stamped(lastFire, b.log, b.latest, id))
  }

  /** A mark is the minute of something triggered. */
  ghost predicate Stamped(lastFire: map<string, nat>, log: seq<Fired>, latest: nat, id: string) {
    id in lastFire ==> lastFire[id] <= latest && FiredAt(log, id, lastFire[id])
  }

  lemma DueFresh(pipes: seq<Pipeline>, crons: Crons, lastFire: map<string, nat>, b: Books, t: nat, f: Fired)
    requires FireBooks(pipes, lastFire, b) && b.latest <= t && f in DueNow(pipes, crons, lastFire, t)
    ensures HasId(pipes, f.id) && f.minute == t && MatchAt(f.spec, t)
    ensures forall i :: 0 <= i < |b.log| ==> !(b.log[i].id == f.id && b.log[i].minute == t)
  {
    DueMembers(pipes, crons, lastFire, t, f);
    var k :| 0 <= k < |pipes| && Due(pipes[k], crons, lastFire, t) && f == Fired(pipes[k].id, t, crons[pipes[k].id]);
    assert pipes[k].id == f.id && Stamped(lastFire, b.log, b.latest, f.id);
  }

  lemma AppendOnce(log: seq<Fired>, fired: seq<Fired>)
    requires FiredOnce(log) && FiredOnce(fired)
    requires forall i, j :: 0 <= i < |log| && 0 <= j < |fired| ==> !(log[i].id == fired[j].id && log[i].minute == fired[j].minute)
    ensures FiredOnce(log + fired)
  {
  }

  lemma FiredAtMore(log: seq<Fired>, fired: seq<Fired>, id: string, t: nat)
    ensures FiredAt(log, id, t) || FiredAt(fired, id, t) ==> FiredAt(log + fired, id, t)
  {
    if i :| 0 <= i < |log| && log[i].id == id && log[i].minute == t {
      assert (log + fired)[i] == log[i];
    }
    if j :| 0 <= j < |fired| && fired[j].id == id && fired[j].minute == t {
      assert (log + fired)[|log| + j] == fired[j];
    }
  }

  /** A tick not earlier than the last one, begun when that one is through, collects nothing already triggered. */
  lemma ScanKeepsBooks(pipes: seq<Pipeline>, crons: Crons, lastFire: map<string, nat>, b: Books, t: nat)
    requires IdsDistinct(pipes) && FireBooks(pipes, lastFire, b) && b.due == [] && b.latest <= t
    ensures FireBooks(pipes, lastFire, b.(due := DueNow(pipes, crons, lastFire, t), latest := t))
  {
    var due := DueNow(pipes, crons, lastFire, t);
    DueOnce(pipes, crons, lastFire, t);
    forall j | 0 <= j < |due|
      ensures MatchAt(due[j].spec, t)
      ensures forall i :: 0 <= i < |b.log| ==> !(b.log[i].id == due[j].id && b.log[i].minute == t)
    {
      DueFresh(pipes, crons, lastFire, b, t, due[j]);
    }
    assert b.log + [] == b.log;
    AppendOnce(b.log, due);
    forall id ensures Stamped(lastFire, b.log, t, id) {
      assert Stamped(lastFire, b.log, b.latest, id);
    }
  }

  function Triggered(b: Books): Books
    requires b.due != []
  {
    b.(log := b.log + [b.due[0]], due := b.due[1..])
  }

  lemma MarkStamps(lastFire: map<string, nat>, b: Books, id: string)
    requires b.due != [] && b.due[0].minute == b.latest && Stamped(lastFire, b.log, b.latest, id)
    ensures Stamped(lastFire[b.due[0].id := b.latest], b.log + [b.due[0]], b.latest, id)
  {
    var f := b.due[0];
    assert [f][0] == f;
    if id == f.id {
      assert FiredAt([f], id, b.latest);
      FiredAtMore(b.log, [f], id, b.latest);
    } else if id in lastFire {
      FiredAtMore(b.log, [f], id, lastFire[id]);
    }
  }

  lemma MovesOver(log: seq<Fired>, due: seq<Fired>)
    requires due != []
    ensures (log + [due[0]]) + due[1..] == log + due
  {
  }

  /** The marks after these were triggered in minute t: theirs are t, and the others are as they were. */
  ghost predicate MarkedAt(before: map<string, nat>, after: map<string, nat>, fired: seq<Fired>, t: nat) {
    && (forall k :: 0 <= k < |fired| ==> fired[k].id in after && after[fired[k].id] == t)
    && (forall id :: id in after ==> (exists k :: 0 <= k < |fired| && fired[k].id == id) || (id in before && after[id] == before[id]))
    && (forall id :: id in before ==> id in after)
  }

  lemma MarkedNext(before: map<string, nat>, marks: map<string, nat>, due: seq<Fired>, n: nat, t: nat)
    requires n < |due| && MarkedAt(before, marks, due[..n], t)
    ensures MarkedAt(before, marks[due[n].id := t], due[..n + 1], t)
  {
    var after, fired := marks[due[n].id := t], due[..n + 1];
    assert fired[n] == due[n] && forall k :: 0 <= k < n ==> fired[k] == due[..n][k];
    forall id | id in after
      ensures (exists k :: 0 <= k < |fired| && fired[k].id == id) || (id in before && after[id] == before[id])
    {
      if id == due[n].id {
        assert fired[n].id == id;
      } else if k :| 0 <= k < n && due[..n][k].id == id {
        assert fired[k].id == id;
      }
    }
  }

  /** Marking and triggering one collected pipeline keeps the books, whether or not it still exists. */
  lemma MarkKeepsBooks(pipes: seq<Pipeline>, lastFire: map<string, nat>, b: Books)
    requires FireBooks(pipes, lastFire, b) && b.due != []
    ensures FireBooks(pipes, lastFire[b.due[0].id := b.latest], Triggered(b))
  {
    MovesOver(b.log, b.due);
    var marked, log := lastFire[b.due[0].id := b.latest], b.log + [b.due[0]];
    forall id ensures Stamped(marked, log, b.latest, id) {
      assert Stamped(lastFire, b.log, b.latest, id);
      MarkStamps(lastFire, b, id);
    }
  }

  /** After a tick, every pipeline whose own cron text matches the minute was triggered in it or is about to be. */
  lemma TickFiresAll(pipes: seq<Pipeline>, crons: Crons, lastFire: map<string, nat>, b: Books, t: nat, i: nat)
    requires FireBooks(pipes, lastFire, b) && IndexExact(pipes, crons)
    requires i < |pipes| && Scheduled(pipes[i]).Some? && MatchAt(Scheduled(pipes[i]).value, t)
    ensures FiredAt(b.log + DueNow(pipes, crons, lastFire, t), pipes[i].id, t)
  {
    var due, p := DueNow(pipes, crons, lastFire, t), pipes[i];
    assert Entry(p, crons) && Stamped(lastFire, b.log, b.latest, p.id);
    FiredAtMore(b.log, due, p.id, t);
    if Due(p, crons, lastFire, t) {
      DueMembers(pipes, crons, lastFire, t, Fired(p.id, t, crons[p.id]));
      assert FiredAt(due, p.id, t);
    }
  }
}
