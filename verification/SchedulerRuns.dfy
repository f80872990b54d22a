/**
 * Whole runs of the scheduler: nothing accepted is lost, a restart catches up, and a
 * backlog ends (indexer/src/jobs/scheduler.ts).
 */
module SchedulerRuns {
  import opened Common
  import opened SchedulerModel
  import opened SchedulerSafety

  ghost predicate CanRun(jobs: Jobs, s: State, es: seq<Event>)
    decreases |es|
  {
    es == [] || (WellFormed(jobs, s) && CanStep(jobs, s, es[0]) && CanRun(jobs, Step(jobs, s, es[0]), es[1..]))
  }

  ghost function RunAll(jobs: Jobs, s: State, es: seq<Event>): State
    requires CanRun(jobs, s, es)
    decreases |es|
  {
    if es == [] then s else RunAll(jobs, Step(jobs, s, es[0]), es[1..])
  }

  /** Safety over all runs, with crashes at any point. */
  lemma {:induction false} RunKeeps(jobs: Jobs, s: State, es: seq<Event>)
    requires Inv(jobs, s) && CanRun(jobs, s, es)
    ensures Inv(jobs, RunAll(jobs, s, es))
    decreases |es|
  {
    if es != [] {
      StepKeeps(jobs, s, es[0]);
      RunKeeps(jobs, Step(jobs, s, es[0]), es[1..]);
    }
  }

  lemma {:induction false} FreshKeeps(jobs: Jobs)
    ensures Inv(jobs, Fresh(jobs))
  {
  }

  /**
   * After any run from a fresh database two open bodies are one, and a pending job has a body or a queued
   * start before it.
   */
  lemma {:induction false} MutualExclusion(jobs: Jobs, es: seq<Event>, i: nat, k: nat)
    requires CanRun(jobs, Fresh(jobs), es)
    ensures var s := RunAll(jobs, Fresh(jobs), es);
            i < |s.runs| && k < |s.runs| && s.runs[i].status.Open? && s.runs[k].status.Open? ==> i == k
    ensures NothingStuck(RunAll(jobs, Fresh(jobs), es))
  {
    FreshKeeps(jobs);
    RunKeeps(jobs, Fresh(jobs), es);
  }

  // ---- The cursor ------------------------------------------------------------------------

  /** Cursors never move back and nodes are never lost. */
  ghost predicate Onward(s: State, s': State) {
    && s.nodes <= s'.nodes && |s.cursor| == |s'.cursor|
    && (forall j :: 0 <= j < |s.cursor| ==> s.cursor[j] <= s'.cursor[j])
  }

  lemma {:induction false} PollOnward(jobs: Jobs, s: State, j: nat)
    requires WellFormed(jobs, s) && j <= |jobs|
    ensures PollFrom(s, j).nodes == s.nodes && PollFrom(s, j).cursor == s.cursor
    decreases |jobs| - j
  {
    if j < |jobs| {
      if s.asked[j] {
        var s1 := Enqueue(s.(asked := s.asked[j := false]), j, Manual);
        assert forall r :: r in s1.runs ==> r in s.runs || r.job == j;
        PollOnward(jobs, s1, j + 1);
      } else {
        PollOnward(jobs, s, j + 1);
      }
    }
  }

  lemma {:induction false} CatchUpOnward(jobs: Jobs, s: State, j: nat)
    requires WellFormed(jobs, s) && j <= |jobs|
    ensures Onward(s, CatchUpFrom(jobs, s, j)) && CatchUpFrom(jobs, s, j).nodes == s.nodes
    decreases |jobs| - j
  {
    if j < |jobs| {
      var s1 := CatchUp(jobs, s, j);
      assert forall r :: r in s1.runs ==> r in s.runs || r.job == j;
      CatchUpOnward(jobs, s1, j + 1);
    }
  }

  lemma {:induction false} StepOnward(jobs: Jobs, s: State, e: Event)
    requires Inv(jobs, s) && CanStep(jobs, s, e)
    ensures Onward(s, Step(jobs, s, e))
  {
    match e
    case Poll => PollOnward(jobs, s, 0);
    case Restart =>
      RebootWellFormed(jobs, s);
      CatchUpOnward(jobs, Rebooted(jobs, s), 0);
    case _ =>
  }

  lemma {:induction false} RunOnward(jobs: Jobs, s: State, es: seq<Event>)
    requires Inv(jobs, s) && CanRun(jobs, s, es)
    ensures Onward(s, RunAll(jobs, s, es))
    decreases |es|
  {
    if es != [] {
      StepOnward(jobs, s, es[0]);
      StepKeeps(jobs, s, es[0]);
      RunOnward(jobs, Step(jobs, s, es[0]), es[1..]);
    }
  }

  /**
   * At least once: after any run from a fresh database, a node that a job listens to is above
   * the job's cursor, where the next restart finds it, or a run of the job that succeeded
   * started after the node was there.
   */
  lemma {:induction false} NodeNotForgotten(jobs: Jobs, es: seq<Event>, j: nat, i: nat)
    requires CanRun(jobs, Fresh(jobs), es) && j < |jobs|
    requires var s := RunAll(jobs, Fresh(jobs), es); i < |s.nodes| && MatchesInsert(jobs, j, s.nodes[i])
    ensures var s := RunAll(jobs, Fresh(jobs), es);
            |s.cursor| == |jobs| && (if s.cursor[j] <= i then HasFresh(jobs, s, j) else RunCovers(s, j, i + 1))
  {
    FreshKeeps(jobs);
    RunKeeps(jobs, Fresh(jobs), es);
    var s := RunAll(jobs, Fresh(jobs), es);
    if i < s.cursor[j] {
      assert RunCovers(s, j, s.cursor[j]);
      var k :| 0 <= k < |s.runs| && s.runs[k].job == j && s.runs[k].status == Succeeded
          && s.cursor[j] <= s.runs[k].seen;
      assert i + 1 <= s.runs[k].seen;
    }
  }

  // ---- No trigger is lost -------------------------------------------------------------------

  predicate Queued(s: State, j: nat) { exists q :: q in s.immediates && q.0 == j }

  /** A run of the job, logged at position `from` or later, that started with at least `rowid` nodes there. */
  ghost predicate StartedSince(s: State, j: nat, from: nat, rowid: nat) {
    exists i :: from <= i < |s.runs| && s.runs[i].job == j && rowid <= s.runs[i].seen
  }

  ghost predicate Owed(s: State, j: nat, from: nat, rowid: nat) {
    (j < |s.pending| && s.pending[j].Some?) || Queued(s, j) || StartedSince(s, j, from, rowid)
  }

  lemma {:induction false} StartedStays(s: State, s': State, j: nat, from: nat, rowid: nat)
    requires StartedSince(s, j, from, rowid) && |s.runs| <= |s'.runs|
    requires forall i :: 0 <= i < |s.runs| ==> s'.runs[i].job == s.runs[i].job && s'.runs[i].seen == s.runs[i].seen
    ensures StartedSince(s', j, from, rowid)
  {
    var i :| from <= i < |s.runs| && s.runs[i].job == j && rowid <= s.runs[i].seen;
    assert s'.runs[i].job == j;
  }

  lemma {:induction false} StartOwes(s: State, k: nat, kind: Trigger, j: nat, from: nat, rowid: nat)
    requires from <= |s.runs| && rowid <= |s.nodes| && (Owed(s, j, from, rowid) || k == j)
    ensures Owed(Start(s, k, kind), j, from, rowid)
  {
    var s' := Start(s, k, kind);
    if k == j {
      assert s'.runs[|s.runs|].job == j;
    } else if StartedSince(s, j, from, rowid) {
      StartedStays(s, s', j, from, rowid);
    }
  }

  lemma {:induction false} ExecuteOwes(jobs: Jobs, s: State, k: nat, kind: Trigger, j: nat, from: nat, rowid: nat)
    requires k < |s.pending| && from <= |s.runs| && rowid <= |s.nodes| && (Owed(s, j, from, rowid) || k == j)
    ensures Owed(Execute(s, k, kind), j, from, rowid)
  {
    if s.running.None? { StartOwes(s, k, kind, j, from, rowid); }
  }

  /** Accepting a trigger for a job owes it a run, and takes none from another job. */
  lemma {:induction false} EnqueueOwes(s: State, k: nat, t: Trigger, j: nat, from: nat, rowid: nat)
    requires k < |s.pending| == |s.enabled| && from <= |s.runs| && rowid <= |s.nodes|
    requires Owed(s, j, from, rowid) || (k == j && s.enabled[j])
    ensures Owed(Enqueue(s, k, t), j, from, rowid)
  {
    if s.enabled[k] && s.running.None? {
      StartOwes(s.(pending := s.pending[k := None]), k, t, j, from, rowid);
    }
  }

  lemma {:induction false} PollOwes(jobs: Jobs, s: State, k: nat, j: nat, from: nat, rowid: nat)
    requires Inv(jobs, s) && k <= |jobs| && from <= |s.runs| && rowid <= |s.nodes| && Owed(s, j, from, rowid)
    ensures Owed(PollFrom(s, k), j, from, rowid)
    decreases |jobs| - k
  {
    if k < |jobs| {
      if s.asked[k] {
        var s0 := s.(asked := s.asked[k := false]);
        EnqueueKeeps(jobs, s0, k, Manual);
        EnqueueOwes(s0, k, Manual, j, from, rowid);
        PollOwes(jobs, Enqueue(s0, k, Manual), k + 1, j, from, rowid);
      } else {
        PollOwes(jobs, s, k + 1, j, from, rowid);
      }
    }
  }

  lemma {:induction false} FinishOwes(jobs: Jobs, s: State, ok: bool, j: nat, from: nat, rowid: nat)
    requires Inv(jobs, s) && s.running.Some? && Owed(s, j, from, rowid)
    ensures Owed(Finish(jobs, s, ok), j, from, rowid)
  {
    var s' := Finish(jobs, s, ok);
    if StartedSince(s, j, from, rowid) {
      StartedStays(s, s', j, from, rowid);
    } else if j < |s.pending| && s.pending[j].Some? && s'.pending[j].None? {
      assert (j, s.pending[j].value) in s'.immediates;
    } else if Queued(s, j) {
      var q :| q in s.immediates && q.0 == j;
      assert q in s'.immediates;
    }
  }

  lemma {:induction false} ImmediateOwes(jobs: Jobs, s: State, j: nat, from: nat, rowid: nat)
    requires Inv(jobs, s) && s.immediates != [] && from <= |s.runs| && rowid <= |s.nodes| && Owed(s, j, from, rowid)
    ensures s.immediates[0].0 < |s.pending| && Owed(FireImmediate(s), j, from, rowid)
  {
    assert s.immediates[0] in s.immediates;
    var s0 := s.(immediates := s.immediates[1..]);
    if Queued(s, j) && s.immediates[0].0 != j {
      var q :| q in s.immediates && q.0 == j;
      assert q in s0.immediates;
    }
    ExecuteOwes(jobs, s0, s.immediates[0].0, s.immediates[0].1, j, from, rowid);
  }

  /** No step but a crash loses what is owed. */
  lemma {:induction false} StepOwes(jobs: Jobs, s: State, e: Event, j: nat, from: nat, rowid: nat)
    requires Inv(jobs, s) && CanStep(jobs, s, e) && !e.Restart?
    requires from <= |s.runs| && rowid <= |s.nodes| && Owed(s, j, from, rowid)
    ensures Owed(Step(jobs, s, e), j, from, rowid)
  {
    match e
    case Fire(k, t) => EnqueueOwes(s, k, t, j, from, rowid);
    case ExpireDebounce(k) =>
      EnqueueOwes(s.(debounce := s.debounce[k := None]), k, s.debounce[k].value, j, from, rowid);
    case Poll => PollOwes(jobs, s, 0, j, from, rowid);
    case EndRun(ok) => FinishOwes(jobs, s, ok, j, from, rowid);
    case RunImmediate => ImmediateOwes(jobs, s, j, from, rowid);
    case _ =>
  }

  lemma {:induction false} StepLogs(jobs: Jobs, s: State, e: Event)
    requires Inv(jobs, s) && CanStep(jobs, s, e)
    ensures |s.runs| <= |Step(jobs, s, e).runs|
  {
    match e
    case Poll => PollLogs(s, 0);
    case Restart =>
      RebootWellFormed(jobs, s);
      CatchUpLogs(jobs, Rebooted(jobs, s), 0);
    case _ =>
  }

  lemma {:induction false} PollLogs(s: State, j: nat)
    requires j <= |s.asked| == |s.pending| == |s.enabled|
    ensures |s.runs| <= |PollFrom(s, j).runs|
    decreases |s.asked| - j
  {
    if j < |s.asked| {
      PollLogs(if s.asked[j] then Enqueue(s.(asked := s.asked[j := false]), j, Manual) else s, j + 1);
    }
  }

  lemma {:induction false} CatchUpLogs(jobs: Jobs, s: State, j: nat)
    requires WellFormed(jobs, s) && j <= |jobs|
    ensures |s.runs| <= |CatchUpFrom(jobs, s, j).runs|
    decreases |jobs| - j
  {
    if j < |jobs| { CatchUpLogs(jobs, CatchUp(jobs, s, j), j + 1); }
  }

  lemma {:induction false} RunOwes(jobs: Jobs, s: State, es: seq<Event>, j: nat, from: nat, rowid: nat)
    requires Inv(jobs, s) && CanRun(jobs, s, es) && Restart !in es
    requires from <= |s.runs| && rowid <= |s.nodes| && Owed(s, j, from, rowid)
    ensures Owed(RunAll(jobs, s, es), j, from, rowid)
    decreases |es|
  {
    if es != [] {
      assert es[0] in es && forall e :: e in es[1..] ==> e in es;
      StepOwes(jobs, s, es[0], j, from, rowid);
      StepKeeps(jobs, s, es[0]);
      StepOnward(jobs, s, es[0]);
      StepLogs(jobs, s, es[0]);
      RunOwes(jobs, Step(jobs, s, es[0]), es[1..], j, from, rowid);
    }
  }

  /**
   * A trigger that passed the enabled check is, until the process dies, still pending, still
   * queued, or followed by a start of the job that sees every node there was at the trigger.
   */
  lemma {:induction false} TriggerNotLost(jobs: Jobs, s: State, j: nat, t: Trigger, es: seq<Event>)
    requires Inv(jobs, s) && j < |jobs| && s.enabled[j] && CanRun(jobs, Enqueue(s, j, t), es) && Restart !in es
    ensures Owed(RunAll(jobs, Enqueue(s, j, t), es), j, |s.runs|, |s.nodes|)
  {
    EnqueueOwes(s, j, t, j, |s.runs|, |s.nodes|);
    EnqueueKeeps(jobs, s, j, t);
    RunOwes(jobs, Enqueue(s, j, t), es, j, |s.runs|, |s.nodes|);
  }

  // ---- Debounced triggers ---------------------------------------------------------------------

  ghost predicate Noted(s: State, j: nat, from: nat,
                        rowid: nat) { (j < |s.debounce| && s.debounce[j].Some?) || Owed(s, j, from, rowid) }

  lemma {:induction false} PollNotes(s: State, k: nat)
    requires k <= |s.asked| == |s.pending| == |s.enabled|
    ensures PollFrom(s, k).debounce == s.debounce && PollFrom(s, k).enabled == s.enabled
    decreases |s.asked| - k
  {
    if k < |s.asked| {
      PollNotes(if s.asked[k] then Enqueue(s.(asked := s.asked[k := false]), k, Manual) else s, k + 1);
    }
  }

  lemma {:induction false} StepNotes(jobs: Jobs, s: State, e: Event, j: nat, from: nat, rowid: nat)
    requires Inv(jobs, s) && CanStep(jobs, s, e) && !e.Restart? && e != SetEnabled(j, false) && j < |jobs|
    requires s.enabled[j]
    requires from <= |s.runs| && rowid <= |s.nodes| && Noted(s, j, from, rowid)
    ensures Noted(Step(jobs, s, e), j, from, rowid) && |Step(jobs, s, e).enabled| == |jobs|
    ensures Step(jobs, s, e).enabled[j]
  {
    StepKeeps(jobs, s, e);
    if e.Poll? { PollNotes(s, 0); }
    if Owed(s, j, from, rowid) {
      StepOwes(jobs, s, e, j, from, rowid);
    } else if e == ExpireDebounce(j) {
      EnqueueOwes(s.(debounce := s.debounce[j := None]), j, s.debounce[j].value, j, from, rowid);
    }
  }

  lemma {:induction false} RunNotes(jobs: Jobs, s: State, es: seq<Event>, j: nat, from: nat, rowid: nat)
    requires Inv(jobs, s) && CanRun(jobs, s, es) && Restart !in es && SetEnabled(j, false) !in es && j < |jobs|
    requires s.enabled[j]
    requires from <= |s.runs| && rowid <= |s.nodes| && Noted(s, j, from, rowid)
    ensures Noted(RunAll(jobs, s, es), j, from, rowid)
    decreases |es|
  {
    if es != [] {
      assert es[0] in es && forall e :: e in es[1..] ==> e in es;
      StepNotes(jobs, s, es[0], j, from, rowid);
      StepKeeps(jobs, s, es[0]);
      StepOnward(jobs, s, es[0]);
      StepLogs(jobs, s, es[0]);
      RunNotes(jobs, Step(jobs, s, es[0]), es[1..], j, from, rowid);
    }
  }

  /**
   * While the process lives and the job stays enabled, an insert that the job listens to is still
   * debounced, still owed, or followed by a start of the job that sees the inserted nodes.
   */
  lemma {:induction false} InsertNotLost(jobs: Jobs, s: State, rows: seq<Option<string>>, j: nat, es: seq<Event>)
    requires Inv(jobs, s) && j < |jobs| && s.enabled[j] && InsertMatches(jobs, j, rows)
    requires CanRun(jobs, Inserted(jobs, s, rows, true), es) && Restart !in es && SetEnabled(j, false) !in es
    ensures Noted(RunAll(jobs, Inserted(jobs, s, rows, true), es), j, |s.runs|, |s.nodes + rows|)
  {
    InsertKeeps(jobs, s, rows, true);
    RunNotes(jobs, Inserted(jobs, s, rows, true), es, j, |s.runs|, |s.nodes + rows|);
  }

  // ---- Restart ------------------------------------------------------------------------------------

  lemma {:induction false} CatchUpOwesOthers(jobs: Jobs, s: State, k: nat, j: nat, from: nat, rowid: nat)
    requires Inv(jobs, s) && k <= |jobs| && from <= |s.runs| && rowid <= |s.nodes| && Owed(s, j, from, rowid)
    requires s.running.Some? ==> s.runs[s.running.value].seen == |s.nodes|
    ensures Owed(CatchUpFrom(jobs, s, k), j, from, rowid)
    decreases |jobs| - k
  {
    if k < |jobs| {
      EnqueueOwes(s, k, Startup, j, from, rowid);
      CatchUpKeeps(jobs, s, k);
      CatchUpOwesOthers(jobs, CatchUp(jobs, s, k), k + 1, j, from, rowid);
    }
  }

  lemma {:induction false} CatchUpOwes(jobs: Jobs, s: State, k: nat, j: nat, from: nat)
    requires Inv(jobs, s) && k <= j < |jobs| && from <= |s.runs| && s.enabled[j] && HasCursor(jobs, j)
    requires HasFresh(jobs, s, j)
    requires s.running.Some? ==> s.runs[s.running.value].seen == |s.nodes|
    ensures Owed(CatchUpFrom(jobs, s, k), j, from, |s.nodes|)
    decreases j - k
  {
    var s' := CatchUp(jobs, s, k);
    CatchUpKeeps(jobs, s, k);
    if k == j {
      EnqueueOwes(s, j, Startup, j, from, |s.nodes|);
      CatchUpOwesOthers(jobs, s', k + 1, j, from, |s.nodes|);
    } else {
      assert HasFresh(jobs, s', j);
      CatchUpOwes(jobs, s', k + 1, j, from);
    }
  }

  /** After a crash at any point, the restart owes a run to every enabled job with a matching node above its cursor. */
  lemma {:induction false} RestartCatchesUp(jobs: Jobs, s: State, j: nat)
    requires Inv(jobs, s) && j < |jobs| && s.enabled[j] && HasCursor(jobs, j) && HasFresh(jobs, s, j)
    ensures Owed(Restarted(jobs, s), j, |s.runs|, |s.nodes|)
  {
    RebootWellFormed(jobs, s);
    RebootKeeps(jobs, s);
    assert HasFresh(jobs, Rebooted(jobs, s), j);
    CatchUpOwes(jobs, Rebooted(jobs, s), 0, j, |s.runs|);
  }

  // ---- Drain ------------------------------------------------------------------------------------------

  function PendingJobs(s: State): set<nat> { set j | 0 <= j < |s.pending| && s.pending[j].Some? }

  function Outstanding(s: State): nat { |PendingJobs(s)| + |s.immediates| }

  /** A measure that each step of the drain makes smaller. */
  function Backlog(s: State): nat {
    3 * |PendingJobs(s)| + 4 * |s.immediates| + if s.running.Some? then 2 else 0
  }

  predicate Drains(e: Event) { e.EndRun? || e.RunImmediate? }

  lemma {:induction false} PendingSet(s: State, s': State, j: nat)
    requires j < |s.pending| == |s'.pending| && s'.pending == s.pending[j := s'.pending[j]]
    ensures s'.pending[j].Some? ==> PendingJobs(s') == PendingJobs(s) + {j}
    ensures s'.pending[j].None? ==> PendingJobs(s') == PendingJobs(s) - {j}
  {
  }

  /** A step of the drain takes from the backlog; a start takes one outstanding request. */
  lemma {:induction false} DrainStep(jobs: Jobs, s: State, e: Event)
    requires Inv(jobs, s) && CanStep(jobs, s, e) && Drains(e)
    ensures Backlog(Step(jobs, s, e)) < Backlog(s)
    ensures |Step(jobs, s, e).runs| + Outstanding(Step(jobs, s, e)) <= |s.runs| + Outstanding(s)
  {
    var s' := Step(jobs, s, e);
    if e.EndRun? {
      match FirstPending(s.pending, 0) {
        case None =>
        case Some(j) =>
          PendingSet(s, s', j);
          assert j in PendingJobs(s);
      }
    } else {
      assert s.immediates[0] in s.immediates;
      if s.running.Some? { PendingSet(s, s', s.immediates[0].0); }
    }
  }

  /** With no new triggers the backlog bounds the steps, and what is outstanding bounds the starts. */
  lemma {:induction false} DrainBound(jobs: Jobs, s: State, es: seq<Event>)
    requires Inv(jobs, s) && CanRun(jobs, s, es) && forall e :: e in es ==> Drains(e)
    ensures |es| + Backlog(RunAll(jobs, s, es)) <= Backlog(s)
    ensures |RunAll(jobs, s, es).runs| + Outstanding(RunAll(jobs, s, es)) <= |s.runs| + Outstanding(s)
    decreases |es|
  {
    if es != [] {
      assert es[0] in es && forall e :: e in es[1..] ==> e in es;
      DrainStep(jobs, s, es[0]);
      StepKeeps(jobs, s, es[0]);
      DrainBound(jobs, Step(jobs, s, es[0]), es[1..]);
    }
  }

  /** The drain goes on exactly while something is pending, queued or running. */
  lemma {:induction false} DrainEnds(jobs: Jobs, s: State)
    requires Inv(jobs, s)
    ensures (forall e :: Drains(e) ==> !CanStep(jobs, s, e))
              <==> PendingJobs(s) == {} && s.immediates == [] && s.running.None?
  {
    if forall e :: Drains(e) ==> !CanStep(jobs, s, e) {
      assert !CanStep(jobs, s, EndRun(true)) && !CanStep(jobs, s, RunImmediate);
      assert forall j :: 0 <= j < |s.pending| ==> s.pending[j].None?;
    }
  }
}
