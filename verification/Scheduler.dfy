/**
 * The scheduler object: its fields, its callbacks, and the state machine that they
 * implement (indexer/src/jobs/scheduler.ts).
 *
 * The database tables that it reads and writes are fields too. What a job body does is
 * not modelled; `Finish` is the part of `execute` after the body.
 */
module Scheduler {
  import opened Common
  import opened SchedulerModel
  import opened SchedulerSafety

  class Scheduler {
    const jobs: Jobs
    var pending: seq<Option<Trigger>>
    var debounce: seq<Option<Trigger>>
    var immediates: seq<(nat, Trigger)>
    var running: bool
    var currentJob: Option<nat>
    // what the open call of `execute` holds
    var runId: nat
    var cursorBefore: Option<nat>
    // tables
    var enabled: seq<bool>
    var triggerPending: seq<bool>
    var cursor: seq<nat>
    var nodes: seq<Option<string>>
    var runs: seq<Run>

    ghost function State(): State
      reads this
    {
      SchedulerModel.State(pending, debounce, immediates, if running then Some(runId) else None,
                           enabled, triggerPending, cursor, nodes, runs)
    }

    ghost predicate Valid()
      reads this
    {
      && Inv(jobs, State())
      && (running ==> currentJob == Some(runs[runId].job))
      && (running ==> cursorBefore == if HasCursor(jobs, runs[runId].job) then Some(runs[runId].seen) else None)
      && (!running ==> currentJob == None)
    }

    constructor (jobs: Jobs)
      ensures Valid() && this.jobs == jobs && State() == Fresh(jobs)
    {
      this.jobs := jobs;
      pending, debounce := seq(|jobs|, j => None), seq(|jobs|, j => None);
      immediates, running, currentJob, runId, cursorBefore := [], false, None, 0, None;
      enabled, triggerPending, cursor := seq(|jobs|, j => true), seq(|jobs|, j => false), seq(|jobs|, j => 0);
      nodes, runs := [], [];
    }

    /** The part of `execute` before the job body. */
    method Execute(j: nat, kind: Trigger)
      requires Core(jobs, State()) && j < |jobs|
      requires running ==> Valid()
      modifies this
      ensures Valid() && State() == SchedulerModel.Execute(old(State()), j, kind)
    {
      ExecuteKeeps(jobs, State(), j, kind);
      if running {
        pending := pending[j := Some(kind)];
        return;
      }
      running, currentJob := true, Some(j);
      runId := |runs|;
      runs := runs + [Run(j, kind, |nodes|, Open)];
      cursorBefore := if HasCursor(jobs, j) then Some(|nodes|) else None;
    }

    method Enqueue(j: nat, t: Trigger)
      requires Valid() && j < |jobs|
      modifies this
      ensures Valid() && State() == SchedulerModel.Enqueue(old(State()), j, t)
    {
      if !enabled[j] { return; }
      if running {
        pending := pending[j := Some(t)];
        return;
      }
      pending := pending[j := None];
      Execute(j, t);
    }

    /** Take the first pending job in registration order. */
    method FindNextPending() returns (next: Option<(nat, Trigger)>)
      modifies this`pending
      ensures match FirstPending(old(pending), 0)
              case None => next == None && pending == old(pending)
              case Some(j) => next == Some((j, old(pending)[j].value)) && pending == old(pending)[j := None]
    {
      for j := 0 to |pending|
        invariant pending == old(pending) && FirstPending(pending, 0) == FirstPending(pending, j)
      {
        if pending[j].Some? {
          var trigger := pending[j].value;
          pending := pending[j := None];
          return Some((j, trigger));
        }
      }
      return None;
    }

    /** The part of `execute` after the job body: log the outcome, move the cursor, serve the next pending job. */
    method Finish(ok: bool)
      requires Valid() && running
      modifies this
      ensures Valid() && State() == SchedulerModel.Finish(jobs, old(State()), ok)
    {
      FinishKeeps(jobs, State(), ok);
      var job := currentJob.value;
      runs := runs[runId := runs[runId].(status := if ok then Succeeded else Failed)];
      if ok && cursorBefore.Some? {
        cursor := cursor[job := cursorBefore.value];
      }
      running, currentJob := false, None;
      var next := FindNextPending();
      if next.Some? {
        immediates := immediates + [next.value];
      }
    }

    method FireImmediate()
      requires Valid() && immediates != []
      modifies this
      ensures old(immediates)[0].0 < |old(pending)|
      ensures Valid() && State() == SchedulerModel.FireImmediate(old(State()))
    {
      var q := immediates[0];
      assert q in immediates;
      assert forall r :: r in immediates[1..] ==> r in immediates;
      immediates := immediates[1..];
      Execute(q.0, q.1);
    }

    method EnqueueDebounced(j: nat, t: Trigger)
      requires j < |debounce|
      modifies this`debounce
      ensures debounce == old(debounce)[j := Some(t)]
    {
      debounce := debounce[j := Some(t)];
    }

    method ExpireDebounce(j: nat)
      requires Valid() && j < |jobs| && debounce[j].Some?
      modifies this
      ensures Valid() && State() == Expire(old(State()), j)
    {
      var t := debounce[j].value;
      debounce := debounce[j := None];
      Enqueue(j, t);
    }

    /** An insert, seen by the listener if this process made it. */
    method OnInsert(rows: seq<Option<string>>, observed: bool)
      requires Valid()
      modifies this
      ensures Valid() && State() == Inserted(jobs, old(State()), rows, observed)
    {
      InsertKeeps(jobs, State(), rows, observed);
      ghost var before := debounce;
      nodes := nodes + rows;
      if !observed { return; }
      for j := 0 to |jobs|
        invariant |debounce| == |jobs| == |before|
        invariant forall k :: 0 <= k < |jobs| ==>
                    debounce[k] == if k < j && InsertMatches(jobs, k, rows) then Some(OnTypeInsert) else before[k]
        invariant State() == old(State()).(nodes := nodes, debounce := debounce) && nodes == old(nodes) + rows
        invariant currentJob == old(currentJob) && cursorBefore == old(cursorBefore)
      {
        if exists row :: row in rows && MatchesInsert(jobs, j, row) {
          EnqueueDebounced(j, OnTypeInsert);
        }
      }
      assert debounce == Inserted(jobs, old(State()), rows, observed).debounce;
    }

    method OnStateChange(typeName: string, state: string)
      requires Valid()
      modifies this
      ensures Valid() && State() == StateChanged(jobs, old(State()), typeName, state)
    {
      ghost var before := debounce;
      for j := 0 to |jobs|
        invariant |debounce| == |jobs| == |before|
        invariant forall k :: 0 <= k < |jobs| ==>
                    debounce[k]
                    == if k < j && (typeName, state) in jobs[k].stateTypes then Some(OnNodeState) else before[k]
        invariant State() == old(State()).(debounce := debounce)
        invariant currentJob == old(currentJob) && cursorBefore == old(cursorBefore)
      {
        if (typeName, state) in jobs[j].stateTypes {
          EnqueueDebounced(j, OnNodeState);
        }
      }
      assert debounce == StateChanged(jobs, old(State()), typeName, state).debounce;
    }

    method PollOne(j: nat)
      requires Valid() && j < |jobs|
      modifies this
      ensures Valid()
      ensures State() == if old(triggerPending)[j]
                         then SchedulerModel.Enqueue(old(State()).(asked := old(triggerPending)[j := false]), j, Manual)
                         else old(State())
    {
      if triggerPending[j] {
        triggerPending := triggerPending[j := false];
        Enqueue(j, Manual);
      }
    }

    method PollTriggerPending()
      requires Valid()
      modifies this
      ensures Valid() && State() == PollFrom(old(State()), 0)
    {
      ghost var done := PollFrom(State(), 0);
      for j := 0 to |jobs|
        invariant Valid() && PollFrom(State(), j) == done
      {
        PollOne(j);
      }
    }

    method CatchUpOne(j: nat)
      requires Valid() && j < |jobs| && (running ==> runs[runId].seen == |nodes|)
      modifies this
      ensures Valid() && (running ==> runs[runId].seen == |nodes|)
      ensures State() == CatchUp(jobs, old(State()), j)
    {
      CatchUpKeeps(jobs, State(), j);
      if HasCursor(jobs, j) && enabled[j] {
        if exists i :: cursor[j] <= i < |nodes| && MatchesInsert(jobs, j, nodes[i]) {
          Enqueue(j, Startup);
        } else if cursor[j] == 0 {
          cursor := cursor[j := |nodes|];
        }
      }
    }

    /** startupCatchup. No job body has been open in this process for longer than the loop. */
    method StartupCatchup()
      requires Valid() && (running ==> runs[runId].seen == |nodes|)
      modifies this
      ensures Valid() && State() == CatchUpFrom(jobs, old(State()), 0)
    {
      ghost var done := CatchUpFrom(jobs, State(), 0);
      for j := 0 to |jobs|
        invariant Valid() && (running ==> runs[runId].seen == |nodes|) && CatchUpFrom(jobs, State(), j) == done
      {
        CatchUpOne(j);
      }
    }

    /** A new process over the same tables. */
    method Restart()
      requires Valid()
      modifies this
      ensures Valid() && State() == Restarted(jobs, old(State()))
    {
      RebootWellFormed(jobs, State());
      RebootKeeps(jobs, State());
      pending, debounce := seq(|jobs|, j => None), seq(|jobs|, j => None);
      immediates, running, currentJob := [], false, None;
      var log := runs;
      runs := seq(|log|, i requires 0 <= i < |log| => Abort(log[i]));
      assert State() == Rebooted(jobs, old(State()));
      StartupCatchup();
    }
  }
}
