/**
 * What the scheduler keeps over all runs, crashes and restarts included: one open
 * body, no lost trigger, cursors that are earned, and an end to every backlog
 * (indexer/src/jobs/scheduler.ts).
 */
module SchedulerSafety {
  import opened Common
  import opened SchedulerModel

  // ---- What every reachable state keeps ---------------------------------------------------

  /** At most one job body is open, and it is the one that `running` names. */
  ghost predicate OneBody(s: State) {
    forall i :: 0 <= i < |s.runs| ==> (s.runs[i].status.Open? <==> s.running == Some(i))
  }

  /** A pending job is looked at when the open body ends or when the queue is served. */
  predicate NothingStuck(s: State) {
    (exists j :: 0 <= j < |s.pending| && s.pending[j].Some?) ==> s.running.Some? || s.immediates != []
  }

  ghost predicate RunsInOrder(s: State) {
    && (forall i, k :: 0 <= i <= k < |s.runs| ==> s.runs[i].seen <= s.runs[k].seen)
    && (forall i :: 0 <= i < |s.runs| ==> s.runs[i].seen <= |s.nodes|)
  }

  /** The cursor of a job is within what the open run of that job saw when it started. */
  predicate CursorBehind(s: State)
    requires s.running.Some? ==> s.running.value < |s.runs| && s.runs[s.running.value].job < |s.cursor|
  {
    && (forall j :: 0 <= j < |s.cursor| ==> s.cursor[j] <= |s.nodes|)
    && (s.running.Some? ==> s.cursor[s.runs[s.running.value].job] <= s.runs[s.running.value].seen)
  }

  ghost predicate RunCovers(s: State, j: nat, rowid: nat) {
    exists i :: 0 <= i < |s.runs| && s.runs[i].job == j && s.runs[i].status == Succeeded && rowid <= s.runs[i].seen
  }

  /** Every matching node at or below a cursor was there when a run that succeeded started. */
  ghost predicate CursorEarned(jobs: Jobs, s: State)
    requires |s.cursor| == |jobs|
  {
    forall j, i :: 0 <= j < |jobs| && 0 <= i < |s.nodes| && i < s.cursor[j] && MatchesInsert(jobs, j, s.nodes[i]) ==>
      RunCovers(s, j, s.cursor[j])
  }

  ghost predicate Inv(jobs: Jobs, s: State) {
    && WellFormed(jobs, s) && OneBody(s) && NothingStuck(s) && RunsInOrder(s)
    && (s.running.Some? ==> s.runs[s.running.value].job < |jobs|)
    && CursorBehind(s) && CursorEarned(jobs, s)
  }

  function Fresh(jobs: Jobs): State {
    State(seq(|jobs|, j => None), seq(|jobs|, j => None), [], None, seq(|jobs|, j => true), seq(|jobs|, j => false),
          seq(|jobs|, j => 0), [], [])
  }

  /** The invariant without the clause that is broken while the queue is served. */
  ghost predicate Core(jobs: Jobs, s: State) {
    && WellFormed(jobs, s) && OneBody(s) && RunsInOrder(s)
    && (s.running.Some? ==> s.runs[s.running.value].job < |jobs|)
    && CursorBehind(s) && CursorEarned(jobs, s)
  }

  lemma {:induction false} CoversStays(s: State, s': State, j: nat, rowid: nat)
    requires RunCovers(s, j, rowid)
    requires |s.runs| <= |s'.runs|
    requires forall i :: 0 <= i < |s.runs| && !s.runs[i].status.Open? ==> s'.runs[i] == s.runs[i]
    ensures RunCovers(s', j, rowid)
  {
    var i :| 0 <= i < |s.runs| && s.runs[i].job == j && s.runs[i].status == Succeeded && rowid <= s.runs[i].seen;
    assert s'.runs[i] == s.runs[i];
  }

  lemma {:induction false} EarnedStays(jobs: Jobs, s: State, s': State)
    requires |s.cursor| == |s'.cursor| == |jobs| && CursorEarned(jobs, s) && s'.cursor == s.cursor
    requires s.nodes <= s'.nodes
    requires forall j :: 0 <= j < |s.cursor| ==> s.cursor[j] <= |s.nodes|
    requires |s.runs| <= |s'.runs|
    requires forall i :: 0 <= i < |s.runs| && !s.runs[i].status.Open? ==> s'.runs[i] == s.runs[i]
    ensures CursorEarned(jobs, s')
  {
    forall j, i | 0 <= j < |jobs| && 0 <= i < |s'.nodes| && i < s'.cursor[j] && MatchesInsert(jobs, j, s'.nodes[i])
      ensures RunCovers(s', j, s'.cursor[j])
    {
      assert s'.nodes[i] == s.nodes[i];
      CoversStays(s, s', j, s.cursor[j]);
    }
  }

  lemma {:induction false} StartKeeps(jobs: Jobs, s: State, j: nat, kind: Trigger)
    requires Core(jobs, s) && j < |jobs| && s.running.None?
    ensures Inv(jobs, Start(s, j, kind))
  {
    var s' := Start(s, j, kind);
    forall r | r in s'.runs ensures r.job < |jobs| {
      assert r in s.runs || r == Run(j, kind, |s.nodes|, Open);
    }
    EarnedStays(jobs, s, s');
  }

  lemma {:induction false} ExecuteKeeps(jobs: Jobs, s: State, j: nat, kind: Trigger)
    requires Core(jobs, s) && j < |jobs|
    ensures Inv(jobs, Execute(s, j, kind))
  {
    if s.running.None? { StartKeeps(jobs, s, j, kind); }
  }

  lemma {:induction false} EnqueueKeeps(jobs: Jobs, s: State, j: nat, t: Trigger)
    requires Inv(jobs, s) && j < |jobs|
    ensures Inv(jobs, Enqueue(s, j, t))
  {
    if s.enabled[j] && s.running.None? {
      StartKeeps(jobs, s.(pending := s.pending[j := None]), j, t);
    }
  }

  lemma {:induction false} FinishCore(jobs: Jobs, s: State, s1: State, ok: bool)
    requires Inv(jobs, s) && s.running.Some?
    requires var i := s.running.value; var r := s.runs[i];
             s1 == s.(running := None, runs := s.runs[i := r.(status := if ok then Succeeded else Failed)],
                      cursor := if ok && HasCursor(jobs, r.job) then s.cursor[r.job := r.seen] else s.cursor)
    ensures Core(jobs, s1)
  {
    var i := s.running.value;
    var r := s.runs[i];
    forall q | q in s1.runs ensures q.job < |jobs| {
      assert q in s.runs || q == r.(status := if ok then Succeeded else Failed);
    }
    forall j, k | 0 <= j < |jobs| && 0 <= k < |s1.nodes| && k < s1.cursor[j] && MatchesInsert(jobs, j, s1.nodes[k])
      ensures RunCovers(s1, j, s1.cursor[j])
    {
      if ok && j == r.job && HasCursor(jobs, r.job) {
        assert s1.runs[i].job == j && s1.runs[i].status == Succeeded;
      } else {
        CoversStays(s, s1, j, s.cursor[j]);
      }
    }
  }

  lemma {:induction false} DrainKeeps(jobs: Jobs, s: State)
    requires Core(jobs, s)
    ensures Inv(jobs, DrainNext(s))
  {
  }

  lemma {:induction false} FinishKeeps(jobs: Jobs, s: State, ok: bool)
    requires Inv(jobs, s) && s.running.Some?
    ensures Inv(jobs, Finish(jobs, s, ok))
  {
    var i := s.running.value;
    var r := s.runs[i];
    var s1 := s.(running := None, runs := s.runs[i := r.(status := if ok then Succeeded else Failed)],
                 cursor := if ok && HasCursor(jobs, r.job) then s.cursor[r.job := r.seen] else s.cursor);
    FinishCore(jobs, s, s1, ok);
    DrainKeeps(jobs, s1);
  }

  lemma {:induction false} PollKeeps(jobs: Jobs, s: State, j: nat)
    requires Inv(jobs, s) && j <= |jobs|
    ensures Inv(jobs, PollFrom(s, j))
    decreases |jobs| - j
  {
    if j < |jobs| {
      if s.asked[j] {
        EnqueueKeeps(jobs, s.(asked := s.asked[j := false]), j, Manual);
        PollKeeps(jobs, Enqueue(s.(asked := s.asked[j := false]), j, Manual), j + 1);
      } else {
        PollKeeps(jobs, s, j + 1);
      }
    }
  }

  lemma {:induction false} CatchUpKeeps(jobs: Jobs, s: State, j: nat)
    requires Inv(jobs, s) && j < |jobs| && (s.running.Some? ==> s.runs[s.running.value].seen == |s.nodes|)
    ensures Inv(jobs, CatchUp(jobs, s, j))
    ensures var s' := CatchUp(jobs, s, j); s'.running.Some? ==> s'.runs[s'.running.value].seen == |s'.nodes|
  {
    EnqueueKeeps(jobs, s, j, Startup);
    if HasCursor(jobs, j) && s.enabled[j] && !HasFresh(jobs, s, j) && s.cursor[j] == 0 {
      var s' := s.(cursor := s.cursor[j := |s.nodes|]);
      forall k, i | 0 <= k < |jobs| && 0 <= i < |s'.nodes| && i < s'.cursor[k] && MatchesInsert(jobs, k, s'.nodes[i])
        ensures RunCovers(s', k, s'.cursor[k])
      {
        assert k != j;
        CoversStays(s, s', k, s.cursor[k]);
      }
    }
  }

  lemma {:induction false} CatchUpAllKeeps(jobs: Jobs, s: State, j: nat)
    requires Inv(jobs, s) && j <= |jobs| && (s.running.Some? ==> s.runs[s.running.value].seen == |s.nodes|)
    ensures Inv(jobs, CatchUpFrom(jobs, s, j))
    decreases |jobs| - j
  {
    if j < |jobs| {
      CatchUpKeeps(jobs, s, j);
      CatchUpAllKeeps(jobs, CatchUp(jobs, s, j), j + 1);
    }
  }

  lemma {:induction false} RebootKeeps(jobs: Jobs, s: State)
    requires Inv(jobs, s)
    ensures Inv(jobs, Rebooted(jobs, s))
  {
    RebootWellFormed(jobs, s);
    EarnedStays(jobs, s, Rebooted(jobs, s));
  }

  lemma {:induction false} InsertKeeps(jobs: Jobs, s: State, rows: seq<Option<string>>, observed: bool)
    requires Inv(jobs, s)
    ensures Inv(jobs, Inserted(jobs, s, rows, observed))
  {
    EarnedStays(jobs, s, Inserted(jobs, s, rows, observed));
  }

  /** Every step keeps the invariant: mutual exclusion, nothing stuck, cursors earned. */
  lemma {:induction false} StepKeeps(jobs: Jobs, s: State, e: Event)
    requires Inv(jobs, s) && CanStep(jobs, s, e)
    ensures Inv(jobs, Step(jobs, s, e))
  {
    match e
    case Fire(j, t) => EnqueueKeeps(jobs, s, j, t);
    case Insert(rows, observed) => InsertKeeps(jobs, s, rows, observed);
    case ExpireDebounce(j) => EnqueueKeeps(jobs, s.(debounce := s.debounce[j := None]), j, s.debounce[j].value);
    case Poll => PollKeeps(jobs, s, 0);
    case EndRun(ok) => FinishKeeps(jobs, s, ok);
    case RunImmediate =>
      assert s.immediates[0] in s.immediates;
      assert forall q :: q in s.immediates[1..] ==> q in s.immediates;
      ExecuteKeeps(jobs, s.(immediates := s.immediates[1..]), s.immediates[0].0, s.immediates[0].1);
    case Restart =>
      RebootWellFormed(jobs, s);
      RebootKeeps(jobs, s);
      CatchUpAllKeeps(jobs, Rebooted(jobs, s), 0);
    case ChangeState(_, _) =>
    case Ask(_) =>
    case SetEnabled(_, _) =>
  }
}
