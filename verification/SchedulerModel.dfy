/**
 * The job scheduler as an event-loop state machine (indexer/src/jobs/scheduler.ts).
 *
 * Every callback of the event loop is one step. Job bodies run between steps:
 * a body is open from the step that starts it to the step in which it ends.
 * Jobs are numbered in the order in which they are registered. A node's rowid
 * is its position in `nodes` plus one; nodes are only ever added.
 */
module SchedulerModel {
  import opened Common

  datatype Trigger = Timer | OnTypeInsert | OnNodeState | Cron | Manual | Startup

  /** What a job listens to: types of inserted nodes, and (type, state) pairs. */
  datatype Job = Job(insertTypes: set<string>, stateTypes: set<(string, string)>)

  datatype Status = Open | Succeeded | Failed | Aborted

  /** A row of the run log. `seen` is the greatest rowid when the run started. */
  datatype Run = Run(job: nat, kind: Trigger, seen: nat, status: Status)

  datatype State = State(
    // in memory
    pending: seq<Option<Trigger>>,
    debounce: seq<Option<Trigger>>,
    immediates: seq<(nat, Trigger)>,
    running: Option<nat>,
    // in the database
    enabled: seq<bool>,
    asked: seq<bool>,
    cursor: seq<nat>,
    nodes: seq<Option<string>>,
    runs: seq<Run>)

  type Jobs = seq<Job>

  predicate WellFormed(jobs: Jobs, s: State) {
    && |s.pending| == |s.debounce| == |s.enabled| == |s.asked| == |s.cursor| == |jobs|
    && (forall q :: q in s.immediates ==> q.0 < |jobs|)
    && (forall r :: r in s.runs ==> r.job < |jobs|)
    && (s.running.Some? ==> s.running.value < |s.runs|)
  }

  // ---- Steps ---------------------------------------------------------------------------

  function Start(s: State, j: nat, kind: Trigger): State {
    s.(running := Some(|s.runs|), runs := s.runs + [Run(j, kind, |s.nodes|, Open)])
  }

  function Execute(s: State, j: nat, kind: Trigger): State
    requires j < |s.pending|
  {
    if s.running.Some? then s.(pending := s.pending[j := Some(kind)]) else Start(s, j, kind)
  }

  function Enqueue(s: State, j: nat, t: Trigger): State
    requires j < |s.pending| == |s.enabled|
  {
    if !s.enabled[j] then s
    else if s.running.Some? then s.(pending := s.pending[j := Some(t)])
    else Start(s.(pending := s.pending[j := None]), j, t)
  }

  /** The first job from `j` on that is pending. */
  function FirstPending(pending: seq<Option<Trigger>>, j: nat): (r: Option<nat>)
    requires j <= |pending|
    ensures r.Some? ==> j <= r.value < |pending| && pending[r.value].Some?
    ensures r.None? ==> forall k :: j <= k < |pending| ==> pending[k].None?
    decreases |pending| - j
  {
    if j == |pending| then None else if pending[j].Some? then Some(j) else FirstPending(pending, j + 1)
  }

  function DrainNext(s: State): State {
    match FirstPending(s.pending, 0)
    case None => s
    case Some(j) => s.(pending := s.pending[j := None], immediates := s.immediates + [(j, s.pending[j].value)])
  }

  predicate HasCursor(jobs: Jobs, j: nat)
    requires j < |jobs|
  {
    jobs[j].insertTypes != {}
  }

  function Finish(jobs: Jobs, s: State, ok: bool): State
    requires WellFormed(jobs, s) && s.running.Some?
  {
    var i := s.running.value;
    var r := s.runs[i];
    assert r in s.runs;
    DrainNext(s.(running := None,
                 runs := s.runs[i := r.(status := if ok then Succeeded else Failed)],
                 cursor := if ok && HasCursor(jobs, r.job) then s.cursor[r.job := r.seen] else s.cursor))
  }

  function FireImmediate(s: State): State
    requires s.immediates != [] && s.immediates[0].0 < |s.pending|
  {
    Execute(s.(immediates := s.immediates[1..]), s.immediates[0].0, s.immediates[0].1)
  }

  /** Restart the debounce timers of the matched jobs. */
  function Debounced(s: State, matched: nat -> bool, t: Trigger): State {
    s.(debounce := seq(|s.debounce|, j requires 0 <= j < |s.debounce| => if matched(j) then Some(t) else s.debounce[j]))
  }

  predicate MatchesInsert(jobs: Jobs, j: nat,
                          row: Option<string>) { j < |jobs| && row.Some? && row.value in jobs[j].insertTypes }

  predicate InsertMatches(jobs: Jobs, j: nat,
                          rows: seq<Option<string>>) { exists row :: row in rows && MatchesInsert(jobs, j, row) }

  function Inserted(jobs: Jobs, s: State, rows: seq<Option<string>>, observed: bool): State {
    var s' := s.(nodes := s.nodes + rows);
    if observed then Debounced(s', (j: nat) => InsertMatches(jobs, j, rows), OnTypeInsert) else s'
  }

  function StateChanged(jobs: Jobs, s: State, typeName: string, state: string): State {
    Debounced(s, (j: nat) => j < |jobs| && (typeName, state) in jobs[j].stateTypes, OnNodeState)
  }

  function Expire(s: State, j: nat): State
    requires j < |s.pending| == |s.enabled| == |s.debounce| && s.debounce[j].Some?
  {
    Enqueue(s.(debounce := s.debounce[j := None]), j, s.debounce[j].value)
  }

  /** pollTriggerPending from job `j` on. */
  function PollFrom(s: State, j: nat): State
    requires j <= |s.asked| == |s.pending| == |s.enabled|
    decreases |s.asked| - j
  {
    if j == |s.asked| then s
    else if s.asked[j] then PollFrom(Enqueue(s.(asked := s.asked[j := false]), j, Manual), j + 1)
    else PollFrom(s, j + 1)
  }

  /** A node that the job listens to has a rowid above the cursor. */
  predicate HasFresh(jobs: Jobs, s: State, j: nat)
    requires j < |jobs| && j < |s.cursor|
  {
    exists i :: s.cursor[j] <= i < |s.nodes| && MatchesInsert(jobs, j, s.nodes[i])
  }

  function CatchUp(jobs: Jobs, s: State, j: nat): State
    requires WellFormed(jobs, s) && j < |jobs|
  {
    if !HasCursor(jobs, j) || !s.enabled[j] then s
    else if HasFresh(jobs, s, j) then Enqueue(s, j, Startup)
    else if s.cursor[j] == 0 then s.(cursor := s.cursor[j := |s.nodes|])
    else s
  }

  /** startupCatchup from job `j` on. */
  function CatchUpFrom(jobs: Jobs, s: State, j: nat): State
    requires WellFormed(jobs, s) && j <= |jobs|
    decreases |jobs| - j
  {
    if j == |jobs| then s else CatchUpFrom(jobs, CatchUp(jobs, s, j), j + 1)
  }

  function Abort(r: Run): Run { if r.status.Open? then r.(status := Aborted) else r }

  /** The process dies: timers, queues and pending triggers are gone, an open run stays unfinished. */
  function Rebooted(jobs: Jobs, s: State): State {
    s.(pending := seq(|jobs|, j => None), debounce := seq(|jobs|, j => None), immediates := [], running := None,
       runs := seq(|s.runs|, i requires 0 <= i < |s.runs| => Abort(s.runs[i])))
  }

  function Restarted(jobs: Jobs, s: State): State
    requires WellFormed(jobs, s)
  {
    RebootWellFormed(jobs, s);
    CatchUpFrom(jobs, Rebooted(jobs, s), 0)
  }

  lemma {:induction false} RebootWellFormed(jobs: Jobs, s: State)
    requires WellFormed(jobs, s)
    ensures WellFormed(jobs, Rebooted(jobs, s))
  {
    forall r | r in Rebooted(jobs, s).runs ensures r.job < |jobs| {
      var i :| 0 <= i < |s.runs| && r == Abort(s.runs[i]);
      assert s.runs[i] in s.runs;
    }
  }

  datatype Event =
    | Fire(job: nat, kind: Trigger)
    | Insert(rows: seq<Option<string>>, observed: bool)
    | ChangeState(typeName: string, state: string)
    | ExpireDebounce(job: nat)
    | Ask(job: nat)
    | Poll
    | SetEnabled(job: nat, on: bool)
    | EndRun(ok: bool)
    | RunImmediate
    | Restart

  predicate CanStep(jobs: Jobs, s: State, e: Event) {
    match e
    case Fire(j, _) => j < |jobs|
    case ExpireDebounce(j) => j < |s.debounce| && s.debounce[j].Some?
    case Ask(j) => j < |jobs|
    case SetEnabled(j, _) => j < |jobs|
    case EndRun(_) => s.running.Some?
    case RunImmediate => s.immediates != []
    case _ => true
  }

  function Step(jobs: Jobs, s: State, e: Event): State
    requires WellFormed(jobs, s) && CanStep(jobs, s, e)
  {
    match e
    case Fire(j, t) => Enqueue(s, j, t)
    case Insert(rows, observed) => Inserted(jobs, s, rows, observed)
    case ChangeState(ty, st) => StateChanged(jobs, s, ty, st)
    case ExpireDebounce(j) => Expire(s, j)
    case Ask(j) => s.(asked := s.asked[j := true])
    case Poll => PollFrom(s, 0)
    case SetEnabled(j, on) => s.(enabled := s.enabled[j := on])
    case EndRun(ok) => Finish(jobs, s, ok)
    case RunImmediate =>
      assert s.immediates[0] in s.immediates;
      FireImmediate(s)
    case Restart => Restarted(jobs, s)
  }
}
