/**
 * Segmentation of a session's events into spans (indexer/src/agentLog/spans.ts).
 *
 * Whether two neighbouring events are cut apart depends on those two events
 * only, so the score is a function of the pair; the results hold for every such
 * function. Timestamps are milliseconds.
 */
module SpanSegmentation {
  import opened Common

  datatype Kind =
    | UserInput | AgentMessage | FileCreate | FileEdit | ShellExec | AgentQuestion
    | PlanAccepted | PlanProposed | TodoWrite

  datatype Event = Event(kind: Kind, sessionId: string, uuid: string, time: int, text: string, path: string)

  type Score = (Event, Event) -> real

  /** Both ends are indices of events in the segment. */
  datatype Segment = Segment(start: nat, end: nat)

  const CUT_THRESHOLD := 0.0
  const MIN_SPAN_MESSAGES := 2
  const HARD_BREAK_MS := 300_000

  predicate IsPersistable(e: Event) { !e.kind.PlanAccepted? && !e.kind.TodoWrite? }

  // ---- Scores and initial cuts ----------------------------------------------------

  function Scores(events: seq<Event>, score: Score): seq<real> {
    if events == [] then [] else seq(|events| - 1, i requires 0 <= i < |events| - 1 => score(events[i], events[i + 1]))
  }

  method ComputeScores(events: seq<Event>, score: Score) returns (scores: seq<real>)
    requires events != []
    ensures scores == Scores(events, score)
  {
    scores := [];
    for i := 0 to |events| - 1
      invariant |scores| == i && forall k :: 0 <= k < i ==> scores[k] == score(events[k], events[k + 1])
    {
      scores := scores + [score(events[i], events[i + 1])];
    }
  }

  /** The segments closed by the first `k` boundaries. */
  function Closed(scores: seq<real>, k: nat): seq<Segment>
    requires k <= |scores|
  {
    if k == 0 then []
    else Closed(scores, k - 1)
         + if scores[k - 1] > CUT_THRESHOLD then [Segment(OpenStart(scores, k - 1), k - 1)] else []
  }

  /** Where the segment that is open after the first `k` boundaries starts. */
  function OpenStart(scores: seq<real>, k: nat): (start: nat)
    requires k <= |scores|
    ensures start <= k
  {
    if k == 0 then 0
    else if scores[k - 1] > CUT_THRESHOLD then k
    else OpenStart(scores, k - 1)
  }

  function InitialSegments(scores: seq<real>): seq<Segment> {
    Closed(scores, |scores|) + [Segment(OpenStart(scores, |scores|), |scores|)]
  }

  /** boundariesToSegments, with the cuts as the set of boundary indices. */
  method BoundariesToSegments(n: nat, cuts: set<nat>, ghost scores: seq<real>) returns (segments: seq<Segment>)
    requires n == |scores| + 1
    requires forall i :: 0 <= i < |scores| ==> (i in cuts <==> scores[i] > CUT_THRESHOLD)
    ensures segments == InitialSegments(scores)
  {
    segments := [];
    var start := 0;
    for i := 0 to n - 1
      invariant segments == Closed(scores, i) && start == OpenStart(scores, i)
    {
      if i in cuts {
        segments := segments + [Segment(start, i)];
        start := i + 1;
      }
    }
    segments := segments + [Segment(start, n - 1)];
  }

  method InitialCuts(scores: seq<real>) returns (cuts: set<nat>)
    ensures forall i :: 0 <= i < |scores| ==> (i in cuts <==> scores[i] > CUT_THRESHOLD)
  {
    cuts := {};
    for i := 0 to |scores|
      invariant forall k :: k in cuts <==> 0 <= k < i && scores[k] > CUT_THRESHOLD
    {
      if scores[i] > CUT_THRESHOLD { cuts := cuts + {i}; }
    }
  }

  // ---- Partitions -------------------------------------------------------------------

  /** The segments follow one another without gap or overlap and cover the events 0..n-1. */
  predicate Tiles(segs: seq<Segment>, n: nat) {
    && segs != []
    && segs[0].start == 0
    && segs[|segs| - 1].end + 1 == n
    && (forall k :: 0 <= k < |segs| ==> segs[k].start <= segs[k].end < n)
    && (forall j, k :: 0 <= j && k == j + 1 < |segs| ==> segs[k].start == segs[j].end + 1)
  }

  lemma {:induction false} ClosedTiles(scores: seq<real>, k: nat)
    requires k <= |scores|
    ensures Tiles(Closed(scores, k) + [Segment(OpenStart(scores, k), k)], k + 1)
    decreases k
  {
    if k > 0 {
      ClosedTiles(scores, k - 1);
      var before := Closed(scores, k - 1) + [Segment(OpenStart(scores, k - 1), k - 1)];
      var segs := Closed(scores, k) + [Segment(OpenStart(scores, k), k)];
      if scores[k - 1] > CUT_THRESHOLD {
        assert segs == before + [Segment(k, k)];
      } else {
        assert forall j :: 0 <= j < |segs| - 1 ==> segs[j] == before[j];
      }
    }
  }

  lemma {:induction false} InitialSegmentsTile(scores: seq<real>)
    ensures Tiles(InitialSegments(scores), |scores| + 1)
  {
    ClosedTiles(scores, |scores|);
  }

  // ---- Merging small segments -----------------------------------------------------

  function CountPersisted(events: seq<Event>, start: nat, end: nat): nat
    requires end < |events|
    decreases end + 1 - start
  {
    if start > end then 0
    else (if IsPersistable(events[start]) then 1 else 0) + CountPersisted(events, start + 1, end)
  }

  method CountPersistedLoop(events: seq<Event>, start: nat, end: nat) returns (n: nat)
    requires start <= end < |events|
    ensures n == CountPersisted(events, start, end)
  {
    n := 0;
    for i := start to end + 1
      invariant n + CountPersisted(events, i, end) == CountPersisted(events, start, end)
    {
      if IsPersistable(events[i]) { n := n + 1; }
    }
  }

  predicate IsSmall(events: seq<Event>, s: Segment)
    requires s.end < |events|
  {
    CountPersisted(events, s.start, s.end) < MIN_SPAN_MESSAGES
  }

  /** The segments tile a prefix of the events, and there is a score for every boundary. */
  predicate Fits(segs: seq<Segment>, events: seq<Event>, scores: seq<real>) {
    && segs != []
    && Tiles(segs, segs[|segs| - 1].end + 1)
    && segs[|segs| - 1].end < |events| == |scores| + 1
  }

  function Abs(x: real): real { if x < 0.0 then -x else x }

  /** Outside the list of scores the program reads a zero. */
  function ScoreAt(scores: seq<real>, i: int): real { if 0 <= i < |scores| then scores[i] else 0.0 }

  /** Whether a small segment joins its right neighbour: it has no left one, or the right boundary is weaker. */
  predicate JoinsRight(segs: seq<Segment>, s: nat, scores: seq<real>)
    requires s < |segs|
  {
    s == 0 || (s < |segs| - 1 && Abs(ScoreAt(scores, segs[s].end)) < Abs(ScoreAt(scores, segs[s].start - 1)))
  }

  function MergeRight(segs: seq<Segment>, s: nat): (r: seq<Segment>)
    requires s + 1 < |segs|
    ensures |r| == |segs| - 1
  {
    segs[..s] + [Segment(segs[s].start, segs[s + 1].end)] + segs[s + 2..]
  }

  function MergeAt(segs: seq<Segment>, s: nat, scores: seq<real>): (r: seq<Segment>)
    requires s < |segs| && 1 < |segs|
    ensures |r| == |segs| - 1
  {
    if JoinsRight(segs, s, scores) then MergeRight(segs, s) else MergeRight(segs, s - 1)
  }

  lemma {:induction false} MergeTiles(segs: seq<Segment>, s: nat, n: nat)
    requires Tiles(segs, n) && s + 1 < |segs|
    ensures Tiles(MergeRight(segs, s), n)
  {
    var r := MergeRight(segs, s);
    assert forall k :: 0 <= k < s ==> r[k] == segs[k];
    assert forall k :: s < k < |r| ==> r[k] == segs[k + 1];
    assert segs[s + 1].start == segs[s].end + 1;
    forall j, k | 0 <= j && k == j + 1 < |r| ensures r[k].start == r[j].end + 1 {
      if k > s {
        assert segs[k + 1].start == segs[k].end + 1;
      } else {
        assert segs[k].start == segs[j].end + 1;
      }
    }
  }

  lemma {:induction false} MergeFits(segs: seq<Segment>, s: nat, events: seq<Event>, scores: seq<real>)
    requires Fits(segs, events, scores) && s < |segs| && 1 < |segs|
    ensures Fits(MergeAt(segs, s, scores), events, scores)
    ensures MergeAt(segs, s, scores)[|segs| - 2].end == segs[|segs| - 1].end
  {
    MergeTiles(segs, if JoinsRight(segs, s, scores) then s else s - 1, segs[|segs| - 1].end + 1);
  }

  /** The first small segment at or after `from`, or the number of segments. */
  function FirstSmall(segs: seq<Segment>, events: seq<Event>, from: nat): (s: nat)
    requires from <= |segs| && forall k :: 0 <= k < |segs| ==> segs[k].end < |events|
    ensures from <= s <= |segs|
    ensures forall k :: from <= k < s ==> !IsSmall(events, segs[k])
    ensures s < |segs| ==> IsSmall(events, segs[s])
    decreases |segs| - from
  {
    if from == |segs| || IsSmall(events, segs[from]) then from else FirstSmall(segs, events, from + 1)
  }

  /** Merge the first small segment into a neighbour, as long as there is one and it is not alone. */
  function Settle(segs: seq<Segment>, events: seq<Event>, scores: seq<real>): (r: seq<Segment>)
    requires Fits(segs, events, scores)
    decreases |segs|
  {
    var s := FirstSmall(segs, events, 0);
    if s == |segs| || |segs| == 1 then segs
    else
      MergeFits(segs, s, events, scores);
      Settle(MergeAt(segs, s, scores), events, scores)
  }

  lemma {:induction false} SettleStep(segs: seq<Segment>, s: nat, events: seq<Event>, scores: seq<real>)
    requires Fits(segs, events, scores) && s < |segs| && 1 < |segs|
    requires IsSmall(events, segs[s]) && forall k :: 0 <= k < s ==> !IsSmall(events, segs[k])
    ensures FirstSmall(segs, events, 0) == s
    ensures Fits(MergeAt(segs, s, scores), events, scores)
    ensures Settle(segs, events, scores) == Settle(MergeAt(segs, s, scores), events, scores)
  {
    var f := FirstSmall(segs, events, 0);
    assert f < |segs| ==> IsSmall(events, segs[f]);
    MergeFits(segs, s, events, scores);
  }

  method MergeIntoNeighbour(segs: seq<Segment>, s: nat, scores: seq<real>) returns (r: seq<Segment>)
    requires s < |segs| && 1 < |segs|
    ensures r == MergeAt(segs, s, scores)
  {
    var seg := segs[s];
    var hasLeft := s > 0;
    var hasRight := s < |segs| - 1;
    if !hasLeft || (hasRight && Abs(ScoreAt(scores, seg.end)) < Abs(ScoreAt(scores, seg.start - 1))) {
      r := segs[..s] + [Segment(seg.start, segs[s + 1].end)] + segs[s + 2..];
    } else {
      r := segs[..s - 1] + [Segment(segs[s - 1].start, seg.end)] + segs[s + 1..];
    }
  }

  /** mergeSmallBatches: restart from the left after every merge. */
  method MergeSmallBatches(segments: seq<Segment>, events: seq<Event>, scores: seq<real>) returns (segs: seq<Segment>)
    requires Fits(segments, events, scores)
    ensures segs == Settle(segments, events, scores)
  {
    segs := segments;
    var changed := true;
    while changed
      invariant Fits(segs, events, scores)
      invariant Settle(segs, events, scores) == Settle(segments, events, scores)
      invariant !changed ==> |segs| == 1 || FirstSmall(segs, events, 0) == |segs|
      decreases |segs|, changed
    {
      changed := false;
      var s := 0;
      while s < |segs|
        invariant 0 <= s <= |segs|
        invariant forall k :: 0 <= k < s ==> !IsSmall(events, segs[k])
      {
        var seg := segs[s];
        var persisted := CountPersistedLoop(events, seg.start, seg.end);
        if persisted >= MIN_SPAN_MESSAGES { s := s + 1; continue; }
        if |segs| == 1 { break; }
        SettleStep(segs, s, events, scores);
        segs := MergeIntoNeighbour(segs, s, scores);
        changed := true;
        break;
      }
    }
  }

  predicate NoneSmall(events: seq<Event>, segs: seq<Segment>)
    requires forall k :: 0 <= k < |segs| ==> segs[k].end < |events|
  {
    forall k :: 0 <= k < |segs| ==> CountPersisted(events, segs[k].start, segs[k].end) >= MIN_SPAN_MESSAGES
  }

  /** Every segment of the finer list lies in one segment of the coarser: its starts are starts of the finer. */
  predicate Coarsens(fine: seq<Segment>, coarse: seq<Segment>) {
    forall k :: 0 <= k < |coarse| ==> IsStart(fine, coarse[k].start)
  }

  predicate IsStart(segs: seq<Segment>, at: nat) { exists j :: 0 <= j < |segs| && segs[j].start == at }

  lemma {:induction false} SettleFits(segs: seq<Segment>, events: seq<Event>, scores: seq<real>)
    requires Fits(segs, events, scores)
    ensures var r := Settle(segs, events, scores);
            Fits(r, events, scores) && r[|r| - 1].end == segs[|segs| - 1].end && (|r| == 1 || NoneSmall(events, r))
    decreases |segs|
  {
    var s := FirstSmall(segs, events, 0);
    if s < |segs| && |segs| > 1 {
      MergeFits(segs, s, events, scores);
      SettleFits(MergeAt(segs, s, scores), events, scores);
    }
  }

  lemma {:induction false} SettleCoarsens(segs: seq<Segment>, events: seq<Event>, scores: seq<real>)
    requires Fits(segs, events, scores)
    ensures Coarsens(segs, Settle(segs, events, scores))
    decreases |segs|
  {
    var s := FirstSmall(segs, events, 0);
    if s == |segs| || |segs| == 1 {
      CoarsensReflexive(segs);
    } else {
      var next := MergeAt(segs, s, scores);
      MergeFits(segs, s, events, scores);
      SettleCoarsens(next, events, scores);
      MergeCoarsens(segs, if JoinsRight(segs, s, scores) then s else s - 1);
      CoarsensTransitive(segs, next, Settle(next, events, scores));
    }
  }

  /**
   * Merging ends with a partition of the same events that only removes cuts, and every
   * segment has the minimum of persisted events unless a single segment is left.
   */
  lemma {:induction false} FinalSegmentsPartition(events: seq<Event>, score: Score)
    requires events != []
    ensures var r := FinalSegments(events, score);
            && Tiles(r, |events|)
            && Coarsens(InitialSegments(Scores(events, score)), r)
            && (|r| == 1 || NoneSmall(events, r))
  {
    var scores := Scores(events, score);
    InitialSegmentsTile(scores);
    SettleFits(InitialSegments(scores), events, scores);
    SettleCoarsens(InitialSegments(scores), events, scores);
  }

  lemma {:induction false} CoarsensReflexive(segs: seq<Segment>)
    ensures Coarsens(segs, segs)
  {
    forall k | 0 <= k < |segs| ensures IsStart(segs, segs[k].start) {
      assert segs[k].start == segs[k].start;
    }
  }

  lemma {:induction false} MergeCoarsens(segs: seq<Segment>, s: nat)
    requires s + 1 < |segs|
    ensures Coarsens(segs, MergeRight(segs, s))
  {
    var r := MergeRight(segs, s);
    forall k | 0 <= k < |r| ensures IsStart(segs, r[k].start) {
      var j := if k <= s then k else k + 1;
      assert segs[j].start == r[k].start;
    }
  }

  lemma {:induction false} CoarsensTransitive(a: seq<Segment>, b: seq<Segment>, c: seq<Segment>)
    requires Coarsens(a, b) && Coarsens(b, c)
    ensures Coarsens(a, c)
  {
    forall k | 0 <= k < |c| ensures IsStart(a, c[k].start) {
      var m :| 0 <= m < |b| && b[m].start == c[k].start;
      assert IsStart(a, b[m].start);
    }
  }

  // ---- Append stability -------------------------------------------------------------

  /** Only the last segment of `old_` may be gone in `new_`, and a segment still starts where it did. */
  predicate KeepsStarts(old_: seq<Segment>, new_: seq<Segment>) {
    && 0 < |old_| <= |new_|
    && old_[..|old_| - 1] == new_[..|old_| - 1]
    && old_[|old_| - 1].start == new_[|old_| - 1].start
  }

  lemma {:induction false} CountMonotone(events: seq<Event>, start: nat, end: nat, end': nat)
    requires end <= end' < |events|
    ensures CountPersisted(events, start, end) <= CountPersisted(events, start, end')
    decreases end + 1 - start
  {
    if start <= end {
      CountMonotone(events, start + 1, end, end');
    }
  }

  /** Segments that are large enough stay in place, except that the last of them may grow. */
  lemma {:induction false} LargePrefixStays(p: nat, segs: seq<Segment>, events: seq<Event>, scores: seq<real>)
    requires Fits(segs, events, scores) && 1 <= p <= |segs|
    requires forall k :: 0 <= k < p ==> !IsSmall(events, segs[k])
    ensures var r := Settle(segs, events, scores);
            && p <= |r|
            && r[..p - 1] == segs[..p - 1]
            && r[p - 1].start == segs[p - 1].start
    decreases |segs|
  {
    var s := FirstSmall(segs, events, 0);
    if s < |segs| && |segs| > 1 {
      SettleStep(segs, s, events, scores);
      MergeKeepsPrefix(p, segs, s, events, scores);
      LargePrefixStays(p, MergeAt(segs, s, scores), events, scores);
    }
  }

  lemma {:induction false} MergeKeepsPrefix(p: nat, segs: seq<Segment>, s: nat, events: seq<Event>, scores: seq<real>)
    requires Fits(segs, events, scores) && 1 <= p <= s < |segs|
    requires forall k :: 0 <= k < p ==> !IsSmall(events, segs[k])
    ensures var next := MergeAt(segs, s, scores);
            && Fits(next, events, scores)
            && p <= |next|
            && next[..p - 1] == segs[..p - 1]
            && next[p - 1].start == segs[p - 1].start
            && forall k :: 0 <= k < p ==> !IsSmall(events, next[k])
  {
    var next := MergeAt(segs, s, scores);
    MergeFits(segs, s, events, scores);
    assert forall k :: 0 <= k < p - 1 ==> next[k] == segs[k];
    assert next[p - 1].start == segs[p - 1].start && segs[p - 1].end <= next[p - 1].end;
    CountMonotone(events, segs[p - 1].start, segs[p - 1].end, next[p - 1].end);
  }

  /** The first segment always starts at the first event. */
  lemma {:induction false} FirstStaysFirst(segs: seq<Segment>, events: seq<Event>, scores: seq<real>)
    requires Fits(segs, events, scores)
    ensures Settle(segs, events, scores) != [] && Settle(segs, events, scores)[0].start == segs[0].start
  {
    SettleFits(segs, events, scores);
  }

  /** The two lists agree up to their `p`-th segment, which starts alike and reaches as far or farther in `b`. */
  predicate Extends(a: seq<Segment>, b: seq<Segment>) {
    && 0 < |a| <= |b|
    && a[..|a| - 1] == b[..|a| - 1]
    && a[|a| - 1].start == b[|a| - 1].start
    && a[|a| - 1].end <= b[|a| - 1].end
  }

  /** While the first small segment lies before the last of `a`, both lists merge the same way. */
  lemma {:induction false} MergeExtends(a: seq<Segment>, b: seq<Segment>, s: nat, events: seq<Event>, scores: seq<real>)
    requires Fits(a, events, scores) && Fits(b, events, scores) && Extends(a, b) && s < |a| - 1
    ensures Extends(MergeAt(a, s, scores), MergeAt(b, s, scores))
  {
    ExtendsAt(a, b);
    assert JoinsRight(a, s, scores) == JoinsRight(b, s, scores);
    MergeRightExtends(a, b, if JoinsRight(a, s, scores) then s else s - 1);
  }

  lemma {:induction false} MergeRightExtends(a: seq<Segment>, b: seq<Segment>, m: nat)
    requires Extends(a, b) && m < |a| - 1
    ensures Extends(MergeRight(a, m), MergeRight(b, m))
  {
    ExtendsAt(a, b);
    var a', b' := MergeRight(a, m), MergeRight(b, m);
    assert forall k :: 0 <= k < |a'| - 1 ==> a'[k] == b'[k];
    assert a'[..|a'| - 1] == b'[..|a'| - 1];
  }

  lemma {:induction false} SettleKeepsStarts(a: seq<Segment>, b: seq<Segment>, events: seq<Event>, scores: seq<real>)
    requires Fits(a, events, scores) && Fits(b, events, scores) && Extends(a, b)
    ensures KeepsStarts(Settle(a, events, scores), Settle(b, events, scores))
    decreases |a|
  {
    var n := |a|;
    var s := FirstSmall(a, events, 0);
    if n == 1 {
      FirstStaysFirst(b, events, scores);
    } else if s == n {
      SettledExtends(a, b, events, scores);
    } else if s == n - 1 {
      LastJoinsLeft(a, b, events, scores);
    } else {
      ExtendsAt(a, b);
      assert FirstSmall(b, events, 0) == s;
      MergeFits(a, s, events, scores);
      MergeFits(b, s, events, scores);
      MergeExtends(a, b, s, events, scores);
      SettleKeepsStarts(MergeAt(a, s, scores), MergeAt(b, s, scores), events, scores);
    }
  }

  lemma {:induction false} SettledExtends(a: seq<Segment>, b: seq<Segment>, events: seq<Event>, scores: seq<real>)
    requires Fits(a, events, scores) && Fits(b, events, scores) && Extends(a, b)
    requires FirstSmall(a, events, 0) == |a|
    ensures KeepsStarts(Settle(a, events, scores), Settle(b, events, scores))
  {
    var n := |a|;
    ExtendsAt(a, b);
    CountMonotone(events, a[n - 1].start, a[n - 1].end, b[n - 1].end);
    LargePrefixStays(n, b, events, scores);
  }

  /** The last segment of `a` is small and joins its left neighbour, which `b` keeps. */
  lemma {:induction false} LastJoinsLeft(a: seq<Segment>, b: seq<Segment>, events: seq<Event>, scores: seq<real>)
    requires Fits(a, events, scores) && Fits(b, events, scores) && Extends(a, b)
    requires |a| > 1 && FirstSmall(a, events, 0) == |a| - 1
    ensures KeepsStarts(Settle(a, events, scores), Settle(b, events, scores))
  {
    var n := |a|;
    SettleStep(a, n - 1, events, scores);
    AllButLast(a, n - 1, events, scores);
    ExtendsAt(a, b);
    LargePrefixStays(n - 1, b, events, scores);
    JoinedKeepsStarts(a, b, Settle(a, events, scores), Settle(b, events, scores));
  }

  lemma {:induction false} ExtendsAt(a: seq<Segment>, b: seq<Segment>)
    requires Extends(a, b)
    ensures forall k :: 0 <= k < |a| - 1 ==> a[k] == b[k]
  {
    assert forall k :: 0 <= k < |a| - 1 ==> a[k] == a[..|a| - 1][k] == b[k];
  }

  lemma {:induction false} JoinedKeepsStarts(a: seq<Segment>, b: seq<Segment>, a': seq<Segment>, b': seq<Segment>)
    requires |a| > 1 && Extends(a, b)
    requires a' == a[..|a| - 2] + [Segment(a[|a| - 2].start, a[|a| - 1].end)]
    requires |a| - 1 <= |b'| && b'[..|a| - 2] == b[..|a| - 2] && b'[|a| - 2].start == b[|a| - 2].start
    ensures KeepsStarts(a', b')
  {
    ExtendsAt(a, b);
    assert b[..|a| - 2] == a[..|a| - 2] == a'[..|a'| - 1];
  }

  /** When only the last segment is small, one merge with its left neighbour is all there is. */
  lemma {:induction false} AllButLast(a: seq<Segment>, s: nat, events: seq<Event>, scores: seq<real>)
    requires Fits(a, events, scores) && 0 < s == |a| - 1
    requires forall k :: 0 <= k < s ==> !IsSmall(events, a[k])
    ensures var next := MergeAt(a, s, scores);
            && next == a[..s - 1] + [Segment(a[s - 1].start, a[s].end)]
            && Fits(next, events, scores)
            && Settle(next, events, scores) == next
  {
    var next := MergeAt(a, s, scores);
    MergeFits(a, s, events, scores);
    assert next == a[..s - 1] + [Segment(a[s - 1].start, a[s].end)];
    CountMonotone(events, a[s - 1].start, a[s - 1].end, a[s].end);
    assert forall k :: 0 <= k < s - 1 ==> next[k] == a[k];
    assert forall k :: 0 <= k < |next| ==> !IsSmall(events, next[k]);
    assert FirstSmall(next, events, 0) == |next|;
  }

  // Merging looks at no event or score beyond its last segment.

  lemma {:induction false} CountLocal(events: seq<Event>, more: seq<Event>, start: nat, end: nat)
    requires end < |events|
    ensures CountPersisted(events + more, start, end) == CountPersisted(events, start, end)
    decreases end + 1 - start
  {
    if start <= end {
      CountLocal(events, more, start + 1, end);
    }
  }

  lemma {:induction false} FirstSmallLocal(segs: seq<Segment>, events: seq<Event>, more: seq<Event>, from: nat)
    requires from <= |segs| && forall k :: 0 <= k < |segs| ==> segs[k].end < |events|
    ensures FirstSmall(segs, events + more, from) == FirstSmall(segs, events, from)
    decreases |segs| - from
  {
    if from < |segs| {
      CountLocal(events, more, segs[from].start, segs[from].end);
      FirstSmallLocal(segs, events, more, from + 1);
    }
  }

  lemma {:induction false} SettleLocal(segs: seq<Segment>, events: seq<Event>, more: seq<Event>, scores: seq<real>,
                                       scores': seq<real>)
    requires Fits(segs, events, scores) && Fits(segs, events + more, scores') && scores <= scores'
    ensures Settle(segs, events + more, scores') == Settle(segs, events, scores)
    decreases |segs|
  {
    FirstSmallLocal(segs, events, more, 0);
    var s := FirstSmall(segs, events, 0);
    if s < |segs| && |segs| > 1 {
      MergeFits(segs, s, events, scores);
      MergeFits(segs, s, events + more, scores');
      assert MergeAt(segs, s, scores') == MergeAt(segs, s, scores);
      SettleLocal(MergeAt(segs, s, scores), events, more, scores, scores');
    }
  }

  lemma {:induction false} ClosedGrows(scores: seq<real>, k: nat, m: nat)
    requires k <= m <= |scores|
    ensures var open := Closed(scores, k) + [Segment(OpenStart(scores, k), k)];
            Extends(open, Closed(scores, m) + [Segment(OpenStart(scores, m), m)])
    decreases m - k
  {
    if k < m {
      ClosedGrows(scores, k, m - 1);
    }
  }

  lemma {:induction false} ClosedLocal(scores: seq<real>, scores': seq<real>, k: nat)
    requires k <= |scores| && scores <= scores'
    ensures Closed(scores', k) == Closed(scores, k) && OpenStart(scores', k) == OpenStart(scores, k)
    decreases k
  {
    if k > 0 {
      ClosedLocal(scores, scores', k - 1);
    }
  }

  /** The final segments of a session. */
  function FinalSegments(events: seq<Event>, score: Score): (segs: seq<Segment>)
    requires events != []
    ensures Tiles(segs, |events|)
  {
    InitialSegmentsTile(Scores(events, score));
    SettleFits(InitialSegments(Scores(events, score)), events, Scores(events, score));
    Settle(InitialSegments(Scores(events, score)), events, Scores(events, score))
  }

  /**
   * Append stability: when events are appended, every final segment but the last stays as
   * it is, and a final segment still starts where the last one started.
   */
  lemma {:induction false} AppendStability(events: seq<Event>, more: seq<Event>, score: Score)
    requires events != []
    ensures KeepsStarts(FinalSegments(events, score), FinalSegments(events + more, score))
  {
    var scores, scores' := Scores(events, score), Scores(events + more, score);
    assert scores <= scores';
    var a, b := InitialSegments(scores), InitialSegments(scores');
    InitialSegmentsTile(scores);
    InitialSegmentsTile(scores');
    ClosedLocal(scores, scores', |scores|);
    ClosedGrows(scores', |scores|, |scores'|);
    SettleLocal(a, events, more, scores, scores');
    SettleKeepsStarts(a, b, events + more, scores');
  }
}
