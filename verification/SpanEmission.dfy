/**
 * From final segments to finalised spans (indexer/src/agentLog/spans.ts), and the
 * time windows in which work is attributed to them (indexer/src/agentLog/indexLogs.ts,
 * indexer/src/agentLog/spanLink.ts).
 */
module SpanEmission {
  import opened Common
  import opened SpanSegmentation

  datatype Span = Span(events: seq<Event>, planning: bool, startedAt: int, endedAt: int, summaryIndex: nat)

  function Persisted(events: seq<Event>): seq<Event> {
    if events == [] then []
    else (if IsPersistable(events[0]) then [events[0]] else []) + Persisted(events[1..])
  }

  /** The last agent message, or the last event when there is none, among the first `n`. */
  function SummaryIndex(persisted: seq<Event>, n: nat): nat
    requires 0 < |persisted| && n <= |persisted|
  {
    if n == 0 then |persisted| - 1
    else if persisted[n - 1].kind.AgentMessage? then n - 1
    else SummaryIndex(persisted, n - 1)
  }

  function SpanOf(slice: seq<Event>): Span
    requires Persisted(slice) != []
  {
    var persisted := Persisted(slice);
    Span(persisted, exists i :: 0 <= i < |slice| && slice[i].kind.PlanAccepted?,
         persisted[0].time, persisted[|persisted| - 1].time, SummaryIndex(persisted, |persisted|))
  }

  function Slice(events: seq<Event>, s: Segment): seq<Event>
    requires s.start <= s.end < |events|
  {
    events[s.start..s.end + 1]
  }

  /** A segment is held back while its last persisted event is too recent. */
  predicate HeldBack(slice: seq<Event>, closeBefore: int) {
    Persisted(slice) != [] && SpanOf(slice).endedAt > closeBefore - HARD_BREAK_MS
  }

  /** The span of one segment, unless it persists nothing or is held back. */
  function EmitOne(slice: seq<Event>, closeBefore: int): seq<Span> {
    if Persisted(slice) == [] || HeldBack(slice, closeBefore) then [] else [SpanOf(slice)]
  }

  function Emitter(events: seq<Event>, closeBefore: int): Segment -> seq<Span> {
    (s: Segment) => if s.start <= s.end < |events| then EmitOne(Slice(events, s), closeBefore) else []
  }

  /** What the segments from `from` on emit, in order. */
  function Collect(segs: seq<Segment>, from: nat, emit: Segment -> seq<Span>): seq<Span>
    decreases |segs| - from
  {
    if from >= |segs| then [] else emit(segs[from]) + Collect(segs, from + 1, emit)
  }

  function FinalisedSpans(events: seq<Event>, score: Score, closeBefore: int): seq<Span> {
    if events == [] then [] else Collect(FinalSegments(events, score), 0, Emitter(events, closeBefore))
  }

  // ---- computeSpans -------------------------------------------------------------------

  method FilterPersisted(slice: seq<Event>) returns (persisted: seq<Event>)
    ensures persisted == Persisted(slice)
  {
    persisted := [];
    for i := 0 to |slice|
      invariant persisted + Persisted(slice[i..]) == Persisted(slice)
    {
      assert slice[i..][1..] == slice[i + 1..];
      if IsPersistable(slice[i]) { persisted := persisted + [slice[i]]; }
    }
    assert slice[|slice|..] == [];
  }

  method FindSummary(persisted: seq<Event>) returns (index: nat)
    requires persisted != []
    ensures index == SummaryIndex(persisted, |persisted|)
  {
    index := |persisted| - 1;
    var i := |persisted| - 1;
    while i >= 0
      invariant -1 <= i < |persisted| && index == |persisted| - 1
      invariant SummaryIndex(persisted, i + 1) == SummaryIndex(persisted, |persisted|)
    {
      if persisted[i].kind.AgentMessage? { return i; }
      i := i - 1;
    }
  }

  method BuildSpan(events: seq<Event>, s: Segment, closeBefore: int) returns (built: seq<Span>)
    requires s.start <= s.end < |events|
    ensures built == Emitter(events, closeBefore)(s)
  {
    var slice := events[s.start..s.end + 1];
    var persisted := FilterPersisted(slice);
    if persisted == [] { return []; }
    var planning := exists i :: 0 <= i < |slice| && slice[i].kind.PlanAccepted?;
    var summary := FindSummary(persisted);
    var startedAt, endedAt := persisted[0].time, persisted[|persisted| - 1].time;
    if endedAt > closeBefore - HARD_BREAK_MS { return []; }
    return [Span(persisted, planning, startedAt, endedAt, summary)];
  }

  method ComputeSpans(events: seq<Event>, score: Score, closeBefore: int) returns (spans: seq<Span>)
    ensures spans == FinalisedSpans(events, score, closeBefore)
  {
    if events == [] { return []; }
    var scores := ComputeScores(events, score);
    var cuts := InitialCuts(scores);
    var initial := BoundariesToSegments(|events|, cuts, scores);
    InitialSegmentsTile(scores);
    var segments := MergeSmallBatches(initial, events, scores);
    assert segments == FinalSegments(events, score);
    spans := EmitSpans(segments, events, closeBefore);
  }

  method EmitSpans(segments: seq<Segment>, events: seq<Event>, closeBefore: int) returns (spans: seq<Span>)
    requires forall k :: 0 <= k < |segments| ==> segments[k].start <= segments[k].end < |events|
    ensures spans == Collect(segments, 0, Emitter(events, closeBefore))
  {
    ghost var emit := Emitter(events, closeBefore);
    spans := [];
    for k := 0 to |segments|
      invariant spans + Collect(segments, k, emit) == Collect(segments, 0, emit)
    {
      var built := BuildSpan(events, segments[k], closeBefore);
      spans := spans + built;
    }
  }

  // ---- Conservation ---------------------------------------------------------------------

  predicate InOrder(events: seq<Event>) {
    forall i, j :: 0 <= i < j < |events| ==> events[i].time <= events[j].time
  }

  function Flatten(spans: seq<Span>): seq<Event> {
    if spans == [] then [] else spans[0].events + Flatten(spans[1..])
  }

  /** The segments before the first one that is held back. */
  function ClosedCount(segs: seq<Segment>, from: nat, heldBack: Segment -> bool): (k: nat)
    requires from <= |segs|
    ensures from <= k <= |segs|
    ensures forall m :: from <= m < k ==> !heldBack(segs[m])
    ensures k < |segs| ==> heldBack(segs[k])
    decreases |segs| - from
  {
    if from == |segs| || heldBack(segs[from]) then from else ClosedCount(segs, from + 1, heldBack)
  }

  function Holder(events: seq<Event>, closeBefore: int): Segment -> bool {
    (s: Segment) => s.start <= s.end < |events| && HeldBack(Slice(events, s), closeBefore)
  }

  function EventsBefore(segs: seq<Segment>, k: nat): nat
    requires k <= |segs|
  {
    if k == 0 then 0 else segs[k - 1].end + 1
  }

  lemma {:induction false} PersistedAppend(a: seq<Event>, b: seq<Event>)
    ensures Persisted(a + b) == Persisted(a) + Persisted(b)
    decreases |a|
  {
    if a == [] {
      assert a + b == b;
    } else {
      assert (a + b)[1..] == a[1..] + b;
      PersistedAppend(a[1..], b);
    }
  }

  lemma {:induction false} PersistedMembers(a: seq<Event>)
    ensures forall e :: e in Persisted(a) ==> e in a && IsPersistable(e)
    decreases |a|
  {
    if a != [] {
      PersistedMembers(a[1..]);
      assert forall e :: e in a[1..] ==> e in a;
    }
  }

  /** The first and last time of a span are times of events of its segment. */
  lemma {:induction false} SpanBounds(events: seq<Event>, s: Segment)
    requires s.start <= s.end < |events| && InOrder(events) && Persisted(Slice(events, s)) != []
    ensures var span := SpanOf(Slice(events, s));
            events[s.start].time <= span.startedAt <= events[s.end].time
            && events[s.start].time <= span.endedAt <= events[s.end].time
  {
    var persisted := Persisted(Slice(events, s));
    PersistedMembers(Slice(events, s));
    TimeInSegment(events, s, persisted[0]);
    TimeInSegment(events, s, persisted[|persisted| - 1]);
  }

  lemma {:induction false} TimeInSegment(events: seq<Event>, s: Segment, e: Event)
    requires s.start <= s.end < |events| && InOrder(events) && e in Slice(events, s)
    ensures events[s.start].time <= e.time <= events[s.end].time
  {
    var i :| 0 <= i < |Slice(events, s)| && Slice(events, s)[i] == e;
    assert e == events[s.start + i];
  }

  /** With times in order, everything after a segment that is held back is held back or persists nothing. */
  lemma {:induction false} HeldBackAfter(segs: seq<Segment>, k: nat, m: nat, events: seq<Event>, closeBefore: int)
    requires Tiles(segs, |events|) && InOrder(events) && k <= m < |segs|
    requires Holder(events, closeBefore)(segs[k])
    ensures Emitter(events, closeBefore)(segs[m]) == []
  {
    if k < m && Persisted(Slice(events, segs[m])) != [] {
      SpanBounds(events, segs[k]);
      SpanBounds(events, segs[m]);
      SegmentsOrdered(segs, k, m, |events|);
      assert events[segs[k].end].time <= events[segs[m].start].time;
    }
  }

  lemma {:induction false} SegmentsOrdered(segs: seq<Segment>, j: nat, k: nat, n: nat)
    requires Tiles(segs, n) && j < k < |segs|
    ensures segs[j].end < segs[k].start
    decreases k - j
  {
    if j + 1 < k {
      SegmentsOrdered(segs, j + 1, k, n);
      assert segs[j + 1].start == segs[j].end + 1;
    }
  }

  lemma {:induction false} CollectNothing(segs: seq<Segment>, from: nat, emit: Segment -> seq<Span>)
    requires forall m :: from <= m < |segs| ==> emit(segs[m]) == []
    ensures Collect(segs, from, emit) == []
    decreases |segs| - from
  {
    if from < |segs| {
      CollectNothing(segs, from + 1, emit);
    }
  }

  lemma {:induction false} FlattenAppend(a: seq<Span>, b: seq<Span>)
    ensures Flatten(a + b) == Flatten(a) + Flatten(b)
    decreases |a|
  {
    if a == [] {
      assert a + b == b;
    } else {
      assert (a + b)[1..] == a[1..] + b;
      FlattenAppend(a[1..], b);
    }
  }

  lemma {:induction false} BeforeNext(segs: seq<Segment>, from: nat, k: nat, n: nat)
    requires Tiles(segs, n) && from < k <= |segs|
    ensures EventsBefore(segs, from) == segs[from].start && EventsBefore(segs, from + 1) == segs[from].end + 1
    ensures segs[from].end < EventsBefore(segs, k) <= n
  {
    assert from > 0 ==> segs[from].start == segs[from - 1].end + 1;
    if from < k - 1 { SegmentsOrdered(segs, from, k - 1, n); }
  }

  /** When the segments before `k` emit all their persistable events and the others nothing. */
  lemma {:induction false} CollectConserves(segs: seq<Segment>, from: nat, k: nat, events: seq<Event>,
                                            emit: Segment -> seq<Span>, lo: nat, hi: nat)
    requires Tiles(segs, |events|) && from <= k <= |segs|
    requires forall m :: from <= m < k ==> Flatten(emit(segs[m])) == Persisted(Slice(events, segs[m]))
    requires forall m :: k <= m < |segs| ==> emit(segs[m]) == []
    requires lo == EventsBefore(segs, from) && hi == EventsBefore(segs, k)
    ensures lo <= hi <= |events| && Flatten(Collect(segs, from, emit)) == Persisted(events[lo..hi])
    decreases k - from
  {
    if from < k {
      BeforeNext(segs, from, k, |events|);
      CollectConserves(segs, from + 1, k, events, emit, segs[from].end + 1, hi);
      ConserveStep(emit(segs[from]), Collect(segs, from + 1, emit), events, lo, segs[from].end + 1, hi);
    } else {
      CollectNothing(segs, from, emit);
      assert events[lo..hi] == [];
    }
  }

  lemma {:induction false} ConserveStep(one: seq<Span>, rest: seq<Span>, events: seq<Event>, lo: nat, mid: nat, hi: nat)
    requires lo <= mid <= hi <= |events|
    requires Flatten(one) == Persisted(events[lo..mid]) && Flatten(rest) == Persisted(events[mid..hi])
    ensures Flatten(one + rest) == Persisted(events[lo..hi])
  {
    FlattenAppend(one, rest);
    assert events[lo..hi] == events[lo..mid] + events[mid..hi];
    PersistedAppend(events[lo..mid], events[mid..hi]);
  }

  /**
   * Conservation: the finalised spans hold the persistable events of a prefix of the session,
   * each once and in order, and each span ended at least the hard break before the close time.
   * The prefix ends with a whole segment.
   */
  lemma {:induction false} SpansConserveEvents(events: seq<Event>, score: Score, closeBefore: int)
    requires InOrder(events) && events != []
    ensures Conserved(FinalSegments(events, score), FinalisedSpans(events, score, closeBefore), events, closeBefore)
  {
    CollectConserved(FinalSegments(events, score), events, closeBefore);
  }

  ghost predicate Conserved(segs: seq<Segment>, spans: seq<Span>, events: seq<Event>, closeBefore: int)
    requires Tiles(segs, |events|)
  {
    var k := ClosedCount(segs, 0, Holder(events, closeBefore));
    && EventsBefore(segs, k) <= |events|
    && Flatten(spans) == Persisted(events[..EventsBefore(segs, k)])
    && forall span :: span in spans ==> span.endedAt <= closeBefore - HARD_BREAK_MS
  }

  lemma {:induction false} CollectConserved(segs: seq<Segment>, events: seq<Event>, closeBefore: int)
    requires Tiles(segs, |events|) && InOrder(events)
    ensures Conserved(segs, Collect(segs, 0, Emitter(events, closeBefore)), events, closeBefore)
  {
    var emit, k := Emitter(events, closeBefore), ClosedCount(segs, 0, Holder(events, closeBefore));
    ClosedEmitAll(segs, k, events, closeBefore);
    CollectConserves(segs, 0, k, events, emit, 0, EventsBefore(segs, k));
    assert events[0..EventsBefore(segs, k)] == events[..EventsBefore(segs, k)];
    forall span | span in Collect(segs, 0, emit) ensures span.endedAt <= closeBefore - HARD_BREAK_MS {
      var m := CollectOrigin(segs, 0, emit, span);
      EmittedPastBreak(events, closeBefore, segs[m], span);
    }
  }

  lemma {:induction false} EmittedPastBreak(events: seq<Event>, closeBefore: int, s: Segment, span: Span)
    requires span in Emitter(events, closeBefore)(s)
    ensures span.endedAt <= closeBefore - HARD_BREAK_MS
  {
  }

  lemma {:induction false} ClosedEmitAll(segs: seq<Segment>, k: nat, events: seq<Event>, closeBefore: int)
    requires Tiles(segs, |events|) && InOrder(events) && k <= |segs|
    requires forall m :: 0 <= m < k ==> !Holder(events, closeBefore)(segs[m])
    requires k < |segs| ==> Holder(events, closeBefore)(segs[k])
    ensures forall m :: 0 <= m < k ==>
              Flatten(Emitter(events, closeBefore)(segs[m])) == Persisted(Slice(events, segs[m]))
    ensures forall m :: k <= m < |segs| ==> Emitter(events, closeBefore)(segs[m]) == []
  {
    forall m | 0 <= m < k
      ensures Flatten(Emitter(events, closeBefore)(segs[m])) == Persisted(Slice(events, segs[m]))
    {
      FlattenOne(Slice(events, segs[m]), closeBefore);
    }
    forall m | k <= m < |segs| ensures Emitter(events, closeBefore)(segs[m]) == [] {
      HeldBackAfter(segs, k, m, events, closeBefore);
    }
  }

  lemma {:induction false} FlattenOne(slice: seq<Event>, closeBefore: int)
    requires !HeldBack(slice, closeBefore)
    ensures Flatten(EmitOne(slice, closeBefore)) == Persisted(slice)
  {
    if Persisted(slice) != [] {
      var one := EmitOne(slice, closeBefore);
      assert one[1..] == [] && Flatten(one[1..]) == [];
    }
  }

  /** Each collected span was emitted by a segment. */
  lemma {:induction false} CollectOrigin(segs: seq<Segment>, from: nat, emit: Segment -> seq<Span>, span: Span)
    returns (k: nat)
    requires span in Collect(segs, from, emit)
    ensures from <= k < |segs| && span in emit(segs[k])
    decreases |segs| - from
  {
    if span in emit(segs[from]) {
      k := from;
    } else {
      k := CollectOrigin(segs, from + 1, emit, span);
    }
  }

  lemma {:induction false} CollectHas(segs: seq<Segment>, from: nat, emit: Segment -> seq<Span>, k: nat, span: Span)
    requires from <= k < |segs| && span in emit(segs[k])
    ensures span in Collect(segs, from, emit)
    decreases k - from
  {
    if from < k {
      CollectHas(segs, from + 1, emit, k, span);
    }
  }

  // ---- Stability of the span keys ---------------------------------------------------------

  /** Some segment with persisted events starts its span at `time`. */
  ghost predicate StartsSpan(segs: seq<Segment>, events: seq<Event>, time: int)
    requires Tiles(segs, |events|)
  {
    exists k :: 0 <= k < |segs| && StartsAt(events, segs[k], time)
  }

  predicate StartsAt(events: seq<Event>, s: Segment, time: int)
    requires s.start <= s.end < |events|
  {
    Persisted(Slice(events, s)) != [] && SpanOf(Slice(events, s)).startedAt == time
  }

  /** Two slices from the same start that both hold persisted events start at the same one. */
  lemma {:induction false} SameFirst(a: seq<Event>, b: seq<Event>)
    requires a <= b || b <= a
    requires Persisted(a) != [] && Persisted(b) != []
    ensures Persisted(a)[0] == Persisted(b)[0]
  {
    if a <= b {
      assert b == a + b[|a|..];
      PersistedAppend(a, b[|a|..]);
    } else {
      assert a == b + a[|b|..];
      PersistedAppend(b, a[|b|..]);
    }
  }

  lemma {:induction false} CountIsPersisted(events: seq<Event>, start: nat, end: nat)
    requires start <= end + 1 <= |events|
    ensures CountPersisted(events, start, end) == |Persisted(events[start..end + 1])|
    decreases end + 1 - start
  {
    if start <= end {
      CountIsPersisted(events, start + 1, end);
      assert events[start..end + 1][1..] == events[start + 1..end + 1];
    } else {
      assert events[start..end + 1] == [];
    }
  }

  /** A segment that starts where a slice with persisted events starts has some too. */
  lemma {:induction false} StillPersists(segs: seq<Segment>, k: nat, events: seq<Event>, slice: seq<Event>)
    requires Tiles(segs, |events|) && (|segs| == 1 || NoneSmall(events, segs)) && k < |segs|
    requires slice <= events[segs[k].start..] && Persisted(slice) != []
    ensures Persisted(Slice(events, segs[k])) != []
  {
    if |segs| == 1 {
      WholePersists(Slice(events, segs[0]), slice);
    } else {
      CountIsPersisted(events, segs[k].start, segs[k].end);
    }
  }

  lemma {:induction false} WholePersists(whole: seq<Event>, slice: seq<Event>)
    requires slice <= whole && Persisted(slice) != []
    ensures Persisted(whole) != []
  {
    assert whole == slice + whole[|slice|..];
    PersistedAppend(slice, whole[|slice|..]);
  }

  /**
   * Finalised spans do not move: when events are appended and time passes, a finalised span is
   * either finalised again as it was, or it came from the last segment, and some segment still
   * starts a span at the same time.
   */
  lemma {:induction false} FinalisedSpansStay(events: seq<Event>, more: seq<Event>, score: Score, closeBefore: int,
                                              closeBefore': int, span: Span)
    requires events != [] && closeBefore <= closeBefore'
    requires span in FinalisedSpans(events, score, closeBefore)
    ensures StartsSpan(FinalSegments(events + more, score), events + more, span.startedAt)
    ensures span in FinalisedSpans(events + more, score, closeBefore')
         || span in EmitOne(LastSlice(FinalSegments(events, score), events), closeBefore)
  {
    AppendStability(events, more, score);
    FinalSegmentsPartition(events + more, score);
    CollectedSpansStay(FinalSegments(events, score), FinalSegments(events + more, score),
                       events, more, closeBefore, closeBefore', span);
  }

  function LastSlice(segs: seq<Segment>, events: seq<Event>): seq<Event>
    requires Tiles(segs, |events|)
  {
    Slice(events, segs[|segs| - 1])
  }

  lemma {:induction false} CollectedSpansStay(old_: seq<Segment>, new_: seq<Segment>, events: seq<Event>,
                                              more: seq<Event>, closeBefore: int, closeBefore': int, span: Span)
    requires Tiles(old_, |events|) && Tiles(new_, |events + more|) && KeepsStarts(old_, new_)
    requires |new_| == 1 || NoneSmall(events + more, new_)
    requires closeBefore <= closeBefore' && span in Collect(old_, 0, Emitter(events, closeBefore))
    ensures StartsSpan(new_, events + more, span.startedAt)
    ensures span in Collect(new_, 0, Emitter(events + more, closeBefore'))
         || span in EmitOne(LastSlice(old_, events), closeBefore)
  {
    var k := CollectOrigin(old_, 0, Emitter(events, closeBefore), span);
    if k < |old_| - 1 {
      assert old_[k] == old_[..|old_| - 1][k] == new_[..|old_| - 1][k] == new_[k];
      StillEmits(events, more, closeBefore, closeBefore', old_[k], span);
      CollectHas(new_, 0, Emitter(events + more, closeBefore'), k, span);
    } else {
      LastStarts(new_, k, events, more, closeBefore, old_[k], span);
    }
  }

  lemma {:induction false} StillEmits(events: seq<Event>, more: seq<Event>, closeBefore: int, closeBefore': int,
                                      s: Segment, span: Span)
    requires closeBefore <= closeBefore' && span in Emitter(events, closeBefore)(s)
    ensures span in Emitter(events + more, closeBefore')(s)
    ensures s.start <= s.end < |events + more| && StartsAt(events + more, s, span.startedAt)
  {
    assert Slice(events + more, s) == Slice(events, s);
  }

  lemma {:induction false} LastStarts(segs: seq<Segment>, k: nat, events: seq<Event>, more: seq<Event>,
                                      closeBefore: int, s: Segment, span: Span)
    requires Tiles(segs, |events + more|) && (|segs| == 1 || NoneSmall(events + more, segs)) && k < |segs|
    requires segs[k].start == s.start && s.start <= s.end < |events| && span in Emitter(events, closeBefore)(s)
    ensures StartsAt(events + more, segs[k], span.startedAt)
  {
    var slice, slice' := Slice(events, s), Slice(events + more, segs[k]);
    assert slice <= (events + more)[segs[k].start..];
    StillPersists(segs, k, events + more, slice);
    SameFirst(slice, slice');
  }

  // ---- Attribution windows ----------------------------------------------------------------

  const SPAN_LINK_EPS_MS := 120_000

  function EffectiveEnd(endedAt: int, nextStart: Option<int>): int {
    var padded := endedAt + SPAN_LINK_EPS_MS;
    if nextStart.None? || padded <= nextStart.value then padded else nextStart.value
  }

  function NextStart(spans: seq<Span>, i: nat): Option<int>
    requires i < |spans|
  {
    if i + 1 < |spans| then Some(spans[i + 1].startedAt) else None
  }

  /** From the start, exclusive, to the effective end, inclusive. */
  predicate InWindow(startedAt: Option<int>, effectiveEnd: int, time: int) {
    (startedAt.Some? ==> startedAt.value < time) && time <= effectiveEnd
  }

  predicate InSpanWindow(spans: seq<Span>, i: nat, time: int)
    requires i < |spans|
  {
    InWindow(Some(spans[i].startedAt), EffectiveEnd(spans[i].endedAt, NextStart(spans, i)), time)
  }

  predicate StartFrom(spans: seq<Span>, time: int) { forall i :: 0 <= i < |spans| ==> time <= spans[i].startedAt }

  predicate StartInOrder(spans: seq<Span>) {
    forall i, j :: 0 <= i < j < |spans| ==> spans[i].startedAt <= spans[j].startedAt
  }

  lemma {:induction false} PrependStarts(one: seq<Span>, rest: seq<Span>, time: int, time': int)
    requires |one| <= 1 && StartInOrder(rest) && StartFrom(rest, time') && time <= time'
    requires one != [] ==> time <= one[0].startedAt <= time'
    ensures StartInOrder(one + rest) && StartFrom(one + rest, time)
  {
  }

  lemma {:induction false} CollectStarts(segs: seq<Segment>, from: nat, events: seq<Event>, emit: Segment -> seq<Span>)
    requires Tiles(segs, |events|) && InOrder(events) && from < |segs|
    requires forall m :: from <= m < |segs| ==> StartsIn(emit(segs[m]), events, segs[m])
    ensures StartFrom(Collect(segs, from, emit), events[segs[from].start].time)
    ensures StartInOrder(Collect(segs, from, emit))
    decreases |segs| - from
  {
    var one, rest := emit(segs[from]), Collect(segs, from + 1, emit);
    assert StartsIn(one, events, segs[from]);
    var lo, hi := events[segs[from].start].time, events[segs[from].end].time;
    if from + 1 < |segs| {
      CollectStarts(segs, from + 1, events, emit);
      assert segs[from + 1].start == segs[from].end + 1;
      var next := events[segs[from + 1].start].time;
      assert lo <= hi <= next;
      PrependStarts(one, rest, lo, next);
    } else {
      assert lo <= hi;
      PrependStarts(one, rest, lo, hi);
    }
  }

  /** At most one span, and it starts at a time of the segment. */
  predicate StartsIn(one: seq<Span>, events: seq<Event>, s: Segment)
    requires s.start <= s.end < |events|
  {
    |one| <= 1 && (one != [] ==> events[s.start].time <= one[0].startedAt <= events[s.end].time)
  }

  lemma {:induction false} SpansStartInOrder(events: seq<Event>, score: Score, closeBefore: int)
    requires InOrder(events)
    ensures StartInOrder(FinalisedSpans(events, score, closeBefore))
  {
    if events != [] {
      CollectStartInOrder(FinalSegments(events, score), events, closeBefore);
    }
  }

  lemma {:induction false} CollectStartInOrder(segs: seq<Segment>, events: seq<Event>, closeBefore: int)
    requires Tiles(segs, |events|) && InOrder(events)
    ensures StartInOrder(Collect(segs, 0, Emitter(events, closeBefore)))
  {
    var emit := Emitter(events, closeBefore);
    forall m | 0 <= m < |segs| ensures StartsIn(emit(segs[m]), events, segs[m]) {
      if emit(segs[m]) != [] {
        SpanBounds(events, segs[m]);
      }
    }
    CollectStarts(segs, 0, events, emit);
  }

  /** The windows of the spans of one segmentation are pairwise disjoint. */
  lemma {:induction false} WindowsDisjoint(events: seq<Event>, score: Score, closeBefore: int, i: nat, j: nat,
                                           time: int)
    requires InOrder(events)
    requires i < j < |FinalisedSpans(events, score, closeBefore)|
    ensures !(InSpanWindow(FinalisedSpans(events, score, closeBefore), i, time)
              && InSpanWindow(FinalisedSpans(events, score, closeBefore), j, time))
  {
    SpansStartInOrder(events, score, closeBefore);
    OrderedWindowsDisjoint(FinalisedSpans(events, score, closeBefore), i, j, time);
  }

  lemma {:induction false} OrderedWindowsDisjoint(spans: seq<Span>, i: nat, j: nat, time: int)
    requires StartInOrder(spans) && i < j < |spans|
    ensures !(InSpanWindow(spans, i, time) && InSpanWindow(spans, j, time))
  {
  }

  // ---- Linking symbol versions --------------------------------------------------------------

  datatype Version = Version(id: string, typeName: string, timelineId: string, version: nat, createdAt: Option<int>,
                             tombstone: bool)

  /** A version born in the window. */
  predicate Born(v: Version, startedAt: Option<int>, cutoff: int) {
    v.createdAt.Some? && InWindow(startedAt, cutoff, v.createdAt.value)
  }

  /** Per timeline the first of the newest versions born in the window, among the first `n`. */
  function Picked(versions: seq<Version>, n: nat, startedAt: Option<int>, cutoff: int): map<string, Version>
    requires n <= |versions|
  {
    if n == 0 then map[]
    else
      var before := Picked(versions, n - 1, startedAt, cutoff);
      var v := versions[n - 1];
      if Born(v, startedAt, cutoff)
         && (v.timelineId !in before || v.createdAt.value > before[v.timelineId].createdAt.GetOr(v.createdAt.value))
      then before[v.timelineId := v] else before
  }

  /** What is picked for a timeline: a version of it born in the window, and none of it is newer. */
  lemma {:induction false} PickedIsLatest(versions: seq<Version>, n: nat, startedAt: Option<int>, cutoff: int)
    requires n <= |versions|
    ensures var picked := Picked(versions, n, startedAt, cutoff);
            && (forall t :: t in picked ==>
                  && picked[t] in versions[..n] && picked[t].timelineId == t && Born(picked[t], startedAt, cutoff)
                  && forall i :: 0 <= i < n && versions[i].timelineId == t && Born(versions[i], startedAt, cutoff)
                       ==> versions[i].createdAt.value <= picked[t].createdAt.value)
            && (forall i :: 0 <= i < n && Born(versions[i], startedAt, cutoff) ==> versions[i].timelineId in picked)
    decreases n
  {
    if n > 0 {
      PickedIsLatest(versions, n - 1, startedAt, cutoff);
      assert versions[..n] == versions[..n - 1] + [versions[n - 1]];
    }
  }

  method PickVersions(versions: seq<Version>, startedAt: Option<int>, cutoff: int)
    returns (byTimeline: map<string, Version>)
    ensures byTimeline == Picked(versions, |versions|, startedAt, cutoff)
  {
    byTimeline := map[];
    for i := 0 to |versions|
      invariant byTimeline == Picked(versions, i, startedAt, cutoff)
    {
      var v := versions[i];
      if v.createdAt == None { continue; }
      if v.createdAt.value > cutoff { continue; }
      if startedAt.Some? && v.createdAt.value <= startedAt.value { continue; }
      if v.timelineId !in byTimeline {
        byTimeline := byTimeline[v.timelineId := v];
      } else {
        var prev := byTimeline[v.timelineId];
        PickedIsLatest(versions, i, startedAt, cutoff);
        if v.createdAt.value > prev.createdAt.value {
          byTimeline := byTimeline[v.timelineId := v];
        }
      }
    }
  }

  type FileIndex = map<string, seq<Version>>

  /** The versions picked for one changed file. */
  function PickedIn(index: FileIndex, file: string, startedAt: Option<int>, cutoff: int): set<Version> {
    if file !in index then {} else Picked(index[file], |index[file]|, startedAt, cutoff).Values
  }

  function Touched(files: seq<string>, index: FileIndex, startedAt: Option<int>, cutoff: int): set<Version> {
    set file, v | file in files && v in PickedIn(index, file, startedAt, cutoff) :: v
  }

  /** gatherTouchedSymbols, with the changed files already relative to the repository. */
  method GatherTouchedSymbols(files: seq<string>, startedAt: Option<int>, cutoff: int, index: FileIndex)
    returns (touched: map<string, string>)
    ensures TypedBy(touched, Touched(files, index, startedAt, cutoff))
  {
    touched := map[];
    for i := 0 to |files|
      invariant TypedBy(touched, Touched(files[..i], index, startedAt, cutoff))
    {
      TouchedAdd(files, i, index, startedAt, cutoff);
      if files[i] !in index { continue; }
      var byTimeline := PickVersions(index[files[i]], startedAt, cutoff);
      touched := AddAll(touched, byTimeline.Values, Touched(files[..i], index, startedAt, cutoff));
    }
    assert files[..|files|] == files;
  }

  lemma {:induction false} TouchedAdd(files: seq<string>, i: nat, index: FileIndex, startedAt: Option<int>, cutoff: int)
    requires i < |files|
    ensures Touched(files[..i + 1], index, startedAt, cutoff)
         == Touched(files[..i], index, startedAt, cutoff) + PickedIn(index, files[i], startedAt, cutoff)
  {
    assert files[..i + 1] == files[..i] + [files[i]];
  }

  method AddAll(touched: map<string, string>, versions: set<Version>, ghost before: set<Version>)
    returns (touched': map<string, string>)
    requires TypedBy(touched, before)
    ensures TypedBy(touched', before + versions)
  {
    touched' := touched;
    var left := versions;
    ghost var done: set<Version> := {};
    assert before + done == before;
    while left != {}
      invariant left !! done && done + left == versions
      invariant TypedBy(touched', before + done)
      decreases left
    {
      var v :| v in left;
      left := left - {v};
      TypedAdd(touched', before + done, v);
      touched' := touched'[v.id := v.typeName];
      assert before + done + {v} == before + (done + {v});
      done := done + {v};
    }
    assert done == versions;
  }

  /** The ids of the versions, each with the type of a version of that id. */
  ghost predicate TypedBy(touched: map<string, string>, versions: set<Version>) {
    && (forall v :: v in versions ==> v.id in touched)
    && (forall id :: id in touched ==> exists v :: v in versions && v.id == id && v.typeName == touched[id])
  }

  lemma {:induction false} TypedAdd(touched: map<string, string>, versions: set<Version>, v: Version)
    requires TypedBy(touched, versions)
    ensures TypedBy(touched[v.id := v.typeName], versions + {v})
  {
    var after := touched[v.id := v.typeName];
    forall id | id in after ensures exists w :: w in versions + {v} && w.id == id && w.typeName == after[id] {
      if id != v.id {
        var w :| w in versions && w.id == id && w.typeName == touched[id];
        assert w in versions + {v};
      } else {
        assert v in versions + {v};
      }
    }
  }

  /** Whatever files two spans of one segmentation changed, no symbol version is attached to both. */
  lemma {:induction false} NoVersionTwice(events: seq<Event>, score: Score, closeBefore: int, i: nat, j: nat,
                                          files: seq<string>, files': seq<string>, index: FileIndex)
    requires InOrder(events) && i < j < |FinalisedSpans(events, score, closeBefore)|
    ensures var spans := FinalisedSpans(events, score, closeBefore);
            Touched(files, index, Some(spans[i].startedAt), EffectiveEnd(spans[i].endedAt, NextStart(spans, i)))
            !! Touched(files', index, Some(spans[j].startedAt), EffectiveEnd(spans[j].endedAt, NextStart(spans, j)))
  {
    var spans := FinalisedSpans(events, score, closeBefore);
    var end, end' := EffectiveEnd(spans[i].endedAt, NextStart(spans, i)), EffectiveEnd(spans[j].endedAt,
                                  NextStart(spans, j));
    forall v | v in Touched(files, index, Some(spans[i].startedAt), end)
            && v in Touched(files', index, Some(spans[j].startedAt), end')
      ensures false
    {
      TouchedBorn(files, index, Some(spans[i].startedAt), end, v);
      TouchedBorn(files', index, Some(spans[j].startedAt), end', v);
      WindowsDisjoint(events, score, closeBefore, i, j, v.createdAt.value);
    }
  }

  lemma {:induction false} TouchedBorn(files: seq<string>, index: FileIndex, startedAt: Option<int>, cutoff: int,
                                       v: Version)
    requires v in Touched(files, index, startedAt, cutoff)
    ensures Born(v, startedAt, cutoff)
  {
    var file :| file in files && v in PickedIn(index, file, startedAt, cutoff);
    PickedIsLatest(index[file], |index[file]|, startedAt, cutoff);
  }

  // ---- Deleted symbols ------------------------------------------------------------------------

  predicate Rivals(v: Version, w: Version, startedAt: Option<int>, cutoff: int) {
    v.timelineId == w.timelineId && Born(v, startedAt, cutoff)
  }

  /** Among the first `n`, the newest version of its timeline born in the window; of equally new ones the first. */
  predicate Wins(versions: seq<Version>, n: nat, k: nat, startedAt: Option<int>, cutoff: int) {
    && k < n <= |versions| && Born(versions[k], startedAt, cutoff)
    && forall i :: 0 <= i < n && i != k && Rivals(versions[i], versions[k], startedAt, cutoff) ==>
         versions[i].createdAt.value < versions[k].createdAt.value
         || (versions[i].createdAt.value == versions[k].createdAt.value && k < i)
  }

  lemma {:induction false} WinnerPicked(versions: seq<Version>, n: nat, k: nat, startedAt: Option<int>, cutoff: int)
    requires Wins(versions, n, k, startedAt, cutoff)
    ensures versions[k].timelineId in Picked(versions, n, startedAt, cutoff)
    ensures Picked(versions, n, startedAt, cutoff)[versions[k].timelineId] == versions[k]
    decreases n
  {
    PickedIsLatest(versions, n - 1, startedAt, cutoff);
    if k < n - 1 {
      WinnerPicked(versions, n - 1, k, startedAt, cutoff);
    } else {
      var t, before := versions[k].timelineId, Picked(versions, n - 1, startedAt, cutoff);
      if t in before {
        var i :| 0 <= i < n - 1 && versions[..n - 1][i] == before[t];
        assert versions[i] == before[t];
      }
    }
  }

  lemma {:induction false} PickedWins(versions: seq<Version>, n: nat, t: string, startedAt: Option<int>, cutoff: int)
    returns (k: nat)
    requires n <= |versions| && t in Picked(versions, n, startedAt, cutoff)
    ensures Wins(versions, n, k, startedAt, cutoff) && versions[k].timelineId == t
    ensures Picked(versions, n, startedAt, cutoff)[t] == versions[k]
    decreases n
  {
    var before, v := Picked(versions, n - 1, startedAt, cutoff), versions[n - 1];
    if t in before {
      k := PickedWins(versions, n - 1, t, startedAt, cutoff);
      if t == v.timelineId && Born(v, startedAt, cutoff) && v.createdAt.value > versions[k].createdAt.value {
        k := n - 1;
      }
    } else {
      NewTimelineWins(versions, n, t, startedAt, cutoff);
      k := n - 1;
    }
  }

  lemma {:induction false} NewTimelineWins(versions: seq<Version>, n: nat, t: string, startedAt: Option<int>,
                                           cutoff: int)
    requires 0 < n <= |versions| && t in Picked(versions, n, startedAt, cutoff)
    requires t !in Picked(versions, n - 1, startedAt, cutoff)
    ensures Wins(versions, n, n - 1, startedAt, cutoff)
    ensures versions[n - 1].timelineId == t && Picked(versions, n, startedAt, cutoff)[t] == versions[n - 1]
  {
    PickedIsLatest(versions, n - 1, startedAt, cutoff);
    assert versions[n - 1].timelineId == t && Born(versions[n - 1], startedAt, cutoff);
    forall i | 0 <= i < n - 1 && versions[i].timelineId == t ensures !Born(versions[i], startedAt, cutoff) {
    }
  }

  /** The last version of its timeline among the versions of a file. */
  predicate IsHeadIn(versions: seq<Version>, v: Version) {
    v in versions && forall w :: w in versions && w.timelineId == v.timelineId ==> w.version <= v.version
  }

  /** What the header of the linker describes: a picked head that is a tombstone is skipped. */
  function DescribedIn(index: FileIndex, file: string, startedAt: Option<int>, cutoff: int): set<Version> {
    set v | v in PickedIn(index, file, startedAt, cutoff) && !(v.tombstone && IsHeadIn(index[file], v))
  }

  /**
   * The header of the linker says that a deleted head is not attached. The code attaches it: the two differ
   * exactly when a tombstone that heads its timeline is the newest of the timeline born in the window.
   */
  lemma {:induction false} DeletedHeadAttached(index: FileIndex, file: string, startedAt: Option<int>, cutoff: int)
    requires file in index
    ensures PickedIn(index, file, startedAt, cutoff) != DescribedIn(index, file, startedAt, cutoff) <==>
              exists k: nat :: Wins(index[file], |index[file]|, k, startedAt, cutoff)
                          && index[file][k].tombstone && IsHeadIn(index[file], index[file][k])
  {
    var versions, n := index[file], |index[file]|;
    if k: nat :| Wins(versions, n, k, startedAt, cutoff) && versions[k].tombstone && IsHeadIn(versions, versions[k]) {
      WinnerPicked(versions, n, k, startedAt, cutoff);
      assert versions[k] in PickedIn(index, file, startedAt, cutoff);
      assert versions[k] !in DescribedIn(index, file, startedAt, cutoff);
    }
    if PickedIn(index, file, startedAt, cutoff) != DescribedIn(index, file, startedAt, cutoff) {
      var v :| v in PickedIn(index, file, startedAt, cutoff) && v.tombstone && IsHeadIn(versions, v);
      var t :| t in Picked(versions, n, startedAt, cutoff) && Picked(versions, n, startedAt, cutoff)[t] == v;
      var k := PickedWins(versions, n, t, startedAt, cutoff);
    }
  }

  /** Such a deletion: a version and the tombstone that ends its timeline, both born in the window. */
  lemma {:induction false} DeletionInWindow(file: string, v: Version, d: Version, startedAt: int, cutoff: int)
    requires d.timelineId == v.timelineId && d.version > v.version && d.tombstone
    requires v.createdAt.Some? && d.createdAt.Some? && startedAt < v.createdAt.value < d.createdAt.value <= cutoff
    ensures d in Touched([file], map[file := [v, d]], Some(startedAt), cutoff)
    ensures d !in DescribedIn(map[file := [v, d]], file, Some(startedAt), cutoff)
  {
    WinnerPicked([v, d], 2, 1, Some(startedAt), cutoff);
    assert d in PickedIn(map[file := [v, d]], file, Some(startedAt), cutoff);
  }
}
