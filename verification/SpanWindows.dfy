/**
 * The windows of stored spans. A row keeps the effective end that it was given by the crawl
 * that stored it, and the linker reads that one (indexer/src/agentLog/indexLogs.ts,
 * indexer/src/agentLog/spanLink.ts).
 */
module SpanWindows {
  import opened Common
  import opened SpanSegmentation
  import opened SpanEmission
  import opened SpanCrawl

  // ---- Where a stored row comes from ----------------------------------------------------

  /** The row was made from the `i`-th of the finalised spans of one pass over its session. */
  ghost predicate MadeFrom(row: SpanRow, spans: seq<Span>, i: nat) {
    && i < |spans| && row.startedAt == spans[i].startedAt && row.endedAt == spans[i].endedAt
    && row.effectiveEnd == EffectiveEnd(spans[i].endedAt, NextStart(spans, i))
  }

  /** The events that one of the two passes of a crawl reads. */
  ghost predicate ReadBy(events: seq<Event>, store: Store, input: CrawlInput, score: Score) {
    || events == input.scan.events
    || events == Unspanned(MainPass(store, input.scan,
                                    CandidatesIn(input.scan.events, score, input.closeBefore)).events)
  }

  /**
   * The row is the `i`-th of the spans that a pass of the `n`-th crawl finalised for the session of the row.
   * The pass read `events`.
   */
  ghost predicate StoredAt(row: SpanRow, inputs: seq<CrawlInput>, score: Score, n: nat, events: seq<Event>,
                           spans: seq<Span>, i: nat) {
    && n < |inputs| && ReadBy(events, CrawlAll(EMPTY, inputs[..n], score), inputs[n], score)
    && spans == FinalisedSpans(OfSession(events, row.sessionId), score, inputs[n].closeBefore)
    && MadeFrom(row, spans, i)
  }

  lemma {:induction false} FreshFromCandidate(candidates: seq<Candidate>, keys: set<Key>, events: seq<StoredEvent>,
                                              row: SpanRow)
    requires row in Fresh(candidates, keys, events)
    ensures exists c :: c in candidates && row == RowOf(events, c)
    decreases |candidates|
  {
    var c := candidates[0];
    if c.Key() in keys || Messages(events, c.uuids) == [] {
      FreshFromCandidate(candidates[1..], keys, events, row);
    } else if row != RowOf(events, c) {
      FreshFromCandidate(candidates[1..], keys + {c.Key()}, events, row);
    }
  }

  lemma {:induction false} FromSome<S, T>(items: seq<S>, from: nat, give: S -> seq<T>, x: T)
    requires x in ForEach(items, from, give)
    ensures exists k :: from <= k < |items| && x in give(items[k])
    decreases |items| - from
  {
    if x !in give(items[from]) { FromSome(items, from + 1, give, x); }
  }

  lemma {:induction false} CandidateIndex(sid: string, spans: seq<Span>, c: Candidate)
    requires c in CandidatesOf(sid, spans)
    ensures exists i: nat :: i < |spans| && c == CandidateOf(sid, spans, i)
  {
    var i :| 0 <= i < |spans| && CandidatesOf(sid, spans)[i] == c;
    assert c == CandidateOf(sid, spans, i);
  }

  lemma {:induction false} SessionSpans(events: seq<Event>, score: Score, closeBefore: int, k: nat)
    requires k < |Groups(events)|
    ensures var s := SpansBySession(Groups(events), score, closeBefore)[k];
            s.1 == FinalisedSpans(OfSession(events, s.0), score, closeBefore)
  {
  }

  lemma {:induction false} CandidateOrigin(events: seq<Event>, score: Score, closeBefore: int, c: Candidate)
    requires c in CandidatesIn(events, score, closeBefore)
    ensures var spans := FinalisedSpans(OfSession(events, c.sessionId), score, closeBefore);
            exists i: nat :: i < |spans| && c == CandidateOf(c.sessionId, spans, i)
  {
    var bySession := SpansBySession(Groups(events), score, closeBefore);
    var give := (s: (string, seq<Span>)) => CandidatesOf(s.0, s.1);
    FromSome(bySession, 0, give, c);
    var k :| 0 <= k < |bySession| && c in give(bySession[k]);
    SessionSpans(events, score, closeBefore, k);
    CandidateIndex(bySession[k].0, bySession[k].1, c);
  }

  /** Every row that a pass stores is made from the spans that the pass finalised for its session. */
  lemma {:induction false} FreshOrigin(events: seq<Event>, score: Score, closeBefore: int, keys: set<Key>,
                                       stored: seq<StoredEvent>, row: SpanRow)
    requires row in Fresh(CandidatesIn(events, score, closeBefore), keys, stored)
    ensures exists i :: MadeFrom(row, FinalisedSpans(OfSession(events, row.sessionId), score, closeBefore), i)
  {
    FreshFromCandidate(CandidatesIn(events, score, closeBefore), keys, stored, row);
    var c :| c in CandidatesIn(events, score, closeBefore) && row == RowOf(stored, c);
    CandidateOrigin(events, score, closeBefore, c);
    var spans := FinalisedSpans(OfSession(events, c.sessionId), score, closeBefore);
    var i: nat :| i < |spans| && c == CandidateOf(c.sessionId, spans, i);
    assert MadeFrom(row, spans, i);
  }

  lemma {:induction false} CrawlOrigin(store: Store, input: CrawlInput, score: Score, row: SpanRow)
    returns (events: seq<Event>, i: nat)
    requires row in Crawled(store, input.scan, score, input.closeBefore).spans && row !in store.spans
    ensures ReadBy(events, store, input, score)
    ensures MadeFrom(row, FinalisedSpans(OfSession(events, row.sessionId), score, input.closeBefore), i)
  {
    var scan, closeBefore := input.scan, input.closeBefore;
    var main := MainPass(store, scan, CandidatesIn(scan.events, score, closeBefore));
    if row in main.spans {
      FreshOrigin(scan.events, score, closeBefore, KeysOf(store.spans), MainEvents(store, scan), row);
      events := scan.events;
    } else {
      events := Unspanned(main.events);
      FreshOrigin(events, score, closeBefore, KeysOf(main.spans), main.events, row);
    }
    i :| MadeFrom(row, FinalisedSpans(OfSession(events, row.sessionId), score, closeBefore), i);
  }

  lemma {:induction false} LastCrawlOrigin(inputs: seq<CrawlInput>, score: Score, row: SpanRow)
    returns (events: seq<Event>, i: nat)
    requires inputs != [] && row in CrawlAll(EMPTY, inputs, score).spans
    requires row !in CrawlAll(EMPTY, inputs[..|inputs| - 1], score).spans
    ensures ReadBy(events, CrawlAll(EMPTY, inputs[..|inputs| - 1], score), inputs[|inputs| - 1], score)
    ensures MadeFrom(row, FinalisedSpans(OfSession(events, row.sessionId), score, inputs[|inputs| - 1].closeBefore), i)
  {
    events, i := CrawlOrigin(CrawlAll(EMPTY, inputs[..|inputs| - 1], score), inputs[|inputs| - 1], score, row);
  }

  lemma {:induction false} OriginKept(row: SpanRow, inputs: seq<CrawlInput>, score: Score, n: nat, events: seq<Event>,
                                      spans: seq<Span>, i: nat)
    requires inputs != [] && StoredAt(row, inputs[..|inputs| - 1], score, n, events, spans, i)
    ensures StoredAt(row, inputs, score, n, events, spans, i)
  {
    assert inputs[..n] == inputs[..|inputs| - 1][..n];
  }

  /** Every stored row has its origin in a pass of one of the crawls. */
  lemma {:induction false} RowOrigin(inputs: seq<CrawlInput>, score: Score, row: SpanRow)
    returns (n: nat, events: seq<Event>, spans: seq<Span>, i: nat)
    requires row in CrawlAll(EMPTY, inputs, score).spans
    ensures StoredAt(row, inputs, score, n, events, spans, i)
    decreases |inputs|
  {
    if row in CrawlAll(EMPTY, inputs[..|inputs| - 1], score).spans {
      n, events, spans, i := RowOrigin(inputs[..|inputs| - 1], score, row);
      OriginKept(row, inputs, score, n, events, spans, i);
    } else {
      events, i := LastCrawlOrigin(inputs, score, row);
      n := |inputs| - 1;
      spans := FinalisedSpans(OfSession(events, row.sessionId), score, inputs[n].closeBefore);
    }
  }

  // ---- Windows of two rows of one session ---------------------------------------------------

  predicate InRowWindow(row: SpanRow, time: int) { InWindow(Some(row.startedAt), row.effectiveEnd, time) }

  ghost predicate WindowsOverlap(r: SpanRow, q: SpanRow) { exists time :: InRowWindow(r, time) && InRowWindow(q, time) }

  /**
   * When the pass that made a row finalised no later span, the row was padded in full. Otherwise its
   * window ends where that span starts.
   */
  predicate ReachesPast(spans: seq<Span>, i: nat, start: int)
    requires i < |spans|
  {
    start < spans[i].endedAt + SPAN_LINK_EPS_MS && (NextStart(spans, i).None? || start < NextStart(spans, i).value)
  }

  /**
   * Two rows of a session, stored by whatever passes of whatever crawls, overlap exactly when the later one
   * starts within the padding of the earlier one and before the span that was next when the earlier one was
   * stored, if there was one, and has a window at all.
   */
  lemma {:induction false} RowsOverlapWhen(r: SpanRow, q: SpanRow, spans: seq<Span>, i: nat)
    requires MadeFrom(r, spans, i) && r.startedAt < q.startedAt
    ensures WindowsOverlap(r, q) <==> ReachesPast(spans, i, q.startedAt) && q.startedAt < q.effectiveEnd
  {
    if ReachesPast(spans, i, q.startedAt) && q.startedAt < q.effectiveEnd {
      assert InRowWindow(r, q.startedAt + 1) && InRowWindow(q, q.startedAt + 1);
    }
  }

  /** The same for all rows of any sequence of crawls, by the pass that stored the earlier one. */
  lemma {:induction false} StoredRowsOverlapWhen(inputs: seq<CrawlInput>, score: Score, r: SpanRow, q: SpanRow)
    returns (n: nat, events: seq<Event>, spans: seq<Span>, i: nat)
    requires r in CrawlAll(EMPTY, inputs, score).spans && q in CrawlAll(EMPTY, inputs, score).spans
    requires r.sessionId == q.sessionId && r.startedAt < q.startedAt
    ensures StoredAt(r, inputs, score, n, events, spans, i)
    ensures WindowsOverlap(r, q) <==> ReachesPast(spans, i, q.startedAt) && q.startedAt < q.effectiveEnd
  {
    n, events, spans, i := RowOrigin(inputs, score, r);
    RowsOverlapWhen(r, q, spans, i);
  }

  // ---- A session log that grows ----------------------------------------------------------------

  /** The segment that emitted a collected span. */
  lemma {:induction false} EmitterOf(segs: seq<Segment>, from: nat, emit: Segment -> seq<Span>, i: nat) returns (k: nat)
    requires i < |Collect(segs, from, emit)| && forall m :: from <= m < |segs| ==> |emit(segs[m])| <= 1
    ensures from <= k < |segs| && emit(segs[k]) == [Collect(segs, from, emit)[i]]
    ensures i == 0 ==> forall m :: from <= m < k ==> emit(segs[m]) == []
    decreases |segs| - from
  {
    var one := emit(segs[from]);
    if one == [] {
      k := EmitterOf(segs, from + 1, emit, i);
    } else if i == 0 {
      k := from;
    } else {
      k := EmitterOf(segs, from + 1, emit, i - 1);
    }
  }

  /** Between the segments of two neighbouring spans nothing is emitted. */
  lemma {:induction false} EmittersOfPair(segs: seq<Segment>, from: nat, emit: Segment -> seq<Span>, i: nat)
    returns (k: nat, k': nat)
    requires i + 1 < |Collect(segs, from, emit)| && forall m :: from <= m < |segs| ==> |emit(segs[m])| <= 1
    ensures from <= k < k' < |segs|
    ensures emit(segs[k]) == [Collect(segs, from, emit)[i]] && emit(segs[k']) == [Collect(segs, from, emit)[i + 1]]
    ensures forall m :: k < m < k' ==> emit(segs[m]) == []
    decreases |segs| - from
  {
    var one := emit(segs[from]);
    if one == [] {
      k, k' := EmittersOfPair(segs, from + 1, emit, i);
    } else if i == 0 {
      k := from;
      k' := EmitterOf(segs, from + 1, emit, 0);
    } else {
      k, k' := EmittersOfPair(segs, from + 1, emit, i - 1);
    }
  }

  /** A segment with persisted events before one that is not held back is not held back either. */
  lemma {:induction false} EarlierEmits(segs: seq<Segment>, events: seq<Event>, closeBefore: int, m: nat, k: nat)
    requires Tiles(segs, |events|) && InOrder(events) && m < k < |segs|
    requires Emitter(events, closeBefore)(segs[k]) != [] && Persisted(Slice(events, segs[m])) != []
    ensures Emitter(events, closeBefore)(segs[m]) != []
  {
    if HeldBack(Slice(events, segs[m]), closeBefore) {
      HeldBackAfter(segs, m, k, events, closeBefore);
    }
  }

  lemma {:induction false} StartsOrdered(segs: seq<Segment>, events: seq<Event>, j: nat, k: nat)
    requires Tiles(segs, |events|) && InOrder(events) && j <= k < |segs|
    requires Persisted(Slice(events, segs[j])) != [] && Persisted(Slice(events, segs[k])) != []
    ensures SpanOf(Slice(events, segs[j])).startedAt <= SpanOf(Slice(events, segs[k])).startedAt
  {
    if j < k {
      SpanBounds(events, segs[j]);
      SpanBounds(events, segs[k]);
      SegmentsOrdered(segs, j, k, |events|);
      assert events[segs[j].end].time <= events[segs[k].start].time;
    }
  }

  lemma {:induction false} SameStart(segs: seq<Segment>, segs': seq<Segment>, k: nat)
    requires KeepsStarts(segs, segs') && k < |segs|
    ensures segs'[k].start == segs[k].start
  {
    assert k < |segs| - 1 ==> segs'[k] == segs'[..|segs| - 1][k] == segs[k];
  }

  lemma {:induction false} StartsNoEarlier(segs': seq<Segment>, events: seq<Event>, more: seq<Event>, closeBefore: int,
                                           closeBefore': int, s: Segment, k: nat, m: nat)
    requires Tiles(segs', |events + more|) && InOrder(events + more)
    requires (|segs'| == 1 || NoneSmall(events + more, segs')) && k <= m < |segs'|
    requires segs'[k].start == s.start && s.start <= s.end < |events| && Emitter(events, closeBefore)(s) != []
    requires Emitter(events + more, closeBefore')(segs'[m]) != []
    ensures Emitter(events, closeBefore)(s)[0].startedAt <= Emitter(events + more, closeBefore')(segs'[m])[0].startedAt
  {
    LastStarts(segs', k, events, more, closeBefore, s, Emitter(events, closeBefore)(s)[0]);
    StartsOrdered(segs', events + more, k, m);
  }

  lemma {:induction false} StartsBeyond(segs: seq<Segment>, segs': seq<Segment>, events: seq<Event>, more: seq<Event>,
                                        closeBefore: int, closeBefore': int, k: nat, k': nat, m: nat)
    requires Tiles(segs, |events|) && Tiles(segs', |events + more|) && KeepsStarts(segs, segs')
    requires (|segs'| == 1 || NoneSmall(events + more, segs')) && InOrder(events) && InOrder(events + more)
    requires k < k' < |segs| && m < |segs'|
    requires Emitter(events, closeBefore)(segs[k]) != [] && Emitter(events, closeBefore)(segs[k']) != []
    requires forall j :: k < j < k' ==> Emitter(events, closeBefore)(segs[j]) == []
    requires Emitter(events + more, closeBefore')(segs'[m]) != []
    requires Emitter(events, closeBefore)(segs[k])[0].startedAt
           < Emitter(events + more, closeBefore')(segs'[m])[0].startedAt
    ensures Emitter(events, closeBefore)(segs[k'])[0].startedAt
         <= Emitter(events + more, closeBefore')(segs'[m])[0].startedAt
  {
    if m < k' {
      assert segs'[m] == segs'[..|segs| - 1][m] == segs[m];
      assert Slice(events + more, segs[m]) == Slice(events, segs[m]);
      if m <= k {
        StartsOrdered(segs, events, m, k);
      } else {
        EarlierEmits(segs, events, closeBefore, m, k');
      }
    } else {
      SameStart(segs, segs', k');
      StartsNoEarlier(segs', events, more, closeBefore, closeBefore', segs[k'], k', m);
    }
  }

  lemma {:induction false} OneEach(segs: seq<Segment>, events: seq<Event>, closeBefore: int)
    ensures forall k :: 0 <= k < |segs| ==> |Emitter(events, closeBefore)(segs[k])| <= 1
  {
  }

  lemma {:induction false} CollectedBeyond(segs: seq<Segment>, segs': seq<Segment>, events: seq<Event>,
                                           more: seq<Event>, closeBefore: int, closeBefore': int, i: nat, j: nat)
    requires Tiles(segs, |events|) && Tiles(segs', |events + more|) && KeepsStarts(segs, segs')
    requires (|segs'| == 1 || NoneSmall(events + more, segs')) && InOrder(events) && InOrder(events + more)
    requires i + 1 < |Collect(segs, 0, Emitter(events, closeBefore))|
    requires j < |Collect(segs', 0, Emitter(events + more, closeBefore'))|
    requires Collect(segs, 0, Emitter(events, closeBefore))[i].startedAt
           < Collect(segs', 0, Emitter(events + more, closeBefore'))[j].startedAt
    ensures Collect(segs, 0, Emitter(events, closeBefore))[i + 1].startedAt
         <= Collect(segs', 0, Emitter(events + more, closeBefore'))[j].startedAt
  {
    OneEach(segs, events, closeBefore);
    OneEach(segs', events + more, closeBefore');
    var k, k' := EmittersOfPair(segs, 0, Emitter(events, closeBefore), i);
    var m := EmitterOf(segs', 0, Emitter(events + more, closeBefore'), j);
    StartsBeyond(segs, segs', events, more, closeBefore, closeBefore', k, k', m);
  }

  /**
   * When the log of a session grows, no span of a later pass starts between a span of an earlier
   * pass and the one that was next there.
   */
  lemma {:induction false} NothingBetween(events: seq<Event>, more: seq<Event>, score: Score, closeBefore: int,
                                          closeBefore': int, i: nat, j: nat)
    requires InOrder(events + more) && i + 1 < |FinalisedSpans(events, score, closeBefore)|
    requires j < |FinalisedSpans(events + more, score, closeBefore')|
    requires FinalisedSpans(events, score, closeBefore)[i].startedAt
           < FinalisedSpans(events + more, score, closeBefore')[j].startedAt
    ensures FinalisedSpans(events, score, closeBefore)[i + 1].startedAt
         <= FinalisedSpans(events + more, score, closeBefore')[j].startedAt
  {
    AppendStability(events, more, score);
    FinalSegmentsPartition(events + more, score);
    forall m, n | 0 <= m < n < |events| ensures events[m].time <= events[n].time {
      assert events[m] == (events + more)[m] && events[n] == (events + more)[n];
    }
    CollectedBeyond(FinalSegments(events, score), FinalSegments(events + more, score), events, more,
                    closeBefore, closeBefore', i, j);
  }

  /**
   * Two rows made by passes over a growing log overlap exactly when the earlier one was stored before
   * its next span was final, the later one starts within the padding, and the later one has a window.
   */
  lemma {:induction false} GrowingLogOverlapsWhen(events: seq<Event>, more: seq<Event>, score: Score, closeBefore: int,
                                                  closeBefore': int, r: SpanRow, i: nat, q: SpanRow, j: nat)
    requires InOrder(events + more) && r.startedAt < q.startedAt
    requires MadeFrom(r, FinalisedSpans(events, score, closeBefore), i)
    requires MadeFrom(q, FinalisedSpans(events + more, score, closeBefore'), j)
    ensures WindowsOverlap(r, q) <==>
              NextStart(FinalisedSpans(events, score, closeBefore), i).None?
              && q.startedAt < r.endedAt + SPAN_LINK_EPS_MS && q.startedAt < q.effectiveEnd
  {
    RowsOverlapWhen(r, q, FinalisedSpans(events, score, closeBefore), i);
    if i + 1 < |FinalisedSpans(events, score, closeBefore)| {
      NothingBetween(events, more, score, closeBefore, closeBefore', i, j);
    }
  }

  // ---- Symbol versions of stored rows ---------------------------------------------------------------

  function TouchedBy(row: SpanRow, files: seq<string>, index: FileIndex): set<Version> {
    Touched(files, index, Some(row.startedAt), row.effectiveEnd)
  }

  /** Some index and some changed files attach a version to both rows. */
  ghost predicate CanShare(r: SpanRow, q: SpanRow) {
    exists files, files', index, v :: v in TouchedBy(r, files, index) && v in TouchedBy(q, files', index)
  }

  /** The linker can attach one symbol version to two rows exactly when their windows overlap. */
  lemma {:induction false} VersionSharedWhen(r: SpanRow, q: SpanRow)
    ensures CanShare(r, q) <==> WindowsOverlap(r, q)
  {
    if CanShare(r, q) {
      var files, files', index, v :| v in TouchedBy(r, files, index) && v in TouchedBy(q, files', index);
      TouchedBorn(files, index, Some(r.startedAt), r.effectiveEnd, v);
      TouchedBorn(files', index, Some(q.startedAt), q.effectiveEnd, v);
      assert InRowWindow(r, v.createdAt.value) && InRowWindow(q, v.createdAt.value);
    }
    if WindowsOverlap(r, q) {
      var time :| InRowWindow(r, time) && InRowWindow(q, time);
      LoneVersionTouched(r, time);
      LoneVersionTouched(q, time);
      assert LoneVersion(time) in TouchedBy(q, ["f"], map["f" := [LoneVersion(time)]]);
    }
  }

  function LoneVersion(time: int): Version { Version("v", "t", "l", 1, Some(time), false) }

  lemma {:induction false} LoneVersionTouched(row: SpanRow, time: int)
    requires InRowWindow(row, time)
    ensures LoneVersion(time) in TouchedBy(row, ["f"], map["f" := [LoneVersion(time)]])
  {
    var v, index := LoneVersion(time), map["f" := [LoneVersion(time)]];
    assert Picked([v], 0, Some(row.startedAt), row.effectiveEnd) == map[];
    var picked := Picked([v], 1, Some(row.startedAt), row.effectiveEnd);
    assert picked["l"] == v;
    assert v in PickedIn(index, "f", Some(row.startedAt), row.effectiveEnd);
  }
}
