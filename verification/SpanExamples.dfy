/**
 * Crawls at which the store is not what its comments say (indexer/src/agentLog/indexLogs.ts).
 */
module SpanExamples {
  import opened Common
  import opened SpanSegmentation
  import opened SpanEmission
  import opened SpanCrawl
  import opened SpanTails
  import opened SpanWindows

  // ---- Logs of one session ---------------------------------------------------------------

  /** A log of one session, in order, of events that are stored. */
  ghost predicate LoneLog(events: seq<Event>, sid: string) {
    && events != [] && InOrder(events)
    && OneSession(events, sid) && forall i :: 0 <= i < |events| ==> IsEventRow(events[i])
  }

  predicate OneSession(events: seq<Event>, sid: string) { forall i :: 0 <= i < |events| ==> events[i].sessionId == sid }

  lemma {:induction false} LoneSession(events: seq<Event>, sid: string)
    requires OneSession(events, sid)
    ensures OfSession(events, sid) == events
    decreases |events|
  {
    if events != [] {
      LoneSession(events[..|events| - 1], sid);
      assert events == events[..|events| - 1] + [events[|events| - 1]];
    }
  }

  lemma {:induction false} LoneOrder(events: seq<Event>, sid: string)
    requires OneSession(events, sid)
    ensures SessionOrder(events) == if events == [] then [] else [sid]
    decreases |events|
  {
    if events != [] { LoneOrder(events[..|events| - 1], sid); }
  }

  lemma {:induction false} LoneGroup(events: seq<Event>, sid: string)
    requires events != [] && OneSession(events, sid)
    ensures Groups(events) == [(sid, events)]
  {
    LoneSession(events, sid);
    LoneOrder(events, sid);
  }

  lemma {:induction false} OneGives<S, T>(item: S, give: S -> seq<T>)
    ensures ForEach([item], 0, give) == give(item)
  {
    assert ForEach([item], 1, give) == [];
  }

  lemma {:induction false} LoneCandidates(events: seq<Event>, sid: string, score: Score, closeBefore: int)
    requires events != [] && OneSession(events, sid)
    ensures CandidatesIn(events, score, closeBefore) == CandidatesOf(sid, FinalisedSpans(events, score, closeBefore))
  {
    LoneGroup(events, sid);
    LoneSpans(sid, events, score, closeBefore);
    OneGives((sid, FinalisedSpans(events, score, closeBefore)), (s: (string, seq<Span>)) => CandidatesOf(s.0, s.1));
  }

  lemma {:induction false} LoneSpans(sid: string, events: seq<Event>, score: Score, closeBefore: int)
    ensures SpansBySession([(sid, events)], score, closeBefore) == [(sid, FinalisedSpans(events, score, closeBefore))]
  {
  }

  lemma {:induction false} NewsOfOne(g: Group, stored: seq<StoredEvent>)
    ensures NewEvents([g], stored) == NewEventsOf(g.1, stored)
  {
    OneGives(g, NewIn(stored));
  }

  function Unclaimed(events: seq<Event>): seq<StoredEvent> {
    seq(|events|, i requires 0 <= i < |events| => StoredEvent(events[i], false))
  }

  lemma {:induction false} AllNew(events: seq<Event>)
    requires forall i :: 0 <= i < |events| ==> IsEventRow(events[i])
    ensures NewEventsOf(events, []) == Unclaimed(events)
    decreases |events|
  {
    if events != [] {
      AllNew(events[1..]);
      assert Unclaimed(events) == [StoredEvent(events[0], false)] + Unclaimed(events[1..]);
    }
  }

  lemma {:induction false} UnclaimedInOrder(events: seq<Event>, sid: string)
    requires InOrder(events) && OneSession(events, sid)
    ensures Unspanned(Unclaimed(events)) == events
    decreases |events|
  {
    if events != [] {
      var init := events[..|events| - 1];
      UnclaimedInOrder(init, sid);
      assert Unclaimed(events)[..|events| - 1] == Unclaimed(init);
      assert !TextAfter(sid, sid) by { NotAfterItself(sid); }
      assert events == init + [events[|events| - 1]];
    }
  }

  lemma {:induction false} NotAfterItself(a: string)
    ensures !TextAfter(a, a)
    decreases |a|
  {
    if a != "" { NotAfterItself(a[1..]); }
  }

  /** Nothing is final while even the first event is within the hard break. */
  lemma {:induction false} NothingFinal(events: seq<Event>, score: Score, closeBefore: int)
    requires InOrder(events) && (events != [] ==> events[0].time > closeBefore - HARD_BREAK_MS)
    ensures FinalisedSpans(events, score, closeBefore) == []
  {
    if events != [] {
      var segs := FinalSegments(events, score);
      forall k | 0 <= k < |segs| ensures Emitter(events, closeBefore)(segs[k]) == [] {
        if Persisted(Slice(events, segs[k])) != [] {
          SpanBounds(events, segs[k]);
        }
      }
      CollectNothing(segs, 0, Emitter(events, closeBefore));
    }
  }

  /** The log has a final span once its last event is past the hard break. */
  lemma {:induction false} SomethingFinal(events: seq<Event>, score: Score, closeBefore: int)
    requires events != [] && InOrder(events) && (forall i :: 0 <= i < |events| ==> IsPersistable(events[i]))
    requires events[|events| - 1].time <= closeBefore - HARD_BREAK_MS
    ensures FinalisedSpans(events, score, closeBefore) != []
  {
    var segs := FinalSegments(events, score);
    var slice := Slice(events, segs[0]);
    assert slice[0] == events[segs[0].start];
    assert Persisted(slice) == [slice[0]] + Persisted(slice[1..]);
    SpanBounds(events, segs[0]);
    var one := Emitter(events, closeBefore)(segs[0]);
    assert one == [SpanOf(slice)];
    CollectHas(segs, 0, Emitter(events, closeBefore), 0, one[0]);
  }

  // ---- A tail that is left behind --------------------------------------------------------------

  lemma {:induction false} NoCandidates(events: seq<Event>, sid: string, score: Score, closeBefore: int)
    requires OneSession(events, sid)
    requires InOrder(events) && (events != [] ==> events[0].time > closeBefore - HARD_BREAK_MS)
    ensures CandidatesIn(events, score, closeBefore) == []
  {
    NothingFinal(events, score, closeBefore);
    if events == [] {
      assert Groups(events) == [];
    } else {
      LoneCandidates(events, sid, score, closeBefore);
    }
  }

  function Waiting(sid: string, events: seq<Event>): Store { Store({sid}, Unclaimed(events), {}, []) }

  lemma {:induction false} FirstEvents(events: seq<Event>, sid: string)
    requires LoneLog(events, sid)
    ensures MainEvents(EMPTY, Scan([sid], events)) == Unclaimed(events)
  {
    LoneGroup(events, sid);
    NewsOfOne((sid, events), []);
    AllNew(events);
  }

  lemma {:induction false} NoPlans(events: seq<Event>, sid: string)
    requires LoneLog(events, sid)
    ensures ProposedPlans(events) == {}
  {
  }

  lemma {:induction false} FirstMainPass(events: seq<Event>, sid: string)
    requires LoneLog(events, sid)
    ensures MainPass(EMPTY, Scan([sid], events), []) == Waiting(sid, events)
    ensures HasNews(EMPTY, Scan([sid], events), [])
  {
    FirstEvents(events, sid);
    NoPlans(events, sid);
    ClaimNothing(Unclaimed(events));
    assert SessionsIn(Scan([sid], events)) == {sid};
    assert sid !in EMPTY.sessions;
  }

  lemma {:induction false} CatchUpNothing(store: Store)
    ensures CatchUp(store, []) == store
  {
    ClaimNothing(store.events);
  }

  lemma {:induction false} CrawledWithNews(store: Store, scan: Scan, score: Score, closeBefore: int, main: Store)
    requires HasNews(store, scan, CandidatesIn(scan.events, score, closeBefore))
    requires main == MainPass(store, scan, CandidatesIn(scan.events, score, closeBefore))
    ensures Crawled(store, scan, score, closeBefore) == CatchUp(main, TailCandidates(main, score, closeBefore))
  {
  }

  /** A crawl of a young session stores its events and no span. */
  lemma {:induction false} YoungCrawl(events: seq<Event>, sid: string, score: Score, closeBefore: int)
    requires LoneLog(events, sid) && events[0].time > closeBefore - HARD_BREAK_MS
    ensures Crawled(EMPTY, Scan([sid], events), score, closeBefore) == Waiting(sid, events)
  {
    NoCandidates(events, sid, score, closeBefore);
    FirstMainPass(events, sid);
    CrawledWithNews(EMPTY, Scan([sid], events), score, closeBefore, Waiting(sid, events));
    UnclaimedInOrder(events, sid);
    CatchUpNothing(Waiting(sid, events));
  }

  lemma {:induction false} CrawlTwice(store: Store, a: CrawlInput, b: CrawlInput, score: Score, one: Store, two: Store)
    requires one == Crawled(store, a.scan, score, a.closeBefore)
    requires two == Crawled(one, b.scan, score, b.closeBefore)
    ensures CrawlAll(store, [a, b], score) == two
  {
    assert [a, b][..1] == [a] && [a][..0] == [];
    assert CrawlAll(store, [a], score) == one;
  }

  lemma {:induction false} LoneDue(events: seq<Event>, sid: string, score: Score, closeBefore: int)
    requires LoneLog(events, sid) && events[|events| - 1].time <= closeBefore - HARD_BREAK_MS
    ensures SomeDue(events, sid, {}, score, closeBefore)
  {
    SomethingFinal(events, score, closeBefore);
    SpanDue(events, sid, {}, score, closeBefore, FinalisedSpans(events, score, closeBefore)[0]);
  }

  /** The events of one session wait in the store, and they all are past the hard break. */
  lemma {:induction false} WaitingIsDue(events: seq<Event>, sid: string, score: Score, closeBefore: int)
    requires LoneLog(events, sid) && events[|events| - 1].time <= closeBefore - HARD_BREAK_MS
    ensures Due(Waiting(sid, events), score, closeBefore)
  {
    LoneDue(events, sid, score, closeBefore);
    UnclaimedInOrder(events, sid);
    LoneSession(events, sid);
    assert KeysOf([]) == {};
    assert SomeDue(OfSession(Unspanned(Unclaimed(events)), sid), sid, {}, score, closeBefore);
  }

  /**
   * A session is crawled while it is young, and its log has not changed when it is old. The second
   * crawl finds nothing new and changes nothing, and the second pass would have stored a span.
   */
  lemma {:induction false} TailLeftBehind(events: seq<Event>, sid: string, score: Score, young: int, old_: int)
    requires LoneLog(events, sid) && events[0].time > young - HARD_BREAK_MS
    requires events[|events| - 1].time <= old_ - HARD_BREAK_MS
    ensures var first, second := CrawlInput(Scan([sid], events), young), CrawlInput(Scan([], []), old_);
            var store := CrawlAll(EMPTY, [first, second], score);
            store == Waiting(sid, events) && CatchUp(store, TailCandidates(store, score, old_)).spans != []
  {
    var store := Waiting(sid, events);
    YoungCrawl(events, sid, score, young);
    EmptyScanIsIdle(store, score, old_);
    CrawlTwice(EMPTY, CrawlInput(Scan([sid], events), young), CrawlInput(Scan([], []), old_), score, store, store);
    WaitingIsDue(events, sid, score, old_);
    CatchUpStoresWhen(Waiting(sid, events), score, old_);
  }

  // ---- Stored windows that overlap -----------------------------------------------------------------

  /**
   * Four events in two segments. The first is over when the log is crawled first, the second when it is
   * crawled again.
   */
  ghost predicate TwoSpanLog(events: seq<Event>, sid: string, score: Score, early: int, late: int) {
    && LoneLog(events, sid) && |events| == 4
    && (forall i, j :: 0 <= i < j < 4 ==> events[i].uuid != events[j].uuid)
    && CutInTwo(events, score)
    && events[1].time <= early - HARD_BREAK_MS < events[2].time && events[3].time <= late - HARD_BREAK_MS
  }

  predicate CutInTwo(events: seq<Event>, score: Score)
    requires |events| == 4
  {
    score(events[0], events[1]) <= 0.0 && score(events[1], events[2]) > 0.0 && score(events[2], events[3]) <= 0.0
  }

  predicate TwoSegments(events: seq<Event>, score: Score) {
    |events| == 4 && CutInTwo(events, score) && forall i :: 0 <= i < 4 ==> IsPersistable(events[i])
  }

  lemma {:induction false} FourSegments(events: seq<Event>, score: Score)
    requires TwoSegments(events, score)
    ensures FinalSegments(events, score) == [Segment(0, 1), Segment(2, 3)]
  {
    var scores := Scores(events, score);
    var segs := [Segment(0, 1), Segment(2, 3)];
    assert OpenStart(scores, 1) == 0 && OpenStart(scores, 2) == 2 && OpenStart(scores, 3) == 2;
    assert Closed(scores, 1) == [];
    assert Closed(scores, 2) == [Segment(0, 1)];
    assert Closed(scores, 3) == Closed(scores, 2);
    assert InitialSegments(scores) == segs;
    TwoPersisted(events, 0);
    TwoPersisted(events, 2);
    assert FirstSmall(segs, events, 1) == 2;
    assert FirstSmall(segs, events, 0) == 2;
  }

  lemma {:induction false} TwoPersisted(events: seq<Event>, start: nat)
    requires start + 1 < |events| && forall i :: 0 <= i < |events| ==> IsPersistable(events[i])
    ensures CountPersisted(events, start, start + 1) == 2
    ensures Persisted(events[start..start + 2]) == events[start..start + 2]
  {
    var slice := events[start..start + 2];
    assert CountPersisted(events, start + 1, start + 1) == 1;
    assert slice[1..] == [slice[1]] && slice[1..][1..] == [];
    assert Persisted(slice[1..]) == [slice[1]];
  }

  function SpanAt(events: seq<Event>, start: nat): Span
    requires start + 1 < |events| && Persisted(events[start..start + 2]) != []
  {
    SpanOf(events[start..start + 2])
  }

  lemma {:induction false} TwoSpans(events: seq<Event>, score: Score, closeBefore: int)
    requires TwoSegments(events, score)
    requires events[1].time <= closeBefore - HARD_BREAK_MS
    ensures Persisted(events[0..2]) == events[0..2] && Persisted(events[2..4]) == events[2..4]
    ensures events[3].time > closeBefore - HARD_BREAK_MS
        ==> FinalisedSpans(events, score, closeBefore) == [SpanAt(events, 0)]
    ensures events[3].time <= closeBefore - HARD_BREAK_MS
        ==> FinalisedSpans(events, score, closeBefore) == [SpanAt(events, 0), SpanAt(events, 2)]
  {
    FourSegments(events, score);
    TwoPersisted(events, 0);
    TwoPersisted(events, 2);
    var segs, emit := [Segment(0, 1), Segment(2, 3)], Emitter(events, closeBefore);
    assert Slice(events, segs[0]) == events[0..2] && Slice(events, segs[1]) == events[2..4];
    assert Collect(segs, 2, emit) == [];
    assert Collect(segs, 1, emit) == emit(segs[1]);
    assert Collect(segs, 0, emit) == emit(segs[0]) + emit(segs[1]);
  }

  function RowAt(events: seq<Event>, sid: string, start: nat, messages: seq<nat>): SpanRow
    requires start + 1 < |events|
  {
    SpanRow(sid, events[start].time, events[start + 1].time, events[start + 1].time + SPAN_LINK_EPS_MS, messages)
  }

  /** The candidate of the span of two events when no later span is final. */
  function LastCandidate(events: seq<Event>, sid: string, start: nat): Candidate
    requires start + 1 < |events|
  {
    Candidate(sid, events[start].time, events[start + 1].time, events[start + 1].time + SPAN_LINK_EPS_MS,
              [events[start].uuid, events[start + 1].uuid])
  }

  predicate OfTwo(span: Span, events: seq<Event>, start: nat)
    requires start + 1 < |events|
  {
    && span.startedAt == events[start].time && span.endedAt == events[start + 1].time
    && Uuids(span.events) == [events[start].uuid, events[start + 1].uuid]
  }

  lemma {:induction false} SpanOfTwo(events: seq<Event>, start: nat)
    requires start + 1 < |events| && Persisted(events[start..start + 2]) == events[start..start + 2]
    ensures OfTwo(SpanAt(events, start), events, start)
  {
    UuidsOfTwo(events, start);
  }

  lemma {:induction false} LastOfTwo(events: seq<Event>, sid: string, start: nat, spans: seq<Span>)
    requires start + 1 < |events| && spans != [] && OfTwo(spans[|spans| - 1], events, start)
    ensures CandidatesOf(sid, spans)[|spans| - 1] == LastCandidate(events, sid, start)
  {
  }

  lemma {:induction false} EarlyCandidates(events: seq<Event>, sid: string, score: Score, early: int)
    requires TwoSegments(events, score)
    requires events[1].time <= early - HARD_BREAK_MS < events[3].time
    ensures CandidatesOf(sid, FinalisedSpans(events, score, early)) == [LastCandidate(events, sid, 0)]
  {
    TwoSpans(events, score, early);
    SpanOfTwo(events, 0);
    OneCandidate(events, sid, [SpanAt(events, 0)]);
  }

  lemma {:induction false} OneCandidate(events: seq<Event>, sid: string, spans: seq<Span>)
    requires |events| == 4 && |spans| == 1 && OfTwo(spans[0], events, 0)
    ensures CandidatesOf(sid, spans) == [LastCandidate(events, sid, 0)]
  {
    LastOfTwo(events, sid, 0, spans);
  }

  lemma {:induction false} SecondCandidate(events: seq<Event>, sid: string, spans: seq<Span>)
    requires |events| == 4 && |spans| == 2 && OfTwo(spans[0], events, 0) && OfTwo(spans[1], events, 2)
    requires events[0].time < events[2].time
    ensures TwoCandidates(events, sid, CandidatesOf(sid, spans))
  {
    LastOfTwo(events, sid, 2, spans);
  }

  lemma {:induction false} UuidsOfTwo(events: seq<Event>, start: nat)
    requires start + 1 < |events|
    ensures Uuids(events[start..start + 2]) == [events[start].uuid, events[start + 1].uuid]
  {
    var slice := events[start..start + 2];
    assert slice[1..] == [slice[1]] && slice[1..][1..] == [];
    assert Uuids(slice[1..]) == [slice[1].uuid];
  }

  lemma {:induction false} LateCandidates(events: seq<Event>, sid: string, score: Score, late: int)
    requires TwoSegments(events, score)
    requires events[0].time < events[2].time && events[1].time <= late - HARD_BREAK_MS
    requires events[3].time <= late - HARD_BREAK_MS
    ensures TwoCandidates(events, sid, CandidatesOf(sid, FinalisedSpans(events, score, late)))
  {
    TwoSpans(events, score, late);
    SpanOfTwo(events, 0);
    SpanOfTwo(events, 2);
    SecondCandidate(events, sid, [SpanAt(events, 0), SpanAt(events, 2)]);
  }

  predicate TwoCandidates(events: seq<Event>, sid: string, candidates: seq<Candidate>) {
    && |events| == 4 && events[0].time < events[2].time
    && |candidates| == 2 && candidates[0].Key() == (sid, events[0].time)
    && candidates[1] == LastCandidate(events, sid, 2)
  }

  lemma {:induction false} NodesInOrder(events: seq<Event>, i: nat)
    requires i < |events| && forall j :: i < j < |events| ==> events[j].uuid != events[i].uuid
    ensures NodeOf(Unclaimed(events), events[i].uuid) == Some(i)
    decreases |events|
  {
    if i < |events| - 1 {
      var init := events[..|events| - 1];
      assert Unclaimed(events)[..|events| - 1] == Unclaimed(init);
      NodesInOrder(init, i);
    }
  }

  lemma {:induction false} MessagesOfTwo(events: seq<StoredEvent>, u: string, u': string, i: nat, j: nat)
    requires NodeOf(events, u) == Some(i) && NodeOf(events, u') == Some(j)
    ensures Messages(events, [u, u']) == [i, j]
  {
    assert [u, u'][1..] == [u'] && [u'][1..] == [];
    assert Messages(events, [u']) == [j] + [];
  }

  lemma {:induction false} OneFresh(c: Candidate, keys: set<Key>, events: seq<StoredEvent>)
    requires c.Key() !in keys && Messages(events, c.uuids) != []
    ensures Fresh([c], keys, events) == [RowOf(events, c)]
  {
  }

  /** The store after the first crawl. */
  function Halfway(events: seq<Event>, sid: string): Store
    requires |events| == 4
  {
    var row := RowAt(events, sid, 0, [0, 1]);
    Store({sid}, Claim(Unclaimed(events), [row]), {}, [row])
  }

  lemma {:induction false} EarlyRow(events: seq<Event>, sid: string)
    requires |events| == 4 && forall i, j :: 0 <= i < j < 4 ==> events[i].uuid != events[j].uuid
    ensures Fresh([LastCandidate(events, sid, 0)], {}, Unclaimed(events)) == [RowAt(events, sid, 0, [0, 1])]
  {
    NodesInOrder(events, 0);
    NodesInOrder(events, 1);
    MessagesOfTwo(Unclaimed(events), events[0].uuid, events[1].uuid, 0, 1);
    OneFresh(LastCandidate(events, sid, 0), {}, Unclaimed(events));
  }

  lemma {:induction false} EarlyRows(events: seq<Event>, sid: string, score: Score, early: int, late: int)
    requires TwoSpanLog(events, sid, score, early, late)
    ensures Fresh(CandidatesIn(events, score, early), {}, Unclaimed(events)) == [RowAt(events, sid, 0, [0, 1])]
  {
    LoneCandidates(events, sid, score, early);
    EarlyCandidates(events, sid, score, early);
    EarlyRow(events, sid);
  }

  lemma {:induction false} EarlyMainPass(events: seq<Event>, sid: string, candidates: seq<Candidate>)
    requires LoneLog(events, sid) && |events| == 4
    requires Fresh(candidates, {}, Unclaimed(events)) == [RowAt(events, sid, 0, [0, 1])]
    ensures MainPass(EMPTY, Scan([sid], events), candidates) == Halfway(events, sid)
    ensures HasNews(EMPTY, Scan([sid], events), candidates)
  {
    FirstEvents(events, sid);
    NoPlans(events, sid);
    assert KeysOf([]) == {};
    assert SessionsIn(Scan([sid], events)) == {sid};
    assert sid !in EMPTY.sessions;
  }

  lemma {:induction false} ClaimedFirst(a: seq<StoredEvent>, b: seq<StoredEvent>)
    requires forall i :: 0 <= i < |a| ==> a[i].spanned
    ensures Unspanned(a + b) == Unspanned(b)
    decreases |a| + |b|
  {
    if b != [] {
      ClaimedFirst(a, b[..|b| - 1]);
      assert (a + b)[..|a + b| - 1] == a + b[..|b| - 1];
    } else if a != [] {
      ClaimedFirst(a[..|a| - 1], []);
      assert a + b == a && a[..|a| - 1] + [] == a[..|a| - 1];
    }
  }

  lemma {:induction false} TwoLeft(events: seq<Event>, sid: string)
    requires LoneLog(events, sid) && |events| == 4
    ensures Unspanned(Halfway(events, sid).events) == events[2..]
  {
    var stored := Halfway(events, sid).events;
    assert [RowAt(events, sid, 0, [0, 1])][0].messages == [0, 1];
    assert stored[..2] + stored[2..] == stored && stored[2..] == Unclaimed(events[2..]);
    ClaimedFirst(stored[..2], stored[2..]);
    UnclaimedInOrder(events[2..], sid);
  }

  lemma {:induction false} EarlyCrawl(events: seq<Event>, sid: string, score: Score, early: int, late: int)
    requires TwoSpanLog(events, sid, score, early, late)
    ensures Crawled(EMPTY, Scan([sid], events), score, early) == Halfway(events, sid)
  {
    EarlyRows(events, sid, score, early, late);
    EarlyMainPass(events, sid, CandidatesIn(events, score, early));
    CrawledWithNews(EMPTY, Scan([sid], events), score, early, Halfway(events, sid));
    TwoLeft(events, sid);
    NoCandidates(events[2..], sid, score, early);
    CatchUpNothing(Halfway(events, sid));
  }

  /** The second crawl stores the second span, since its key is new. */
  lemma {:induction false} LateRow(events: seq<Event>, sid: string, candidates: seq<Candidate>)
    requires TwoCandidates(events, sid, candidates)
    requires Messages(MainEvents(Halfway(events, sid), Scan([sid], events)), candidates[1].uuids) != []
    ensures exists messages ::
              MainRows(Halfway(events, sid), Scan([sid], events), candidates) == [RowAt(events, sid, 2, messages)]
  {
    var store, scan := Halfway(events, sid), Scan([sid], events);
    assert store.spans[0] in store.spans && store.spans[0].Key() == (sid, events[0].time);
    assert KeysOf(store.spans) == {(sid, events[0].time)};
    assert candidates[1..] == [candidates[1]];
    OneFresh(candidates[1], KeysOf(store.spans), MainEvents(store, scan));
    var messages := Messages(MainEvents(store, scan), candidates[1].uuids);
    assert RowOf(MainEvents(store, scan), candidates[1]) == RowAt(events, sid, 2, messages);
  }

  lemma {:induction false} LateMessage(events: seq<Event>, sid: string)
    requires |events| == 4 && forall i, j :: 0 <= i < j < 4 ==> events[i].uuid != events[j].uuid
    ensures NodeOf(MainEvents(Halfway(events, sid), Scan([sid], events)), events[2].uuid).Some?
  {
    var store := Halfway(events, sid);
    NodesInOrder(events, 2);
    NodeOfSame(Unclaimed(events), store.events, events[2].uuid);
    NodeOfAppend(store.events, NewEvents(Groups(events), store.events), events[2].uuid);
  }

  /** What a crawl stores in its main pass stays where it is. */
  lemma {:induction false} MainRowsStored(store: Store, scan: Scan, score: Score, closeBefore: int)
    ensures var rows := MainRows(store, scan, CandidatesIn(scan.events, score, closeBefore));
            rows != [] ==> store.spans + rows <= Crawled(store, scan, score, closeBefore).spans
  {
  }

  lemma {:induction false} LateCrawl(events: seq<Event>, sid: string, score: Score, early: int, late: int)
    requires TwoSpanLog(events, sid, score, early, late) && early <= late
    ensures exists messages :: [RowAt(events, sid, 0, [0, 1]), RowAt(events, sid, 2, messages)]
                            <= Crawled(Halfway(events, sid), Scan([sid], events), score, late).spans
  {
    LoneCandidates(events, sid, score, late);
    LateCandidates(events, sid, score, late);
    LateMessage(events, sid);
    var store, scan, candidates := Halfway(events, sid), Scan([sid], events), CandidatesIn(events, score, late);
    LateRow(events, sid, candidates);
    var messages :| MainRows(store, scan, candidates) == [RowAt(events, sid, 2, messages)];
    MainRowsStored(store, scan, score, late);
    assert store.spans + [RowAt(events, sid, 2, messages)]
        == [RowAt(events, sid, 0, [0, 1]), RowAt(events, sid, 2, messages)];
  }

  /**
   * A session is crawled when its first span is final and its second is not, and again when both are.
   * The first row is padded in full. The two stored windows overlap exactly when the second span starts
   * within that padding.
   */
  lemma {:induction false} StoredWindowsOverlap(events: seq<Event>, sid: string, score: Score, early: int, late: int)
    requires TwoSpanLog(events, sid, score, early, late) && early <= late
    ensures var first, second := CrawlInput(Scan([sid], events), early), CrawlInput(Scan([sid], events), late);
            var rows := CrawlAll(EMPTY, [first, second], score).spans;
            && |rows| >= 2 && rows[0].sessionId == rows[1].sessionId == sid
            && rows[0].startedAt == events[0].time && rows[1].startedAt == events[2].time
            && (WindowsOverlap(rows[0], rows[1]) <==> events[2].time < events[1].time + SPAN_LINK_EPS_MS)
  {
    var first, second := CrawlInput(Scan([sid], events), early), CrawlInput(Scan([sid], events), late);
    EarlyCrawl(events, sid, score, early, late);
    LateCrawl(events, sid, score, early, late);
    var last := Crawled(Halfway(events, sid), Scan([sid], events), score, late);
    CrawlTwice(EMPTY, first, second, score, Halfway(events, sid), last);
    var messages :| [RowAt(events, sid, 0, [0, 1]), RowAt(events, sid, 2, messages)] <= last.spans;
    PaddedOverlap(events, sid, [0, 1], messages);
  }

  lemma {:induction false} PaddedOverlap(events: seq<Event>, sid: string, messages: seq<nat>, messages': seq<nat>)
    requires |events| == 4 && InOrder(events) && events[0].time < events[2].time
    ensures WindowsOverlap(RowAt(events, sid, 0, messages), RowAt(events, sid, 2, messages'))
       <==> events[2].time < events[1].time + SPAN_LINK_EPS_MS
  {
    var r, q := RowAt(events, sid, 0, messages), RowAt(events, sid, 2, messages');
    if events[2].time < events[1].time + SPAN_LINK_EPS_MS {
      assert InRowWindow(r, events[2].time + 1) && InRowWindow(q, events[2].time + 1);
    }
  }
}
