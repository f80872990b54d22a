/**
 * The crawl that stores sessions, events and finalised spans and never stores a
 * span key twice (indexer/src/agentLog/indexLogs.ts).
 *
 * Every insert is taken to succeed. Node ids are the positions of the stored
 * events, and a span refers to its messages by those positions.
 */
module SpanCrawl {
  import opened Common
  import opened SpanSegmentation
  import opened SpanEmission

  datatype StoredEvent = StoredEvent(event: Event, spanned: bool)

  /** The key under which spans are deduplicated: session and start time. */
  type Key = (string, int)

  datatype SpanRow = SpanRow(sessionId: string, startedAt: int, endedAt: int, effectiveEnd: int, messages: seq<nat>) {
    function Key(): Key { (sessionId, startedAt) }
  }

  /** A finalised span before its events are resolved to nodes. */
  datatype Candidate = Candidate(sessionId: string, startedAt: int, endedAt: int, effectiveEnd: int,
                                 uuids: seq<string>)
  {
    function Key(): Key { (sessionId, startedAt) }
  }

  datatype Store = Store(sessions: set<string>, events: seq<StoredEvent>, plans: set<(string, string)>,
                         spans: seq<SpanRow>)

  datatype Scan = Scan(sessions: seq<string>, events: seq<Event>)

  // ---- Grouping by session ------------------------------------------------------------

  /** The sessions in the order of their first events. */
  function SessionOrder(events: seq<Event>): seq<string> {
    if events == [] then []
    else
      var before := SessionOrder(events[..|events| - 1]);
      var sid := events[|events| - 1].sessionId;
      if sid in before then before else before + [sid]
  }

  function OfSession(events: seq<Event>, sid: string): seq<Event> {
    if events == [] then []
    else
      OfSession(events[..|events| - 1], sid)
      + if events[|events| - 1].sessionId == sid then [events[|events| - 1]] else []
  }

  type Group = (string, seq<Event>)

  /** Each session with its events, in the order of the first events. */
  function Groups(events: seq<Event>): seq<Group> {
    var order := SessionOrder(events);
    seq(|order|, i requires 0 <= i < |order| => (order[i], OfSession(events, order[i])))
  }

  method GroupBySession(events: seq<Event>) returns (groups: seq<Group>)
    ensures groups == Groups(events)
  {
    var order: seq<string>, bySession: map<string, seq<Event>> := [], map[];
    for i := 0 to |events|
      invariant order == SessionOrder(events[..i])
      invariant forall sid :: sid in order <==> sid in bySession
      invariant forall sid :: sid in bySession ==> bySession[sid] == OfSession(events[..i], sid)
      invariant forall sid :: sid !in bySession ==> OfSession(events[..i], sid) == []
    {
      var e := events[i];
      assert events[..i + 1][..i] == events[..i];
      if e.sessionId !in bySession {
        order := order + [e.sessionId];
        bySession := bySession[e.sessionId := [e]];
      } else {
        bySession := bySession[e.sessionId := bySession[e.sessionId] + [e]];
      }
    }
    assert events[..|events|] == events;
    groups := seq(|order|, i requires 0 <= i < |order| && order[i] in bySession => (order[i], bySession[order[i]]));
  }

  /** What the items from `from` on give, one after the other. */
  function ForEach<S, T>(items: seq<S>, from: nat, give: S -> seq<T>): seq<T>
    decreases |items| - from
  {
    if from >= |items| then [] else give(items[from]) + ForEach(items, from + 1, give)
  }

  // ---- Candidates ---------------------------------------------------------------------

  function Uuids(events: seq<Event>): seq<string> {
    if events == [] then [] else [events[0].uuid] + Uuids(events[1..])
  }

  function CandidateOf(sid: string, spans: seq<Span>, i: nat): Candidate
    requires i < |spans|
  {
    Candidate(sid, spans[i].startedAt, spans[i].endedAt,
              EffectiveEnd(spans[i].endedAt, NextStart(spans, i)), Uuids(spans[i].events))
  }

  function CandidatesOf(sid: string, spans: seq<Span>): seq<Candidate> {
    seq(|spans|, i requires 0 <= i < |spans| => CandidateOf(sid, spans, i))
  }

  /** Each session with its finalised spans. */
  function SpansBySession(groups: seq<Group>, score: Score, closeBefore: int): seq<(string, seq<Span>)> {
    seq(|groups|, i requires 0 <= i < |groups| => (groups[i].0, FinalisedSpans(groups[i].1, score, closeBefore)))
  }

  lemma {:induction false} OneMoreSession(groups: seq<Group>, k: nat, score: Score, closeBefore: int)
    requires k < |groups|
    ensures SpansBySession(groups[..k + 1], score, closeBefore)
         == SpansBySession(groups[..k], score, closeBefore)
          + [(groups[k].0, FinalisedSpans(groups[k].1, score, closeBefore))]
  {
  }

  method SegmentSessions(groups: seq<Group>, score: Score, closeBefore: int)
    returns (bySession: seq<(string, seq<Span>)>)
    ensures bySession == SpansBySession(groups, score, closeBefore)
  {
    bySession := [];
    for k := 0 to |groups|
      invariant bySession == SpansBySession(groups[..k], score, closeBefore)
    {
      var spans := ComputeSpans(groups[k].1, score, closeBefore);
      OneMoreSession(groups, k, score, closeBefore);
      bySession := bySession + [(groups[k].0, spans)];
    }
    assert groups[..|groups|] == groups;
  }

  function Candidates(bySession: seq<(string, seq<Span>)>): seq<Candidate> {
    ForEach(bySession, 0, (s: (string, seq<Span>)) => CandidatesOf(s.0, s.1))
  }

  method CollectCandidates(bySession: seq<(string, seq<Span>)>) returns (candidates: seq<Candidate>)
    ensures candidates == Candidates(bySession)
  {
    ghost var give := (s: (string, seq<Span>)) => CandidatesOf(s.0, s.1);
    candidates := [];
    for k := 0 to |bySession|
      invariant candidates + ForEach(bySession, k, give) == ForEach(bySession, 0, give)
    {
      candidates := candidates + CandidatesOf(bySession[k].0, bySession[k].1);
    }
  }

  /** The candidates of the finalised spans of all sessions. */
  function CandidatesIn(events: seq<Event>, score: Score, closeBefore: int): seq<Candidate> {
    Candidates(SpansBySession(Groups(events), score, closeBefore))
  }

  // ---- Choosing the spans to insert -----------------------------------------------------

  /** The node of an event: the last stored one with that uuid. */
  function NodeOf(events: seq<StoredEvent>, uuid: string): Option<nat> {
    if events == [] then None
    else if events[|events| - 1].event.uuid == uuid then Some(|events| - 1)
    else NodeOf(events[..|events| - 1], uuid)
  }

  function Messages(events: seq<StoredEvent>, uuids: seq<string>): seq<nat> {
    if uuids == [] then []
    else (match NodeOf(events, uuids[0]) case Some(id) => [id] case None => []) + Messages(events, uuids[1..])
  }

  function RowOf(events: seq<StoredEvent>, c: Candidate): SpanRow {
    SpanRow(c.sessionId, c.startedAt, c.endedAt, c.effectiveEnd, Messages(events, c.uuids))
  }

  /** The rows to insert: a candidate whose key is new and that has a message. Each takes its key. */
  function Fresh(candidates: seq<Candidate>, keys: set<Key>, events: seq<StoredEvent>): seq<SpanRow> {
    if candidates == [] then []
    else
      var c := candidates[0];
      if c.Key() in keys || Messages(events, c.uuids) == [] then Fresh(candidates[1..], keys, events)
      else [RowOf(events, c)] + Fresh(candidates[1..], keys + {c.Key()}, events)
  }

  method ChooseFresh(candidates: seq<Candidate>, existing: set<Key>, events: seq<StoredEvent>)
    returns (rows: seq<SpanRow>)
    ensures rows == Fresh(candidates, existing, events)
  {
    var keys := existing;
    rows := [];
    for i := 0 to |candidates|
      invariant rows + Fresh(candidates[i..], keys, events) == Fresh(candidates, existing, events)
    {
      var c := candidates[i];
      assert candidates[i..][1..] == candidates[i + 1..];
      if c.Key() in keys { continue; }
      var refs := Messages(events, c.uuids);
      if refs == [] { continue; }
      rows := rows + [SpanRow(c.sessionId, c.startedAt, c.endedAt, c.effectiveEnd, refs)];
      keys := keys + {c.Key()};
    }
    assert candidates[|candidates|..] == [];
  }

  function KeysOf(rows: seq<SpanRow>): set<Key> { set row | row in rows :: row.Key() }

  predicate UniqueKeys(rows: seq<SpanRow>) {
    forall i, j :: 0 <= i < j < |rows| ==> rows[i].Key() != rows[j].Key()
  }

  lemma {:induction false} FreshKeys(candidates: seq<Candidate>, keys: set<Key>, events: seq<StoredEvent>)
    ensures UniqueKeys(Fresh(candidates, keys, events)) && KeysOf(Fresh(candidates, keys, events)) !! keys
    decreases |candidates|
  {
    if candidates != [] {
      var c := candidates[0];
      if c.Key() in keys || Messages(events, c.uuids) == [] {
        FreshKeys(candidates[1..], keys, events);
      } else {
        var rest := Fresh(candidates[1..], keys + {c.Key()}, events);
        FreshKeys(candidates[1..], keys + {c.Key()}, events);
        assert forall row :: row in rest ==> row.Key() in KeysOf(rest);
      }
    }
  }

  /** Once the chosen keys are stored and the same messages resolve, nothing is chosen again. */
  lemma {:induction false} FreshAgain(candidates: seq<Candidate>, keys: set<Key>, events: seq<StoredEvent>,
                                      keys': set<Key>, events': seq<StoredEvent>)
    requires keys + KeysOf(Fresh(candidates, keys, events)) <= keys'
    requires forall u :: NodeOf(events, u).None? ==> NodeOf(events', u).None?
    ensures Fresh(candidates, keys', events') == []
    decreases |candidates|
  {
    if candidates != [] {
      var c := candidates[0];
      if c.Key() in keys {
        FreshAgain(candidates[1..], keys, events, keys', events');
      } else if Messages(events, c.uuids) == [] {
        NoMessages(events, events', c.uuids);
        FreshAgain(candidates[1..], keys, events, keys', events');
      } else {
        var rest := Fresh(candidates[1..], keys + {c.Key()}, events);
        var rows := [RowOf(events, c)] + rest;
        assert rows[0] in rows && rows[0].Key() == c.Key();
        assert forall row :: row in rest ==> row in rows;
        FreshAgain(candidates[1..], keys + {c.Key()}, events, keys', events');
      }
    }
  }

  lemma {:induction false} NoMessages(events: seq<StoredEvent>, events': seq<StoredEvent>, uuids: seq<string>)
    requires Messages(events, uuids) == []
    requires forall u :: NodeOf(events, u).None? ==> NodeOf(events', u).None?
    ensures Messages(events', uuids) == []
    decreases |uuids|
  {
    if uuids != [] {
      NoMessages(events, events', uuids[1..]);
    }
  }

  // ---- Choosing the other rows ------------------------------------------------------------

  predicate IsEventRow(e: Event) { !e.kind.PlanAccepted? && !e.kind.TodoWrite? && !e.kind.PlanProposed? }

  function NewIn(stored: seq<StoredEvent>): Group -> seq<StoredEvent> { (g: Group) => NewEventsOf(g.1, stored) }

  function NewEvents(groups: seq<Group>, stored: seq<StoredEvent>): seq<StoredEvent> {
    ForEach(groups, 0, NewIn(stored))
  }

  function NewEventsOf(events: seq<Event>, stored: seq<StoredEvent>): seq<StoredEvent> {
    if events == [] then []
    else (if IsEventRow(events[0]) && NodeOf(stored, events[0].uuid).None? then [StoredEvent(events[0], false)] else [])
         + NewEventsOf(events[1..], stored)
  }

  method CollectNewEvents(groups: seq<Group>, stored: seq<StoredEvent>) returns (found: seq<StoredEvent>)
    ensures found == NewEvents(groups, stored)
  {
    ghost var give := NewIn(stored);
    found := [];
    for k := 0 to |groups|
      invariant found + ForEach(groups, k, give) == ForEach(groups, 0, give)
    {
      var part := CollectNewEventsOf(groups[k].1, stored);
      found := found + part;
    }
  }

  method CollectNewEventsOf(events: seq<Event>, stored: seq<StoredEvent>) returns (part: seq<StoredEvent>)
    ensures part == NewEventsOf(events, stored)
  {
    part := [];
    for i := 0 to |events|
      invariant part + NewEventsOf(events[i..], stored) == NewEventsOf(events, stored)
    {
      assert events[i..][1..] == events[i + 1..];
      if IsEventRow(events[i]) && NodeOf(stored, events[i].uuid).None? {
        part := part + [StoredEvent(events[i], false)];
      }
    }
    assert events[|events|..] == [];
  }

  predicate IsBlank(text: string) { forall i :: 0 <= i < |text| ==> text[i] in {' ', '\t', '\n', '\r'} }

  /** The paths of the plans that are proposed with some content: session and event. */
  function ProposedPlans(events: seq<Event>): set<(string, string)> {
    set e | e in events && e.kind.PlanProposed? && !IsBlank(e.text) :: (e.sessionId, e.uuid)
  }

  // ---- One crawl --------------------------------------------------------------------------

  /** The events that the spans from `from` on claim leave the state `unspanned`. */
  function Claim(events: seq<StoredEvent>, rows: seq<SpanRow>): seq<StoredEvent> {
    seq(|events|, i requires 0 <= i < |events| =>
      if exists k :: 0 <= k < |rows| && i in rows[k].messages then events[i].(spanned := true) else events[i])
  }

  function MainEvents(store: Store, scan: Scan): seq<StoredEvent> {
    store.events + NewEvents(Groups(scan.events), store.events)
  }

  function MainRows(store: Store, scan: Scan, candidates: seq<Candidate>): seq<SpanRow> {
    Fresh(candidates, KeysOf(store.spans), MainEvents(store, scan))
  }

  function SessionsIn(scan: Scan): set<string> { set s | s in scan.sessions }

  /** The main pass: what it adds to the store, with the events of the new spans claimed. */
  function MainPass(store: Store, scan: Scan, candidates: seq<Candidate>): Store {
    Store(store.sessions + SessionsIn(scan),
          Claim(MainEvents(store, scan), MainRows(store, scan, candidates)),
          store.plans + ProposedPlans(scan.events),
          store.spans + MainRows(store, scan, candidates))
  }

  /** Whether the main pass has anything to insert. */
  predicate HasNews(store: Store, scan: Scan, candidates: seq<Candidate>) {
    || !(SessionsIn(scan) <= store.sessions)
    || NewEvents(Groups(scan.events), store.events) != []
    || !(ProposedPlans(scan.events) <= store.plans)
    || MainRows(store, scan, candidates) != []
  }

  /** `a` comes after `b` in the order of the database: by code points. */
  predicate TextAfter(a: string, b: string) {
    a != "" && (b == "" || a[0] > b[0] || (a[0] == b[0] && TextAfter(a[1..], b[1..])))
  }

  /** By session, then by time. */
  predicate ComesAfter(a: Event, b: Event) {
    TextAfter(a.sessionId, b.sessionId) || (a.sessionId == b.sessionId && a.time > b.time)
  }

  /** An event among ordered ones, behind those that it ties with. */
  function Place(ordered: seq<Event>, e: Event): seq<Event> {
    if ordered == [] || !ComesAfter(ordered[|ordered| - 1], e) then ordered + [e]
    else Place(ordered[..|ordered| - 1], e) + [ordered[|ordered| - 1]]
  }

  /** findUnspannedEvents: the unclaimed events by session and time. */
  function Unspanned(events: seq<StoredEvent>): seq<Event> {
    if events == [] then []
    else
      var before, last := Unspanned(events[..|events| - 1]), events[|events| - 1];
      if last.spanned then before else Place(before, last.event)
  }

  /** The second pass: segment what is stored and still unclaimed. */
  function CatchUp(store: Store, candidates: seq<Candidate>): Store {
    var rows := Fresh(candidates, KeysOf(store.spans), store.events);
    store.(events := Claim(store.events, rows), spans := store.spans + rows)
  }

  function TailCandidates(store: Store, score: Score, closeBefore: int): seq<Candidate> {
    CandidatesIn(Unspanned(store.events), score, closeBefore)
  }

  /** A crawl. With nothing to insert it returns before the second pass. */
  function Crawled(store: Store, scan: Scan, score: Score, closeBefore: int): Store {
    var candidates := CandidatesIn(scan.events, score, closeBefore);
    if !HasNews(store, scan, candidates) then store
    else
      var main := MainPass(store, scan, candidates);
      CatchUp(main, TailCandidates(main, score, closeBefore))
  }

  lemma {:induction false} AppendFresh(spans: seq<SpanRow>, candidates: seq<Candidate>, events: seq<StoredEvent>)
    requires UniqueKeys(spans)
    ensures UniqueKeys(spans + Fresh(candidates, KeysOf(spans), events))
  {
    var rows := Fresh(candidates, KeysOf(spans), events);
    FreshKeys(candidates, KeysOf(spans), events);
    forall i, j | 0 <= i < |spans| && 0 <= j < |rows| ensures spans[i].Key() != rows[j].Key() {
      assert spans[i].Key() in KeysOf(spans) && rows[j].Key() in KeysOf(rows);
    }
  }

  /** No crawl stores two spans of one session with the same start. */
  lemma {:induction false} CrawlKeepsKeysUnique(store: Store, scan: Scan, score: Score, closeBefore: int)
    requires UniqueKeys(store.spans)
    ensures UniqueKeys(Crawled(store, scan, score, closeBefore).spans)
  {
    var candidates := CandidatesIn(scan.events, score, closeBefore);
    var main := MainPass(store, scan, candidates);
    AppendFresh(store.spans, candidates, MainEvents(store, scan));
    AppendFresh(main.spans, TailCandidates(main, score, closeBefore), main.events);
  }

  datatype CrawlInput = CrawlInput(scan: Scan, closeBefore: int)

  /** The store after a sequence of crawls. */
  function CrawlAll(store: Store, inputs: seq<CrawlInput>, score: Score): Store {
    if inputs == [] then store
    else
      var last := inputs[|inputs| - 1];
      Crawled(CrawlAll(store, inputs[..|inputs| - 1], score), last.scan, score, last.closeBefore)
  }

  const EMPTY := Store({}, [], {}, [])

  lemma {:induction false} CrawlsKeepKeysUnique(store: Store, inputs: seq<CrawlInput>, score: Score)
    requires UniqueKeys(store.spans)
    ensures UniqueKeys(CrawlAll(store, inputs, score).spans)
    decreases |inputs|
  {
    if inputs != [] {
      var init, last := inputs[..|inputs| - 1], inputs[|inputs| - 1];
      CrawlsKeepKeysUnique(store, init, score);
      CrawlKeepsKeysUnique(CrawlAll(store, init, score), last.scan, score, last.closeBefore);
    }
  }

  // ---- Crawling again ---------------------------------------------------------------------

  lemma {:induction false} NodeOfAppend(a: seq<StoredEvent>, b: seq<StoredEvent>, u: string)
    ensures NodeOf(a + b, u).None? <==> NodeOf(a, u).None? && NodeOf(b, u).None?
    decreases |b|
  {
    if b == [] {
      assert a + b == a;
    } else {
      assert (a + b)[..|a + b| - 1] == a + b[..|b| - 1];
      NodeOfAppend(a, b[..|b| - 1], u);
    }
  }

  /** Claiming changes no uuid. */
  lemma {:induction false} NodeOfSame(a: seq<StoredEvent>, b: seq<StoredEvent>, u: string)
    requires |a| == |b| && forall i :: 0 <= i < |a| ==> a[i].event == b[i].event
    ensures NodeOf(a, u) == NodeOf(b, u)
    decreases |a|
  {
    if a != [] {
      NodeOfSame(a[..|a| - 1], b[..|b| - 1], u);
    }
  }

  lemma {:induction false} NothingNewOf(events: seq<Event>, stored: seq<StoredEvent>, stored': seq<StoredEvent>)
    requires forall u :: NodeOf(stored + NewEventsOf(events, stored), u).Some? ==> NodeOf(stored', u).Some?
    ensures NewEventsOf(events, stored') == []
    decreases |events|
  {
    if events != [] {
      var part := NewEventsOf(events, stored);
      var rest := NewEventsOf(events[1..], stored);
      forall u | NodeOf(stored + rest, u).Some? ensures NodeOf(stored', u).Some? {
        NodeOfAppend(stored, rest, u);
        NodeOfAppend(stored, part, u);
        NodeOfAppend(part[..|part| - |rest|], rest, u);
        assert part == part[..|part| - |rest|] + rest;
      }
      NothingNewOf(events[1..], stored, stored');
      if IsEventRow(events[0]) {
        FirstStored(events, stored);
        assert NodeOf(stored', events[0].uuid).Some?;
      }
    }
  }

  lemma {:induction false} FirstStored(events: seq<Event>, stored: seq<StoredEvent>)
    requires events != [] && IsEventRow(events[0])
    ensures NodeOf(stored + NewEventsOf(events, stored), events[0].uuid).Some?
  {
    var u, part := events[0].uuid, NewEventsOf(events, stored);
    NodeOfAppend(stored, part, u);
    if NodeOf(stored, u).None? {
      assert part == [StoredEvent(events[0], false)] + NewEventsOf(events[1..], stored);
      NodeOfAppend([StoredEvent(events[0], false)], NewEventsOf(events[1..], stored), u);
    }
  }

  lemma {:induction false} NothingNew(groups: seq<Group>, from: nat, stored: seq<StoredEvent>,
                                      stored': seq<StoredEvent>)
    requires forall u :: NodeOf(stored + ForEach(groups, from, NewIn(stored)), u).Some? ==> NodeOf(stored', u).Some?
    ensures ForEach(groups, from, NewIn(stored')) == []
    decreases |groups| - from
  {
    if from < |groups| {
      var part := NewEventsOf(groups[from].1, stored);
      var rest := ForEach(groups, from + 1, NewIn(stored));
      forall u
        ensures NodeOf(stored + (part + rest), u).None?
           <==> NodeOf(stored, u).None? && NodeOf(part, u).None? && NodeOf(rest, u).None?
      {
        NodeOfAppend(stored, part + rest, u);
        NodeOfAppend(part, rest, u);
      }
      forall u | NodeOf(stored + rest, u).Some? ensures NodeOf(stored', u).Some? {
        NodeOfAppend(stored, rest, u);
      }
      forall u | NodeOf(stored + part, u).Some? ensures NodeOf(stored', u).Some? {
        NodeOfAppend(stored, part, u);
      }
      NothingNewOf(groups[from].1, stored, stored');
      NothingNew(groups, from + 1, stored, stored');
    }
  }

  /** As far as the next crawl can tell, the store holds what the main pass of this one brought. */
  ghost predicate Holds(after: Store, store: Store, scan: Scan, candidates: seq<Candidate>) {
    && SessionsIn(scan) <= after.sessions
    && ProposedPlans(scan.events) <= after.plans
    && KeysOf(store.spans) + KeysOf(MainRows(store, scan, candidates)) <= KeysOf(after.spans)
    && SameEvents(after.events, MainEvents(store, scan))
  }

  ghost predicate SameEvents(a: seq<StoredEvent>, b: seq<StoredEvent>) {
    |a| == |b| && forall i :: 0 <= i < |a| ==> a[i].event == b[i].event
  }

  lemma {:induction false} MainPassHolds(store: Store, scan: Scan, candidates: seq<Candidate>)
    ensures Holds(MainPass(store, scan, candidates), store, scan, candidates)
    ensures !HasNews(store, scan, candidates) ==> Holds(store, store, scan, candidates)
  {
    KeysAppend(store.spans, MainRows(store, scan, candidates));
    if !HasNews(store, scan, candidates) {
      assert MainEvents(store, scan) == store.events;
      assert KeysOf([]) == {};
    }
  }

  lemma {:induction false} KeysAppend(a: seq<SpanRow>, b: seq<SpanRow>)
    ensures KeysOf(a + b) == KeysOf(a) + KeysOf(b)
  {
  }

  lemma {:induction false} CatchUpHolds(after: Store, later: seq<Candidate>, store: Store, scan: Scan,
                                        candidates: seq<Candidate>)
    requires Holds(after, store, scan, candidates)
    ensures Holds(CatchUp(after, later), store, scan, candidates)
  {
    KeysAppend(after.spans, Fresh(later, KeysOf(after.spans), after.events));
  }

  lemma {:induction false} NoNewsAgain(after: Store, store: Store, scan: Scan, candidates: seq<Candidate>)
    requires Holds(after, store, scan, candidates)
    ensures !HasNews(after, scan, candidates)
  {
    forall u ensures NodeOf(after.events, u) == NodeOf(MainEvents(store, scan), u) {
      NodeOfSame(after.events, MainEvents(store, scan), u);
    }
    NothingNew(Groups(scan.events), 0, store.events, after.events);
    assert MainEvents(after, scan) == after.events;
    FreshAgain(candidates, KeysOf(store.spans), MainEvents(store, scan), KeysOf(after.spans), after.events);
  }

  /** Idempotence: a second crawl over the same scan with the same close time inserts nothing. */
  lemma {:induction false} CrawlIdempotent(store: Store, scan: Scan, score: Score, closeBefore: int)
    ensures var once := Crawled(store, scan, score, closeBefore);
            && !HasNews(once, scan, CandidatesIn(scan.events, score, closeBefore))
            && Crawled(once, scan, score, closeBefore) == once
  {
    var candidates := CandidatesIn(scan.events, score, closeBefore);
    MainPassHolds(store, scan, candidates);
    var once := Crawled(store, scan, score, closeBefore);
    if HasNews(store, scan, candidates) {
      var main := MainPass(store, scan, candidates);
      CatchUpHolds(main, TailCandidates(main, score, closeBefore), store, scan, candidates);
    }
    NoNewsAgain(once, store, scan, candidates);
  }

  /** A scan of nothing brings nothing, whatever is stored. */
  lemma {:induction false} EmptyScanIsIdle(store: Store, score: Score, closeBefore: int)
    ensures !HasNews(store, Scan([], []), CandidatesIn([], score, closeBefore))
  {
    assert Groups([]) == [];
    assert NewEvents([], store.events) == [] && CandidatesIn([], score, closeBefore) == [];
  }

  lemma {:induction false} ClaimNothing(events: seq<StoredEvent>)
    ensures Claim(events, []) == events
  {
  }

  lemma {:induction false} NoDifference<T>(a: set<T>, b: set<T>)
    ensures |a - b| == 0 <==> a <= b
    ensures b + (a - b) == b + a
  {
    if a - b == {} {
      assert forall x :: x in a ==> x !in a - b;
    }
  }

  method PlaceEvent(ordered: seq<Event>, e: Event) returns (placed: seq<Event>)
    ensures placed == Place(ordered, e)
  {
    var i := |ordered|;
    assert ordered[..i] == ordered && Place(ordered, e) + ordered[i..] == Place(ordered, e);
    while i > 0 && ComesAfter(ordered[i - 1], e)
      invariant 0 <= i <= |ordered| && Place(ordered, e) == Place(ordered[..i], e) + ordered[i..]
    {
      assert ordered[..i][..i - 1] == ordered[..i - 1];
      assert [ordered[i - 1]] + ordered[i..] == ordered[i - 1..];
      i := i - 1;
    }
    placed := ordered[..i] + [e] + ordered[i..];
  }

  // ---- The indexer ----------------------------------------------------------------------------

  class Indexer {
    var sessions: set<string>
    var events: seq<StoredEvent>
    var plans: set<(string, string)>
    var spans: seq<SpanRow>

    ghost function State(): Store
      reads this
    {
      Store(sessions, events, plans, spans)
    }

    constructor ()
      ensures State() == EMPTY
    {
      sessions, events, plans, spans := {}, [], {}, [];
    }

    method LoadExistingSpanKeys() returns (keys: set<Key>)
      ensures keys == KeysOf(spans)
    {
      keys := {};
      for i := 0 to |spans|
        invariant keys == KeysOf(spans[..i])
      {
        assert spans[..i + 1] == spans[..i] + [spans[i]];
        keys := keys + {spans[i].Key()};
      }
      assert spans[..|spans|] == spans;
    }

    /** setNodeState on the messages of the new spans. */
    method MarkSpanned(rows: seq<SpanRow>)
      modifies this`events
      ensures events == Claim(old(events), rows)
    {
      var before := events;
      events := Claim(before, rows);
    }

    /** indexAgentSessions: the number of rows the main pass inserted. */
    method IndexAgentSessions(scan: Scan, score: Score, closeBefore: int) returns (inserted: nat)
      requires UniqueKeys(spans)
      modifies this
      ensures State() == Crawled(old(State()), scan, score, closeBefore)
      ensures UniqueKeys(spans)
      ensures inserted == 0 <==> !HasNews(old(State()), scan, CandidatesIn(scan.events, score, closeBefore))
    {
      CrawlKeepsKeysUnique(State(), scan, score, closeBefore);
      var groups := GroupBySession(scan.events);
      var bySession := SegmentSessions(groups, score, closeBefore);
      var candidates := CollectCandidates(bySession);
      inserted := InsertScan(scan, groups, candidates);
      if inserted == 0 { return; }
      CatchUpUnspannedTails(score, closeBefore);
    }

    /** The rows of the main pass. */
    method ChooseRows(scan: Scan, groups: seq<Group>, candidates: seq<Candidate>)
      returns (newSessions: set<string>, newEvents: seq<StoredEvent>, newPlans: set<(string, string)>,
               rows: seq<SpanRow>)
      requires groups == Groups(scan.events)
      ensures newSessions == SessionsIn(scan) - sessions && newPlans == ProposedPlans(scan.events) - plans
      ensures newEvents == NewEvents(groups, events) && rows == MainRows(State(), scan, candidates)
    {
      var keys := LoadExistingSpanKeys();
      newSessions := SessionsIn(scan) - sessions;
      newEvents := CollectNewEvents(groups, events);
      newPlans := ProposedPlans(scan.events) - plans;
      rows := ChooseFresh(candidates, keys, events + newEvents);
    }

    method InsertScan(scan: Scan, groups: seq<Group>, candidates: seq<Candidate>) returns (inserted: nat)
      requires groups == Groups(scan.events)
      modifies this
      ensures inserted == 0 <==> !HasNews(old(State()), scan, candidates)
      ensures State() == if inserted == 0 then old(State()) else MainPass(old(State()), scan, candidates)
    {
      var newSessions, newEvents, newPlans, rows := ChooseRows(scan, groups, candidates);
      inserted := |newSessions| + |newEvents| + |newPlans| + |rows|;
      NoDifference(SessionsIn(scan), sessions);
      NoDifference(ProposedPlans(scan.events), plans);
      if inserted == 0 { return; }
      InsertRows(newSessions, newEvents, newPlans, rows);
    }

    method InsertRows(newSessions: set<string>, newEvents: seq<StoredEvent>, newPlans: set<(string, string)>,
                      rows: seq<SpanRow>)
      modifies this
      ensures State() == Store(old(sessions) + newSessions, Claim(old(events) + newEvents, rows),
                               old(plans) + newPlans, old(spans) + rows)
    {
      sessions, events, plans, spans := sessions + newSessions, events + newEvents, plans + newPlans, spans + rows;
      MarkSpanned(rows);
    }

    method FindUnspannedEvents() returns (tail: seq<Event>)
      ensures tail == Unspanned(events)
    {
      tail := [];
      for i := 0 to |events|
        invariant tail == Unspanned(events[..i])
      {
        assert events[..i + 1][..i] == events[..i];
        if !events[i].spanned { tail := PlaceEvent(tail, events[i].event); }
      }
      assert events[..|events|] == events;
    }

    method CatchUpUnspannedTails(score: Score, closeBefore: int)
      modifies this`events, this`spans
      ensures State() == CatchUp(old(State()), TailCandidates(old(State()), score, closeBefore))
    {
      var keys := LoadExistingSpanKeys();
      var tail := FindUnspannedEvents();
      var groups := GroupBySession(tail);
      var bySession := SegmentSessions(groups, score, closeBefore);
      var candidates := CollectCandidates(bySession);
      var rows := ChooseFresh(candidates, keys, events);
      spans := spans + rows;
      MarkSpanned(rows);
    }
  }
}
