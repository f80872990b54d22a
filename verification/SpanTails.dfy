/**
 * What the second pass would store, read off the unclaimed events, and the crawls that
 * leave it undone (indexer/src/agentLog/indexLogs.ts).
 */
module SpanTails {
  import opened Common
  import opened SpanSegmentation
  import opened SpanEmission
  import opened SpanCrawl
  import opened SpanWindows

  /** The `k`-th segment of the unclaimed events of a session is over and starts no stored span. */
  ghost predicate DueAt(unclaimed: seq<Event>, sid: string, keys: set<Key>, score: Score, closeBefore: int, k: nat) {
    && unclaimed != [] && k < |FinalSegments(unclaimed, score)|
    && var persisted := Persisted(Slice(unclaimed, FinalSegments(unclaimed, score)[k]));
       && persisted != []
       && persisted[|persisted| - 1].time <= closeBefore - HARD_BREAK_MS
       && (sid, persisted[0].time) !in keys
  }

  ghost predicate SomeDue(unclaimed: seq<Event>, sid: string, keys: set<Key>, score: Score, closeBefore: int) {
    exists k :: DueAt(unclaimed, sid, keys, score, closeBefore, k)
  }

  ghost predicate Due(store: Store, score: Score, closeBefore: int) {
    exists sid :: SomeDue(OfSession(Unspanned(store.events), sid), sid, KeysOf(store.spans), score, closeBefore)
  }

  // ---- From a stored row back to its segment -------------------------------------------------

  lemma {:induction false} SpanDue(unclaimed: seq<Event>, sid: string, keys: set<Key>, score: Score, closeBefore: int,
                                   span: Span)
    requires span in FinalisedSpans(unclaimed, score, closeBefore) && (sid, span.startedAt) !in keys
    ensures SomeDue(unclaimed, sid, keys, score, closeBefore)
  {
    var segs := FinalSegments(unclaimed, score);
    var k := CollectOrigin(segs, 0, Emitter(unclaimed, closeBefore), span);
    assert span == SpanOf(Slice(unclaimed, segs[k]));
    assert DueAt(unclaimed, sid, keys, score, closeBefore, k);
  }

  lemma {:induction false} NewKey(candidates: seq<Candidate>, keys: set<Key>, events: seq<StoredEvent>, row: SpanRow)
    requires row in Fresh(candidates, keys, events)
    ensures row.Key() !in keys
  {
    FreshKeys(candidates, keys, events);
    assert row.Key() in KeysOf(Fresh(candidates, keys, events));
  }

  lemma {:induction false} MadeDue(unclaimed: seq<Event>, keys: set<Key>, score: Score, closeBefore: int, row: SpanRow,
                                   i: nat)
    requires MadeFrom(row, FinalisedSpans(unclaimed, score, closeBefore), i) && row.Key() !in keys
    ensures SomeDue(unclaimed, row.sessionId, keys, score, closeBefore)
  {
    SpanDue(unclaimed, row.sessionId, keys, score, closeBefore, FinalisedSpans(unclaimed, score, closeBefore)[i]);
  }

  lemma {:induction false} RowDue(tail: seq<Event>, keys: set<Key>, score: Score, closeBefore: int,
                                  events: seq<StoredEvent>, row: SpanRow)
    requires row in Fresh(CandidatesIn(tail, score, closeBefore), keys, events)
    ensures SomeDue(OfSession(tail, row.sessionId), row.sessionId, keys, score, closeBefore)
  {
    FreshOrigin(tail, score, closeBefore, keys, events, row);
    NewKey(CandidatesIn(tail, score, closeBefore), keys, events, row);
    var i :| MadeFrom(row, FinalisedSpans(OfSession(tail, row.sessionId), score, closeBefore), i);
    MadeDue(OfSession(tail, row.sessionId), keys, score, closeBefore, row, i);
  }

  // ---- From a segment to a stored row -----------------------------------------------------------

  lemma {:induction false} SessionListed(events: seq<Event>, sid: string)
    requires OfSession(events, sid) != []
    ensures sid in SessionOrder(events)
    decreases |events|
  {
    if events[|events| - 1].sessionId != sid { SessionListed(events[..|events| - 1], sid); }
  }

  lemma {:induction false} OfSessionMembers(events: seq<Event>, sid: string)
    ensures forall e :: e in OfSession(events, sid) ==> e in events
    decreases |events|
  {
    if events != [] {
      OfSessionMembers(events[..|events| - 1], sid);
      assert forall e :: e in events[..|events| - 1] ==> e in events;
    }
  }

  lemma {:induction false} SomeHas<S, T>(items: seq<S>, from: nat, give: S -> seq<T>, k: nat, x: T)
    requires from <= k < |items| && x in give(items[k])
    ensures x in ForEach(items, from, give)
    decreases k - from
  {
    if from < k { SomeHas(items, from + 1, give, k, x); }
  }

  lemma {:induction false} SpanIsCandidate(events: seq<Event>, sid: string, score: Score, closeBefore: int, i: nat)
    requires i < |FinalisedSpans(OfSession(events, sid), score, closeBefore)|
    ensures CandidateOf(sid, FinalisedSpans(OfSession(events, sid), score, closeBefore), i)
         in CandidatesIn(events, score, closeBefore)
  {
    SessionListed(events, sid);
    var n: nat :| n < |SessionOrder(events)| && SessionOrder(events)[n] == sid;
    var bySession := SpansBySession(Groups(events), score, closeBefore);
    var give := (s: (string, seq<Span>)) => CandidatesOf(s.0, s.1);
    var spans := FinalisedSpans(OfSession(events, sid), score, closeBefore);
    assert bySession[n] == (sid, spans);
    assert give(bySession[n])[i] == CandidateOf(sid, spans, i);
    SomeHas(bySession, 0, give, n, CandidateOf(sid, spans, i));
  }

  /** A candidate with a new key and a message is stored, or another with its key is. */
  lemma {:induction false} FreshSome(candidates: seq<Candidate>, keys: set<Key>, events: seq<StoredEvent>, c: Candidate)
    requires c in candidates && c.Key() !in keys && Messages(events, c.uuids) != []
    ensures c.Key() in KeysOf(Fresh(candidates, keys, events))
    decreases |candidates|
  {
    var first := candidates[0];
    var rows := Fresh(candidates, keys, events);
    if first.Key() in keys || Messages(events, first.uuids) == [] {
      FreshSome(candidates[1..], keys, events, c);
    } else if first.Key() == c.Key() {
      assert rows[0].Key() == c.Key();
    } else {
      FreshSome(candidates[1..], keys + {first.Key()}, events, c);
      KeysAppend([rows[0]], rows[1..]);
      assert rows == [rows[0]] + rows[1..];
    }
  }

  lemma {:induction false} PlaceMembers(ordered: seq<Event>, e: Event)
    ensures forall x :: x in Place(ordered, e) ==> x in ordered || x == e
    decreases |ordered|
  {
    if ordered != [] && ComesAfter(ordered[|ordered| - 1], e) {
      PlaceMembers(ordered[..|ordered| - 1], e);
      assert forall x :: x in ordered[..|ordered| - 1] ==> x in ordered;
    }
  }

  /** An unclaimed event is stored. */
  lemma {:induction false} UnspannedStored(events: seq<StoredEvent>, e: Event)
    requires e in Unspanned(events)
    ensures NodeOf(events, e.uuid).Some?
    decreases |events|
  {
    var init, last := events[..|events| - 1], events[|events| - 1];
    if last.event.uuid != e.uuid {
      PlaceMembers(Unspanned(init), last.event);
      UnspannedStored(init, e);
    }
  }

  lemma {:induction false} FirstMessage(events: seq<StoredEvent>, persisted: seq<Event>)
    requires persisted != [] && NodeOf(events, persisted[0].uuid).Some?
    ensures Messages(events, Uuids(persisted)) != []
  {
    assert Uuids(persisted)[0] == persisted[0].uuid;
  }

  lemma {:induction false} DueSpan(unclaimed: seq<Event>, sid: string, keys: set<Key>, score: Score, closeBefore: int,
                                   k: nat)
    returns (i: nat)
    requires DueAt(unclaimed, sid, keys, score, closeBefore, k)
    ensures i < |FinalisedSpans(unclaimed, score, closeBefore)|
    ensures var span := FinalisedSpans(unclaimed, score, closeBefore)[i];
            (sid, span.startedAt) !in keys && span.events != [] && span.events[0] in unclaimed
  {
    var segs := FinalSegments(unclaimed, score);
    var slice := Slice(unclaimed, segs[k]);
    var span := SpanOf(slice);
    assert Emitter(unclaimed, closeBefore)(segs[k]) == [span];
    CollectHas(segs, 0, Emitter(unclaimed, closeBefore), k, span);
    PersistedMembers(slice);
    assert span.events[0] in slice;
    i :| 0 <= i < |FinalisedSpans(unclaimed, score, closeBefore)|
        && FinalisedSpans(unclaimed, score, closeBefore)[i] == span;
  }

  lemma {:induction false} StoredWhenDue(store: Store, score: Score, closeBefore: int, sid: string, k: nat)
    requires DueAt(OfSession(Unspanned(store.events), sid), sid, KeysOf(store.spans), score, closeBefore, k)
    ensures Fresh(TailCandidates(store, score, closeBefore), KeysOf(store.spans), store.events) != []
  {
    var tail, keys := Unspanned(store.events), KeysOf(store.spans);
    var i := DueSpan(OfSession(tail, sid), sid, keys, score, closeBefore, k);
    var spans := FinalisedSpans(OfSession(tail, sid), score, closeBefore);
    SpanIsCandidate(tail, sid, score, closeBefore, i);
    OfSessionMembers(tail, sid);
    UnspannedStored(store.events, spans[i].events[0]);
    FirstMessage(store.events, spans[i].events);
    FreshSome(TailCandidates(store, score, closeBefore), keys, store.events, CandidateOf(sid, spans, i));
  }

  /** The second pass stores a span exactly when a segment of unclaimed events is due. */
  lemma {:induction false} CatchUpStoresWhen(store: Store, score: Score, closeBefore: int)
    ensures Fresh(TailCandidates(store, score, closeBefore), KeysOf(store.spans), store.events) != []
       <==> Due(store, score, closeBefore)
  {
    var rows := Fresh(TailCandidates(store, score, closeBefore), KeysOf(store.spans), store.events);
    if rows != [] {
      RowDue(Unspanned(store.events), KeysOf(store.spans), score, closeBefore, store.events, rows[0]);
    }
    if Due(store, score, closeBefore) {
      var sid :| SomeDue(OfSession(Unspanned(store.events), sid), sid, KeysOf(store.spans), score, closeBefore);
      var k :| DueAt(OfSession(Unspanned(store.events), sid), sid, KeysOf(store.spans), score, closeBefore, k);
      StoredWhenDue(store, score, closeBefore, sid, k);
    }
  }

  /**
   * The second pass is described as running on every crawl, but any scan that brings nothing
   * returns before it. The crawl then does what the pass would have done exactly when no segment
   * of stored, unclaimed events is due.
   */
  lemma {:induction false} IdleScanSkipsCatchUp(store: Store, scan: Scan, score: Score, closeBefore: int)
    requires !HasNews(store, scan, CandidatesIn(scan.events, score, closeBefore))
    ensures Crawled(store, scan, score, closeBefore) == CatchUp(store, TailCandidates(store, score, closeBefore))
       <==> !Due(store, score, closeBefore)
  {
    ClaimNothing(store.events);
    CatchUpStoresWhen(store, score, closeBefore);
    var rows := Fresh(TailCandidates(store, score, closeBefore), KeysOf(store.spans), store.events);
    assert rows == [] ==> store.spans + rows == store.spans;
    assert |store.spans + rows| == |store.spans| + |rows|;
  }
}
