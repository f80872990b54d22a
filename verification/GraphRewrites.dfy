/**
 * What a batch of writes may change in rows that are already there, and what every
 * such change keeps (packages/core/src/db.ts).
 */
module GraphRewrites {
  import opened Common
  import opened GraphModel
  import opened GraphGrowth

  predicate SameKind(b: Body, b': Body) { b == b' || (b.MapBody? && b'.MapBody? && b.typeId == b'.typeId) }

  /** A row may be flagged and a map row may change its entries; nothing else of it changes. */
  predicate SameRow(r: Row, r': Row) {
    r'.timeline == r.timeline && r'.version == r.version && SameKind(r.body, r'.body) && (r.tombstone ==> r'.tombstone)
  }

  ghost predicate IsNewRow(g: Graph, named: set<TypeId>, id: Id) {
    id in g && g[id].timeline == id && g[id].version == 1 && !IsNamed(g, named, id)
  }

  /**
   * Old rows are the same, but for flags and for the entries of the targets; new rows are unversioned and
   * anonymous.
   */
  ghost predicate Rewrites(g: Graph, g': Graph, named: set<TypeId>, n: Id, n': Id, targets: set<Id>) {
    && n <= n'
    && (forall x :: x in g ==> x in g' && SameRow(g[x], g'[x]) && (x !in targets ==> g'[x].body == g[x].body))
    && (forall x :: x in g' && x !in g ==> n <= x < n' && IsNewRow(g', named, x))
  }

  ghost predicate NoneFlagged(g: Graph, g': Graph) {
    forall x :: x in g' && g'[x].tombstone ==> x in g && g[x].tombstone
  }

  /** The tombstones are those that were there and those in the set. */
  ghost predicate FlagsExactly(g: Graph, g': Graph, s: set<Id>) {
    forall x :: x in g' ==> g'[x].tombstone == ((x in g && g[x].tombstone) || x in s)
  }

  lemma {:induction false} AddsRewrites(g: Graph, g': Graph, named: set<TypeId>, n: Id, n': Id, floor: Id,
                                        targets: set<Id>)
    requires Adds(g, g', named, n, n', floor)
    ensures Rewrites(g, g', named, n, n', targets) && NoneFlagged(g, g')
  {
    assert forall x :: x in g' && x !in g ==> IsFreshRow(g', named, floor, x);
  }

  lemma {:induction false} FlaggedRewrites(g: Graph, s: set<Id>, named: set<TypeId>, n: Id, targets: set<Id>)
    ensures Rewrites(g, Flagged(g, s), named, n, n, targets)
    ensures Sound(g, named, n) ==> Sound(Flagged(g, s), named, n)
  {
    FlaggedKeepsBodies(g, s, named);
    if Sound(g, named, n) {
      forall x | x in g ensures Unfolds(Flagged(g, s), named, x) {
        DenotesFlagged(g, s, named, x, Unfolding(g, named, x));
      }
    }
  }

  lemma {:induction false} RewritesNamed(g: Graph, g': Graph, named: set<TypeId>, n: Id, n': Id, targets: set<Id>)
    requires Rewrites(g, g', named, n, n', targets)
    ensures forall x :: IsNamed(g', named, x) == IsNamed(g, named, x)
  {
    assert forall x :: x in g' && x !in g ==> IsNewRow(g', named, x);
  }

  lemma {:induction false} RewritesTransitive(g: Graph, g1: Graph, g2: Graph, named: set<TypeId>, n: Id, n1: Id, n2: Id,
                                              targets: set<Id>, targets': set<Id>)
    requires Rewrites(g, g1, named, n, n1, targets) && Rewrites(g1, g2, named, n1, n2, targets') && Below(g, n)
    requires forall x :: x in targets' ==> x in targets || n <= x
    ensures Rewrites(g, g2, named, n, n2, targets)
    ensures NoneFlagged(g, g1) && NoneFlagged(g1, g2) ==> NoneFlagged(g, g2)
  {
    RewritesNamed(g1, g2, named, n1, n2, targets');
    forall x | x in g ensures x in g2 && SameRow(g[x], g2[x]) && (x !in targets ==> g2[x].body == g[x].body) {
      assert x in g1 && SameRow(g[x], g1[x]) && SameRow(g1[x], g2[x]);
    }
    forall x | x in g2 && x !in g ensures n <= x < n2 && IsNewRow(g2, named, x) {
      assert x in g1 ==> IsNewRow(g1, named, x) && SameRow(g1[x], g2[x]);
    }
  }

  // ---- Entries of one row ---------------------------------------------------------------

  function EntriesOf(g: Graph, id: Id): map<Key, Id> {
    if id in g && g[id].body.MapBody? then g[id].body.entries else map[]
  }

  function WithEntries(g: Graph, id: Id, entries: map<Key, Id>): Graph
    requires id in g && g[id].body.MapBody?
  {
    g[id := g[id].(body := MapBody(g[id].body.typeId, entries))]
  }

  lemma {:induction false} EntriesWritten(g: Graph, named: set<TypeId>, n: Id, id: Id, entries: map<Key, Id>)
    requires Sound(g, named, n) && IsNamed(g, named, id)
    requires forall k :: k in entries ==> entries[k] in g
    ensures Sound(WithEntries(g, id, entries), named, n)
    ensures Rewrites(g, WithEntries(g, id, entries), named, n, n, {id}) && NoneFlagged(g, WithEntries(g, id, entries))
  {
    var g' := WithEntries(g, id, entries);
    assert forall x :: IsNamed(g', named, x) == IsNamed(g, named, x);
    forall x | x in g' ensures Unfolds(g', named, x) {
      DenotesNamedRewritten(g, g', named, n, n, {id}, x, Unfolding(g, named, x));
    }
  }

  lemma {:induction false} EntryThere(g: Graph, id: Id, k: Key)
    requires Closed(g) && k in EntriesOf(g, id)
    ensures EntriesOf(g, id)[k] in Children(g, id) && EntriesOf(g, id)[k] in g
  {
  }

  // ---- Unfoldings -------------------------------------------------------------------------

  lemma {:induction false} DenotesRewritten(g: Graph, g': Graph, named: set<TypeId>, n: Id, n': Id, targets: set<Id>,
                                            id: Id, t: Tree)
    requires Rewrites(g, g', named, n, n', targets) && Denotes(g, named, id, t)
    requires forall x :: x in targets && x in g ==> x !in Anonymous(g, named, id, t)
    ensures Denotes(g', named, id, t) && Anonymous(g', named, id, t) == Anonymous(g, named, id, t)
  {
    AnonymousInGraph(g, named, id, t);
    RewritesNamed(g, g', named, n, n', targets);
    DenotesFrame(g, g', named, id, t);
  }

  /** Rewriting named rows changes no unfolding. */
  lemma {:induction false} DenotesNamedRewritten(g: Graph, g': Graph, named: set<TypeId>, n: Id, n': Id,
                                                 targets: set<Id>, id: Id, t: Tree)
    requires Rewrites(g, g', named, n, n', targets) && Denotes(g, named, id, t)
    requires forall x :: x in targets && x in g ==> IsNamed(g, named, x)
    ensures Denotes(g', named, id, t) && Anonymous(g', named, id, t) == Anonymous(g, named, id, t)
  {
    AnonymousInGraph(g, named, id, t);
    DenotesRewritten(g, g', named, n, n', targets, id, t);
  }

  /** The own rows of a value are new, so only flags can touch them. */
  lemma {:induction false} MadeRewritten(g: Graph, g': Graph, named: set<TypeId>, n: Id, n': Id, targets: set<Id>,
                                         id: Id, t: Tree, from: Id, live: bool)
    requires Rewrites(g, g', named, n, n', targets) && Made(g, named, id, t, from, live)
    requires forall x :: x in targets ==> x < from
    requires live ==> forall x :: x in g && from <= x && g'[x].tombstone ==> g[x].tombstone
    ensures Made(g', named, id, t, from, live)
  {
    RewritesNamed(g, g', named, n, n', targets);
    MadeKept(g, g', named, id, t, from, live);
  }

  // ---- The tombstone walk -----------------------------------------------------------------

  /** What was visited is reached, and what is reached from it but was not visited is on the stack. */
  ghost predicate WalkUnderway(g: Graph, named: set<TypeId>, root: Id, visited: set<Id>, stack: seq<Id>) {
    && root in visited
    && (forall x :: x in visited && x != root ==> x in g && Reaches(g, named, root, x))
    && (forall x :: x in stack ==> x in g && Reaches(g, named, root, x))
    && (forall c :: c in Children(g, root) ==> c in visited || c in stack)
    && (forall x, c :: x in visited && x != root && !IsNamed(g, named, x) && c in Children(g, x) ==>
          c in visited || c in stack)
  }

  lemma {:induction false} WalkStep(g: Graph, named: set<TypeId>, root: Id, visited: set<Id>, id: Id, stack: seq<Id>,
                                    popped: seq<Id>, stack': seq<Id>)
    requires Closed(g) && WalkUnderway(g, named, root, visited, stack) && id in stack && id !in visited
    requires forall c :: c in stack <==> c in popped || c == id
    requires forall c :: c in stack'
               <==> c in popped || (!IsNamed(g, named, id) && c in Children(g, id) && c !in visited + {id})
    ensures WalkUnderway(g, named, root, visited + {id}, stack')
  {
    forall c | c in stack' && c !in popped ensures c in g && Reaches(g, named, root, c) {
      ReachesFurther(g, named, root, id, c);
    }
  }

  lemma {:induction false} WalkDone(g: Graph, named: set<TypeId>, root: Id, visited: set<Id>)
    requires WalkUnderway(g, named, root, visited, [])
    ensures visited - {root} == ReachSet(g, named, root)
  {
    forall x | Reaches(g, named, root, x) ensures x in visited {
      var p :| IsWalk(g, named, root, p) && p[|p| - 1] == x;
      ReachedInClosure(g, named, root, visited, p);
    }
  }

  lemma {:induction false} ReachRewritten(g: Graph, g': Graph, named: set<TypeId>, n: Id, n': Id, targets: set<Id>,
                                          root: Id)
    requires Rewrites(g, g', named, n, n', targets) && Closed(g) && root in g && root !in targets
    requires forall x :: x in targets && x in g ==> IsNamed(g, named, x)
    ensures ReachSet(g', named, root) == ReachSet(g, named, root)
  {
    RewritesNamed(g, g', named, n, n', targets);
    ReachSetStays(g, g', named, root);
  }

  lemma {:induction false} NoMoreFlags(g: Graph, g1: Graph, g2: Graph, named: set<TypeId>, n1: Id, n2: Id,
                                       targets: set<Id>, s: set<Id>)
    requires FlagsExactly(g, g1, s) && Rewrites(g1, g2, named, n1, n2, targets) && NoneFlagged(g1, g2)
    requires forall x :: x in g || x in s ==> x in g1
    ensures FlagsExactly(g, g2, s)
  {
    assert forall x :: x in g1 ==> SameRow(g1[x], g2[x]);
  }

  /** What the walks from some roots flag. */
  ghost function Cleared(g: Graph, named: set<TypeId>, roots: set<Id>): set<Id> {
    set x | x in g && exists c :: c in roots && x in ReachSet(g, named, c)
  }

  /** Every tombstone was there, or is reached from one of the roots before or after. */
  ghost predicate FlagsWithin(g: Graph, g': Graph, named: set<TypeId>, roots: set<Id>) {
    forall x :: x in g' && g'[x].tombstone ==>
      (x in g && g[x].tombstone) || x in Cleared(g, named, roots) || x in Cleared(g', named, roots)
  }

  lemma {:induction false} ClearedRewritten(g: Graph, g': Graph, named: set<TypeId>, n: Id, n': Id, targets: set<Id>,
                                            roots: set<Id>)
    requires Rewrites(g, g', named, n, n', targets) && Closed(g)
    requires forall x :: x in targets && x in g ==> IsNamed(g, named, x)
    requires forall c :: c in roots ==> c in g && c !in targets
    ensures Cleared(g', named, roots) == Cleared(g, named, roots)
  {
    forall c | c in roots ensures ReachSet(g', named, c) == ReachSet(g, named, c) {
      ReachRewritten(g, g', named, n, n', targets, c);
    }
    forall x ensures x in Cleared(g', named, roots) <==> x in Cleared(g, named, roots) {
    }
  }

  lemma {:induction false} ClearedUnion(g: Graph, named: set<TypeId>, a: set<Id>, b: set<Id>)
    ensures Cleared(g, named, a + b) == Cleared(g, named, a) + Cleared(g, named, b)
  {
    forall x ensures x in Cleared(g, named, a + b) <==> x in Cleared(g, named, a) + Cleared(g, named, b) {
    }
  }

  lemma {:induction false} ClearedOne(g: Graph, named: set<TypeId>, c: Id)
    ensures Cleared(g, named, {c}) == ReachSet(g, named, c)
  {
    forall x ensures x in Cleared(g, named, {c}) <==> x in ReachSet(g, named, c) {
      assert c in {c};
    }
  }

  /** A walk moves to a graph that has its first step and the same anonymous nodes. */
  lemma {:induction false} WalkMoves(g: Graph, g': Graph, named: set<TypeId>, root: Id, p: seq<Id>)
    requires IsWalk(g, named, root, p) && p[1] in Children(g', root)
    requires forall i :: 0 < i < |p| - 1 ==> Children(g', p[i]) == Children(g, p[i]) && !IsNamed(g', named, p[i])
    ensures IsWalk(g', named, root, p)
  {
    forall i, j | 0 <= i && j == i + 1 < |p| ensures p[j] in Children(g', p[i]) {
      assert p[j] in Children(g, p[i]);
    }
  }

  lemma {:induction false} WalkOnward(g: Graph, g': Graph, named: set<TypeId>, n: Id, n': Id, targets: set<Id>,
                                      root: Id, p: seq<Id>)
    requires Rewrites(g, g', named, n, n', targets) && IsWalk(g, named, root, p) && p[1] in Children(g', root)
    requires forall x :: x in targets && x in g ==> IsNamed(g, named, x)
    ensures IsWalk(g', named, root, p)
  {
    RewritesNamed(g, g', named, n, n', targets);
    forall i | 0 < i < |p| - 1 ensures Children(g', p[i]) == Children(g, p[i]) {
      assert p[i + 1] in Children(g, p[i]);
    }
    WalkMoves(g, g', named, root, p);
  }

  /** Back to the graph before: what is reached from its rows through its rows was there. */
  lemma {:induction false} WalkBack(g: Graph, g': Graph, named: set<TypeId>, n: Id, n': Id, targets: set<Id>, root: Id,
                                    p: seq<Id>)
    requires Rewrites(g, g', named, n, n', targets) && Closed(g) && root in g
    requires IsWalk(g', named, root, p) && p[1] in Children(g, root)
    requires forall x :: x in targets && x in g ==> IsNamed(g, named, x)
    ensures IsWalk(g, named, root, p) && p[|p| - 1] in g
    decreases |p|
  {
    RewritesNamed(g, g', named, n, n', targets);
    if |p| > 2 {
      var q := p[..|p| - 1];
      assert IsWalk(g', named, root, q);
      WalkBack(g, g', named, n, n', targets, root, q);
      var y := q[|q| - 1];
      assert y == p[|p| - 2] && !IsNamed(g', named, y) && p[|p| - 1] in Children(g', y);
      forall i, j | 0 <= i && j == i + 1 < |p| ensures p[j] in Children(g, p[i]) {
        assert j < |q| ==> q[j] in Children(g, q[i]);
      }
    }
  }

  /**
   * One named row is rewritten. What was reached before from a row of the first graph is reached in the
   * first graph or still.
   */
  lemma {:induction false} ReachMoves(g0: Graph, g: Graph, g': Graph, named: set<TypeId>, n0: Id, n: Id, n': Id,
                                      targets: set<Id>, p: Id, c: Id)
    requires Closed(g0) && Rewrites(g0, g, named, n0, n, targets) && Closed(g) && Rewrites(g, g', named, n, n', {p})
    requires (forall x :: x in targets && x in g0 ==> IsNamed(g0, named, x)) && IsNamed(g, named, p) && c in g0
    requires forall d :: d in Children(g, p) ==> d in Children(g0, p) || d in Children(g', p)
    ensures ReachSet(g, named, c) <= ReachSet(g0, named, c) + ReachSet(g', named, c)
  {
    if c != p {
      ReachRewritten(g, g', named, n, n', {p}, c);
    } else {
      forall x | x in ReachSet(g, named, p) ensures x in ReachSet(g0, named, p) + ReachSet(g', named, p) {
        var w :| IsWalk(g, named, p, w) && w[|w| - 1] == x;
        assert w[1] in Children(g, w[0]);
        if w[1] in Children(g0, p) {
          WalkBack(g0, g, named, n0, n, targets, p, w);
        } else {
          WalkOnward(g, g', named, n, n', {p}, p, w);
        }
      }
    }
  }

  /** The bound stays a bound while one named row is rewritten. */
  lemma {:induction false} ClearedMoves(g0: Graph, g: Graph, g': Graph, named: set<TypeId>, n0: Id, n: Id, n': Id,
                                        targets: set<Id>, p: Id, roots: set<Id>)
    requires Closed(g0) && Rewrites(g0, g, named, n0, n, targets) && Closed(g) && Rewrites(g, g', named, n, n', {p})
    requires (forall x :: x in targets && x in g0 ==> IsNamed(g0, named, x)) && IsNamed(g, named, p)
    requires forall c :: c in roots ==> c in g0
    requires forall d :: d in Children(g, p) ==> d in Children(g0, p) || d in Children(g', p)
    ensures Cleared(g, named, roots) <= Cleared(g0, named, roots) + Cleared(g', named, roots)
  {
    forall x | x in Cleared(g, named, roots) ensures x in Cleared(g0, named, roots) + Cleared(g', named, roots) {
      var c :| c in roots && x in ReachSet(g, named, c);
      ReachMoves(g0, g, g', named, n0, n, n', targets, p, c);
    }
  }

  lemma {:induction false} WithinCompose(g0: Graph, g: Graph, g': Graph, named: set<TypeId>, roots: set<Id>,
                                         roots': set<Id>, all: set<Id>)
    requires FlagsWithin(g0, g, named, roots) && FlagsWithin(g, g', named, roots') && all == roots + roots'
    requires Cleared(g, named, all) <= Cleared(g0, named, all) + Cleared(g', named, all)
    requires forall x :: x in g0 ==> x in g
    ensures FlagsWithin(g0, g', named, all)
  {
    ClearedUnion(g0, named, roots, roots');
    ClearedUnion(g, named, roots, roots');
    ClearedUnion(g', named, roots, roots');
  }

  /** The walk reaches all anonymous nodes of a value below the root. */
  lemma {:induction false} AnonymousReached(g: Graph, named: set<TypeId>, root: Id, c: Id, t: Tree, x: Id)
    requires Reaches(g, named, root, c) && Denotes(g, named, c, t) && x in Anonymous(g, named, c, t)
    ensures Reaches(g, named, root, x)
    decreases t
  {
    if x != c && t.ListT? {
      var items := g[c].body.items;
      var i :| 0 <= i < |t.items| && x in Anonymous(g, named, items[i], t.items[i]);
      ReachesFurther(g, named, root, c, items[i]);
      AnonymousReached(g, named, root, items[i], t.items[i], x);
    } else if x != c && t.MapT? {
      var entries := g[c].body.entries;
      var k :| k in t.entries && x in Anonymous(g, named, entries[k], t.entries[k]);
      assert entries[k] in Children(g, c);
      ReachesFurther(g, named, root, c, entries[k]);
      AnonymousReached(g, named, root, entries[k], t.entries[k], x);
    }
  }

  /** A bump flags everything that the fields of the old version are made of. */
  lemma {:induction false} OldFieldsRetired(g: Graph, named: set<TypeId>, prev: Id, k: Key, t: Tree)
    requires k in EntriesOf(g, prev) && Denotes(g, named, EntriesOf(g, prev)[k], t)
    ensures Anonymous(g, named, EntriesOf(g, prev)[k], t) <= ReachSet(g, named, prev) + {prev}
  {
    var c := EntriesOf(g, prev)[k];
    assert c in Children(g, prev);
    ReachesChild(g, named, prev, c);
    AnonymousInGraph(g, named, c, t);
    forall x | x in Anonymous(g, named, c, t) ensures x in ReachSet(g, named, prev) + {prev} {
      AnonymousReached(g, named, prev, c, t, x);
    }
  }

  predicate IsHidden(g: Graph, x: Id) { x in g && g[x].tombstone }

  /**
   * An overwrite walks from the old value itself, and the walk does not flag its root. So a live
   * old value is hidden exactly when it is a reference, which has nothing to hide: the root of
   * any other value stays live.
   */
  lemma {:induction false} OverwriteHides(g: Graph, named: set<TypeId>, id: Id, t: Tree)
    requires Denotes(g, named, id, t) && forall x :: x in Anonymous(g, named, id, t) ==> !IsHidden(g, x)
    ensures (forall x :: x in Anonymous(g, named, id, t) ==> IsHidden(Flagged(g, ReachSet(g, named, id)), x))
              <==> t.RefT?
  {
    AnonymousInGraph(g, named, id, t);
    assert !t.RefT? ==> id in Anonymous(g, named, id, t);
    assert IsHidden(Flagged(g, ReachSet(g, named, id)), id) ==> IsHidden(g, id);
  }

  // ---- Timelines ---------------------------------------------------------------------------

  /** Every version but the last of its timeline is a tombstone, or is still to be flagged. */
  ghost predicate HiddenBut(g: Graph, pending: set<Id>) {
    forall x, y :: SameTimeline(g, x, y) && g[x].version < g[y].version ==> g[x].tombstone || x in pending
  }

  lemma {:induction false} NewRowAlone(g: Graph, g': Graph, named: set<TypeId>, n: Id, n': Id, targets: set<Id>, x: Id,
                                       y: Id)
    requires TimelinesBelow(g, n) && Rewrites(g, g', named, n, n', targets) && SameTimeline(g', x, y) && x !in g
    ensures x == y
  {
    assert IsNewRow(g', named, x);
    assert forall z :: z in g ==> SameRow(g[z], g'[z]);
    assert y !in g ==> IsNewRow(g', named, y);
  }

  lemma {:induction false} RewritesTimelines(g: Graph, g': Graph, named: set<TypeId>, n: Id, n': Id, targets: set<Id>,
                                             pending: set<Id>)
    requires TimelinesBelow(g, n) && Rewrites(g, g', named, n, n', targets)
    requires Numbered(g) && HiddenBut(g, pending)
    ensures Numbered(g') && HiddenBut(g', pending)
  {
    assert forall x :: x in g ==> SameRow(g[x], g'[x]);
    forall x, y | SameTimeline(g', x, y) ensures x == y || SameTimeline(g, x, y) {
      if x !in g {
        NewRowAlone(g, g', named, n, n', targets, x, y);
      } else if y !in g {
        NewRowAlone(g, g', named, n, n', targets, y, x);
      }
    }
    forall x | x in g'
      ensures 1 <= g'[x].version && (1 < g'[x].version ==> HasVersion(g', g'[x].timeline, g'[x].version - 1))
    {
      assert x !in g ==> IsNewRow(g', named, x);
      if x in g && 1 < g[x].version {
        var y :| y in g && g[y].timeline == g[x].timeline && g[y].version == g[x].version - 1;
        assert y in g' && SameRow(g[y], g'[y]);
      }
    }
  }

  /** Two heads of one timeline are one row, so a new version in the timeline of one leaves the other a head. */
  lemma {:induction false} HeadStays(g: Graph, x: Id, y: Id, fresh_: Id, row: Row)
    requires Numbered(g) && IsHead(g, x) && IsHead(g, y) && x != y && fresh_ !in g && row.timeline == g[y].timeline
    ensures IsHead(g[fresh_ := row], x)
  {
    if g[x].timeline == g[y].timeline {
      assert SameTimeline(g, x, y) && SameTimeline(g, y, x);
    }
    var g' := g[fresh_ := row];
    forall z: Id | SameTimeline(g', x, z) ensures g'[z].version <= g'[x].version {
      assert z != fresh_ ==> SameTimeline(g, x, z);
    }
  }
}
