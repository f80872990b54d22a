/**
 * Node rows, what a row unfolds to, and what the tombstone walk reaches
 * (packages/core/src/db.ts, packages/core/src/schema.ts).
 *
 * A map whose type is a named type is a node of its own: other nodes refer to
 * it. All other nodes are anonymous and belong to the value that holds them.
 */
module GraphModel {
  import opened Common

  type Id = nat
  type TypeId = string
  type Key = string

  datatype Body =
    | SymbolBody(value: string)
    | MeaningBody(text: string)
    | ListBody(items: seq<Id>)
    | MapBody(typeId: TypeId, entries: map<Key, Id>)

  datatype Row = Row(body: Body, timeline: Id, version: nat, tombstone: bool)

  type Graph = map<Id, Row>

  /** What a named map type declares: its keys, those that are not optional, and withHistory. */
  datatype Schema = Schema(fields: set<Key>, required: set<Key>, history: bool)

  function ChildrenOf(b: Body): set<Id> {
    match b
    case ListBody(items) => set c | c in items
    case MapBody(_, entries) => entries.Values
    case _ => {}
  }

  function Children(g: Graph, id: Id): set<Id> { if id in g then ChildrenOf(g[id].body) else {} }

  /** isNamedTypeMap: a map whose type is registered under a name. */
  predicate IsNamed(g: Graph, named: set<TypeId>, id: Id) {
    id in g && g[id].body.MapBody? && g[id].body.typeId in named
  }

  /** Every reference leads to a row, as the foreign keys demand. */
  ghost predicate Closed(g: Graph) { forall id, c :: id in g && c in Children(g, id) ==> c in g }

  // ---- Unfolding ------------------------------------------------------------------

  /**
   * A value as it is loaded: anonymous nodes expanded, named maps as references. A value that
   * is written can also refer to an entry of its batch (`$ref`), and it can refer to a row in a
   * place whose type takes no reference (`$id`), where the program checks only that the row is there.
   */
  datatype Tree =
    | SymbolT(value: string)
    | MeaningT(text: string)
    | ListT(items: seq<Tree>)
    | MapT(typeId: TypeId, entries: map<Key, Tree>)
    | RefT(id: Id)
    | EntryT(index: nat)
    | AliasT(row: Id)

  /** The node unfolds to the tree. A node on an anonymous cycle unfolds to none. */
  ghost predicate Denotes(g: Graph, named: set<TypeId>, id: Id, t: Tree)
    decreases t
  {
    match t
    case RefT(x) => id == x && IsNamed(g, named, id)
    case EntryT(_) => false
    case AliasT(_) => false
    case SymbolT(v) => id in g && g[id].body == SymbolBody(v)
    case MeaningT(v) => id in g && g[id].body == MeaningBody(v)
    case ListT(ts) =>
      && id in g && g[id].body.ListBody? && |g[id].body.items| == |ts|
      && forall i :: 0 <= i < |ts| ==> Denotes(g, named, g[id].body.items[i], ts[i])
    case MapT(ty, es) =>
      && id in g && g[id].body.MapBody? && g[id].body.typeId == ty && ty !in named
      && g[id].body.entries.Keys == es.Keys
      && forall k :: k in es ==> Denotes(g, named, g[id].body.entries[k], es[k])
  }

  /** The anonymous nodes the unfolding visits. */
  ghost function Anonymous(g: Graph, named: set<TypeId>, id: Id, t: Tree): set<Id>
    requires Denotes(g, named, id, t)
    decreases t
  {
    match t
    case RefT(_) => {}
    case EntryT(_) => {}
    case AliasT(_) => {}
    case SymbolT(_) => {id}
    case MeaningT(_) => {id}
    case ListT(ts) => {id} + set i, x | 0 <= i < |ts| && x in Anonymous(g, named, g[id].body.items[i], ts[i]) :: x
    case MapT(_, es) => {id} + set k, x | k in es && x in Anonymous(g, named, g[id].body.entries[k], es[k]) :: x
  }

  /** The named maps that a loaded value refers to. */
  function Refs(t: Tree): set<Id> {
    match t
    case RefT(x) => {x}
    case ListT(ts) => set i, x | 0 <= i < |ts| && x in Refs(ts[i]) :: x
    case MapT(_, es) => set k, x | k in es && x in Refs(es[k]) :: x
    case _ => {}
  }

  /** A node unfolds to one tree only. */
  lemma {:induction false} DenotesUnique(g: Graph, named: set<TypeId>, id: Id, t: Tree, t': Tree)
    requires Denotes(g, named, id, t) && Denotes(g, named, id, t')
    ensures t == t'
    decreases t
  {
    if t.ListT? {
      forall i | 0 <= i < |t.items| ensures t.items[i] == t'.items[i] {
        DenotesUnique(g, named, g[id].body.items[i], t.items[i], t'.items[i]);
      }
      assert t.items == t'.items;
    } else if t.MapT? {
      forall k | k in t.entries ensures t.entries[k] == t'.entries[k] {
        DenotesUnique(g, named, g[id].body.entries[k], t.entries[k], t'.entries[k]);
      }
      assert t.entries == t'.entries;
    }
  }

  /** The unfolding depends on the bodies of its anonymous nodes and on which nodes are named, and on no flag. */
  lemma {:induction false} DenotesFrame(g: Graph, g': Graph, named: set<TypeId>, id: Id, t: Tree)
    requires Denotes(g, named, id, t)
    requires forall x :: x in Anonymous(g, named, id, t) ==> x in g' && x in g && g'[x].body == g[x].body
    requires forall x :: IsNamed(g, named, x) ==> IsNamed(g', named, x)
    ensures Denotes(g', named, id, t)
    ensures Anonymous(g', named, id, t) == Anonymous(g, named, id, t)
    decreases t
  {
    if t.ListT? {
      assert id in Anonymous(g, named, id, t);
      var items := g[id].body.items;
      forall i | 0 <= i < |t.items|
        ensures Denotes(g', named, items[i], t.items[i])
        ensures Anonymous(g', named, items[i], t.items[i]) == Anonymous(g, named, items[i], t.items[i])
      {
        assert forall x :: x in Anonymous(g, named, items[i], t.items[i]) ==> x in Anonymous(g, named, id, t);
        DenotesFrame(g, g', named, items[i], t.items[i]);
      }
    } else if t.MapT? {
      assert id in Anonymous(g, named, id, t);
      var entries := g[id].body.entries;
      forall k | k in t.entries
        ensures Denotes(g', named, entries[k], t.entries[k])
        ensures Anonymous(g', named, entries[k], t.entries[k]) == Anonymous(g, named, entries[k], t.entries[k])
      {
        assert forall x :: x in Anonymous(g, named, entries[k], t.entries[k]) ==> x in Anonymous(g, named, id, t);
        DenotesFrame(g, g', named, entries[k], t.entries[k]);
      }
    } else if !t.RefT? {
      assert id in Anonymous(g, named, id, t);
    }
  }

  /** The anonymous nodes of an unfolding are rows of the graph, and none of them is named. */
  lemma {:induction false} AnonymousInGraph(g: Graph, named: set<TypeId>, id: Id, t: Tree)
    requires Denotes(g, named, id, t)
    ensures forall x :: x in Anonymous(g, named, id, t) ==> x in g && !IsNamed(g, named, x)
    decreases t
  {
    if t.ListT? {
      forall i | 0 <= i < |t.items|
        ensures forall x :: x in Anonymous(g, named, g[id].body.items[i], t.items[i]) ==>
                  x in g && !IsNamed(g, named, x)
      {
        AnonymousInGraph(g, named, g[id].body.items[i], t.items[i]);
      }
    } else if t.MapT? {
      forall k | k in t.entries
        ensures forall x :: x in Anonymous(g, named, g[id].body.entries[k], t.entries[k]) ==>
                  x in g && !IsNamed(g, named, x)
      {
        AnonymousInGraph(g, named, g[id].body.entries[k], t.entries[k]);
      }
    }
  }

  /** Rows are only added: what was there stays as it was. */
  predicate Grows(g: Graph, g': Graph) { forall id :: id in g ==> id in g' && g'[id] == g[id] }

  lemma {:induction false} DenotesGrows(g: Graph, g': Graph, named: set<TypeId>, id: Id, t: Tree)
    requires Denotes(g, named, id, t) && Grows(g, g')
    ensures Denotes(g', named, id, t)
    ensures Anonymous(g', named, id, t) == Anonymous(g, named, id, t)
  {
    AnonymousInGraph(g, named, id, t);
    DenotesFrame(g, g', named, id, t);
  }

  // ---- Reachability ----------------------------------------------------------------

  /** A walk along references from the root whose interior nodes are not named maps. */
  ghost predicate IsWalk(g: Graph, named: set<TypeId>, root: Id, p: seq<Id>) {
    && |p| >= 2
    && p[0] == root
    && (forall i, j :: 0 <= i && j == i + 1 < |p| ==> p[j] in Children(g, p[i]))
    && (forall i :: 0 < i < |p| - 1 ==> !IsNamed(g, named, p[i]))
  }

  ghost predicate Reaches(g: Graph, named: set<TypeId>, root: Id, x: Id) {
    exists p :: IsWalk(g, named, root, p) && p[|p| - 1] == x
  }

  lemma {:induction false} ReachesChild(g: Graph, named: set<TypeId>, root: Id, c: Id)
    requires c in Children(g, root)
    ensures Reaches(g, named, root, c)
  {
    assert IsWalk(g, named, root, [root, c]);
  }

  lemma {:induction false} ReachesFurther(g: Graph, named: set<TypeId>, root: Id, x: Id, c: Id)
    requires Reaches(g, named, root, x) && !IsNamed(g, named, x) && c in Children(g, x)
    ensures Reaches(g, named, root, c)
  {
    var p :| IsWalk(g, named, root, p) && p[|p| - 1] == x;
    assert IsWalk(g, named, root, p + [c]);
  }

  /** A set that holds the root's children and the children of its unnamed members holds all that is reached. */
  lemma {:induction false} ReachedInClosure(g: Graph, named: set<TypeId>, root: Id, s: set<Id>, p: seq<Id>)
    requires IsWalk(g, named, root, p)
    requires forall c :: c in Children(g, root) ==> c in s
    requires forall x, c :: x in s && !IsNamed(g, named, x) && c in Children(g, x) ==> c in s
    ensures p[|p| - 1] in s
    decreases |p|
  {
    if |p| > 2 {
      var q := p[..|p| - 1];
      assert IsWalk(g, named, root, q);
      ReachedInClosure(g, named, root, s, q);
      assert p[|p| - 1] in Children(g, p[|p| - 2]);
    } else {
      assert p[1] in Children(g, p[0]);
    }
  }

  /** The graphs agree on what a walk from the root goes through. */
  ghost predicate SameInterior(g: Graph, g': Graph, named: set<TypeId>, root: Id) {
    && (forall x :: x in g ==> x in g' && IsNamed(g', named, x) == IsNamed(g, named, x))
    && (forall x :: x in g && (x == root || !IsNamed(g, named, x)) ==> Children(g', x) == Children(g, x))
  }

  lemma {:induction false} WalkMembers(g: Graph, named: set<TypeId>, root: Id, p: seq<Id>)
    requires Closed(g) && root in g && IsWalk(g, named, root, p)
    ensures forall i :: 0 <= i < |p| ==> p[i] in g
    decreases |p|
  {
    assert p[|p| - 1] in Children(g, p[|p| - 2]);
    if |p| > 2 {
      var q := p[..|p| - 1];
      assert IsWalk(g, named, root, q);
      WalkMembers(g, named, root, q);
      assert forall i :: 0 <= i < |q| ==> p[i] == q[i];
    }
  }

  lemma {:induction false} WalkStays(g: Graph, g': Graph, named: set<TypeId>, root: Id, p: seq<Id>)
    requires Closed(g) && SameInterior(g, g', named, root) && root in g && IsWalk(g', named, root, p)
    ensures IsWalk(g, named, root, p)
    decreases |p|
  {
    if |p| > 2 {
      var q := p[..|p| - 1];
      assert IsWalk(g', named, root, q);
      WalkStays(g, g', named, root, q);
      WalkMembers(g, named, root, q);
      assert forall i :: 0 <= i < |q| ==> p[i] == q[i];
    }
    assert p[|p| - 1] in Children(g', p[|p| - 2]);
    assert forall i, j :: 0 <= i && j == i + 1 < |p| ==> p[j] in Children(g, p[i]);
  }

  /** Rows that are added, and named rows that are rewritten, change nothing for the walk from another row. */
  lemma {:induction false} ReachesStays(g: Graph, g': Graph, named: set<TypeId>, root: Id, x: Id)
    requires Closed(g) && SameInterior(g, g', named, root) && root in g
    ensures Reaches(g', named, root, x) <==> Reaches(g, named, root, x)
    ensures Reaches(g, named, root, x) ==> x in g
  {
    if Reaches(g', named, root, x) {
      var p :| IsWalk(g', named, root, p) && p[|p| - 1] == x;
      WalkStays(g, g', named, root, p);
    }
    if Reaches(g, named, root, x) {
      var p :| IsWalk(g, named, root, p) && p[|p| - 1] == x;
      WalkMembers(g, named, root, p);
      assert forall i, j :: 0 <= i && j == i + 1 < |p| ==> p[j] in Children(g', p[i]);
      assert IsWalk(g', named, root, p);
    }
  }

  // ---- Flags -------------------------------------------------------------------------

  function Flagged(g: Graph, s: set<Id>): Graph {
    map id | id in g :: if id in s then g[id].(tombstone := true) else g[id]
  }

  /** The rows the tombstone walk flags. */
  ghost function ReachSet(g: Graph, named: set<TypeId>, root: Id): set<Id> {
    set x | x in g && x != root && Reaches(g, named, root, x)
  }

  lemma {:induction false} ReachSetStays(g: Graph, g': Graph, named: set<TypeId>, root: Id)
    requires Closed(g) && SameInterior(g, g', named, root) && root in g
    ensures ReachSet(g', named, root) == ReachSet(g, named, root)
  {
    forall x ensures x in ReachSet(g', named, root) <==> x in ReachSet(g, named, root) {
      ReachesStays(g, g', named, root, x);
    }
  }

  lemma {:induction false} FlaggedKeepsBodies(g: Graph, s: set<Id>, named: set<TypeId>)
    ensures forall id :: id in g ==> Flagged(g, s)[id].body == g[id].body
    ensures forall id :: Children(Flagged(g, s), id) == Children(g, id)
    ensures forall id :: IsNamed(Flagged(g, s), named, id) == IsNamed(g, named, id)
  {
  }

  /** Flags change no unfolding. */
  lemma {:induction false} DenotesFlagged(g: Graph, s: set<Id>, named: set<TypeId>, id: Id, t: Tree)
    requires Denotes(g, named, id, t)
    ensures Denotes(Flagged(g, s), named, id, t)
    ensures Anonymous(Flagged(g, s), named, id, t) == Anonymous(g, named, id, t)
  {
    AnonymousInGraph(g, named, id, t);
    FlaggedKeepsBodies(g, s, named);
    DenotesFrame(g, Flagged(g, s), named, id, t);
  }

  // ---- Timelines -----------------------------------------------------------------------

  predicate SameTimeline(g: Graph, x: Id, y: Id) { x in g && y in g && g[x].timeline == g[y].timeline }

  /** The versions of each timeline are 1..n, each once. */
  ghost predicate Numbered(g: Graph) {
    && (forall x :: x in g ==> 1 <= g[x].version)
    && (forall x, y :: SameTimeline(g, x, y) && g[x].version == g[y].version ==> x == y)
    && (forall x :: x in g && 1 < g[x].version ==> HasVersion(g, g[x].timeline, g[x].version - 1))
  }

  predicate HasVersion(g: Graph, timeline: Id, version: nat) {
    exists y :: y in g && g[y].timeline == timeline && g[y].version == version
  }

  /** Every version but the last of its timeline is a tombstone. */
  ghost predicate OldVersionsHidden(g: Graph) {
    forall x, y :: SameTimeline(g, x, y) && g[x].version < g[y].version ==> g[x].tombstone
  }

  ghost predicate IsHead(g: Graph, id: Id) {
    id in g && forall y :: SameTimeline(g, id, y) ==> g[y].version <= g[id].version
  }

  /** In a numbered graph every number up to a version is taken. */
  lemma {:induction false} VersionsBelow(g: Graph, id: Id, v: nat)
    requires Numbered(g) && id in g && 1 <= v <= g[id].version
    ensures HasVersion(g, g[id].timeline, v)
    decreases g[id].version - v
  {
    if v < g[id].version {
      VersionsBelow(g, id, v + 1);
      var y :| y in g && g[y].timeline == g[id].timeline && g[y].version == v + 1;
    } else {
      assert id in g && g[id].timeline == g[id].timeline;
    }
  }

  /** The row a bump adds: the next version of the timeline. */
  function BumpRow(g: Graph, id: Id, body: Body, tombstone: bool): Row
    requires id in g
  {
    Row(body, g[id].timeline, g[id].version + 1, tombstone)
  }

  /**
   * A bump keeps the numbering exactly when it targets the head of its timeline. The program
   * does not check this.
   */
  lemma {:induction false} BumpNumbered(g: Graph, id: Id, fresh_: Id, body: Body, tombstone: bool)
    requires Numbered(g) && id in g && fresh_ !in g
    ensures Numbered(g[fresh_ := BumpRow(g, id, body, tombstone)]) <==> IsHead(g, id)
  {
    if IsHead(g, id) {
      HeadBumpNumbered(g, id, fresh_, body, tombstone);
    } else {
      var y :| SameTimeline(g, id, y) && g[y].version > g[id].version;
      VersionsBelow(g, y, g[id].version + 1);
      var z :| z in g && g[z].timeline == g[y].timeline && g[z].version == g[id].version + 1;
      assert SameTimeline(g[fresh_ := BumpRow(g, id, body, tombstone)], fresh_, z);
    }
  }

  lemma {:induction false} HeadBumpNumbered(g: Graph, id: Id, fresh_: Id, body: Body, tombstone: bool)
    requires Numbered(g) && IsHead(g, id) && fresh_ !in g
    ensures Numbered(g[fresh_ := BumpRow(g, id, body, tombstone)])
  {
    var g' := g[fresh_ := BumpRow(g, id, body, tombstone)];
    forall x | x in g' && 1 < g'[x].version ensures HasVersion(g', g'[x].timeline, g'[x].version - 1) {
      if x == fresh_ {
        assert id in g' && g'[id].version == g'[x].version - 1;
      } else {
        var y :| y in g && g[y].timeline == g[x].timeline && g[y].version == g[x].version - 1;
        assert y in g' && g'[y] == g[y];
      }
    }
    forall x, y | SameTimeline(g', x, y) && g'[x].version == g'[y].version ensures x == y {
      if x != fresh_ && y != fresh_ {
        assert SameTimeline(g, x, y);
      } else if x != fresh_ {
        assert SameTimeline(g, id, x);
      } else if y != fresh_ {
        assert SameTimeline(g, id, y);
      }
    }
  }

  lemma {:induction false} FreshTimeline(g: Graph, id: Id, body: Body)
    requires Numbered(g) && id !in g && forall x :: x in g ==> g[x].timeline != id
    ensures Numbered(g[id := Row(body, id, 1, false)])
    ensures OldVersionsHidden(g) ==> OldVersionsHidden(g[id := Row(body, id, 1, false)])
  {
    var g' := g[id := Row(body, id, 1, false)];
    forall x | x in g' && 1 < g'[x].version ensures HasVersion(g', g'[x].timeline, g'[x].version - 1) {
      var y :| y in g && g[y].timeline == g[x].timeline && g[y].version == g[x].version - 1;
      assert y in g' && g'[y] == g[y];
    }
    assert forall x, y :: SameTimeline(g', x, y) ==> (x == id <==> y == id);
    assert forall x, y :: SameTimeline(g', x, y) && x != id ==> SameTimeline(g, x, y);
  }
}
