/**
 * What the tombstone walk flags, read off the values below its root
 * (packages/core/src/db.ts).
 */
module GraphReach {
  import opened Common
  import opened GraphModel
  import opened GraphGrowth
  import opened GraphRewrites

  /** The rows a value is made of, with the named maps it refers to. */
  ghost function Held(g: Graph, named: set<TypeId>, id: Id, t: Tree): set<Id>
    requires Denotes(g, named, id, t)
  {
    Anonymous(g, named, id, t) + Refs(t)
  }

  lemma {:induction false} RefsInGraph(g: Graph, named: set<TypeId>, id: Id, t: Tree, x: Id)
    requires Denotes(g, named, id, t) && x in Refs(t)
    ensures IsNamed(g, named, x)
    decreases t
  {
    if t.ListT? {
      var i :| 0 <= i < |t.items| && x in Refs(t.items[i]);
      RefsInGraph(g, named, g[id].body.items[i], t.items[i], x);
    } else if t.MapT? {
      var k :| k in t.entries && x in Refs(t.entries[k]);
      RefsInGraph(g, named, g[id].body.entries[k], t.entries[k], x);
    }
  }

  lemma {:induction false} RefsReached(g: Graph, named: set<TypeId>, root: Id, c: Id, t: Tree, x: Id)
    requires Reaches(g, named, root, c) && Denotes(g, named, c, t) && x in Refs(t)
    ensures Reaches(g, named, root, x)
    decreases t
  {
    if t.ListT? {
      var items := g[c].body.items;
      var i :| 0 <= i < |t.items| && x in Refs(t.items[i]);
      ReachesFurther(g, named, root, c, items[i]);
      RefsReached(g, named, root, items[i], t.items[i], x);
    } else if t.MapT? {
      var entries := g[c].body.entries;
      var k :| k in t.entries && x in Refs(t.entries[k]);
      assert entries[k] in Children(g, c);
      ReachesFurther(g, named, root, c, entries[k]);
      RefsReached(g, named, root, entries[k], t.entries[k], x);
    }
  }

  /** The child of a row that a value is made of is held by the value too. */
  lemma {:induction false} HeldClosed(g: Graph, named: set<TypeId>, id: Id, t: Tree, y: Id, d: Id)
    requires Denotes(g, named, id, t) && y in Anonymous(g, named, id, t) && d in Children(g, y)
    ensures d in Held(g, named, id, t)
    decreases t
  {
    if t.ListT? {
      var items := g[id].body.items;
      if y == id {
        var i :| 0 <= i < |items| && items[i] == d;
        HeldRoot(g, named, d, t.items[i]);
      } else {
        var i :| 0 <= i < |t.items| && y in Anonymous(g, named, items[i], t.items[i]);
        HeldClosed(g, named, items[i], t.items[i], y, d);
      }
    } else if t.MapT? {
      var entries := g[id].body.entries;
      if y == id {
        var k :| k in entries && entries[k] == d;
        HeldRoot(g, named, d, t.entries[k]);
      } else {
        var k :| k in t.entries && y in Anonymous(g, named, entries[k], t.entries[k]);
        HeldClosed(g, named, entries[k], t.entries[k], y, d);
      }
    }
  }

  lemma {:induction false} HeldRoot(g: Graph, named: set<TypeId>, id: Id, t: Tree)
    requires Denotes(g, named, id, t)
    ensures id in Held(g, named, id, t)
  {
  }

  ghost predicate HeldAt(g: Graph, named: set<TypeId>, d: Id, x: Id) {
    Unfolds(g, named, d) && x in Held(g, named, d, Unfolding(g, named, d))
  }

  /** A child of the root holds `x`. */
  ghost predicate HeldBelow(g: Graph, named: set<TypeId>, root: Id, x: Id) {
    exists d :: d in Children(g, root) && HeldAt(g, named, d, x)
  }

  lemma {:induction false} HeldInGraph(g: Graph, named: set<TypeId>, d: Id, x: Id)
    requires HeldAt(g, named, d, x)
    ensures x in g
  {
    AnonymousInGraph(g, named, d, Unfolding(g, named, d));
    if x in Refs(Unfolding(g, named, d)) { RefsInGraph(g, named, d, Unfolding(g, named, d), x); }
  }

  lemma {:induction false} HeldReached(g: Graph, named: set<TypeId>, root: Id, d: Id, x: Id)
    requires d in Children(g, root) && HeldAt(g, named, d, x)
    ensures Reaches(g, named, root, x)
  {
    var t := Unfolding(g, named, d);
    ReachesChild(g, named, root, d);
    if x in Refs(t) {
      RefsReached(g, named, root, d, t, x);
    } else {
      AnonymousReached(g, named, root, d, t, x);
    }
  }

  lemma {:induction false} HeldStep(g: Graph, named: set<TypeId>, d: Id, y: Id, c: Id)
    requires HeldAt(g, named, d, y) && !IsNamed(g, named, y) && c in Children(g, y)
    ensures HeldAt(g, named, d, c)
  {
    var t := Unfolding(g, named, d);
    if y in Refs(t) { RefsInGraph(g, named, d, t, y); }
    HeldClosed(g, named, d, t, y, c);
  }

  lemma {:induction false} ReachedIsHeld(g: Graph, named: set<TypeId>, root: Id, p: seq<Id>)
    requires Whole(g, named) && root in g && IsWalk(g, named, root, p)
    ensures HeldBelow(g, named, root, p[|p| - 1])
  {
    var s := set x | x in g && HeldBelow(g, named, root, x);
    forall c | c in Children(g, root) ensures c in s {
      HeldRoot(g, named, c, Unfolding(g, named, c));
      assert HeldAt(g, named, c, c);
    }
    forall x, c | x in s && !IsNamed(g, named, x) && c in Children(g, x) ensures c in s {
      var d :| d in Children(g, root) && HeldAt(g, named, d, x);
      HeldStep(g, named, d, x, c);
    }
    ReachedInClosure(g, named, root, s, p);
  }

  /** The walk flags exactly what the values below its root are made of and the named maps they refer to. */
  lemma {:induction false} ReachIsHeld(g: Graph, named: set<TypeId>, root: Id, x: Id)
    requires Whole(g, named) && root in g
    ensures x in ReachSet(g, named, root) <==> x != root && HeldBelow(g, named, root, x)
  {
    if x in ReachSet(g, named, root) {
      var p :| IsWalk(g, named, root, p) && p[|p| - 1] == x;
      ReachedIsHeld(g, named, root, p);
    }
    if HeldBelow(g, named, root, x) {
      var d :| d in Children(g, root) && HeldAt(g, named, d, x);
      HeldInGraph(g, named, d, x);
      HeldReached(g, named, root, d, x);
    }
  }

  // ---- Named maps ------------------------------------------------------------------------------

  /** The named maps that the fields of a named map refer to, or that another value refers to. */
  ghost function RefsBelow(g: Graph, named: set<TypeId>, root: Id): set<Id>
    requires Whole(g, named) && root in g
  {
    if IsNamed(g, named, root) then
      var fs := FieldTrees(g, named, root);
      set k, x | k in fs && x in Refs(fs[k]) :: x
    else Refs(Unfolding(g, named, root))
  }

  lemma {:induction false} RefsBelowListed(g: Graph, named: set<TypeId>, root: Id, x: Id)
    requires Whole(g, named) && root in g
    ensures x in RefsBelow(g, named, root) <==> exists d :: d in Children(g, root) && x in Refs(Unfolding(g, named, d))
  {
    if IsNamed(g, named, root) {
      FieldsListed(g, named, root, x);
    } else {
      PartsListed(g, named, root, Unfolding(g, named, root), x);
    }
  }

  lemma {:induction false} FieldsListed(g: Graph, named: set<TypeId>, root: Id, x: Id)
    requires Whole(g, named) && IsNamed(g, named, root)
    ensures x in RefsBelow(g, named, root) <==> exists d :: d in Children(g, root) && x in Refs(Unfolding(g, named, d))
  {
    var entries, fs := g[root].body.entries, FieldTrees(g, named, root);
    forall k | k in fs ensures entries[k] in Children(g, root) && fs[k] == Unfolding(g, named, entries[k]) {
      DenotesUnique(g, named, entries[k], fs[k], Unfolding(g, named, entries[k]));
    }
    if d :| d in Children(g, root) && x in Refs(Unfolding(g, named, d)) {
      var k :| k in entries && entries[k] == d;
      assert k in fs && x in Refs(fs[k]);
    }
  }

  lemma {:induction false} PartsListed(g: Graph, named: set<TypeId>, id: Id, t: Tree, x: Id)
    requires Whole(g, named) && id in g && Denotes(g, named, id, t) && !t.RefT?
    ensures x in Refs(t) <==> exists d :: d in Children(g, id) && x in Refs(Unfolding(g, named, d))
  {
    if t.ListT? {
      var items := g[id].body.items;
      forall i | 0 <= i < |items| ensures items[i] in Children(g, id) && t.items[i] == Unfolding(g, named, items[i]) {
        DenotesUnique(g, named, items[i], t.items[i], Unfolding(g, named, items[i]));
      }
      if d :| d in Children(g, id) && x in Refs(Unfolding(g, named, d)) {
        var i :| 0 <= i < |items| && items[i] == d;
        assert x in Refs(t.items[i]);
      }
    } else if t.MapT? {
      var entries := g[id].body.entries;
      forall k | k in entries ensures entries[k] in Children(g, id) && t.entries[k] == Unfolding(g, named, entries[k]) {
        DenotesUnique(g, named, entries[k], t.entries[k], Unfolding(g, named, entries[k]));
      }
      if d :| d in Children(g, id) && x in Refs(Unfolding(g, named, d)) {
        var k :| k in entries && entries[k] == d;
        assert x in Refs(t.entries[k]);
      }
    }
  }

  /** Which named maps the walk flags: those that the fields below its root refer to, at any depth. */
  lemma {:induction false} NamedReached(g: Graph, named: set<TypeId>, root: Id, x: Id)
    requires Whole(g, named) && root in g && IsNamed(g, named, x)
    ensures x in ReachSet(g, named, root) <==> x != root && x in RefsBelow(g, named, root)
  {
    ReachIsHeld(g, named, root, x);
    RefsBelowListed(g, named, root, x);
    if HeldBelow(g, named, root, x) {
      var d :| d in Children(g, root) && HeldAt(g, named, d, x);
      AnonymousInGraph(g, named, d, Unfolding(g, named, d));
    }
    if d :| d in Children(g, root) && x in Refs(Unfolding(g, named, d)) {
      assert HeldAt(g, named, d, x);
    }
  }

  /**
   * The comment on the walk says that it does not touch other named maps. It leaves them all alone
   * exactly when no value below the root refers to one, and it flags exactly those referred to.
   * For a bump the root is the old version, for an overwrite it is the old value.
   */
  lemma {:induction false} NamedReferenceFlagged(g: Graph, named: set<TypeId>, root: Id)
    requires Whole(g, named) && root in g
    ensures (exists x :: x in ReachSet(g, named, root) && IsNamed(g, named, x))
       <==> (exists y :: y in RefsBelow(g, named, root) && y != root)
  {
    if x :| x in ReachSet(g, named, root) && IsNamed(g, named, x) {
      NamedReached(g, named, root, x);
    }
    if y :| y in RefsBelow(g, named, root) && y != root {
      RefsBelowNamed(g, named, root, y);
      NamedReached(g, named, root, y);
    }
  }

  lemma {:induction false} RefsBelowNamed(g: Graph, named: set<TypeId>, root: Id, x: Id)
    requires Whole(g, named) && root in g && x in RefsBelow(g, named, root)
    ensures IsNamed(g, named, x)
  {
    RefsBelowListed(g, named, root, x);
    var d :| d in Children(g, root) && x in Refs(Unfolding(g, named, d));
    RefsInGraph(g, named, d, Unfolding(g, named, d), x);
  }

  /**
   * When the old value of an overwrite is a reference, the walk starts at the referenced map, and
   * flags something of it exactly when the map holds anything but itself. All its fields are hit.
   */
  lemma {:induction false} OverwriteFlagsReferenced(g: Graph, named: set<TypeId>, id: Id)
    requires Closed(g) && IsNamed(g, named, id)
    ensures Children(g, id) - {id} <= ReachSet(g, named, id)
    ensures ReachSet(g, named, id) == {} <==> Children(g, id) <= {id}
  {
    forall c | c in Children(g, id) && c != id ensures c in ReachSet(g, named, id) {
      ReachesChild(g, named, id, c);
    }
    if Children(g, id) <= {id} {
      forall x | x in ReachSet(g, named, id) ensures false {
        var p :| IsWalk(g, named, id, p) && p[|p| - 1] == x;
        ReachedInClosure(g, named, id, {id}, p);
      }
    }
  }
}
