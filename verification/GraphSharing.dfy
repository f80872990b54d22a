/**
 * Rows that two values share. In a place whose type takes no reference the program takes
 * any row that is there, and does not copy it (packages/core/src/db.ts).
 */
module GraphSharing {
  import opened Common
  import opened GraphModel
  import opened GraphGrowth
  import opened GraphRewrites
  import opened GraphReach

  /** The value as it is loaded: a shared row shows what it unfolds to. */
  ghost function Loaded(g: Graph, named: set<TypeId>, t: Tree): Tree
    decreases t
  {
    match t
    case AliasT(x) => if Unfolds(g, named, x) then Unfolding(g, named, x) else t
    case ListT(ts) => ListT(seq(|ts|, i requires 0 <= i < |ts| => Loaded(g, named, ts[i])))
    case MapT(ty, es) => MapT(ty, map k | k in es :: Loaded(g, named, es[k]))
    case _ => t
  }

  /** A value that was made unfolds to what was written, shared rows expanded. */
  lemma {:induction false} MadeUnfolds(g: Graph, named: set<TypeId>, id: Id, t: Tree, from: Id, live: bool)
    requires Whole(g, named) && Made(g, named, id, t, from, live)
    ensures Denotes(g, named, id, Loaded(g, named, t))
    decreases t
  {
    if t.ListT? {
      forall i | 0 <= i < |t.items| ensures Denotes(g, named, g[id].body.items[i], Loaded(g, named, t.items[i])) {
        MadeUnfolds(g, named, g[id].body.items[i], t.items[i], from, live);
      }
    } else if t.MapT? {
      forall k | k in t.entries ensures Denotes(g, named, g[id].body.entries[k], Loaded(g, named, t.entries[k])) {
        MadeUnfolds(g, named, g[id].body.entries[k], t.entries[k], from, live);
      }
    }
  }

  /** The references that are not checked lead to named maps. */
  ghost predicate AliasesNamed(g: Graph, named: set<TypeId>, t: Tree)
    decreases t
  {
    match t
    case AliasT(x) => IsNamed(g, named, x)
    case ListT(ts) => forall i :: 0 <= i < |ts| ==> AliasesNamed(g, named, ts[i])
    case MapT(_, es) => forall k :: k in es ==> AliasesNamed(g, named, es[k])
    case _ => true
  }

  ghost predicate RowsOwn(g: Graph, named: set<TypeId>, id: Id, t: Tree, from: Id, live: bool)
    requires Denotes(g, named, id, t)
  {
    forall x :: x in Anonymous(g, named, id, t) ==> IsOwn(g, x, from, live)
  }

  lemma {:induction false} OwnIfNamed(g: Graph, named: set<TypeId>, id: Id, t: Tree, from: Id, live: bool)
    requires Whole(g, named) && Made(g, named, id, t, from, live) && AliasesNamed(g, named, t)
    ensures Denotes(g, named, id, Loaded(g, named, t)) && RowsOwn(g, named, id, Loaded(g, named, t), from, live)
    decreases t
  {
    MadeUnfolds(g, named, id, t, from, live);
    var u := Loaded(g, named, t);
    forall x | x in Anonymous(g, named, id, u) ensures IsOwn(g, x, from, live) {
      if t.AliasT? {
        DenotesUnique(g, named, id, u, RefT(id));
      } else if t.ListT? && x != id {
        var i :| 0 <= i < |u.items| && x in Anonymous(g, named, g[id].body.items[i], u.items[i]);
        OwnIfNamed(g, named, g[id].body.items[i], t.items[i], from, live);
      } else if t.MapT? && x != id {
        var k :| k in u.entries && x in Anonymous(g, named, g[id].body.entries[k], u.entries[k]);
        OwnIfNamed(g, named, g[id].body.entries[k], t.entries[k], from, live);
      }
    }
  }

  /** An unchecked reference to an anonymous row: the row belongs to the value, and was there before. */
  lemma {:induction false} SharedIfNot(g0: Graph, g: Graph, named: set<TypeId>, id: Id, t: Tree, from: Id, live: bool)
    returns (x: Id)
    requires Whole(g, named) && Made(g, named, id, t, from, live) && Linked(g0, from, t) && !AliasesNamed(g, named, t)
    ensures Denotes(g, named, id, Loaded(g, named, t))
    ensures x in Anonymous(g, named, id, Loaded(g, named, t)) && x < from && x in g0 && !IsNamed(g, named, x)
    decreases t
  {
    MadeUnfolds(g, named, id, t, from, live);
    match t
    case AliasT(_) =>
      x := id;
    case ListT(ts) =>
      var i :| 0 <= i < |ts| && !AliasesNamed(g, named, ts[i]);
      x := SharedIfNot(g0, g, named, g[id].body.items[i], ts[i], from, live);
      assert Loaded(g, named, t).items[i] == Loaded(g, named, ts[i]);
    case MapT(_, es) =>
      var k :| k in es && !AliasesNamed(g, named, es[k]);
      x := SharedIfNot(g0, g, named, g[id].body.entries[k], es[k], from, live);
      assert Loaded(g, named, t).entries[k] == Loaded(g, named, es[k]);
  }

  /**
   * A value that was written is made of rows of its own exactly when its unchecked references lead to
   * named maps.
   */
  lemma {:induction false} OwnRowsWhen(g: Graph, named: set<TypeId>, id: Id, t: Tree, from: Id, live: bool)
    requires Whole(g, named) && Made(g, named, id, t, from, live) && Linked(g, from, t)
    ensures Denotes(g, named, id, Loaded(g, named, t))
    ensures RowsOwn(g, named, id, Loaded(g, named, t), from, live) <==> AliasesNamed(g, named, t)
  {
    if AliasesNamed(g, named, t) {
      OwnIfNamed(g, named, id, t, from, live);
    } else {
      var x := SharedIfNot(g, g, named, id, t, from, live);
    }
  }

  /** Some node from before has an anonymous row of the value. */
  ghost predicate SharesWith(g0: Graph, g: Graph, named: set<TypeId>, id: Id, t: Tree)
    requires Denotes(g, named, id, t)
  {
    exists old_, u :: Denotes(g0, named, old_, u) && SharedBy(g0, g, named, old_, u, id, t)
  }

  ghost predicate SharedBy(g0: Graph, g: Graph, named: set<TypeId>, old_: Id, u: Tree, id: Id, t: Tree)
    requires Denotes(g0, named, old_, u) && Denotes(g, named, id, t)
  {
    !(Anonymous(g0, named, old_, u) !! Anonymous(g, named, id, t))
  }

  lemma {:induction false} OwnIsDisjoint(g0: Graph, n0: Id, g: Graph, named: set<TypeId>, id: Id, t: Tree)
    requires Below(g0, n0) && Denotes(g, named, id, t) && RowsOwn(g, named, id, t, n0, false)
    ensures !SharesWith(g0, g, named, id, t)
  {
    forall old_, v | Denotes(g0, named, old_, v) ensures !SharedBy(g0, g, named, old_, v, id, t) {
      AnonymousInGraph(g0, named, old_, v);
    }
  }

  lemma {:induction false} OldIsShared(g0: Graph, g: Graph, named: set<TypeId>, id: Id, t: Tree, x: Id)
    requires AllUnfold(g0, named) && x in g0 && !IsNamed(g0, named, x)
    requires Denotes(g, named, id, t) && x in Anonymous(g, named, id, t)
    ensures SharesWith(g0, g, named, id, t)
  {
    assert x in Anonymous(g0, named, x, Unfolding(g0, named, x));
    assert SharedBy(g0, g, named, x, Unfolding(g0, named, x), id, t);
  }

  /**
   * What a batch writes shares no anonymous node with anything that was there before it, exactly when its
   * unchecked references lead to named maps.
   */
  lemma {:induction false} NewIsDisjoint(g0: Graph, n0: Id, g: Graph, named: set<TypeId>, id: Id, t: Tree, live: bool)
    requires Sound(g0, named, n0) && Whole(g, named) && Made(g, named, id, t, n0, live) && Linked(g0, n0, t)
    requires forall x :: x in g0 ==> IsNamed(g, named, x) == IsNamed(g0, named, x)
    ensures Denotes(g, named, id, Loaded(g, named, t))
    ensures SharesWith(g0, g, named, id, Loaded(g, named, t)) <==> !AliasesNamed(g, named, t)
  {
    if AliasesNamed(g, named, t) {
      OwnIfNamed(g, named, id, t, n0, live);
      OwnIsDisjoint(g0, n0, g, named, id, Loaded(g, named, t));
    } else {
      var x := SharedIfNot(g0, g, named, id, t, n0, live);
      OldIsShared(g0, g, named, id, Loaded(g, named, t), x);
    }
  }

  /**
   * What a bump does to a field of another map: it hides the field exactly when the fields of the bumped
   * version hold it too.
   */
  lemma {:induction false} SharedFieldHidden(g: Graph, g': Graph, named: set<TypeId>, prev: Id, q: Id, k: Key)
    requires Whole(g, named) && prev in g && k in EntriesOf(g, q) && q != prev
    requires FlagsExactly(g, g', ReachSet(g, named, prev) + {prev}) && forall x :: x in g ==> x in g'
    requires !IsHidden(g, EntriesOf(g, q)[k]) && EntriesOf(g, q)[k] != prev
    ensures IsHidden(g', EntriesOf(g, q)[k]) <==> HeldBelow(g, named, prev, EntriesOf(g, q)[k])
  {
    EntryThere(g, q, k);
    ReachIsHeld(g, named, prev, EntriesOf(g, q)[k]);
  }
}
