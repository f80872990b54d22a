/**
 * The versioned node store: batches of insert, patch, bump and delete-bump
 * (packages/core/src/db.ts).
 *
 * Field values come as trees: what the program does to check a value against the
 * field's type is reduced to its checks of references. Where the type takes
 * references one must lead to a named map; elsewhere one must lead to a row.
 */
module GraphStore {
  import opened Common
  import opened GraphModel
  import opened GraphGrowth
  import opened GraphRewrites
  import opened GraphFields
  import opened GraphBatch
  import opened GraphOutcome

  class GraphStore {
    var nodes: Graph
    var next: Id
    const schemas: Schemas
    const named: set<TypeId>

    ghost predicate Valid()
      reads this
    {
      named == schemas.Keys && Sound(nodes, named, next) && Numbered(nodes) && OldVersionsHidden(nodes)
    }

    constructor (schemas: Schemas)
      ensures Valid() && nodes == map[] && this.schemas == schemas
    {
      this.schemas, this.named := schemas, schemas.Keys;
      nodes, next := map[], 0;
    }

    /** Insert a row of its own, with no children yet. */
    method InsertRow(body: Body, ghost floor: Id) returns (id: Id)
      requires Below(nodes, next) && ChildrenOf(body) == {} && (body.MapBody? ==> body.typeId !in named)
      modifies this
      ensures Below(nodes, next) && id == old(next) && next == id + 1
      ensures nodes == old(nodes)[id := Row(body, id, 1, false)]
      ensures Adds(old(nodes), nodes, named, old(next), next, floor)
    {
      AddRow(nodes, next, named, body, floor);
      id := next;
      nodes := nodes[id := Row(body, id, 1, false)];
      next := next + 1;
    }

    /**
     * deepCopyAnonymousSubtree. The recursion follows the anonymous nodes, so it ends for a
     * value that has an unfolding.
     */
    method DeepCopy(srcId: Id, ghost t: Tree) returns (id: Id)
      requires Below(nodes, next) && Denotes(nodes, named, srcId, t)
      modifies this
      ensures Below(nodes, next) && Adds(old(nodes), nodes, named, old(next), next, 0)
      ensures Made(nodes, named, id, t, old(next), true)
      ensures t.RefT? ==> id == srcId && nodes == old(nodes)
      decreases t
    {
      var src := nodes[srcId];
      if IsNamed(nodes, named, srcId) { return srcId; }
      match src.body
      case ListBody(items) =>
        id := CopyList(srcId, items, t);
      case MapBody(typeId, entries) =>
        id := CopyMap(srcId, typeId, entries, t);
      case _ =>
        id := InsertRow(src.body, 0);
    }

    method CopyList(srcId: Id, items: seq<Id>, ghost t: Tree) returns (id: Id)
      requires Below(nodes, next) && Denotes(nodes, named, srcId, t) && t.ListT? && nodes[srcId].body == ListBody(items)
      modifies this
      ensures Below(nodes, next) && Adds(old(nodes), nodes, named, old(next), next, 0)
      ensures Made(nodes, named, id, t, old(next), true)
      decreases t, 1
    {
      ghost var g0 := nodes;
      id := InsertRow(ListBody([]), 0);
      var copied: seq<Id> := [];
      for i := 0 to |items|
        invariant Below(nodes, next) && ListUnderway(g0, nodes, named, id, next, 0, copied, t.items) && |copied| == i
      {
        copied := CopyItem(g0, id, copied, items[i], t);
      }
      ListMade(nodes, named, id, copied, t, id);
    }

    method CopyItem(ghost g0: Graph, id: Id, copied: seq<Id>, itemId: Id, ghost t: Tree) returns (copied': seq<Id>)
      requires Below(nodes, next) && t.ListT? && |copied| < |t.items| && Denotes(g0, named, itemId, t.items[|copied|])
      requires ListUnderway(g0, nodes, named, id, next, 0, copied, t.items)
      modifies this
      ensures Below(nodes, next) && |copied'| == |copied| + 1
      ensures ListUnderway(g0, nodes, named, id, next, 0, copied', t.items)
      decreases t, 0
    {
      DenotesGrows(g0, nodes, named, itemId, t.items[|copied|]);
      ghost var g1, n1 := nodes, next;
      var child := DeepCopy(itemId, t.items[|copied|]);
      ItemAdded(g0, g1, nodes, named, id, n1, next, 0, copied, child, t.items);
      copied' := copied + [child];
      nodes := nodes[id := nodes[id].(body := ListBody(copied'))];
    }

    method CopyMap(srcId: Id, typeId: TypeId, entries: map<Key, Id>, ghost t: Tree) returns (id: Id)
      requires Below(nodes, next) && Denotes(nodes, named, srcId, t) && t.MapT?
      requires nodes[srcId].body == MapBody(typeId, entries)
      modifies this
      ensures Below(nodes, next) && Adds(old(nodes), nodes, named, old(next), next, 0)
      ensures Made(nodes, named, id, t, old(next), true)
      decreases t, 1
    {
      ghost var g0 := nodes;
      id := InsertRow(MapBody(typeId, map[]), 0);
      var copied: map<Key, Id> := map[];
      var left := entries.Keys;
      while left != {}
        invariant Below(nodes, next) && MapUnderway(g0, nodes, named, id, next, 0, typeId, copied, t.entries)
        invariant left <= entries.Keys && copied.Keys == entries.Keys - left
        decreases left
      {
        var key :| key in left;
        left := left - {key};
        copied := CopyEntry(g0, id, typeId, copied, key, entries[key], t);
      }
      MapMade(nodes, named, id, copied, t, id);
    }

    method CopyEntry(ghost g0: Graph, id: Id, typeId: TypeId, copied: map<Key, Id>, key: Key, valueId: Id,
                     ghost t: Tree)
      returns (copied': map<Key, Id>)
      requires Below(nodes, next) && t.MapT? && key in t.entries && key !in copied
      requires Denotes(g0, named, valueId, t.entries[key])
      requires MapUnderway(g0, nodes, named, id, next, 0, typeId, copied, t.entries)
      modifies this
      ensures Below(nodes, next) && copied'.Keys == copied.Keys + {key}
      ensures MapUnderway(g0, nodes, named, id, next, 0, typeId, copied', t.entries)
      decreases t, 0
    {
      DenotesGrows(g0, nodes, named, valueId, t.entries[key]);
      ghost var g1, n1 := nodes, next;
      var child := DeepCopy(valueId, t.entries[key]);
      EntryAdded(g0, g1, nodes, named, id, n1, next, 0, typeId, copied, key, child, t.entries);
      copied' := copied[key := child];
      nodes := nodes[id := nodes[id].(body := MapBody(typeId, copied'))];
    }

    // ---- Building a value -----------------------------------------------------------------

    /**
     * buildEntryNode. When a reference in the value leads nowhere the rows built so far stay behind. In a
     * place that takes no reference the row referred to is taken as it is.
     */
    method Build(t: Tree, ghost floor: Id) returns (id: Option<Id>)
      requires Below(nodes, next) && Linked(nodes, floor, t)
      modifies this
      ensures Below(nodes, next) && Adds(old(nodes), nodes, named, old(next), next, floor)
      ensures id.Some? <==> RefsNamed(old(nodes), named, t)
      ensures id.Some? ==> Made(nodes, named, id.value, t, old(next), true)
      decreases t
    {
      match t
      case RefT(x) => return if IsNamed(nodes, named, x) then Some(x) else None;
      case EntryT(_) => return None;
      case AliasT(x) => return Some(x);
      case ListT(items) => id := BuildList(items, t, floor);
      case MapT(typeId, entries) =>
        if typeId in named { return None; }
        id := BuildMap(typeId, entries, t, floor);
      case SymbolT(v) =>
        var leaf := InsertRow(SymbolBody(v), floor);
        return Some(leaf);
      case MeaningT(v) =>
        var leaf := InsertRow(MeaningBody(v), floor);
        return Some(leaf);
    }

    method BuildList(items: seq<Tree>, ghost t: Tree, ghost floor: Id) returns (r: Option<Id>)
      requires Below(nodes, next) && t == ListT(items) && Linked(nodes, floor, t)
      modifies this
      ensures Below(nodes, next) && Adds(old(nodes), nodes, named, old(next), next, floor)
      ensures r.Some? <==> RefsNamed(old(nodes), named, t)
      ensures r.Some? ==> Made(nodes, named, r.value, t, old(next), true)
      decreases t, 1
    {
      ghost var g0 := nodes;
      var id := InsertRow(ListBody([]), floor);
      var built: seq<Id> := [];
      for i := 0 to |items|
        invariant Below(nodes, next) && ListUnderway(g0, nodes, named, id, next, floor, built, items) && |built| == i
        invariant forall j :: 0 <= j < i ==> RefsNamed(g0, named, items[j])
      {
        var child := BuildItem(g0, id, built, items[i], t, floor);
        if child.None? { return None; }
        built := built + [child.value];
      }
      ListMade(nodes, named, id, built, t, id);
      return Some(id);
    }

    method BuildItem(ghost g0: Graph, id: Id, built: seq<Id>, item: Tree, ghost t: Tree, ghost floor: Id)
      returns (child: Option<Id>)
      requires Below(nodes, next) && t.ListT? && |built| < |t.items| && item == t.items[|built|]
      requires Linked(g0, floor, item)
      requires ListUnderway(g0, nodes, named, id, next, floor, built, t.items)
      modifies this
      ensures Below(nodes, next) && Adds(g0, nodes, named, id, next, floor)
      ensures child.Some? <==> RefsNamed(g0, named, item)
      ensures child.Some? ==> ListUnderway(g0, nodes, named, id, next, floor, built + [child.value], t.items)
      decreases t, 0
    {
      ghost var g1, n1 := nodes, next;
      AddsNamed(g0, g1, named, id, next, floor);
      RefsNamedSame(g0, g1, named, item);
      LinkedLater(g0, g1, floor, floor, item);
      child := Build(item, floor);
      AddsTransitive(g0, g1, nodes, named, id, n1, next, floor);
      if child.Some? {
        ItemAdded(g0, g1, nodes, named, id, n1, next, floor, built, child.value, t.items);
        nodes := nodes[id := nodes[id].(body := ListBody(built + [child.value]))];
      }
    }

    method BuildMap(typeId: TypeId, entries: map<Key, Tree>, ghost t: Tree, ghost floor: Id) returns (r: Option<Id>)
      requires Below(nodes, next) && t == MapT(typeId, entries) && typeId !in named && Linked(nodes, floor, t)
      modifies this
      ensures Below(nodes, next) && Adds(old(nodes), nodes, named, old(next), next, floor)
      ensures r.Some? <==> RefsNamed(old(nodes), named, t)
      ensures r.Some? ==> Made(nodes, named, r.value, t, old(next), true)
      decreases t, 1
    {
      ghost var g0 := nodes;
      var id := InsertRow(MapBody(typeId, map[]), floor);
      var built: map<Key, Id> := map[];
      var left := entries.Keys;
      while left != {}
        invariant Below(nodes, next) && MapUnderway(g0, nodes, named, id, next, floor, typeId, built, entries)
        invariant left <= entries.Keys && built.Keys == entries.Keys - left
        invariant forall k :: k in built ==> RefsNamed(g0, named, entries[k])
        decreases left
      {
        var key :| key in left;
        left := left - {key};
        var child := BuildEntry(g0, id, typeId, built, key, entries[key], t, floor);
        if child.None? { return None; }
        built := built[key := child.value];
      }
      MapMade(nodes, named, id, built, t, id);
      return Some(id);
    }

    method BuildEntry(ghost g0: Graph, id: Id, typeId: TypeId, built: map<Key, Id>, key: Key, value: Tree,
                      ghost t: Tree, ghost floor: Id)
      returns (child: Option<Id>)
      requires Below(nodes, next) && t.MapT? && key in t.entries && value == t.entries[key] && Linked(g0, floor, value)
      requires MapUnderway(g0, nodes, named, id, next, floor, typeId, built, t.entries)
      modifies this
      ensures Below(nodes, next) && Adds(g0, nodes, named, id, next, floor)
      ensures child.Some? <==> RefsNamed(g0, named, value)
      ensures child.Some? ==>
                MapUnderway(g0, nodes, named, id, next, floor, typeId, built[key := child.value], t.entries)
      decreases t, 0
    {
      ghost var g1, n1 := nodes, next;
      AddsNamed(g0, g1, named, id, next, floor);
      RefsNamedSame(g0, g1, named, value);
      LinkedLater(g0, g1, floor, floor, value);
      child := Build(value, floor);
      AddsTransitive(g0, g1, nodes, named, id, n1, next, floor);
      if child.Some? {
        EntryAdded(g0, g1, nodes, named, id, n1, next, floor, typeId, built, key, child.value, t.entries);
        nodes := nodes[id := nodes[id].(body := MapBody(typeId, built[key := child.value]))];
      }
    }

    // ---- The tombstone walk ---------------------------------------------------------------

    /** collectAnonymousChildren. */
    method CollectChildren(id: Id) returns (children: seq<Id>)
      ensures forall c :: c in children <==> c in Children(nodes, id)
    {
      if id !in nodes { return []; }
      match nodes[id].body
      case ListBody(items) => return items;
      case MapBody(_, entries) =>
        children := [];
        var left := entries.Keys;
        while left != {}
          invariant left <= entries.Keys
          invariant forall c :: c in children <==> exists k :: k in entries && k !in left && entries[k] == c
          decreases left
        {
          var key :| key in left;
          left := left - {key};
          children := children + [entries[key]];
        }
      case _ => return [];
    }

    /** Push the children that were not visited. */
    method PushChildren(id: Id, visited: set<Id>, stack: seq<Id>) returns (stack': seq<Id>)
      ensures forall c :: c in stack' <==> c in stack || (c in Children(nodes, id) && c !in visited)
    {
      var children := CollectChildren(id);
      stack' := stack;
      for i := 0 to |children|
        invariant forall c :: c in stack' <==> c in stack || (c in children[..i] && c !in visited)
      {
        if children[i] !in visited { stack' := stack' + [children[i]]; }
      }
      assert children[..|children|] == children;
    }

    /** tombstoneAnonymousSubtree, on any graph whose references lead to rows. */
    method TombstoneSubtree(root: Id)
      requires Closed(nodes)
      modifies this`nodes
      ensures nodes == Flagged(old(nodes), ReachSet(old(nodes), named, root))
    {
      ghost var g := nodes;
      var visited := {root};
      var stack := CollectChildren(root);
      forall c | c in stack ensures c in g && Reaches(g, named, root, c) {
        ReachesChild(g, named, root, c);
      }
      while stack != []
        invariant nodes == Flagged(g, visited - {root})
        invariant WalkUnderway(g, named, root, visited, stack)
        decreases g.Keys + {root} - visited, |stack|
      {
        var id := stack[|stack| - 1];
        ghost var before := stack;
        stack := stack[..|stack| - 1];
        assert forall c :: c in before <==> c in stack || c == id;
        if id !in visited {
          ghost var visited0 := visited;
          visited := visited + {id};
          nodes := nodes[id := nodes[id].(tombstone := true)];
          assert nodes == Flagged(g, visited - {root});
          FlaggedKeepsBodies(g, visited - {root}, named);
          ghost var popped := stack;
          if !IsNamed(nodes, named, id) {
            stack := PushChildren(id, visited, stack);
          }
          WalkStep(g, named, root, visited0, id, before, popped, stack);
        }
      }
      WalkDone(g, named, root, visited);
    }

    // ---- Fields -----------------------------------------------------------------------------

    /**
     * The first half of an overwrite: walk from the old value and drop the entry. The walk flags
     * what the old value reaches and not the old value itself.
     */
    method DropField(p: Id, key: Key)
      requires Sound(nodes, named, next) && IsNamed(nodes, named, p) && key in EntriesOf(nodes, p)
      modifies this`nodes
      ensures Sound(nodes, named, next) && Rewrites(old(nodes), nodes, named, next, next, {p})
      ensures FlagsExactly(old(nodes), nodes, ReachSet(old(nodes), named, old(EntriesOf(nodes, p))[key]))
      ensures nodes == WithEntries(Flagged(old(nodes), ReachSet(old(nodes), named, old(EntriesOf(nodes, p))[key])), p,
                                   old(EntriesOf(nodes, p)) - {key})
    {
      ghost var g := nodes;
      var entries := EntriesOf(nodes, p);
      TombstoneSubtree(entries[key]);
      FlaggedRewrites(g, ReachSet(g, named, entries[key]), named, next, {p});
      ghost var g1 := nodes;
      forall k | k in entries ensures entries[k] in g1 {
        EntryThere(g1, p, k);
      }
      EntriesWritten(g1, named, next, p, entries - {key});
      RewritesTransitive(g, g1, WithEntries(g1, p, entries - {key}), named, next, next, next, {p}, {p});
      nodes := WithEntries(nodes, p, entries - {key});
    }

    method SetField(p: Id, key: Key, child: Id)
      requires Sound(nodes, named, next) && IsNamed(nodes, named, p) && child in nodes
      modifies this`nodes
      ensures Sound(nodes, named, next) && Rewrites(old(nodes), nodes, named, next, next, {p})
      ensures NoneFlagged(old(nodes), nodes)
      ensures nodes == WithEntries(old(nodes), p, old(EntriesOf(nodes, p))[key := child])
    {
      var entries := EntriesOf(nodes, p);
      forall k | k in entries ensures entries[k] in nodes {
        EntryThere(nodes, p, k);
      }
      EntriesWritten(nodes, named, next, p, entries[key := child]);
      nodes := WithEntries(nodes, p, entries[key := child]);
    }

    method BuildField(p: Id, key: Key, v: Tree) returns (ok: bool)
      requires Sound(nodes, named, next) && IsNamed(nodes, named, p) && key !in EntriesOf(nodes, p)
      requires Linked(nodes, next, v)
      modifies this
      ensures Sound(nodes, named, next) && Rewrites(old(nodes), nodes, named, old(next), next, {p})
      ensures NoneFlagged(old(nodes), nodes)
      ensures ok <==> RefsNamed(nodes, named, v)
      ensures WroteKey(nodes, named, old(EntriesOf(nodes, p)), EntriesOf(nodes, p), key, v, old(next))
    {
      ghost var g, n := nodes, next;
      var child := Build(v, n);
      ghost var g1 := nodes;
      AddsSound(g, g1, named, n, next, n);
      AddsNamed(g, g1, named, n, next, n);
      AddsRewrites(g, g1, named, n, next, n, {p});
      RefsNamedSame(g, g1, named, v);
      if child.Some? {
        SetField(p, key, child.value);
        RewritesNamed(g1, nodes, named, next, next, {p});
        RefsNamedSame(g1, nodes, named, v);
        RewritesTransitive(g, g1, nodes, named, n, next, next, {p}, {p});
        MadeRewritten(g1, nodes, named, next, next, {p}, child.value, v, n, true);
      }
      ok := child.Some?;
    }

    /** An old value is dropped, if there is one. */
    method DropOld(p: Id, key: Key)
      requires Sound(nodes, named, next) && IsNamed(nodes, named, p)
      modifies this`nodes
      ensures Sound(nodes, named, next) && Rewrites(old(nodes), nodes, named, next, next, {p})
      ensures IsNamed(nodes, named, p)
      ensures FlagsExactly(old(nodes), nodes, DroppedRows(old(nodes), named, old(EntriesOf(nodes, p)), key))
      ensures EntriesOf(nodes, p) == old(EntriesOf(nodes, p)) - {key}
    {
      if key in EntriesOf(nodes, p) { DropField(p, key); }
    }

    /**
     * One key of an insert or patch: an old value is dropped even if the new one cannot be built. The
     * flags are those of the drop, and the new value is live.
     */
    method WriteField(p: Id, key: Key, v: Tree) returns (ok: bool)
      requires Sound(nodes, named, next) && IsNamed(nodes, named, p) && Linked(nodes, next, v)
      modifies this
      ensures Sound(nodes, named, next) && Rewrites(old(nodes), nodes, named, old(next), next, {p})
      ensures FlagsExactly(old(nodes), nodes, DroppedRows(old(nodes), named, old(EntriesOf(nodes, p)), key))
      ensures ok <==> RefsNamed(nodes, named, v)
      ensures WroteKey(nodes, named, old(EntriesOf(nodes, p)), EntriesOf(nodes, p), key, v, old(next))
    {
      ghost var g, n := nodes, next;
      DropOld(p, key);
      LinkedLater(g, nodes, n, n, v);
      ghost var g1 := nodes;
      ok := BuildField(p, key, v);
      FieldWritten(g, g1, nodes, named, n, next, p, key, v);
    }

    /** The fields of an insert or patch. */
    method WriteFields(p: Id, data: Data, fields: set<Key>, overwrite: bool) returns (failed: set<Key>)
      requires Sound(nodes, named, next) && IsNamed(nodes, named, p) && DataLinked(nodes, next, data)
      modifies this
      ensures Sound(nodes, named, next) && Rewrites(old(nodes), nodes, named, old(next), next, {p})
      ensures var before := old(EntriesOf(nodes, p));
              var keys := WrittenKeys(data, fields, overwrite, before.Keys);
              && FlagsOfDrop(old(nodes), nodes, named, {p}, OldValues(before, keys))
              && Wrote(nodes, named, before, EntriesOf(nodes, p), keys, data, old(next), p !in OldValues(before, keys))
              && failed == set k | k in keys && !Buildable(nodes, named, data, k)
    {
      ghost var g, n := nodes, next;
      var before := EntriesOf(nodes, p);
      var keys := WrittenKeys(data, fields, overwrite, before.Keys);
      var left := keys;
      failed := {};
      WriteStart(g, named, n, p, data);
      assert keys - left == {};
      while left != {}
        invariant left <= keys && WriteUnderway(g, nodes, named, n, next, p, before, keys - left, data, failed)
        decreases left
      {
        var key :| key in left;
        ghost var done := keys - left;
        left := left - {key};
        failed := WriteKey(g, n, p, before, done, key, data, failed);
        assert keys - left == done + {key};
      }
      assert keys - left == keys;
    }

    /** The next key of an insert or patch. */
    method WriteKey(ghost g: Graph, ghost n: Id, p: Id, ghost before: map<Key, Id>, ghost done: set<Key>, key: Key,
                    data: Data, failed: set<Key>)
      returns (failed': set<Key>)
      requires WriteUnderway(g, nodes, named, n, next, p, before, done, data, failed)
      requires key !in done && key in data && data[key].Some?
      modifies this
      ensures WriteUnderway(g, nodes, named, n, next, p, before, done + {key}, data, failed')
    {
      ghost var g1, n1 := nodes, next;
      RewritesNamed(g, g1, named, n, n1, {p});
      LinkedLater(g, g1, n, n1, data[key].value);
      var ok := WriteField(p, key, data[key].value);
      WriteStep(g, g1, nodes, named, n, n1, next, p, before, done, key, data, failed);
      failed' := if ok then failed else failed + {key};
    }

    // ---- Bump ---------------------------------------------------------------------------------

    /** An unchanged field: a named map is shared, anonymous nodes are copied. */
    method CopyField(v2: Id, key: Key, valueId: Id, ghost t: Tree)
      requires Sound(nodes, named, next) && IsNamed(nodes, named, v2) && key !in EntriesOf(nodes, v2)
      requires Denotes(nodes, named, valueId, t)
      modifies this
      ensures Sound(nodes, named, next) && Rewrites(old(nodes), nodes, named, old(next), next, {v2})
      ensures NoneFlagged(old(nodes), nodes)
      ensures EntriesOf(nodes, v2).Keys == old(EntriesOf(nodes, v2)).Keys + {key}
      ensures forall k :: k in old(EntriesOf(nodes, v2)) ==> EntriesOf(nodes, v2)[k] == old(EntriesOf(nodes, v2))[k]
      ensures Made(nodes, named, EntriesOf(nodes, v2)[key], t, old(next), true)
    {
      ghost var g, n := nodes, next;
      var child := DeepCopy(valueId, t);
      ghost var g1 := nodes;
      AddsSound(g, g1, named, n, next, 0);
      AddsNamed(g, g1, named, n, next, 0);
      AddsRewrites(g, g1, named, n, next, 0, {v2});
      SetField(v2, key, child);
      RewritesTransitive(g, g1, nodes, named, n, next, next, {v2}, {v2});
      MadeRewritten(g1, nodes, named, next, next, {v2}, child, t, n, true);
    }

    /**
     * The fields of a new version. `fs` is what the fields of the old version unfold to; `want` is
     * the shallow patch of it. First the keys of the old version, then the new keys.
     */
    method CarryForward(prev: Id, v2: Id, data: Data, fields: set<Key>, ghost fs: map<Key, Tree>,
                        ghost want: map<Key, Tree>)
      returns (failed: set<Key>)
      requires Sound(nodes, named, next) && prev in nodes && nodes[prev].body.MapBody? && prev != v2
      requires IsNamed(nodes, named, v2) && EntriesOf(nodes, v2) == map[] && DataLinked(nodes, next, data)
      requires fs.Keys == EntriesOf(nodes, prev).Keys
      requires forall k :: k in fs ==> Denotes(nodes, named, EntriesOf(nodes, prev)[k], fs[k])
      requires want == Patched(fs, data, BuiltKeys(nodes, named, data, fields))
      modifies this
      ensures Sound(nodes, named, next) && Rewrites(old(nodes), nodes, named, old(next), next, {v2})
      ensures NoneFlagged(old(nodes), nodes)
      ensures MadeAll(nodes, named, EntriesOf(nodes, v2), want, want.Keys, old(next))
      ensures failed == RefusedKeys(old(nodes), named, data, fields, fs.Keys)
    {
      ghost var g, n := nodes, next;
      var prior := EntriesOf(nodes, prev);
      failed := CarryPrior(g, n, v2, prior, data, fields, fs, want);
      failed := CarryNew(g, n, v2, prior.Keys, data, fields, fs, want, failed);
      MadeWhole(g, nodes, named, n, next, v2, fs, want, data, fields, failed);
    }

    method CarryPrior(ghost g: Graph, ghost n: Id, v2: Id, prior: map<Key, Id>, data: Data, fields: set<Key>,
                      ghost fs: map<Key, Tree>, ghost want: map<Key, Tree>)
      returns (failed: set<Key>)
      requires BumpUnderway(g, nodes, named, n, next, v2, want, data, fields, prior.Keys, {}, {})
      requires fs.Keys == prior.Keys && forall k :: k in fs ==> Denotes(g, named, prior[k], fs[k])
      requires want == Patched(fs, data, BuiltKeys(g, named, data, fields))
      modifies this
      ensures BumpUnderway(g, nodes, named, n, next, v2, want, data, fields, prior.Keys, prior.Keys, failed)
    {
      failed := {};
      var left := prior.Keys;
      assert prior.Keys - left == {};
      while left != {}
        invariant left <= prior.Keys
        invariant BumpUnderway(g, nodes, named, n, next, v2, want, data, fields, prior.Keys, prior.Keys - left, failed)
        decreases left
      {
        var key :| key in left;
        ghost var done := prior.Keys - left;
        left := left - {key};
        failed := CarryKey(g, n, v2, key, prior[key], data, fields, fs, want, done, prior.Keys, failed);
        assert prior.Keys - left == done + {key};
      }
      assert prior.Keys - left == prior.Keys;
    }

    method CarryNew(ghost g: Graph, ghost n: Id, v2: Id, present: set<Key>, data: Data, fields: set<Key>,
                    ghost fs: map<Key, Tree>, ghost want: map<Key, Tree>, failed0: set<Key>)
      returns (failed: set<Key>)
      requires BumpUnderway(g, nodes, named, n, next, v2, want, data, fields, present, present, failed0)
      requires fs.Keys == present && want == Patched(fs, data, BuiltKeys(g, named, data, fields))
      modifies this
      ensures BumpUnderway(g, nodes, named, n, next, v2, want, data, fields, present, present + fields, failed)
    {
      failed := failed0;
      var left := fields - present;
      assert present + fields - left == present;
      while left != {}
        invariant left <= fields - present
        invariant BumpUnderway(g, nodes, named, n, next, v2, want, data, fields, present,
                               present + fields - left, failed)
        decreases left
      {
        var key :| key in left;
        ghost var done := present + fields - left;
        left := left - {key};
        failed := NewKey(g, n, v2, key, data, fields, fs, want, done, present, failed);
        assert present + fields - left == done + {key};
      }
      assert present + fields - left == present + fields;
    }

    /** A key of the old version. */
    method CarryKey(ghost g: Graph, ghost n: Id, v2: Id, key: Key, valueId: Id, data: Data, fields: set<Key>,
                    ghost fs: map<Key, Tree>, ghost want: map<Key, Tree>, ghost done: set<Key>, ghost present: set<Key>,
                    failed: set<Key>)
      returns (failed': set<Key>)
      requires BumpUnderway(g, nodes, named, n, next, v2, want, data, fields, present, done, failed)
      requires key !in done && key in present && key in fs && Denotes(g, named, valueId, fs[key])
      requires want == Patched(fs, data, BuiltKeys(g, named, data, fields))
      modifies this
      ensures BumpUnderway(g, nodes, named, n, next, v2, want, data, fields, present, done + {key}, failed')
    {
      ghost var g1, n1, e := nodes, next, EntriesOf(nodes, v2);
      failed' := failed;
      if key in data {
        if data[key].Some? {
          if key !in fields {
            failed' := failed + {key};
          } else {
            failed' := BuildChanged(g, n, v2, key, data[key].value, failed);
            BuiltStep(g, g1, nodes, named, n, n1, next, v2, e, want, data, fields, present, done, key, failed);
          }
        }
        if data[key].None? || key !in fields {
          assert g1 == nodes;
          SkipStep(g, g1, named, n, n1, v2, want, data, fields, present, done, key, failed);
        }
      } else {
        DenotesNamedRewritten(g, g1, named, n, n1, {v2}, valueId, fs[key]);
        CopyField(v2, key, valueId, fs[key]);
        BumpGrows(g, g1, nodes, named, n, n1, next, v2);
        MadeStep(g1, nodes, named, n1, next, v2, e, EntriesOf(nodes, v2), want, done, key, n);
      }
    }

    /** The new value of a field. */
    method BuildChanged(ghost g: Graph, ghost n: Id, v2: Id, key: Key, v: Tree, failed: set<Key>)
      returns (failed': set<Key>)
      requires Sound(nodes, named, next) && IsNamed(nodes, named, v2) && key !in EntriesOf(nodes, v2)
      requires Linked(g, n, v) && n <= next && forall x :: x in g ==> x in nodes
      modifies this
      ensures Sound(nodes, named, next) && Rewrites(old(nodes), nodes, named, old(next), next, {v2})
      ensures NoneFlagged(old(nodes), nodes)
      ensures WroteKey(nodes, named, old(EntriesOf(nodes, v2)), EntriesOf(nodes, v2), key, v, old(next))
      ensures failed' == if RefsNamed(nodes, named, v) then failed else failed + {key}
    {
      LinkedLater(g, nodes, n, next, v);
      var ok := BuildField(v2, key, v);
      failed' := if ok then failed else failed + {key};
    }

    /** A key of the type that the old version did not have. */
    method NewKey(ghost g: Graph, ghost n: Id, v2: Id, key: Key, data: Data, fields: set<Key>, ghost fs: map<Key, Tree>,
                  ghost want: map<Key, Tree>, ghost done: set<Key>, ghost present: set<Key>, failed: set<Key>)
      returns (failed': set<Key>)
      requires BumpUnderway(g, nodes, named, n, next, v2, want, data, fields, present, done, failed)
      requires key !in done && key in fields && key !in present && fs.Keys == present
      requires want == Patched(fs, data, BuiltKeys(g, named, data, fields))
      modifies this
      ensures BumpUnderway(g, nodes, named, n, next, v2, want, data, fields, present, done + {key}, failed')
    {
      ghost var g1, n1, e := nodes, next, EntriesOf(nodes, v2);
      failed' := failed;
      if key in data && data[key].Some? {
        failed' := BuildChanged(g, n, v2, key, data[key].value, failed);
        BuiltStep(g, g1, nodes, named, n, n1, next, v2, e, want, data, fields, present, done, key, failed);
      } else {
        SkipStep(g, g1, named, n, n1, v2, want, data, fields, present, done, key, failed);
      }
    }

    /** Flag the old version and what it holds. */
    method Retire(prev: Id)
      requires Closed(nodes) && prev in nodes
      modifies this`nodes
      ensures nodes == Flagged(old(nodes), ReachSet(old(nodes), named, prev) + {prev})
    {
      TombstoneSubtree(prev);
      nodes := nodes[prev := nodes[prev].(tombstone := true)];
    }

    /** One bump, or one delete-bump, once its new row is there. */
    method BumpOne(prev: Id, v2: Id, remove: bool, data: Data, fields: set<Key>, ghost fs: map<Key, Tree>,
                   ghost want: map<Key, Tree>)
      returns (failed: set<Key>)
      requires Sound(nodes, named, next) && prev in nodes && nodes[prev].body.MapBody? && prev != v2
      requires IsNamed(nodes, named, v2) && EntriesOf(nodes, v2) == map[] && DataLinked(nodes, next, data)
      requires fs.Keys == EntriesOf(nodes, prev).Keys
      requires forall k :: k in fs ==> Denotes(nodes, named, EntriesOf(nodes, prev)[k], fs[k])
      requires want == Patched(fs, data, BuiltKeys(nodes, named, data, fields))
      modifies this
      ensures Sound(nodes, named, next) && Rewrites(old(nodes), nodes, named, old(next), next, {v2})
      ensures FlagsExactly(old(nodes), nodes, ReachSet(old(nodes), named, prev) + {prev})
      ensures remove ==> EntriesOf(nodes, v2) == map[] && failed == {}
      ensures !remove ==> MadeAll(nodes, named, EntriesOf(nodes, v2), want, want.Keys, old(next))
      ensures !remove ==> failed == RefusedKeys(old(nodes), named, data, fields, fs.Keys)
    {
      ghost var g, n := nodes, next;
      failed := {};
      if !remove {
        failed := CarryForward(prev, v2, data, fields, fs, want);
      }
      ghost var mid := nodes;
      ghost var s := ReachSet(mid, named, prev) + {prev};
      RetireSettles(g, mid, named, n, next, prev, v2, s);
      Retire(prev);
      if !remove { MadeAllRetired(mid, named, n, next, s, v2, want, want.Keys); }
    }

    // ---- Batches --------------------------------------------------------------------------------

    /** Accept or refuse each entry, allocate its id and insert its row without fields. */
    method AddShells(batch: seq<Entry>) returns (ids: seq<Option<Id>>)
      requires Valid() && WellTargeted(nodes, schemas, batch)
      modifies this
      ensures ShellsUnderway(old(nodes), nodes, schemas, old(next), next, batch, ids) && |ids| == |batch|
    {
      ghost var g0, n0 := nodes, next;
      var before := nodes;
      ids := [];
      for i := 0 to |batch|
        invariant ShellsUnderway(g0, nodes, schemas, n0, next, batch, ids) && |ids| == i
      {
        if !Accepted(before, schemas, batch[i]) || batch[i].Patch? {
          var target := if Accepted(before, schemas, batch[i]) then Some(batch[i].id) else None;
          ShellSkipped(g0, nodes, schemas, n0, next, batch, ids, target);
          ids := ids + [target];
        } else {
          var row := ShellRow(before, batch[i], next);
          if batch[i].Insert? {
            ShellInserted(g0, nodes, schemas, n0, next, batch, ids, row);
          } else {
            ShellBumped(g0, nodes, schemas, n0, next, batch, ids, row);
          }
          nodes := nodes[next := row];
          ids := ids + [Some(next)];
          next := next + 1;
        }
      }
    }

    method WriteAll(batch: seq<Entry>, ids: seq<Option<Id>>) returns (failed: seq<set<Key>>)
      requires named == schemas.Keys && WritesReady(nodes, schemas, next, batch, ids)
      modifies this
      ensures WritesUnderway(old(nodes), nodes, schemas, old(next), next, batch, ids, failed, |batch|)
    {
      ghost var g1, n1 := nodes, next;
      failed := [];
      WritesStart(g1, schemas, n1, batch, ids);
      for i := 0 to |batch|
        invariant WritesUnderway(g1, nodes, schemas, n1, next, batch, ids, failed, i)
      {
        if ids[i].Some? && batch[i].IsWrite() {
          failed := WriteEntry(g1, n1, batch, ids, failed);
        } else {
          NoWrite(g1, nodes, schemas, n1, next, batch, ids, failed);
          failed := failed + [{}];
        }
      }
    }

    /** The fields of the next entry of the batch. */
    method WriteEntry(ghost g1: Graph, ghost n1: Id, batch: seq<Entry>, ids: seq<Option<Id>>, failed: seq<set<Key>>)
      returns (failed': seq<set<Key>>)
      requires named == schemas.Keys && WritesReady(g1, schemas, n1, batch, ids)
      requires WritesUnderway(g1, nodes, schemas, n1, next, batch, ids, failed, |failed|)
      requires |failed| < |batch| && batch[|failed|].IsWrite() && ids[|failed|].Some?
      modifies this
      ensures WritesUnderway(g1, nodes, schemas, n1, next, batch, ids, failed', |failed| + 1)
    {
      var e, id := batch[|failed|], ids[|failed|].value;
      ghost var g, n := nodes, next;
      WriteContext(g1, g, schemas, n1, n, batch, ids, failed);
      var f := WriteFields(id, ResolveData(e.data, ids), FieldsOf(nodes, schemas, id), e.Patch? && e.overwrite);
      WriteEntryDone(g1, g, nodes, schemas, n1, n, e, id, ids, f);
      WriteNext(g1, g, nodes, schemas, n1, n, next, batch, ids, failed, id, f,
                id !in OverwrittenBy(g1, schemas, e, Some(id)));
      failed' := failed + [f];
    }

    method BumpAll(batch: seq<Entry>, ids: seq<Option<Id>>) returns (failed: seq<set<Key>>)
      requires named == schemas.Keys && BumpsReady(nodes, schemas, next, batch, ids)
      modifies this
      ensures BumpsUnderway(old(nodes), nodes, schemas, old(next), next, batch, ids, failed, |batch|)
    {
      ghost var g2, n2 := nodes, next;
      failed := [];
      assert Retired(g2, named, batch, ids, 0) == {};
      for i := 0 to |batch|
        invariant BumpsUnderway(g2, nodes, schemas, n2, next, batch, ids, failed, i)
      {
        if ids[i].Some? && batch[i].IsBump() {
          failed := BumpEntry(g2, n2, batch, ids, failed);
        } else {
          NoBump(g2, nodes, schemas, n2, next, batch, ids, failed);
          failed := failed + [{}];
        }
      }
    }

    /** The next bump of the batch. */
    method BumpEntry(ghost g2: Graph, ghost n2: Id, batch: seq<Entry>, ids: seq<Option<Id>>, failed: seq<set<Key>>)
      returns (failed': seq<set<Key>>)
      requires named == schemas.Keys && BumpsReady(g2, schemas, n2, batch, ids)
      requires |failed| < |batch| && batch[|failed|].IsBump() && ids[|failed|].Some?
      requires BumpsUnderway(g2, nodes, schemas, n2, next, batch, ids, failed, |failed|)
      modifies this
      ensures BumpsUnderway(g2, nodes, schemas, n2, next, batch, ids, failed', |failed| + 1)
    {
      var e, v2 := batch[|failed|], ids[|failed|].value;
      ghost var g, n := nodes, next;
      BumpContext(g2, g, schemas, n2, n, batch, ids, |failed|);
      if e.Bump? { DataLinkedLater(g2, g, n2, n, ResolveData(e.data, ids)); }
      assert BlankAt(g, e, ids[|failed|]);
      var data := if e.Bump? then ResolveData(e.data, ids) else map[];
      var fields := FieldsOf(nodes, schemas, e.id);
      ghost var fs := FieldTrees(g2, named, e.id);
      ghost var want := Patched(fs, data, BuiltKeys(nodes, named, data, fields));
      var f := BumpOne(e.id, v2, e.Remove?, data, fields, fs, want);
      BumpMade(g2, n2, g, nodes, schemas, n, next, e, v2, ids, f, data, fields, fs, want);
      BumpNext(g2, g, nodes, schemas, n2, n, next, batch, ids, failed, f);
      failed' := failed + [f];
    }

    /** The three phases, once the unchecked references are known to lead to rows. */
    method InsertLinked(batch: seq<Entry>) returns (ids: seq<Option<Id>>, failed: seq<set<Key>>)
      requires Valid() && WellTargeted(nodes, schemas, batch) && BatchLinked(nodes, next, batch)
      modifies this
      ensures Valid() && |ids| == |failed| == |batch|
      ensures forall j :: 0 <= j < |batch| ==> (ids[j].Some? <==> Accepted(old(nodes), schemas, batch[j]))
      ensures forall j :: 0 <= j < |batch| ==>
                OutcomeAt(old(nodes), old(next), nodes, schemas, batch[j], ids[j], ids, failed[j],
                          KeepsLive(old(nodes), schemas, batch, ids))
      ensures OldRowsKept(old(nodes), nodes, WriteIds(batch, ids)) && UnfoldingsKept(old(nodes), nodes, named)
      ensures BatchFlagged(old(nodes), nodes, schemas, batch, ids)
    {
      ghost var g0, n0 := nodes, next;
      ids := AddShells(batch);
      ghost var g1, n1 := nodes, next;
      WritesTargeted(g0, g1, schemas, n0, n1, batch, ids);
      BumpsTargeted(g0, g1, schemas, n0, n1, batch, ids);
      var written := WriteAll(batch, ids);
      ghost var g2, n2 := nodes, next;
      BumpsStayReady(g1, g2, schemas, n1, n2, batch, ids);
      var bumped := BumpAll(batch, ids);
      failed := seq(|batch|, j requires 0 <= j < |batch| => written[j] + bumped[j]);
      BatchSettles(g0, g1, g2, nodes, schemas, n0, n1, n2, next, batch, ids, written, bumped);
    }

    /**
     * insertEntries. Each accepted entry comes to its outcome; superseded versions and all other
     * nodes unfold to what they did before; the timelines stay numbered without gaps, with every
     * version but the last flagged; and the rows that get flagged are known.
     */
    method InsertEntries(batch: seq<Entry>) returns (ids: seq<Option<Id>>, failed: seq<set<Key>>)
      requires Valid() && WellTargeted(nodes, schemas, batch)
      modifies this
      ensures Valid() && |ids| == |failed| == |batch|
      ensures forall j :: 0 <= j < |batch| ==> (ids[j].Some? <==> Accepted(old(nodes), schemas, batch[j]))
      ensures var found := LookedUp(batch, old(nodes).Keys);
              && (forall j :: 0 <= j < |batch| ==>
                    OutcomeAt(old(nodes), old(next), nodes, schemas, found[j], ids[j], ids, failed[j],
                              KeepsLive(old(nodes), schemas, found, ids)))
              && OldRowsKept(old(nodes), nodes, WriteIds(found, ids)) && UnfoldingsKept(old(nodes), nodes, named)
              && BatchFlagged(old(nodes), nodes, schemas, found, ids)
    {
      LookedUpLike(nodes, next, schemas, batch);
      ids, failed := InsertLinked(LookedUp(batch, nodes.Keys));
    }

    /** getCurrentVersionId: the row with the greatest version of the timeline. */
    method GetCurrentVersionId(timeline: Id) returns (r: Option<Id>)
      requires Valid()
      ensures r.None? <==> forall x :: x in nodes ==> nodes[x].timeline != timeline
      ensures r.Some? ==> IsHead(nodes, r.value) && nodes[r.value].timeline == timeline
    {
      r := None;
      var left := nodes.Keys;
      while left != {}
        invariant left <= nodes.Keys
        invariant r.None? ==> forall x :: x in nodes && x !in left ==> nodes[x].timeline != timeline
        invariant r.Some? ==> r.value in nodes && nodes[r.value].timeline == timeline
        invariant r.Some? ==> forall x :: x in nodes && x !in left && nodes[x].timeline == timeline ==>
                                nodes[x].version <= nodes[r.value].version
        decreases left
      {
        var x :| x in left;
        left := left - {x};
        if nodes[x].timeline == timeline && (r.None? || nodes[r.value].version < nodes[x].version) {
          r := Some(x);
        }
      }
    }
  }
}
